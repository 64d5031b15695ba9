/** Location tracking: `POST /location/update` stores a trackpoint and pushes
    it to the user's live viewers, `GET /location/last` picks the newest stored
    point, and `GET /incidents` lists incidents newest first. */
module Tracking {
  import opened Wrappers
  import opened Documents
  import opened Schemas
  import opened Registry

  // ---------------------------------------------------------------------------
  // Documents as the store returns them

  /** A document read back from the store: it has its `ObjectId`, and a
      `created_at` that, when present, is a `datetime`. */
  predicate Stored(r: Record)
  {
    && "_id" in r && r["_id"].Oid?
    && ("created_at" in r ==> r["created_at"].DateTime?)
  }

  predicate AllStored(items: seq<Record>)
  {
    forall i :: 0 <= i < |items| ==> Stored(items[i])
  }

  /** The sort key `x.get("created_at", datetime.min)`. */
  function CreatedAt(r: Record): Time
  {
    if "created_at" in r && r["created_at"].DateTime? then r["created_at"].t else DatetimeMin
  }

  /** `x["_id"] = str(x["_id"])` */
  function Serialize(r: Record): (s: Record)
    requires Stored(r)
  {
    r["_id" := OidText(r["_id"].id)]
  }

  lemma SerializeKeepsKey(r: Record)
    requires Stored(r)
    ensures CreatedAt(Serialize(r)) == CreatedAt(r)
    ensures Serialize(r).Keys == r.Keys
    ensures Serialize(r)["_id"] == OidText(r["_id"].id)
    ensures forall k :: k in r && k != "_id" ==> Serialize(r)[k] == r[k]
  {
  }

  // ---------------------------------------------------------------------------
  // `items.sort(key=created_at, reverse=True)`: a stable sort, newest first

  /** Put `x` in front of the first item that is not newer than it. */
  function Insert(x: Record, t: seq<Record>): seq<Record>
  {
    if t == [] then [x]
    else if CreatedAt(t[0]) <= CreatedAt(x) then [x] + t
    else [t[0]] + Insert(x, t[1..])
  }

  function NewestFirst(s: seq<Record>): seq<Record>
  {
    if s == [] then [] else Insert(s[0], NewestFirst(s[1..]))
  }

  predicate SortedNewestFirst(s: seq<Record>)
  {
    forall i, j :: 0 <= i < j < |s| ==> CreatedAt(s[i]) >= CreatedAt(s[j])
  }

  /** The items created at `t`, in their order. */
  function CreatedAtTime(s: seq<Record>, t: Time): seq<Record>
  {
    if s == [] then []
    else (if CreatedAt(s[0]) == t then [s[0]] else []) + CreatedAtTime(s[1..], t)
  }

  lemma {:induction false} InsertPermutes(x: Record, t: seq<Record>)
    ensures multiset(Insert(x, t)) == multiset(t) + multiset{x}
    ensures |Insert(x, t)| == |t| + 1
  {
    if t != [] && CreatedAt(t[0]) > CreatedAt(x) {
      InsertPermutes(x, t[1..]);
      assert t == [t[0]] + t[1..];
    }
  }

  lemma {:induction false} InsertSorted(x: Record, t: seq<Record>)
    requires SortedNewestFirst(t)
    ensures SortedNewestFirst(Insert(x, t))
  {
    if t != [] && CreatedAt(t[0]) > CreatedAt(x) {
      var rest := Insert(x, t[1..]);
      InsertSorted(x, t[1..]);
      InsertPermutes(x, t[1..]);
      forall k | 0 <= k < |rest|
        ensures CreatedAt(t[0]) >= CreatedAt(rest[k])
      {
        assert rest[k] in multiset(t[1..]) + multiset{x};
        if rest[k] != x {
          assert rest[k] in t[1..];
        }
      }
    }
  }

  /** The sort puts the items newest first and keeps every one of them. */
  lemma {:induction false} NewestFirstSortsPermutes(s: seq<Record>)
    ensures SortedNewestFirst(NewestFirst(s))
    ensures multiset(NewestFirst(s)) == multiset(s)
    ensures |NewestFirst(s)| == |s|
  {
    if s != [] {
      NewestFirstSortsPermutes(s[1..]);
      InsertSorted(s[0], NewestFirst(s[1..]));
      InsertPermutes(s[0], NewestFirst(s[1..]));
      assert s == [s[0]] + s[1..];
    }
  }

  lemma {:induction false} CreatedAtTimeAppend(s: seq<Record>, t: seq<Record>, time: Time)
    ensures CreatedAtTime(s + t, time) == CreatedAtTime(s, time) + CreatedAtTime(t, time)
  {
    if s == [] {
      assert s + t == t;
    } else {
      var head := if CreatedAt(s[0]) == time then [s[0]] else [];
      assert (s + t)[0] == s[0] && (s + t)[1..] == s[1..] + t;
      calc {
        CreatedAtTime(s + t, time);
        head + CreatedAtTime(s[1..] + t, time);
        { CreatedAtTimeAppend(s[1..], t, time); }
        head + (CreatedAtTime(s[1..], time) + CreatedAtTime(t, time));
        (head + CreatedAtTime(s[1..], time)) + CreatedAtTime(t, time);
      }
    }
  }

  lemma {:induction false} InsertKeepsTies(x: Record, t: seq<Record>, time: Time)
    ensures CreatedAtTime(Insert(x, t), time) == CreatedAtTime([x], time) + CreatedAtTime(t, time)
  {
    if t == [] {
    } else if CreatedAt(t[0]) <= CreatedAt(x) {
      CreatedAtTimeAppend([x], t, time);
    } else {
      var head, rest := t[0], t[1..];
      assert t == [head] + rest;
      InsertKeepsTies(x, rest, time);
      CreatedAtTimeAppend([head], Insert(x, rest), time);
      CreatedAtTimeAppend([head], rest, time);
      assert CreatedAtTime([x], time) == [] || CreatedAtTime([head], time) == [];
    }
  }

  /** The sort is stable: items created at the same time stay in their order. */
  lemma {:induction false} NewestFirstStable(s: seq<Record>, time: Time)
    ensures CreatedAtTime(NewestFirst(s), time) == CreatedAtTime(s, time)
  {
    if s != [] {
      NewestFirstStable(s[1..], time);
      InsertKeepsTies(s[0], NewestFirst(s[1..]), time);
    }
  }

  /** The position of the first of the newest items. */
  function FirstNewest(s: seq<Record>): (i: nat)
    requires s != []
    ensures i < |s|
    ensures forall j :: 0 <= j < |s| ==> CreatedAt(s[j]) <= CreatedAt(s[i])
    ensures forall j :: 0 <= j < i ==> CreatedAt(s[j]) < CreatedAt(s[i])
  {
    if |s| == 1 then 0
    else
      var j := 1 + FirstNewest(s[1..]);
      assert forall k :: 1 <= k < |s| ==> s[k] == s[1..][k - 1];
      if CreatedAt(s[j]) <= CreatedAt(s[0]) then 0 else j
  }

  /** The head of the sorted list is the first of the newest items. */
  lemma {:induction false} NewestFirstHead(s: seq<Record>)
    requires s != []
    ensures |NewestFirst(s)| == |s|
    ensures NewestFirst(s)[0] == s[FirstNewest(s)]
  {
    NewestFirstSortsPermutes(s);
    if |s| > 1 {
      NewestFirstHead(s[1..]);
      NewestFirstSortsPermutes(s[1..]);
    }
  }

  // ---------------------------------------------------------------------------
  // Reading back: `GET /location/last` and `GET /incidents`

  /** The arguments of one `get_documents` call. */
  datatype Query = Query(collection: string, filter: Record, limit: int)

  /** `get_documents("trackpoint", {"user_id": u}, limit=50)` */
  function LastQuery(u: UserId): Query
  {
    Query("trackpoint", map["user_id" := Text(u)], 50)
  }

  /** `GET /location/last`: the store is asked with `LastQuery(u)` (`fetch`
      stands for the store); none for no items, otherwise the first item
      after the newest-first sort, with its id made a string. */
  function LocationLast(u: UserId, fetch: Query -> seq<Record>): Option<Record>
    requires AllStored(fetch(LastQuery(u)))
  {
    var items := fetch(LastQuery(u));
    if items == [] then None
    else
      NewestFirstHead(items);
      Some(Serialize(NewestFirst(items)[0]))
  }

  /** `latest` is none exactly when the query found nothing; otherwise it is
      the first of the newest items, so no item is newer than it. */
  lemma LocationLastIsNewest(u: UserId, fetch: Query -> seq<Record>)
    requires AllStored(fetch(LastQuery(u)))
    ensures var items := fetch(LastQuery(u));
      && (LocationLast(u, fetch).None? <==> items == [])
      && (items != [] ==>
        && LocationLast(u, fetch) == Some(Serialize(items[FirstNewest(items)]))
        && forall j :: 0 <= j < |items| ==> CreatedAt(items[j]) <= CreatedAt(LocationLast(u, fetch).value))
  {
    var items := fetch(LastQuery(u));
    if items != [] {
      NewestFirstHead(items);
      SerializeKeepsKey(items[FirstNewest(items)]);
    }
  }

  /** `{"user_id": user_id} if user_id else {}` */
  function IncidentFilter(userId: Option<string>): Record
  {
    if userId.Some? && userId.value != "" then map["user_id" := Text(userId.value)] else map[]
  }

  /** The incident listing filters on the user only when one is given. */
  lemma IncidentFilterOnlyWhenGiven(userId: Option<string>)
    ensures IncidentFilter(userId) == map[] <==> userId.None? || userId.value == ""
    ensures IncidentFilter(userId) != map[] ==>
      IncidentFilter(userId).Keys == {"user_id"} && IncidentFilter(userId)["user_id"] == Text(userId.value)
  {
    if userId.Some? && userId.value != "" {
      assert "user_id" in IncidentFilter(userId);
    }
  }

  /** `get_documents("incident", filt, limit=limit)` */
  function IncidentsQuery(userId: Option<string>, limit: int): Query
  {
    Query("incident", IncidentFilter(userId), limit)
  }

  function SerializeAll(items: seq<Record>): (r: seq<Record>)
    requires AllStored(items)
    ensures |r| == |items|
    ensures forall i :: 0 <= i < |items| ==> r[i] == Serialize(items[i])
  {
    if items == [] then [] else [Serialize(items[0])] + SerializeAll(items[1..])
  }

  /** `GET /incidents`: the store is asked with `IncidentsQuery(userId,
      limit)`, every id is made a string, and the items are sorted newest
      first. */
  function ListIncidents(userId: Option<string>, limit: int, fetch: Query -> seq<Record>): seq<Record>
    requires AllStored(fetch(IncidentsQuery(userId, limit)))
  {
    NewestFirst(SerializeAll(fetch(IncidentsQuery(userId, limit))))
  }

  /** The listing is every item the query returned, each with its id made a
      string, newest first, and items created at the same time keep the order
      the store gave them. */
  lemma ListIncidentsNewestFirst(userId: Option<string>, limit: int, fetch: Query -> seq<Record>, time: Time)
    requires AllStored(fetch(IncidentsQuery(userId, limit)))
    ensures var served := SerializeAll(fetch(IncidentsQuery(userId, limit)));
      && SortedNewestFirst(ListIncidents(userId, limit, fetch))
      && multiset(ListIncidents(userId, limit, fetch)) == multiset(served)
      && CreatedAtTime(ListIncidents(userId, limit, fetch), time) == CreatedAtTime(served, time)
  {
    var served := SerializeAll(fetch(IncidentsQuery(userId, limit)));
    NewestFirstSortsPermutes(served);
    NewestFirstStable(served, time);
  }

  // ---------------------------------------------------------------------------
  // `POST /location/update`

  /** `{k: v for k, v in point.model_dump().items() if v is not None}` */
  function NonNull(point: Record): Record
  {
    map k | k in point && point[k] != Null :: point[k]
  }

  /** The live payload as the handler builds it: the non-null fields of the
      point as they are (a client `ts` stays a `datetime`), the new id, and the
      server time as an ISO string. */
  function Payload(point: Record, id: DocId, now: Time): Record
  {
    NonNull(point)["_id" := OidText(id)]["server_ts" := IsoText(now)]
  }

  /** A value as JSON would carry it: a `datetime` as its ISO string. */
  function AsJson(v: Value): Value
  {
    if v.DateTime? then IsoText(v.t) else v
  }

  /** The live payload with every field made encodable, the way `server_ts`
      already is. */
  function EncodedPayload(point: Record, id: DocId, now: Time): Record
  {
    (map k | k in point && point[k] != Null :: AsJson(point[k]))["_id" := OidText(id)]["server_ts" := IsoText(now)]
  }

  /** The message pushed to the viewers. */
  function TrackMessage(payload: Record): Value
  {
    Object(map["type" := Text("track"), "data" := Object(payload)])
  }

  /** The record stored: the whole point and the server time. */
  function Persisted(point: Record, now: Time): Record
  {
    point["server_ts" := DateTime(now)]
  }

  /** The stored trackpoint keeps every field of the point, nulls included,
      and adds the server time. */
  lemma PersistedKeepsPoint(point: Record, now: Time)
    requires ValidTrackpoint(point)
    ensures Persisted(point, now).Keys == point.Keys + {"server_ts"}
    ensures forall k :: k in point ==> Persisted(point, now)[k] == point[k]
    ensures Persisted(point, now)["server_ts"] == DateTime(now)
  {
  }

  /** The payload carries exactly the non-null fields of the point, the id the
      store gave it and the server time, and no null. */
  lemma PayloadFields(point: Record, id: DocId, now: Time)
    requires ValidTrackpoint(point)
    ensures Payload(point, id, now).Keys == (set k | k in point && point[k] != Null) + {"_id", "server_ts"}
    ensures forall k :: k in point && point[k] != Null ==> Payload(point, id, now)[k] == point[k]
    ensures Payload(point, id, now)["_id"] == OidText(id)
    ensures Payload(point, id, now)["server_ts"] == IsoText(now)
    ensures forall k :: k in Payload(point, id, now) ==> Payload(point, id, now)[k] != Null
  {
    assert "_id" !in point && "server_ts" !in point;
  }

  /** A point sent with a client `ts` makes a payload that `json.dumps`
      refuses. */
  lemma TimestampedPayloadUnencodable(point: Record, id: DocId, now: Time)
    requires ValidTrackpoint(point) && point["ts"].DateTime?
    ensures !Encodable(TrackMessage(Payload(point, id, now)))
  {
    var payload := Payload(point, id, now);
    assert payload["ts"] == point["ts"];
    assert !Encodable(Object(payload));
    assert TrackMessage(payload).fields["data"] == Object(payload);
  }

  /** So, as written, the update for a point with a client `ts` reaches none
      of the user's viewers, and the broadcast disconnects all of them. */
  lemma TimestampedPointDropsViewers(active: Active, point: Record, id: DocId, now: Time, dead: set<Socket>)
    requires NoEmptyEntries(active)
    requires ValidTrackpoint(point) && point["ts"].DateTime?
    ensures var u := point["user_id"].s;
      var message := TrackMessage(Payload(point, id, now));
      var failing := Failing(Lookup(active, u), message, dead);
      && u !in AfterBroadcast(active, u, failing)
      && forall i :: 0 <= i < |Attempts(Lookup(active, u), message, failing)| ==> !Attempts(Lookup(active, u), message, failing)[i].ok
  {
    TimestampedPayloadUnencodable(point, id, now);
    UnencodableReachesNobody(active, point["user_id"].s, TrackMessage(Payload(point, id, now)), dead);
  }

  /** A point sent without `ts` makes a payload that `json.dumps` accepts. */
  lemma UntimedPayloadEncodable(point: Record, id: DocId, now: Time)
    requires ValidTrackpoint(point) && point["ts"] == Null
    ensures Encodable(TrackMessage(Payload(point, id, now)))
  {
    var payload := Payload(point, id, now);
    forall k | k in payload
      ensures Encodable(payload[k])
    {
      assert k in point.Keys || k == "_id" || k == "server_ts";
    }
    var message := TrackMessage(payload);
    assert forall k :: k in message.fields ==> Encodable(message.fields[k]);
  }

  /** As written, `json.dumps` accepts the message exactly when the point
      came without `ts`. */
  lemma PayloadEncodableIff(point: Record, id: DocId, now: Time)
    requires ValidTrackpoint(point)
    ensures Encodable(TrackMessage(Payload(point, id, now))) <==> point["ts"] == Null
  {
    if point["ts"] == Null {
      UntimedPayloadEncodable(point, id, now);
    } else {
      TimestampedPayloadUnencodable(point, id, now);
    }
  }

  /** So, as written, the update for a point without `ts` fails only on dead
      connections: every live viewer gets the message once per time it is
      listed, and only the dead ones are pruned. */
  lemma UntimedPointReachesViewers(active: Active, point: Record, id: DocId, now: Time, dead: set<Socket>, c: Socket)
    requires ValidTrackpoint(point) && point["ts"] == Null
    ensures var u := point["user_id"].s;
      var conns := Lookup(active, u);
      var message := TrackMessage(Payload(point, id, now));
      var failing := Failing(conns, message, dead);
      && failing == dead
      && AfterBroadcast(active, u, failing) == AfterBroadcast(active, u, dead)
      && (c !in dead ==> multiset(Attempts(conns, message, failing))[Attempt(c, message, true)] == multiset(conns)[c])
  {
    var conns := Lookup(active, point["user_id"].s);
    var message := TrackMessage(Payload(point, id, now));
    UntimedPayloadEncodable(point, id, now);
    EncodableFailsOnDead(conns, message, dead);
    DeliveredOncePerOccurrence(conns, message, dead, c);
  }

  /** Every value of a valid point, once a `datetime` is written as its ISO
      string, is one `json.dumps` accepts. */
  lemma PointFieldsEncodable(point: Record)
    requires ValidTrackpoint(point)
    ensures forall k :: k in point ==> Encodable(AsJson(point[k]))
  {
    forall k | k in point
      ensures Encodable(AsJson(point[k]))
    {
      assert k in point.Keys;
    }
  }

  /** `json.dumps` accepts the encodable payload of every valid point. */
  lemma EncodedPayloadEncodable(point: Record, id: DocId, now: Time)
    requires ValidTrackpoint(point)
    ensures Encodable(TrackMessage(EncodedPayload(point, id, now)))
  {
    var payload := EncodedPayload(point, id, now);
    PointFieldsEncodable(point);
    assert forall k :: k in payload ==> Encodable(payload[k]);
    var message := TrackMessage(payload);
    assert forall k :: k in message.fields ==> Encodable(message.fields[k]);
  }

  /** The encodable payload differs from the one built only in how a client
      `ts` is written. */
  lemma EncodedPayloadMatches(point: Record, id: DocId, now: Time)
    ensures EncodedPayload(point, id, now).Keys == Payload(point, id, now).Keys
    ensures forall k :: k in Payload(point, id, now) ==> EncodedPayload(point, id, now)[k] == AsJson(Payload(point, id, now)[k])
  {
  }

  /** `POST /location/update` for a validated point, as written: the point is
      stored with the server time, its payload is pushed to the viewers of
      `point.user_id`, and the new id is returned. The payload keeps a client
      `ts` as a `datetime`, so every send of such a point fails
      (`TimestampedPointDropsViewers`). */
  method LocationUpdate(store: DocumentStore, manager: ConnectionManager, point: Record, now: Time, dead: set<Socket>)
    returns (response: Record)
    requires ValidTrackpoint(point)
    requires store.Valid() && manager.Valid()
    modifies store, manager
    ensures store.Valid() && manager.Valid()
    ensures "trackpoint_id" in response && response["trackpoint_id"].OidText?
    ensures var id := response["trackpoint_id"].id; var u := point["user_id"].s;
      var conns := Lookup(old(manager.active), u);
      var message := TrackMessage(Payload(point, id, now));
      var failing := Failing(conns, message, dead);
      && response == map["trackpoint_id" := OidText(id)]
      && id !in old(store.Ids())
      && store.docs == old(store.docs) + [Document("trackpoint", id, Persisted(point, now))]
      && manager.sends == old(manager.sends) + Attempts(conns, message, failing)
      && manager.active == AfterBroadcast(old(manager.active), u, failing)
  {
    var id := store.Create("trackpoint", Persisted(point, now));
    var message := TrackMessage(Payload(point, id, now));
    manager.Broadcast(point["user_id"].s, message, dead);
    response := map["trackpoint_id" := OidText(id)];
  }

  /** `POST /location/update` with the encodable payload: the same store and
      answer, but a send fails only on a dead connection. */
  method LocationUpdateCorrected(store: DocumentStore, manager: ConnectionManager, point: Record, now: Time, dead: set<Socket>)
    returns (response: Record)
    requires ValidTrackpoint(point)
    requires store.Valid() && manager.Valid()
    modifies store, manager
    ensures store.Valid() && manager.Valid()
    ensures "trackpoint_id" in response && response["trackpoint_id"].OidText?
    ensures var id := response["trackpoint_id"].id; var u := point["user_id"].s;
      var conns := Lookup(old(manager.active), u);
      && response == map["trackpoint_id" := OidText(id)]
      && id !in old(store.Ids())
      && store.docs == old(store.docs) + [Document("trackpoint", id, Persisted(point, now))]
      && manager.sends == old(manager.sends) + Attempts(conns, TrackMessage(EncodedPayload(point, id, now)), dead)
      && manager.active == AfterBroadcast(old(manager.active), u, dead)
  {
    var id := store.Create("trackpoint", Persisted(point, now));
    var message := TrackMessage(EncodedPayload(point, id, now));
    EncodedPayloadEncodable(point, id, now);
    manager.Broadcast(point["user_id"].s, message, dead);
    response := map["trackpoint_id" := OidText(id)];
  }
}
