/** The live-tracking connection registry (`ConnectionManager`): for every
    tracked user, the list of viewer connections currently open on that user's
    channel. The list may hold the same connection twice, because `connect`
    appends without checking. */
module Registry {
  import opened Documents

  type UserId = string

  /** A viewer connection, compared by identity only. */
  datatype Socket = Socket(handle: nat)

  /** One send attempted by `broadcast`, and whether it went through. */
  datatype Attempt = Attempt(to: Socket, message: Value, ok: bool)

  type Active = map<UserId, seq<Socket>>

  /** The registry never keeps a user whose list is empty. */
  predicate NoEmptyEntries(active: Active)
  {
    forall u :: u in active ==> active[u] != []
  }

  /** `active.get(u, [])` */
  function Lookup(active: Active, u: UserId): seq<Socket>
  {
    if u in active then active[u] else []
  }

  // ---------------------------------------------------------------------------
  // `list.remove`: drop the first occurrence

  function RemoveFirst(s: seq<Socket>, x: Socket): (r: seq<Socket>)
    ensures x !in s ==> r == s
    ensures x in s ==> |r| == |s| - 1
  {
    if s == [] then []
    else if s[0] == x then s[1..]
    else [s[0]] + RemoveFirst(s[1..], x)
  }

  /** Position of the first occurrence of `x`. */
  function FirstIndex(s: seq<Socket>, x: Socket): (i: nat)
    requires x in s
    ensures i < |s| && s[i] == x
    ensures x !in s[..i]
  {
    if s[0] == x then 0
    else
      assert x in s[1..];
      1 + FirstIndex(s[1..], x)
  }

  lemma {:induction false} RemoveFirstSplices(s: seq<Socket>, x: Socket)
    requires x in s
    ensures RemoveFirst(s, x) == s[..FirstIndex(s, x)] + s[FirstIndex(s, x) + 1..]
  {
    if s[0] != x {
      assert x in s[1..];
      RemoveFirstSplices(s[1..], x);
      assert s[1..][..FirstIndex(s[1..], x)] == s[1..FirstIndex(s, x)];
    }
  }

  lemma {:induction false} RemoveFirstMultiset(s: seq<Socket>, x: Socket)
    ensures multiset(RemoveFirst(s, x)) == multiset(s) - multiset{x}
  {
    if s != [] {
      assert s == [s[0]] + s[1..];
      if s[0] != x {
        RemoveFirstMultiset(s[1..], x);
      }
    }
  }

  /** Removing a connection that was appended after the list, and not in it,
      gives the list back. */
  lemma {:induction false} RemoveFirstOfAppended(s: seq<Socket>, x: Socket)
    requires x !in s
    ensures RemoveFirst(s + [x], x) == s
  {
    if s != [] {
      assert (s + [x])[1..] == s[1..] + [x];
      RemoveFirstOfAppended(s[1..], x);
    }
  }

  // ---------------------------------------------------------------------------
  // Send outcomes: `dead` is the set of connections whose send raises

  function Healthy(s: seq<Socket>, dead: set<Socket>): seq<Socket>
  {
    if s == [] then []
    else (if s[0] in dead then [] else [s[0]]) + Healthy(s[1..], dead)
  }

  function Stale(s: seq<Socket>, dead: set<Socket>): seq<Socket>
  {
    if s == [] then []
    else (if s[0] in dead then [s[0]] else []) + Stale(s[1..], dead)
  }

  function Attempts(s: seq<Socket>, message: Value, dead: set<Socket>): seq<Attempt>
  {
    if s == [] then []
    else [Attempt(s[0], message, s[0] !in dead)] + Attempts(s[1..], message, dead)
  }

  /** The connections whose send raises during one broadcast: the dead ones,
      and every one when `json.dumps` cannot encode the message, because the
      encoding happens inside the `try`. */
  function Failing(conns: seq<Socket>, message: Value, dead: set<Socket>): set<Socket>
  {
    if Encodable(message) then dead else dead + set c | c in conns
  }

  /** When every send fails, nothing goes through and nothing stays healthy. */
  lemma {:induction false} AllFailing(s: seq<Socket>, message: Value, failing: set<Socket>)
    requires forall i :: 0 <= i < |s| ==> s[i] in failing
    ensures Healthy(s, failing) == []
    ensures forall i :: 0 <= i < |Attempts(s, message, failing)| ==> !Attempts(s, message, failing)[i].ok
  {
    if s != [] {
      AllFailing(s[1..], message, failing);
    }
  }

  lemma {:induction false} FiltersAppend(s: seq<Socket>, t: seq<Socket>, message: Value, dead: set<Socket>)
    ensures Healthy(s + t, dead) == Healthy(s, dead) + Healthy(t, dead)
    ensures Stale(s + t, dead) == Stale(s, dead) + Stale(t, dead)
    ensures Attempts(s + t, message, dead) == Attempts(s, message, dead) + Attempts(t, message, dead)
  {
    if s != [] {
      assert (s + t)[0] == s[0];
      assert (s + t)[1..] == s[1..] + t;
      FiltersAppend(s[1..], t, message, dead);
    } else {
      assert s + t == t;
    }
  }

  /** The healthy part keeps every healthy connection with its multiplicity,
      and nothing else; the stale part holds exactly the failing ones. */
  lemma {:induction false} FiltersPartition(s: seq<Socket>, dead: set<Socket>)
    ensures forall c :: c !in dead ==> multiset(Healthy(s, dead))[c] == multiset(s)[c]
    ensures forall c :: c in dead ==> multiset(Stale(s, dead))[c] == multiset(s)[c]
    ensures forall c :: c in Healthy(s, dead) ==> c !in dead
    ensures forall c :: c in Stale(s, dead) ==> c in dead
  {
    if s != [] {
      assert s == [s[0]] + s[1..];
      FiltersPartition(s[1..], dead);
    }
  }

  lemma {:induction false} NoStaleMeansHealthy(s: seq<Socket>, dead: set<Socket>)
    requires Stale(s, dead) == []
    ensures Healthy(s, dead) == s
  {
    if s != [] {
      NoStaleMeansHealthy(s[1..], dead);
    }
  }

  /** Disconnecting the first failing connection leaves the healthy part alone
      and consumes the head of the stale part. */
  lemma {:induction false} RemoveFirstStale(s: seq<Socket>, dead: set<Socket>)
    requires Stale(s, dead) != []
    ensures Healthy(RemoveFirst(s, Stale(s, dead)[0]), dead) == Healthy(s, dead)
    ensures Stale(RemoveFirst(s, Stale(s, dead)[0]), dead) == Stale(s, dead)[1..]
  {
    var x := Stale(s, dead)[0];
    FiltersPartition(s, dead);
    if s[0] !in dead {
      assert Stale(s, dead) == Stale(s[1..], dead);
      assert x in dead && s[0] != x;
      assert RemoveFirst(s, x) == [s[0]] + RemoveFirst(s[1..], x);
      RemoveFirstStale(s[1..], dead);
      assert ([s[0]] + RemoveFirst(s[1..], x))[1..] == RemoveFirst(s[1..], x);
    }
  }

  /** Every healthy connection is sent the message exactly once per
      occurrence in the list; no failing connection receives it. */
  lemma {:induction false} DeliveredOncePerOccurrence(s: seq<Socket>, message: Value, dead: set<Socket>, c: Socket)
    ensures c !in dead ==> multiset(Attempts(s, message, dead))[Attempt(c, message, true)] == multiset(s)[c]
    ensures Attempt(c, message, true) in Attempts(s, message, dead) ==> c in s && c !in dead
    ensures c in dead ==> multiset(Attempts(s, message, dead))[Attempt(c, message, false)] == multiset(s)[c]
  {
    if s != [] {
      assert s == [s[0]] + s[1..];
      DeliveredOncePerOccurrence(s[1..], message, dead, c);
    }
  }

  // ---------------------------------------------------------------------------
  // The three operations as functions of the map

  /** `active.setdefault(u, []).append(ws)` */
  function Attach(active: Active, u: UserId, ws: Socket): Active
  {
    active[u := Lookup(active, u) + [ws]]
  }

  /** `connect` appends at the end of `u`'s list, creating the entry when
      needed, and leaves every other user's entry as it was. */
  lemma AttachAppends(active: Active, u: UserId, ws: Socket)
    ensures var r := Attach(active, u, ws);
      && u in r
      && r[u] == Lookup(active, u) + [ws]
      && r - {u} == active - {u}
      && (NoEmptyEntries(active) ==> NoEmptyEntries(r))
  {
  }

  /** `disconnect(u, ws)` */
  function Detach(active: Active, u: UserId, ws: Socket): Active
  {
    if u !in active then active
    else
      var rest := RemoveFirst(active[u], ws);
      if rest == [] then active - {u} else active[u := rest]
  }

  /** `disconnect` removes the first occurrence of `ws` from `u`'s list and no
      other, drops the entry exactly when the list runs empty, never creates
      an entry, and leaves every other user's entry as it was. */
  lemma DetachRemovesOne(active: Active, u: UserId, ws: Socket)
    ensures var r := Detach(active, u, ws);
      && r - {u} == active - {u}
      && Lookup(r, u) == RemoveFirst(Lookup(active, u), ws)
      && (u in r <==> u in active && RemoveFirst(active[u], ws) != [])
      && (NoEmptyEntries(active) ==> NoEmptyEntries(r))
      && (NoEmptyEntries(active) && ws !in Lookup(active, u) ==> r == active)
  {
  }

  /** The registry after `broadcast(u, _)` when the connections in `dead`
      fail: if some send failed, `u`'s list is cut down to its healthy
      connections, and the entry goes when none is left. */
  function AfterBroadcast(active: Active, u: UserId, dead: set<Socket>): Active
  {
    if u !in active || Stale(active[u], dead) == [] then active
    else
      var h := Healthy(active[u], dead);
      if h == [] then active - {u} else active[u := h]
  }

  /** After a broadcast, no failing connection is left in `u`'s list, the
      healthy ones stay in their order, the entry exists exactly when a healthy
      connection remains, and other users' entries are untouched. */
  lemma BroadcastPrunesStale(active: Active, u: UserId, dead: set<Socket>)
    requires NoEmptyEntries(active)
    ensures var r := AfterBroadcast(active, u, dead);
      && NoEmptyEntries(r)
      && r - {u} == active - {u}
      && Lookup(r, u) == Healthy(Lookup(active, u), dead)
      && (u in r <==> Healthy(Lookup(active, u), dead) != [])
      && (forall c :: c in Lookup(r, u) ==> c !in dead)
  {
    if u in active && Stale(active[u], dead) == [] {
      NoStaleMeansHealthy(active[u], dead);
    }
    FiltersPartition(Lookup(active, u), dead);
  }

  /** A message `json.dumps` cannot encode reaches none of the user's
      connections, and the broadcast disconnects all of them. */
  lemma UnencodableReachesNobody(active: Active, u: UserId, message: Value, dead: set<Socket>)
    requires NoEmptyEntries(active)
    requires !Encodable(message)
    ensures var failing := Failing(Lookup(active, u), message, dead);
      && u !in AfterBroadcast(active, u, failing)
      && forall i :: 0 <= i < |Attempts(Lookup(active, u), message, failing)| ==> !Attempts(Lookup(active, u), message, failing)[i].ok
  {
    var s := Lookup(active, u);
    var failing := Failing(s, message, dead);
    AllFailing(s, message, failing);
    BroadcastPrunesStale(active, u, failing);
  }

  /** A broadcast to a user nobody watches sends nothing and adds no entry. */
  lemma BroadcastToUnwatched(active: Active, u: UserId, message: Value, dead: set<Socket>)
    requires u !in active
    ensures var failing := Failing(Lookup(active, u), message, dead);
      && Attempts(Lookup(active, u), message, failing) == []
      && AfterBroadcast(active, u, failing) == active
  {
  }

  /** An encodable message fails exactly on the dead connections. */
  lemma EncodableFailsOnDead(conns: seq<Socket>, message: Value, dead: set<Socket>)
    requires Encodable(message)
    ensures Failing(conns, message, dead) == dead
  {
  }

  /** One pruning step of `broadcast`: disconnecting the first failing
      connection still listed. */
  lemma DetachFirstStale(active: Active, u: UserId, dead: set<Socket>)
    requires Stale(Lookup(active, u), dead) != []
    ensures var r := Detach(active, u, Stale(Lookup(active, u), dead)[0]);
      && Healthy(Lookup(r, u), dead) == Healthy(Lookup(active, u), dead)
      && Stale(Lookup(r, u), dead) == Stale(Lookup(active, u), dead)[1..]
  {
    RemoveFirstStale(Lookup(active, u), dead);
  }

  /** Once every failing connection has been disconnected, the registry is the
      one `AfterBroadcast` describes. */
  lemma PruningDone(before: Active, after: Active, u: UserId, dead: set<Socket>)
    requires NoEmptyEntries(after)
    requires u in before && Stale(before[u], dead) != []
    requires after - {u} == before - {u}
    requires Healthy(Lookup(after, u), dead) == Healthy(before[u], dead)
    requires Stale(Lookup(after, u), dead) == []
    ensures after == AfterBroadcast(before, u, dead)
  {
    NoStaleMeansHealthy(Lookup(after, u), dead);
    var h := Healthy(before[u], dead);
    if h == [] {
      assert u !in after;
      assert after == after - {u};
    } else {
      assert u in after && after[u] == h;
      assert after == (after - {u})[u := h];
    }
  }

  // ---------------------------------------------------------------------------
  // Sequences of operations: `connect` or `disconnect` applied for each
  // connection of a list, in list order

  function AttachAll(active: Active, u: UserId, opens: seq<Socket>): Active
    decreases |opens|
  {
    if opens == [] then active
    else Attach(AttachAll(active, u, opens[..|opens| - 1]), u, opens[|opens| - 1])
  }

  function DetachAll(active: Active, u: UserId, closes: seq<Socket>): Active
    decreases |closes|
  {
    if closes == [] then active
    else Detach(DetachAll(active, u, closes[..|closes| - 1]), u, closes[|closes| - 1])
  }

  lemma SendStep(conns: seq<Socket>, i: nat, message: Value, dead: set<Socket>)
    requires i < |conns|
    ensures Stale(conns[..i + 1], dead) == Stale(conns[..i], dead) + Stale([conns[i]], dead)
    ensures Attempts(conns[..i + 1], message, dead) == Attempts(conns[..i], message, dead) + Attempts([conns[i]], message, dead)
  {
    assert conns[..i + 1] == conns[..i] + [conns[i]];
    FiltersAppend(conns[..i], [conns[i]], message, dead);
  }

  lemma DetachStep(active: Active, u: UserId, closes: seq<Socket>, j: nat)
    requires j < |closes|
    ensures DetachAll(active, u, closes[..j + 1]) == Detach(DetachAll(active, u, closes[..j]), u, closes[j])
  {
    assert closes[..j + 1][..j] == closes[..j];
  }

  /** After the first `k` failing connections have been disconnected, the
      healthy part of `u`'s list is intact and the rest of the failing ones
      are still listed. */
  lemma {:induction false} PruneProgress(active: Active, u: UserId, dead: set<Socket>, k: nat)
    requires NoEmptyEntries(active)
    requires k <= |Stale(Lookup(active, u), dead)|
    ensures var stale := Stale(Lookup(active, u), dead);
      var r := DetachAll(active, u, stale[..k]);
      && NoEmptyEntries(r)
      && r - {u} == active - {u}
      && Healthy(Lookup(r, u), dead) == Healthy(Lookup(active, u), dead)
      && Stale(Lookup(r, u), dead) == stale[k..]
  {
    var stale := Stale(Lookup(active, u), dead);
    if k > 0 {
      var prev := DetachAll(active, u, stale[..k - 1]);
      assert && NoEmptyEntries(prev)
             && prev - {u} == active - {u}
             && Healthy(Lookup(prev, u), dead) == Healthy(Lookup(active, u), dead)
             && Stale(Lookup(prev, u), dead) == stale[k - 1..] by {
        PruneProgress(active, u, dead, k - 1);
      }
      var r := Detach(prev, u, stale[k - 1]);
      assert r == DetachAll(active, u, stale[..k]) by {
        DetachStep(active, u, stale, k - 1);
      }
      assert stale[k - 1..][1..] == stale[k..];
      assert Healthy(Lookup(r, u), dead) == Healthy(Lookup(prev, u), dead)
          && Stale(Lookup(r, u), dead) == stale[k..] by {
        DetachFirstStale(prev, u, dead);
      }
      assert NoEmptyEntries(r) && r - {u} == prev - {u} by {
        DetachRemovesOne(prev, u, stale[k - 1]);
      }
    }
  }

  /** `broadcast`'s second loop, which disconnects the collected failing
      connections one by one, leaves the registry `AfterBroadcast` describes. */
  lemma PruningIsAfterBroadcast(active: Active, u: UserId, dead: set<Socket>)
    requires NoEmptyEntries(active)
    ensures DetachAll(active, u, Stale(Lookup(active, u), dead)) == AfterBroadcast(active, u, dead)
  {
    var stale := Stale(Lookup(active, u), dead);
    PruneProgress(active, u, dead, |stale|);
    assert stale[..|stale|] == stale;
    if stale != [] {
      PruningDone(active, DetachAll(active, u, stale), u, dead);
    }
  }

  /** A session that opens and then closes a connection not already
      registered leaves the registry as it found it. */
  lemma ConnectThenDisconnect(active: Active, u: UserId, ws: Socket)
    requires NoEmptyEntries(active)
    requires ws !in Lookup(active, u)
    ensures Detach(Attach(active, u, ws), u, ws) == active
  {
    RemoveFirstOfAppended(Lookup(active, u), ws);
  }

  lemma {:induction false} AttachAllAppends(active: Active, u: UserId, opens: seq<Socket>)
    ensures Lookup(AttachAll(active, u, opens), u) == Lookup(active, u) + opens
    ensures AttachAll(active, u, opens) - {u} == active - {u}
    ensures NoEmptyEntries(active) ==> NoEmptyEntries(AttachAll(active, u, opens))
    decreases |opens|
  {
    if opens != [] {
      var init := opens[..|opens| - 1];
      AttachAllAppends(active, u, init);
      assert init + [opens[|opens| - 1]] == opens;
    }
  }

  lemma {:induction false} DetachAllRemoves(active: Active, u: UserId, closes: seq<Socket>)
    requires multiset(closes) <= multiset(Lookup(active, u))
    ensures multiset(Lookup(DetachAll(active, u, closes), u)) == multiset(Lookup(active, u)) - multiset(closes)
    decreases |closes|
  {
    if closes != [] {
      var init, x := closes[..|closes| - 1], closes[|closes| - 1];
      assert multiset(closes) == multiset(init) + multiset{x} by {
        assert closes == init + [x];
      }
      var mid := DetachAll(active, u, init);
      var m := multiset(Lookup(active, u));
      assert multiset(Lookup(mid, u)) == m - multiset(init) by {
        DetachAllRemoves(active, u, init);
      }
      assert multiset(Lookup(Detach(mid, u, x), u)) == m - multiset(closes) by {
        assert x in multiset(Lookup(mid, u));
        DetachRemovesOne(mid, u, x);
        RemoveFirstMultiset(Lookup(mid, u), x);
      }
    }
  }

  /** Disconnects on `u` leave the other users alone and leave no empty entry. */
  lemma {:induction false} DetachAllKeepsOthers(active: Active, u: UserId, closes: seq<Socket>)
    ensures DetachAll(active, u, closes) - {u} == active - {u}
    ensures NoEmptyEntries(active) ==> NoEmptyEntries(DetachAll(active, u, closes))
    decreases |closes|
  {
    if closes != [] {
      var init, x := closes[..|closes| - 1], closes[|closes| - 1];
      var mid := DetachAll(active, u, init);
      DetachAllKeepsOthers(active, u, init);
      DetachRemovesOne(mid, u, x);
    }
  }


  lemma AgreeOffKey(a: Active, b: Active, u: UserId)
    requires u !in a && u !in b
    requires a - {u} == b - {u}
    ensures a == b
  {
    assert a == a - {u};
    assert b == b - {u};
  }

  /** After N connections are opened on a user nobody was watching and all N
      are closed again, in any order, the registry holds no entry for that
      user: empty entries do not accumulate. */
  lemma AllClosedLeavesNoEntry(active: Active, u: UserId, opens: seq<Socket>, closes: seq<Socket>)
    requires NoEmptyEntries(active)
    requires u !in active
    requires multiset(closes) == multiset(opens)
    ensures DetachAll(AttachAll(active, u, opens), u, closes) == active
  {
    var mid := AttachAll(active, u, opens);
    assert Lookup(mid, u) == opens && mid - {u} == active - {u} && NoEmptyEntries(mid) by {
      AttachAllAppends(active, u, opens);
    }
    var fin := DetachAll(mid, u, closes);
    assert multiset(Lookup(fin, u)) == multiset{} && fin - {u} == mid - {u} && NoEmptyEntries(fin) by {
      DetachAllRemoves(mid, u, closes);
      DetachAllKeepsOthers(mid, u, closes);
    }
    assert u !in fin by {
      var left := Lookup(fin, u);
      assert |left| == |multiset(left)| == 0;
    }
    AgreeOffKey(fin, active, u);
  }

  // ---------------------------------------------------------------------------

  class ConnectionManager {
    /** `self.active` */
    var active: Active
    /** Every send attempted so far, in order (not in the source; a record of
        what the sockets were asked to do). */
    ghost var sends: seq<Attempt>

    ghost predicate Valid()
      reads this
    {
      NoEmptyEntries(active)
    }

    constructor ()
      ensures Valid() && active == map[] && sends == []
    {
      active := map[];
      sends := [];
    }

    /** `connect`: the accepted connection goes at the end of `u`'s list. */
    method Connect(u: UserId, ws: Socket)
      requires Valid()
      modifies this
      ensures Valid()
      ensures active == Attach(old(active), u, ws)
      ensures sends == old(sends)
    {
      var conns := Lookup(active, u);
      active := active[u := conns + [ws]];
    }

    /** `disconnect`: drop the first occurrence of `ws`, and `u`'s entry with
        it when the list runs empty; nothing happens for an unknown user or
        connection. */
    method Disconnect(u: UserId, ws: Socket)
      requires Valid()
      modifies this
      ensures Valid()
      ensures active == Detach(old(active), u, ws)
      ensures sends == old(sends)
    {
      var conns := Lookup(active, u);
      if ws in conns {
        conns := RemoveFirst(conns, ws);
        active := active[u := conns];
      }
      if conns == [] && u in active {
        active := active - {u};
      }
    }

    /** `broadcast`: try every connection of `u` in list order, collect the
        ones whose send fails, and only once the loop is over disconnect
        each of them. Failures are never raised to the caller. `dead` holds
        the connections whose socket raises on send. */
    method Broadcast(u: UserId, message: Value, dead: set<Socket>)
      requires Valid()
      modifies this
      ensures Valid()
      ensures var failing := Failing(Lookup(old(active), u), message, dead);
        && sends == old(sends) + Attempts(Lookup(old(active), u), message, failing)
        && active == AfterBroadcast(old(active), u, failing)
    {
      var conns := Lookup(active, u);
      // `json.dumps(message)` raises for every connection or for none
      var failing := Failing(conns, message, dead);
      var stale: seq<Socket> := [];
      ghost var attempted: seq<Attempt> := [];
      var i := 0;
      while i < |conns|
        invariant 0 <= i <= |conns|
        invariant stale == Stale(conns[..i], failing)
        invariant attempted == Attempts(conns[..i], message, failing)
        modifies {}
      {
        var ws := conns[i];
        if ws in failing {
          stale := stale + [ws];
        }
        attempted := attempted + [Attempt(ws, message, ws !in failing)];
        SendStep(conns, i, message, failing);
        i := i + 1;
      }
      assert conns[..i] == conns;
      sends := sends + attempted;

      var j := 0;
      while j < |stale|
        invariant 0 <= j <= |stale|
        invariant Valid()
        invariant sends == old(sends) + Attempts(conns, message, failing)
        invariant active == DetachAll(old(active), u, stale[..j])
      {
        Disconnect(u, stale[j]);
        DetachStep(old(active), u, stale, j);
        j := j + 1;
      }
      assert stale[..j] == stale;
      PruningIsAfterBroadcast(old(active), u, failing);
    }
  }
}
