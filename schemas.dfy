/** The data model of the backend: each pydantic model is a table of field
    declarations, and validating a request body against a table either
    produces the model's dump (every declared field, defaults filled in) or
    lists the fields that failed. */
module Schemas {
  import opened Wrappers
  import opened Documents

  /** The Python type a field is declared with. `EmailStr` and `HttpUrl` are
      strings here: their format is not checked. */
  datatype Kind = Str | Float | Int | Boolean | Datetime | StrList

  /** One field declaration: its name and type, whether `None` is allowed
      (`Optional[...]`), its default (`None` for a required field), and its
      `ge`/`le` bounds. */
  datatype Field = Field(name: string, kind: Kind, nullable: bool, default: Option<Value>, ge: Option<real>, le: Option<real>)

  datatype FieldError = Missing(field: string) | WrongType(field: string) | OutOfRange(field: string)

  /** `name: T = Field(...)`: required, not nullable. */
  function Required(name: string, kind: Kind, ge: Option<real>, le: Option<real>): Field
  {
    Field(name, kind, false, None, ge, le)
  }

  /** `name: Optional[T] = Field(None, ...)`: may be absent or null. */
  function OptionalField(name: string, kind: Kind, ge: Option<real>, le: Option<real>): Field
  {
    Field(name, kind, true, Some(Null), ge, le)
  }

  predicate IsIntegral(r: real)
  {
    r.Floor as real == r
  }

  /** Whether a non-null value has the declared type. An `int` field takes a
      number with no fractional part, as pydantic's lax mode does. */
  predicate HasKind(v: Value, kind: Kind)
  {
    match kind
    case Str => v.Text?
    case Float => v.Number?
    case Int => v.Number? && IsIntegral(v.n)
    case Boolean => v.Bool?
    case Datetime => v.DateTime?
    case StrList => v.List? && forall i :: 0 <= i < |v.items| ==> v.items[i].Text?
  }

  predicate InBounds(f: Field, v: Value)
  {
    v.Number? ==> (f.ge.Some? ==> f.ge.value <= v.n) && (f.le.Some? ==> v.n <= f.le.value)
  }

  /** Whether `v` is an acceptable value for the field. */
  predicate Accepts(f: Field, v: Value)
  {
    if v == Null then f.nullable else HasKind(v, f.kind) && InBounds(f, v)
  }

  /** Validation of one field of a request body. */
  function CheckField(f: Field, raw: Record): Result<Value, FieldError>
  {
    if f.name !in raw then
      if f.default.Some? then Success(f.default.value) else Failure(Missing(f.name))
    else if Accepts(f, raw[f.name]) then Success(raw[f.name])
    else if raw[f.name] != Null && HasKind(raw[f.name], f.kind) then Failure(OutOfRange(f.name))
    else Failure(WrongType(f.name))
  }

  function Names(schema: seq<Field>): set<string>
  {
    set i | 0 <= i < |schema| :: schema[i].name
  }

  predicate DistinctNames(schema: seq<Field>)
  {
    forall i, j :: 0 <= i < j < |schema| ==> schema[i].name != schema[j].name
  }

  /** A model declaration: field names are distinct and every default is a
      value the field itself accepts. */
  predicate WellFormed(schema: seq<Field>)
  {
    && DistinctNames(schema)
    && forall i :: 0 <= i < |schema| && schema[i].default.Some? ==> Accepts(schema[i], schema[i].default.value)
  }

  /** Validating a request body: extra keys are ignored, every declared field
      is checked, and either the dump of the model or the list of every
      failing field comes back. */
  function Validate(schema: seq<Field>, raw: Record): (r: Result<Record, seq<FieldError>>)
    requires DistinctNames(schema)
    ensures r.Success? <==> forall i :: 0 <= i < |schema| ==> CheckField(schema[i], raw).Success?
    ensures r.Success? ==> r.value.Keys == Names(schema)
    ensures r.Success? ==> forall i :: 0 <= i < |schema| ==> r.value[schema[i].name] == CheckField(schema[i], raw).value
    decreases |schema|
  {
    if schema == [] then Success(map[])
    else
      var rest := Validate(schema[1..], raw);
      assert forall i :: 1 <= i < |schema| ==> schema[1..][i - 1] == schema[i];
      match CheckField(schema[0], raw)
      case Success(v) =>
        if rest.Success? then Success(rest.value[schema[0].name := v]) else rest
      case Failure(e) =>
        Failure([e] + if rest.Failure? then rest.error else [])
  }

  /** A rejected body is reported with every failing field, and only those. */
  lemma {:induction false} ValidateReportsEveryFailure(schema: seq<Field>, raw: Record, i: nat)
    requires DistinctNames(schema)
    requires i < |schema|
    ensures CheckField(schema[i], raw).Failure? ==> Validate(schema, raw).Failure? && CheckField(schema[i], raw).error in Validate(schema, raw).error
    decreases |schema|
  {
    if i > 0 {
      assert schema[1..][i - 1] == schema[i];
      ValidateReportsEveryFailure(schema[1..], raw, i - 1);
    }
  }

  lemma {:induction false} ValidateReportsOnlyFailures(schema: seq<Field>, raw: Record, e: FieldError)
    requires DistinctNames(schema)
    requires Validate(schema, raw).Failure? && e in Validate(schema, raw).error
    ensures exists i :: 0 <= i < |schema| && CheckField(schema[i], raw) == Failure(e)
    decreases |schema|
  {
    var rest := Validate(schema[1..], raw);
    if CheckField(schema[0], raw) != Failure(e) {
      assert rest.Failure? && e in rest.error;
      ValidateReportsOnlyFailures(schema[1..], raw, e);
      var j :| 0 <= j < |schema[1..]| && CheckField(schema[1..][j], raw) == Failure(e);
      assert schema[1..][j] == schema[j + 1];
    }
  }

  /** The dump of a valid model: exactly the declared fields, each with a value
      the field accepts. */
  predicate Conforms(schema: seq<Field>, rec: Record)
  {
    && rec.Keys == Names(schema)
    && forall i :: 0 <= i < |schema| ==> Accepts(schema[i], rec[schema[i].name])
  }

  /** What validation returns is a valid model. */
  lemma ValidatedConforms(schema: seq<Field>, raw: Record)
    requires WellFormed(schema)
    requires Validate(schema, raw).Success?
    ensures Conforms(schema, Validate(schema, raw).value)
  {
    var r := Validate(schema, raw).value;
    forall i | 0 <= i < |schema|
      ensures Accepts(schema[i], r[schema[i].name])
    {
      assert CheckField(schema[i], raw).Success?;
    }
  }

  /** Validating the dump of a valid model gives the same model back. */
  lemma ConformingRevalidates(schema: seq<Field>, rec: Record)
    requires WellFormed(schema)
    requires Conforms(schema, rec)
    ensures Validate(schema, rec) == Success(rec)
  {
    forall i | 0 <= i < |schema|
      ensures CheckField(schema[i], rec) == Success(rec[schema[i].name])
    {
      assert schema[i].name in Names(schema);
    }
    var r := Validate(schema, rec).value;
    assert r.Keys == rec.Keys;
    forall k | k in r
      ensures r[k] == rec[k]
    {
      var i :| 0 <= i < |schema| && schema[i].name == k;
    }
    assert r == rec;
  }

  /** A field declared without a default must be present in the body, and
      present with a non-null value unless it is `Optional`. */
  lemma RequiredFieldPresent(schema: seq<Field>, raw: Record, i: nat)
    requires DistinctNames(schema)
    requires i < |schema| && schema[i].default.None?
    requires Validate(schema, raw).Success?
    ensures schema[i].name in raw
    ensures Accepts(schema[i], raw[schema[i].name])
  {
    assert CheckField(schema[i], raw).Success?;
  }

  /** A field left out of the body takes its default. */
  lemma AbsentFieldDefaults(schema: seq<Field>, raw: Record, i: nat)
    requires DistinctNames(schema)
    requires i < |schema| && schema[i].name !in raw
    requires Validate(schema, raw).Success?
    ensures schema[i].default.Some?
    ensures Validate(schema, raw).value[schema[i].name] == schema[i].default.value
  {
    assert CheckField(schema[i], raw).Success?;
  }

  // ---------------------------------------------------------------------------
  // The five models

  /** `User`: every field optional and absent by default, `is_active` true. */
  const UserSchema: seq<Field> := [
    OptionalField("name", Str, None, None),
    OptionalField("email", Str, None, None),
    OptionalField("provider", Str, None, None),
    OptionalField("provider_id", Str, None, None),
    OptionalField("photo_url", Str, None, None),
    Field("is_active", Boolean, false, Some(Bool(true)), None, None)
  ]

  const GuardianSchema: seq<Field> := [
    Required("user_id", Str, None, None),
    Required("name", Str, None, None),
    OptionalField("phone", Str, None, None),
    OptionalField("email", Str, None, None),
    OptionalField("relationship", Str, None, None)
  ]

  const TrackpointSchema: seq<Field> := [
    Required("user_id", Str, None, None),
    Required("lat", Float, Some(-90.0), Some(90.0)),
    Required("lng", Float, Some(-180.0), Some(180.0)),
    OptionalField("accuracy", Float, Some(0.0), None),
    OptionalField("speed", Float, Some(0.0), None),
    OptionalField("heading", Float, Some(0.0), Some(360.0)),
    OptionalField("battery", Float, Some(0.0), Some(100.0)),
    OptionalField("ts", Datetime, None, None)
  ]

  const IncidentSchema: seq<Field> := [
    Required("user_id", Str, None, None),
    Required("type", Str, None, None),
    OptionalField("description", Str, None, None),
    OptionalField("lat", Float, Some(-90.0), Some(90.0)),
    OptionalField("lng", Float, Some(-180.0), Some(180.0)),
    Field("media_urls", StrList, false, Some(List([])), None, None),
    OptionalField("severity", Int, Some(1.0), Some(5.0))
  ]

  const AreaalertSchema: seq<Field> := [
    Required("title", Str, None, None),
    Required("message", Str, None, None),
    Required("lat", Float, Some(-90.0), Some(90.0)),
    Required("lng", Float, Some(-180.0), Some(180.0)),
    Required("radius_m", Int, Some(50.0), Some(20000.0)),
    Required("level", Str, None, None)
  ]

  lemma UserWellFormed() ensures WellFormed(UserSchema) {}
  lemma GuardianWellFormed() ensures WellFormed(GuardianSchema) {}
  lemma TrackpointWellFormed() ensures WellFormed(TrackpointSchema) {}
  lemma IncidentWellFormed() ensures WellFormed(IncidentSchema) {}
  lemma AreaalertWellFormed() ensures WellFormed(AreaalertSchema) {}

  // ---------------------------------------------------------------------------
  // The constraints of each model, read directly off its declaration

  predicate NumberWithin(v: Value, lo: real, hi: real)
  {
    v.Number? && lo <= v.n <= hi
  }

  predicate IntegerWithin(v: Value, lo: real, hi: real)
  {
    NumberWithin(v, lo, hi) && IsIntegral(v.n)
  }

  predicate NullOrText(v: Value)
  {
    v == Null || v.Text?
  }

  predicate ValidTrackpoint(r: Record)
  {
    && r.Keys == {"user_id", "lat", "lng", "accuracy", "speed", "heading", "battery", "ts"}
    && r["user_id"].Text?
    && NumberWithin(r["lat"], -90.0, 90.0)
    && NumberWithin(r["lng"], -180.0, 180.0)
    && (r["accuracy"] == Null || (r["accuracy"].Number? && r["accuracy"].n >= 0.0))
    && (r["speed"] == Null || (r["speed"].Number? && r["speed"].n >= 0.0))
    && (r["heading"] == Null || NumberWithin(r["heading"], 0.0, 360.0))
    && (r["battery"] == Null || NumberWithin(r["battery"], 0.0, 100.0))
    && (r["ts"] == Null || r["ts"].DateTime?)
  }

  predicate ValidIncident(r: Record)
  {
    && r.Keys == {"user_id", "type", "description", "lat", "lng", "media_urls", "severity"}
    && r["user_id"].Text?
    && r["type"].Text?
    && NullOrText(r["description"])
    && (r["lat"] == Null || NumberWithin(r["lat"], -90.0, 90.0))
    && (r["lng"] == Null || NumberWithin(r["lng"], -180.0, 180.0))
    && r["media_urls"].List?
    && (forall k :: 0 <= k < |r["media_urls"].items| ==> r["media_urls"].items[k].Text?)
    && (r["severity"] == Null || IntegerWithin(r["severity"], 1.0, 5.0))
  }

  predicate ValidAreaalert(r: Record)
  {
    && r.Keys == {"title", "message", "lat", "lng", "radius_m", "level"}
    && r["title"].Text?
    && r["message"].Text?
    && NumberWithin(r["lat"], -90.0, 90.0)
    && NumberWithin(r["lng"], -180.0, 180.0)
    && IntegerWithin(r["radius_m"], 50.0, 20000.0)
    && r["level"].Text?
  }

  predicate ValidGuardian(r: Record)
  {
    && r.Keys == {"user_id", "name", "phone", "email", "relationship"}
    && r["user_id"].Text?
    && r["name"].Text?
    && NullOrText(r["phone"])
    && NullOrText(r["email"])
    && NullOrText(r["relationship"])
  }

  lemma TrackpointNames()
    ensures Names(TrackpointSchema) == {"user_id", "lat", "lng", "accuracy", "speed", "heading", "battery", "ts"}
  {
    var s := TrackpointSchema;
    assert s[0].name == "user_id" && s[1].name == "lat" && s[2].name == "lng" && s[3].name == "accuracy";
    assert s[4].name == "speed" && s[5].name == "heading" && s[6].name == "battery" && s[7].name == "ts";
  }

  lemma TrackpointConforms(r: Record)
    requires ValidTrackpoint(r)
    ensures Conforms(TrackpointSchema, r)
  {
    var s := TrackpointSchema;
    TrackpointNames();
    forall i | 0 <= i < |s|
      ensures Accepts(s[i], r[s[i].name])
    {
      if i == 0 {} else if i == 1 {} else if i == 2 {} else if i == 3 {}
      else if i == 4 {} else if i == 5 {} else if i == 6 {} else {}
    }
  }

  lemma ConformingTrackpointValid(r: Record)
    requires Conforms(TrackpointSchema, r)
    ensures ValidTrackpoint(r)
  {
    var s := TrackpointSchema;
    TrackpointNames();
    assert Accepts(s[0], r[s[0].name]) && Accepts(s[1], r[s[1].name]);
    assert Accepts(s[2], r[s[2].name]) && Accepts(s[3], r[s[3].name]);
    assert Accepts(s[4], r[s[4].name]) && Accepts(s[5], r[s[5].name]);
    assert Accepts(s[6], r[s[6].name]) && Accepts(s[7], r[s[7].name]);
  }

  /** A Trackpoint dump is valid exactly when its fields satisfy the
      declared constraints. */
  lemma TrackpointValidity(r: Record)
    ensures Conforms(TrackpointSchema, r) <==> ValidTrackpoint(r)
  {
    if ValidTrackpoint(r) {
      TrackpointConforms(r);
    }
    if Conforms(TrackpointSchema, r) {
      ConformingTrackpointValid(r);
    }
  }

  lemma IncidentNames()
    ensures Names(IncidentSchema) == {"user_id", "type", "description", "lat", "lng", "media_urls", "severity"}
  {
    var s := IncidentSchema;
    assert s[0].name == "user_id" && s[1].name == "type" && s[2].name == "description" && s[3].name == "lat";
    assert s[4].name == "lng" && s[5].name == "media_urls" && s[6].name == "severity";
  }

  lemma IncidentConforms(r: Record)
    requires ValidIncident(r)
    ensures Conforms(IncidentSchema, r)
  {
    var s := IncidentSchema;
    IncidentNames();
    forall i | 0 <= i < |s|
      ensures Accepts(s[i], r[s[i].name])
    {
      if i == 0 {} else if i == 1 {} else if i == 2 {} else if i == 3 {} else if i == 4 {} else if i == 5 {} else {}
    }
  }

  lemma ConformingIncidentValid(r: Record)
    requires Conforms(IncidentSchema, r)
    ensures ValidIncident(r)
  {
    var s := IncidentSchema;
    IncidentNames();
    assert Accepts(s[0], r[s[0].name]) && Accepts(s[1], r[s[1].name]);
    assert Accepts(s[2], r[s[2].name]) && Accepts(s[3], r[s[3].name]);
    assert Accepts(s[4], r[s[4].name]) && Accepts(s[5], r[s[5].name]);
    assert Accepts(s[6], r[s[6].name]);
  }

  lemma IncidentValidity(r: Record)
    ensures Conforms(IncidentSchema, r) <==> ValidIncident(r)
  {
    if ValidIncident(r) {
      IncidentConforms(r);
    }
    if Conforms(IncidentSchema, r) {
      ConformingIncidentValid(r);
    }
  }

  lemma AreaalertNames()
    ensures Names(AreaalertSchema) == {"title", "message", "lat", "lng", "radius_m", "level"}
  {
    var s := AreaalertSchema;
    assert s[0].name == "title" && s[1].name == "message" && s[2].name == "lat" && s[3].name == "lng";
    assert s[4].name == "radius_m" && s[5].name == "level";
  }

  lemma AreaalertConforms(r: Record)
    requires ValidAreaalert(r)
    ensures Conforms(AreaalertSchema, r)
  {
    var s := AreaalertSchema;
    AreaalertNames();
    forall i | 0 <= i < |s|
      ensures Accepts(s[i], r[s[i].name])
    {
      if i == 0 {} else if i == 1 {} else if i == 2 {} else if i == 3 {} else if i == 4 {} else {}
    }
  }

  lemma ConformingAreaalertValid(r: Record)
    requires Conforms(AreaalertSchema, r)
    ensures ValidAreaalert(r)
  {
    var s := AreaalertSchema;
    AreaalertNames();
    assert Accepts(s[0], r[s[0].name]) && Accepts(s[1], r[s[1].name]);
    assert Accepts(s[2], r[s[2].name]) && Accepts(s[3], r[s[3].name]);
    assert Accepts(s[4], r[s[4].name]) && Accepts(s[5], r[s[5].name]);
  }

  lemma AreaalertValidity(r: Record)
    ensures Conforms(AreaalertSchema, r) <==> ValidAreaalert(r)
  {
    if ValidAreaalert(r) {
      AreaalertConforms(r);
    }
    if Conforms(AreaalertSchema, r) {
      ConformingAreaalertValid(r);
    }
  }

  lemma GuardianNames()
    ensures Names(GuardianSchema) == {"user_id", "name", "phone", "email", "relationship"}
  {
    var s := GuardianSchema;
    assert s[0].name == "user_id" && s[1].name == "name" && s[2].name == "phone" && s[3].name == "email";
    assert s[4].name == "relationship";
  }

  lemma GuardianConforms(r: Record)
    requires ValidGuardian(r)
    ensures Conforms(GuardianSchema, r)
  {
    var s := GuardianSchema;
    GuardianNames();
    forall i | 0 <= i < |s|
      ensures Accepts(s[i], r[s[i].name])
    {
      if i == 0 {} else if i == 1 {} else if i == 2 {} else if i == 3 {} else {}
    }
  }

  lemma ConformingGuardianValid(r: Record)
    requires Conforms(GuardianSchema, r)
    ensures ValidGuardian(r)
  {
    var s := GuardianSchema;
    GuardianNames();
    assert Accepts(s[0], r[s[0].name]) && Accepts(s[1], r[s[1].name]);
    assert Accepts(s[2], r[s[2].name]) && Accepts(s[3], r[s[3].name]);
    assert Accepts(s[4], r[s[4].name]);
  }

  lemma GuardianValidity(r: Record)
    ensures Conforms(GuardianSchema, r) <==> ValidGuardian(r)
  {
    if ValidGuardian(r) {
      GuardianConforms(r);
    }
    if Conforms(GuardianSchema, r) {
      ConformingGuardianValid(r);
    }
  }

  /** `user_id` is required on a Guardian, a Trackpoint and an Incident: a
      body without it, or with a non-string, is rejected. */
  lemma UserIdRequired(schema: seq<Field>, raw: Record)
    requires schema == GuardianSchema || schema == TrackpointSchema || schema == IncidentSchema
    requires DistinctNames(schema)
    requires Validate(schema, raw).Success?
    ensures "user_id" in raw && raw["user_id"].Text?
  {
    RequiredFieldPresent(schema, raw, 0);
  }

  /** An Incident sent without `media_urls` is stored with an empty list. */
  lemma MediaUrlsDefaultEmpty(schema: seq<Field>, raw: Record)
    requires schema == IncidentSchema && DistinctNames(schema)
    requires "media_urls" !in raw
    requires Validate(schema, raw).Success?
    ensures "media_urls" in Validate(schema, raw).value && Validate(schema, raw).value["media_urls"] == List([])
  {
    AbsentFieldDefaults(schema, raw, 5);
  }

  /** Every `User` field has a default, so an empty body is accepted. */
  lemma UserFieldsDefault()
    ensures forall i :: 0 <= i < |UserSchema| ==> CheckField(UserSchema[i], map[]) == Success(UserSchema[i].default.value)
  {
    var s := UserSchema;
    forall i | 0 <= i < |s|
      ensures CheckField(s[i], map[]) == Success(s[i].default.value)
    {
      if i == 0 {} else if i == 1 {} else if i == 2 {} else if i == 3 {} else if i == 4 {} else {}
    }
  }

  /** Every `User` field but `is_active` defaults to null. */
  lemma UserNullDefaults()
    ensures forall i :: 0 <= i < |UserSchema| && UserSchema[i].name != "is_active" ==> UserSchema[i].default == Some(Null)
    ensures UserSchema[5].name == "is_active" && UserSchema[5].default == Some(Bool(true))
  {
    var s := UserSchema;
    forall i | 0 <= i < |s| && s[i].name != "is_active"
      ensures s[i].default == Some(Null)
    {
      if i == 0 {} else if i == 1 {} else if i == 2 {} else if i == 3 {} else if i == 4 {} else {}
    }
  }

  /** A `User` built from nothing is active and has every other field null. */
  lemma UserDefaultsFromNothing()
    ensures Validate(UserSchema, map[]).Success?
    ensures Validate(UserSchema, map[]).value.Keys == Names(UserSchema)
    ensures "is_active" in Validate(UserSchema, map[]).value
    ensures Validate(UserSchema, map[]).value["is_active"] == Bool(true)
    ensures forall k :: k in Validate(UserSchema, map[]).value && k != "is_active" ==> Validate(UserSchema, map[]).value[k] == Null
  {
    var s := UserSchema;
    var raw: Record := map[];
    UserWellFormed();
    UserFieldsDefault();
    UserNullDefaults();
    var r := Validate(s, raw).value;
    forall k | k in r && k != "is_active"
      ensures r[k] == Null
    {
      var i :| 0 <= i < |s| && s[i].name == k;
      assert r[k] == CheckField(s[i], raw).value;
    }
  }

  lemma UserNames()
    ensures Names(UserSchema) == {"name", "email", "provider", "provider_id", "photo_url", "is_active"}
  {
    var s := UserSchema;
    assert s[0].name == "name" && s[1].name == "email" && s[2].name == "provider";
    assert s[3].name == "provider_id" && s[4].name == "photo_url" && s[5].name == "is_active";
  }
}
