/**
 * The per-vehicle filter and classifier: which GPS records become report rows,
 * and what status, place and unit name each row carries.
 */
module Telemetry {
  import opened Wrappers
  import opened Json
  import opened Filtering

  /** A report is stale once it is more than one hour old (timestamps are in seconds). */
  const OneHour: int := 3600

  /** The unit name used when the record has no `name` key. */
  const Unnamed: string := "Sin nombre"

  datatype Address = Address(id: Field<string>)

  datatype ReverseGeo = ReverseGeo(formattedLocation: Field<string>)

  /**
   * The `gps` object of a vehicle. Coordinates are kept as the text Python prints
   * for them; the speed is compared with zero only.
   */
  datatype Gps = Gps(
    time: Field<string>,
    address: Field<Address>,
    speedMilesPerHour: Field<int>,
    isEcuSpeed: Field<bool>,
    reverseGeo: Field<ReverseGeo>,
    latitude: Field<string>,
    longitude: Field<string>)

  /** One element of the vehicle-stats `data` list. */
  datatype Vehicle = Vehicle(name: Field<string>, gps: Field<Gps>)

  /** What `u.get("gps", {})` yields when the key is missing. */
  const NoGps: Gps := Gps(Absent, Absent, Absent, Absent, Absent, Absent, Absent)

  datatype Status = Stopped | InRoute

  /** The text written into the status column. */
  function Label(s: Status): string
  {
    match s
    case Stopped => "DETENIDO"
    case InRoute => "RUTA"
  }

  /** One report row; `unit` is None when the record's name is JSON null. */
  datatype Row = Row(unit: Option<string>, location: string, status: Status)

  /**
   * What a run classifies against: the exclusion set, the current time in seconds,
   * and the timestamp parser (None when the text does not parse).
   */
  datatype Context = Context(excluded: set<string>, now: int, parse: string -> Option<int>)

  /** The gps object the classifier reads (the empty object when the key is missing). */
  function GpsOf(v: Vehicle): Gps
  {
    if v.gps.Present? then v.gps.value else NoGps
  }

  /** `speed == 0` for `speed = gps.get("speedMilesPerHour", 0)`: a JSON null speed is not zero. */
  predicate ZeroSpeed(g: Gps)
  {
    GetOr(g.speedMilesPerHour, 0) == Some(0)
  }

  /** The truthiness of `gps.get("isEcuSpeed", False)`: only an explicit true counts. */
  predicate EcuSpeed(g: Gps)
  {
    GetOr(g.isEcuSpeed, false) == Some(true)
  }

  /** Python's `str` of a value that may be missing: missing and null both print as None. */
  function PyStr(f: Field<string>): string
  {
    match Get(f)
    case Some(s) => s
    case None => "None"
  }

  /** The geocoded place, or the coordinate fallback when it is missing, null or empty. */
  function Place(g: Gps, geo: ReverseGeo): string
  {
    var formatted := Get(geo.formattedLocation);
    if TruthyText(formatted) then formatted.value
    else "Lat: " + PyStr(g.latitude) + ", Lon: " + PyStr(g.longitude)
  }

  /**
   * A row's location is never empty. A non-empty geocoded text is used as it is,
   * whatever the coordinates; a missing, null or empty one falls back to the
   * coordinates, the same way in all three cases.
   */
  lemma PlaceFallback(g: Gps, other: Gps, geo: ReverseGeo)
    ensures Place(g, geo) != ""
    ensures TruthyText(Get(geo.formattedLocation)) ==>
      Place(g, geo) == Place(other, geo) == Get(geo.formattedLocation).value
    ensures !TruthyText(Get(geo.formattedLocation)) ==>
      Place(g, geo) == Place(g, ReverseGeo(Absent)) == "Lat: " + PyStr(g.latitude) + ", Lon: " + PyStr(g.longitude)
  {
  }

  // The gates, stated on their own so that the classifier can be characterised by them.

  /** The staleness gate drops the record: it carries a timestamp that parses to more than an hour before now. */
  predicate Stale(v: Vehicle, ctx: Context)
  {
    var t := Get(GpsOf(v).time);
    TruthyText(t) && ctx.parse(t.value).Some? && ctx.now - ctx.parse(t.value).value > OneHour
  }

  /** The exclusion gate drops the record: its address id is excluded. */
  predicate Excluded(v: Vehicle, ctx: Context)
  {
    GpsOf(v).address.Present? && Get(GpsOf(v).address.value.id).Some?
    && Get(GpsOf(v).address.value.id).value in ctx.excluded
  }

  /** The noise gate drops the record: zero speed without the ECU flag. */
  predicate Noise(v: Vehicle)
  {
    ZeroSpeed(GpsOf(v)) && !EcuSpeed(GpsOf(v))
  }

  /**
   * Handling the record raises, which drops it: a nested object is JSON null, or
   * the timestamp is present but does not parse.
   */
  predicate Raises(v: Vehicle, ctx: Context)
  {
    v.gps.Null? || GpsOf(v).address.Null? || GpsOf(v).reverseGeo.Null?
    || (TruthyText(Get(GpsOf(v).time)) && ctx.parse(Get(GpsOf(v).time).value).None?)
  }

  /**
   * One iteration of the record loop: the row the record contributes, or None when
   * a gate drops it or handling it raises.
   */
  function Classify(v: Vehicle, ctx: Context): Option<Row>
  {
    match GetOr(v.gps, NoGps)
    case None => None
    case Some(g) =>
      var t := Get(g.time);
      if TruthyText(t) && (ctx.parse(t.value).None? || ctx.now - ctx.parse(t.value).value > OneHour) then
        None
      else
        match GetOr(g.address, Address(Absent))
        case None => None
        case Some(a) =>
          if Get(a.id).Some? && Get(a.id).value in ctx.excluded then None
          else if ZeroSpeed(g) && !EcuSpeed(g) then None
          else
            match GetOr(g.reverseGeo, ReverseGeo(Absent))
            case None => None
            case Some(geo) =>
              var status := if ZeroSpeed(g) && EcuSpeed(g) then Stopped else InRoute;
              Some(Row(GetOr(v.name, Unnamed), Place(g, geo), status))
  }

  /**
   * What the classifier promises, gate by gate: each gate drops the record whatever
   * the other fields say; a record is reported exactly when it passes every gate
   * without raising; the status is STOPPED exactly for zero speed with the ECU flag;
   * the unit and place come from the name default and the location fallback.
   */
  lemma ClassifyGates(v: Vehicle, ctx: Context)
    ensures Stale(v, ctx) ==> Classify(v, ctx).None?
    ensures Excluded(v, ctx) ==> Classify(v, ctx).None?
    ensures Noise(v) ==> Classify(v, ctx).None?
    ensures Classify(v, ctx).Some? <==> !Raises(v, ctx) && !Stale(v, ctx) && !Excluded(v, ctx) && !Noise(v)
    ensures Classify(v, ctx).Some? ==>
      (Classify(v, ctx).value.status == Stopped <==> ZeroSpeed(GpsOf(v)) && EcuSpeed(GpsOf(v)))
    ensures Classify(v, ctx).Some? && ZeroSpeed(GpsOf(v)) ==> Classify(v, ctx).value.status == Stopped
    ensures Classify(v, ctx).Some? ==> Classify(v, ctx).value.unit == GetOr(v.name, Unnamed)
    ensures Classify(v, ctx).Some? ==>
      Classify(v, ctx).value.location == Place(GpsOf(v), GetOr(GpsOf(v).reverseGeo, ReverseGeo(Absent)).value)
  {
  }

  /** A record without a usable timestamp is classified the same whatever the clock and parser. */
  lemma UntimedIgnoresClock(v: Vehicle, ctx: Context, now: int, parse: string -> Option<int>)
    requires !TruthyText(Get(GpsOf(v).time))
    ensures Classify(v, ctx) == Classify(v, ctx.(now := now, parse := parse))
  {
  }

  /** A record without an address id is classified the same whatever the exclusion set. */
  lemma UnaddressedIgnoresExclusion(v: Vehicle, ctx: Context, excluded: set<string>)
    requires GpsOf(v).address.Present? ==> Get(GpsOf(v).address.value.id).None?
    ensures Classify(v, ctx) == Classify(v, ctx.(excluded := excluded))
  {
  }

  /** The classifier as a filter over records. */
  function Accept(ctx: Context): Vehicle -> Option<Row>
  {
    v => Classify(v, ctx)
  }

  /** The rows of the record loop, in input order: the specification of `Process`. */
  function Report(vs: seq<Vehicle>, ctx: Context): seq<Row>
  {
    FilterMap(vs, Accept(ctx))
  }

  /**
   * The report is an order-preserving subsequence of the records: row `k` comes from
   * record `Origins(vs, Accept(ctx))[k]`, those indices strictly increase, and a
   * record yields a row exactly when the classifier accepts it.
   */
  lemma {:induction false} ReportIsOrderedSubsequence(vs: seq<Vehicle>, ctx: Context)
    ensures |Origins(vs, Accept(ctx))| == |Report(vs, ctx)| <= |vs|
    ensures forall k :: 0 <= k < |Report(vs, ctx)| ==>
      Origins(vs, Accept(ctx))[k] < |vs| && Classify(vs[Origins(vs, Accept(ctx))[k]], ctx) == Some(Report(vs, ctx)[k])
    ensures forall k, l :: 0 <= k < l < |Report(vs, ctx)| ==> Origins(vs, Accept(ctx))[k] < Origins(vs, Accept(ctx))[l]
    ensures forall i :: 0 <= i < |vs| ==> (i in Origins(vs, Accept(ctx)) <==> Classify(vs[i], ctx).Some?)
  {
    OrderedSubsequence(vs, Accept(ctx));
  }

  /**
   * Partial-failure isolation: a record that is dropped, whatever the reason,
   * leaves the rows of every other record as they were.
   */
  lemma DroppedRecordIsInvisible(a: seq<Vehicle>, v: Vehicle, b: seq<Vehicle>, ctx: Context)
    requires Classify(v, ctx).None?
    ensures Report(a + [v] + b, ctx) == Report(a + b, ctx)
  {
    var f := Accept(ctx);
    FilterMapAppend(a + [v], b, f);
    FilterMapAppend(a, [v], f);
    FilterMapAppend(a, b, f);
    assert FilterMap([v], f) == [] by {
      assert [v][..0] == [];
    }
  }

  /** The record loop: appends each accepted record's row to `results`, in order. */
  method Process(vehicles: seq<Vehicle>, ctx: Context) returns (results: seq<Row>)
    ensures results == Report(vehicles, ctx)
  {
    results := [];
    var i := 0;
    while i < |vehicles|
      invariant 0 <= i <= |vehicles|
      invariant results == Report(vehicles[..i], ctx)
    {
      assert vehicles[..i + 1][..i] == vehicles[..i];
      var r := Classify(vehicles[i], ctx);
      if r.Some? {
        results := results + [r.value];
      }
      i := i + 1;
    }
    assert vehicles[..|vehicles|] == vehicles;
  }

  /** A record with only an address id, a speed and the ECU flag. */
  function AtAddress(id: string, speed: int, ecu: bool): Vehicle
  {
    Vehicle(Absent, Present(Gps(Absent, Present(Address(Present(id))), Present(speed), Present(ecu), Absent, Absent, Absent)))
  }

  /**
   * An excluded address and a zero speed without the ECU flag both drop their
   * record; a zero speed with the flag is the one STOPPED row, with the name and
   * location defaults.
   */
  lemma ExclusionAndNoiseScenario()
    ensures Report([AtAddress("X1", 30, true), AtAddress("X2", 0, true), AtAddress("X3", 0, false)],
                   Context({"X1"}, 0, (s: string) => None))
         == [Row(Some(Unnamed), "Lat: None, Lon: None", Stopped)]
  {
    var ctx := Context({"X1"}, 0, (s: string) => None);
    var vs := [AtAddress("X1", 30, true), AtAddress("X2", 0, true), AtAddress("X3", 0, false)];
    assert Classify(vs[0], ctx) == None;
    assert Place(GpsOf(vs[1]), ReverseGeo(Absent)) == "Lat: None, Lon: None";
    assert Classify(vs[1], ctx) == Some(Row(Some(Unnamed), "Lat: None, Lon: None", Stopped));
    assert Classify(vs[2], ctx) == None;
    var f := Accept(ctx);
    assert vs[..2][..1] == vs[..1] && vs[..1][..0] == [];
    assert FilterMap(vs[..1], f) == [];
    assert FilterMap(vs[..2], f) == [Row(Some(Unnamed), "Lat: None, Lon: None", Stopped)];
    assert vs[..2] == vs[..|vs| - 1];
  }

  /** A moving record two hours old is dropped by the staleness gate alone. */
  lemma StaleScenario()
    ensures Classify(Vehicle(Absent, Present(Gps(Present("t"), Absent, Present(40), Present(false), Absent, Absent, Absent))),
                     Context({}, 2 * OneHour, (s: string) => Some(0))) == None
  {
  }
}
