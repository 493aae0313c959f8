/**
 * The ship service's validation and derivation rules, on values: id and field checks,
 * half-up rounding to hundredths, the rating formula, and what create and partial
 * update make of a request body.
 */
module ShipRules {
  import opened Nullable
  import opened ShipTypes
  import opened Ships

  /** The fields `checkAllShipFields` inspects, in the order it inspects them. */
  datatype Field = CrewSize | Name | Speed | ProdDate | Planet | Type

  datatype Reason = IncorrectId | NotEnoughParameters | OutOfRange(field: Field)

  /** The two exceptions the service throws. */
  datatype Error = BadRequest(reason: Reason) | NotFound

  /** Either no exception, or the one thrown. */
  datatype Check = Pass | Fail(error: Error)

  datatype Result<T> = Ok(value: T) | Err(error: Error)

  /** Production-date bounds in epoch milliseconds, both inclusive. */
  const MinProdDate: int := 26192235600000
  const MaxProdDate: int := 33134734800000

  // ---------------------------------------------------------------- ids

  /** A null or non-positive id is a bad request; every positive id passes. */
  function CheckId(id: Option<int>): (r: Check)
    ensures r.Pass? <==> id.Some? && id.value > 0
    ensures r.Fail? ==> r.error == BadRequest(IncorrectId)
  {
    if id.None? || id.value <= 0 then Fail(BadRequest(IncorrectId)) else Pass
  }

  // ---------------------------------------------------------------- field checks

  predicate CrewSizeOk(crewSize: int) { 0 <= crewSize <= 9999 }

  /** Name and planet: not empty and at most 50 characters. */
  predicate TextOk(s: string) { 0 < |s| <= 50 }

  predicate SpeedOk(speed: real) { 0.0 < speed < 1.0 }

  predicate ProdDateOk(ms: int) { MinProdDate <= ms <= MaxProdDate }

  /** Field `f` of `s` is null or in range. */
  predicate Satisfies(s: ShipRecord, f: Field) {
    match f
    case CrewSize => s.crewSize.None? || CrewSizeOk(s.crewSize.value)
    case Name => s.name.None? || TextOk(s.name.value)
    case Speed => s.speed.None? || SpeedOk(s.speed.value)
    case ProdDate => s.prodDate.None? || ProdDateOk(s.prodDate.value)
    case Planet => s.planet.None? || TextOk(s.planet.value)
    case Type => s.shipType.None? || IsMemberName(ShipTypes.Name(s.shipType.value))
  }

  /** Every present field is in range; null fields are not constrained. */
  predicate FieldsInRange(s: ShipRecord) {
    && Satisfies(s, CrewSize) && Satisfies(s, Name) && Satisfies(s, Speed)
    && Satisfies(s, ProdDate) && Satisfies(s, Planet) && Satisfies(s, Type)
  }

  /** Position of a field among the checks. */
  function Rank(f: Field): nat {
    match f
    case CrewSize => 0
    case Name => 1
    case Speed => 2
    case ProdDate => 3
    case Planet => 4
    case Type => 5
  }

  /** The checks in order; the first present field out of range is reported. */
  function CheckAllShipFields(s: ShipRecord): (r: Check)
    ensures r.Pass? <==> FieldsInRange(s)
    ensures r.Fail? ==> r.error.BadRequest? && r.error.reason.OutOfRange?
    ensures r.Fail? ==> !Satisfies(s, r.error.reason.field)
  {
    if !Satisfies(s, CrewSize) then Fail(BadRequest(OutOfRange(CrewSize)))
    else if !Satisfies(s, Name) then Fail(BadRequest(OutOfRange(Name)))
    else if !Satisfies(s, Speed) then Fail(BadRequest(OutOfRange(Speed)))
    else if !Satisfies(s, ProdDate) then Fail(BadRequest(OutOfRange(ProdDate)))
    else if !Satisfies(s, Planet) then Fail(BadRequest(OutOfRange(Planet)))
    else if !Satisfies(s, Type) then Fail(BadRequest(OutOfRange(Type)))
    else Pass
  }

  /** `FieldsInRange` is the conjunction over every field. */
  lemma FieldsInRangeIff(s: ShipRecord)
    ensures FieldsInRange(s) <==> forall f: Field :: Satisfies(s, f)
  {
    if FieldsInRange(s) {
      forall f: Field ensures Satisfies(s, f) {
        match f
        case CrewSize =>
        case Name =>
        case Speed =>
        case ProdDate =>
        case Planet =>
        case Type =>
      }
    }
  }

  /** The reported field is the first one, in check order, that is out of range. */
  lemma CheckReportsFirstViolation(s: ShipRecord, f: Field)
    requires CheckAllShipFields(s) == Fail(BadRequest(OutOfRange(f)))
    ensures !Satisfies(s, f)
    ensures forall g: Field :: Rank(g) < Rank(f) ==> Satisfies(s, g)
  {
    forall g: Field | Rank(g) < Rank(f) ensures Satisfies(s, g) {
      match g
      case CrewSize =>
      case Name =>
      case Speed =>
      case ProdDate =>
      case Planet =>
      case Type =>
    }
  }

  /** A present ship type always passes: its name is a member. So `Type` is never reported. */
  lemma TypeCheckNeverFails(s: ShipRecord)
    ensures Satisfies(s, Type)
    ensures CheckAllShipFields(s) != Fail(BadRequest(OutOfRange(Type)))
  {
    if s.shipType.Some? {
      NameIsMember(s.shipType.value);
    }
  }

  // ---------------------------------------------------------------- rounding

  /** `r` is a whole number of hundredths. */
  predicate IsHundredths(r: real) {
    (r * 100.0).Floor as real == r * 100.0
  }

  /** `Math.round(x * 100) / 100`: half-up rounding to two decimals. */
  function Round2(x: real): (r: real)
    ensures IsHundredths(r)
    ensures x - 0.005 < r <= x + 0.005
  {
    ((x * 100.0 + 0.5).Floor as real) / 100.0
  }

  /** The two properties of `Round2` pin its result down: it is the nearest hundredth, ties upward. */
  lemma Round2Unique(x: real, y: real)
    requires IsHundredths(y)
    requires x - 0.005 < y <= x + 0.005
    ensures Round2(x) == y
  {
    var k := (y * 100.0).Floor;
    assert k as real <= x * 100.0 + 0.5 < k as real + 1.0;
    assert (x * 100.0 + 0.5).Floor == k;
  }

  /** Rounding an already rounded value changes nothing. */
  lemma Round2Idempotent(x: real)
    ensures Round2(Round2(x)) == Round2(x)
  {
    Round2Unique(Round2(x), Round2(x));
  }

  lemma Round2Monotone(x: real, y: real)
    requires x <= y
    ensures Round2(x) <= Round2(y)
  {
    var a, b := x * 100.0 + 0.5, y * 100.0 + 0.5;
    assert a <= b;
    assert a.Floor as real <= a && b < b.Floor as real + 1.0;
    assert a.Floor <= b.Floor;
  }

  /** An input speed strictly inside (0, 1) rounds into [0, 1]. */
  lemma RoundedSpeedRange(speed: real)
    requires SpeedOk(speed)
    ensures 0.0 <= Round2(speed) <= 1.0
  {
    Round2Monotone(0.0, speed);
    Round2Monotone(speed, 1.0);
    Round2Unique(0.0, 0.0);
    Round2Unique(1.0, 1.0);
  }

  /** Validation runs before rounding, so a speed that passes can be stored as 0.0 (or 1.0). */
  lemma RoundedSpeedLeavesOpenRange()
    ensures SpeedOk(0.004) && Round2(0.004) == 0.0
    ensures SpeedOk(0.996) && Round2(0.996) == 1.0
  {
    Round2Unique(0.004, 0.0);
    Round2Unique(0.996, 1.0);
  }

  // ---------------------------------------------------------------- rating

  /** `80 * speed * k / (3019 - year + 1)`, with `k` = 0.5 for a used ship and 1 otherwise. */
  function RawRating(used: bool, speed: real, year: int): real
    requires year <= 3019
  {
    var k := if used then 0.5 else 1.0;
    (80.0 * speed * k) / ((3019 - year + 1) as real)
  }

  /** `calculateRating`: the formula rounded half-up to hundredths. */
  function Rating(used: bool, speed: real, year: int): (r: real)
    requires year <= 3019
    ensures IsHundredths(r)
    ensures RawRating(used, speed, year) - 0.005 < r <= RawRating(used, speed, year) + 0.005
  {
    Round2(RawRating(used, speed, year))
  }

  /** The year of every allowed production date is at most 3019, so the divisor is at least 1. */
  predicate CalendarSound(yearOf: int -> int) {
    forall ms :: MinProdDate <= ms <= MaxProdDate ==> yearOf(ms) <= 3019
  }

  lemma DivNonneg(a: real, d: real)
    requires 0.0 <= a && 0.0 < d
    ensures 0.0 <= a / d
  {
  }

  lemma DivMonotone(a: real, b: real, d: real)
    requires a <= b && 0.0 < d
    ensures a / d <= b / d
  {
  }

  /** With speed in [0, 1] the rating lies in [0, 80]. */
  lemma RatingBounds(used: bool, speed: real, year: int)
    requires year <= 3019 && 0.0 <= speed <= 1.0
    ensures 0.0 <= Rating(used, speed, year) <= 80.0
  {
    var raw := RawRating(used, speed, year);
    var d := (3019 - year + 1) as real;
    assert 0.0 <= 80.0 * speed * (if used then 0.5 else 1.0) <= 80.0;
    assert raw <= 80.0 by {
      assert raw * d == 80.0 * speed * (if used then 0.5 else 1.0);
    }
    DivNonneg(80.0 * speed * (if used then 0.5 else 1.0), d);
    Round2Monotone(0.0, raw);
    Round2Monotone(raw, 80.0);
    Round2Unique(0.0, 0.0);
    Round2Unique(80.0, 80.0);
  }

  /** A used ship never rates above an otherwise identical new one. */
  lemma UsedRatesNoHigher(speed: real, year: int)
    requires year <= 3019 && 0.0 <= speed
    ensures Rating(true, speed, year) <= Rating(false, speed, year)
  {
    DivMonotone(80.0 * speed * 0.5, 80.0 * speed * 1.0, (3019 - year + 1) as real);
    Round2Monotone(RawRating(true, speed, year), RawRating(false, speed, year));
  }

  /** Rating grows with speed. */
  lemma RatingMonotoneInSpeed(used: bool, s1: real, s2: real, year: int)
    requires year <= 3019 && s1 <= s2
    ensures Rating(used, s1, year) <= Rating(used, s2, year)
  {
    var k := if used then 0.5 else 1.0;
    DivMonotone(80.0 * s1 * k, 80.0 * s2 * k, (3019 - year + 1) as real);
    Round2Monotone(RawRating(used, s1, year), RawRating(used, s2, year));
  }

  /** A new ship of speed 0.5 built in 3000 rates 80 * 0.5 / 20 = 2.0. */
  lemma RatingExample()
    ensures Rating(false, 0.5, 3000) == 2.0
  {
    assert RawRating(false, 0.5, 3000) == 2.0;
    Round2Unique(2.0, 2.0);
  }

  // ---------------------------------------------------------------- persisted rows

  /**
   * What the service guarantees of every row it writes: all fields present, the id
   * positive, the checked fields in range, speed rounded (into [0, 1], since it is
   * checked before rounding), and rating consistent with isUsed, speed and prodDate.
   */
  predicate Persisted(r: ShipRecord, yearOf: int -> int) {
    && r.id.Some? && r.name.Some? && r.planet.Some? && r.shipType.Some? && r.prodDate.Some?
    && r.isUsed.Some? && r.speed.Some? && r.crewSize.Some? && r.rating.Some?
    && r.id.value > 0
    && TextOk(r.name.value) && TextOk(r.planet.value) && CrewSizeOk(r.crewSize.value)
    && ProdDateOk(r.prodDate.value)
    && IsHundredths(r.speed.value) && 0.0 <= r.speed.value <= 1.0
    && yearOf(r.prodDate.value) <= 3019
    && r.rating.value == Rating(r.isUsed.value, r.speed.value, yearOf(r.prodDate.value))
  }

  // ---------------------------------------------------------------- create

  /** The six fields a create request must supply; `isUsed` may be null. */
  predicate HasRequiredFields(s: ShipRecord) {
    s.speed.Some? && s.prodDate.Some? && s.planet.Some? && s.shipType.Some? && s.name.Some? && s.crewSize.Some?
  }

  /**
   * `save`: the row written for `input` when the store assigns it `id`, or the error thrown.
   * Missing required fields are reported before any range check.
   */
  function Created(input: ShipRecord, id: int, yearOf: int -> int): (r: Result<ShipRecord>)
    requires id > 0 && CalendarSound(yearOf)
    ensures r.Ok? <==> HasRequiredFields(input) && FieldsInRange(input)
    ensures !HasRequiredFields(input) ==> r == Err(BadRequest(NotEnoughParameters))
    ensures HasRequiredFields(input) && r.Err? ==> r.error == CheckAllShipFields(input).error
    ensures r.Ok? ==> Persisted(r.value, yearOf) && r.value.id == Some(id)
    ensures r.Ok? ==> r.value.speed == Some(Round2(input.speed.value))
    ensures r.Ok? ==> r.value.isUsed == Some(input.isUsed == Some(true))
    ensures r.Ok? ==> && r.value.name == input.name && r.value.planet == input.planet
                      && r.value.shipType == input.shipType && r.value.prodDate == input.prodDate
                      && r.value.crewSize == input.crewSize
  {
    if !HasRequiredFields(input) then Err(BadRequest(NotEnoughParameters))
    else
      var check := CheckAllShipFields(input);
      if check.Fail? then Err(check.error)
      else
        RoundedSpeedRange(input.speed.value);
        var speed := Round2(input.speed.value);
        var used := input.isUsed.GetOr(false);
        var year := yearOf(input.prodDate.value);
        Ok(input.(id := Some(id), speed := Some(speed), isUsed := Some(used),
                  rating := Some(Rating(used, speed, year))))
  }

  /** The stored rating is the formula applied to the stored isUsed, speed and prodDate. */
  lemma CreatedRatingFromStoredFields(input: ShipRecord, id: int, yearOf: int -> int)
    requires id > 0 && CalendarSound(yearOf)
    requires Created(input, id, yearOf).Ok?
    ensures var row := Created(input, id, yearOf).value;
      row.rating == Some(Rating(row.isUsed.value, row.speed.value, yearOf(row.prodDate.value)))
  {
  }

  /** The end-to-end example: "Eagle", speed 0.5, built in 3000, isUsed omitted. */
  lemma CreatedExample(prodDate: int, yearOf: int -> int)
    requires CalendarSound(yearOf) && ProdDateOk(prodDate) && yearOf(prodDate) == 3000
    ensures var input := Blank.(name := Some("Eagle"), planet := Some("Earth"), shipType := Some(MILITARY),
                                prodDate := Some(prodDate), speed := Some(0.5), crewSize := Some(100));
      Created(input, 1, yearOf) == Ok(input.(id := Some(1), isUsed := Some(false), rating := Some(2.0)))
  {
    NameIsMember(MILITARY);
    Round2Unique(0.5, 0.5);
    RatingExample();
  }

  // ---------------------------------------------------------------- partial update

  /** At least one of the fields the rating depends on is supplied. */
  predicate TouchesRating(patch: ShipRecord) {
    patch.isUsed.Some? || patch.speed.Some? || patch.prodDate.Some?
  }

  /** The stored row with every non-null patch field copied over it, speed rounded, rating kept. */
  function Overlaid(stored: ShipRecord, patch: ShipRecord): ShipRecord {
    ShipRecord(stored.id, Overlay(stored.name, patch.name), Overlay(stored.planet, patch.planet),
               Overlay(stored.shipType, patch.shipType), Overlay(stored.prodDate, patch.prodDate),
               Overlay(stored.isUsed, patch.isUsed),
               if patch.speed.Some? then Some(Round2(patch.speed.value)) else stored.speed,
               Overlay(stored.crewSize, patch.crewSize), stored.rating)
  }

  /**
   * `update` on a stored row: every non-null patch field overwrites the stored one (speed
   * rounded), `id` is never taken from the patch, and the rating is recomputed exactly when
   * isUsed, speed or prodDate is supplied.
   */
  function Patched(stored: ShipRecord, patch: ShipRecord, yearOf: int -> int): (r: ShipRecord)
    requires Persisted(stored, yearOf) && FieldsInRange(patch) && CalendarSound(yearOf)
    ensures r.id == stored.id
    ensures r.name == Overlay(stored.name, patch.name)
    ensures r.planet == Overlay(stored.planet, patch.planet)
    ensures r.shipType == Overlay(stored.shipType, patch.shipType)
    ensures r.prodDate == Overlay(stored.prodDate, patch.prodDate)
    ensures r.isUsed == Overlay(stored.isUsed, patch.isUsed)
    ensures r.crewSize == Overlay(stored.crewSize, patch.crewSize)
    ensures r.speed == if patch.speed.Some? then Some(Round2(patch.speed.value)) else stored.speed
    ensures !TouchesRating(patch) ==> r.rating == stored.rating
    ensures Persisted(r, yearOf)
  {
    var merged := Overlaid(stored, patch);
    assert 0.0 <= merged.speed.value <= 1.0 && IsHundredths(merged.speed.value) by {
      if patch.speed.Some? {
        RoundedSpeedRange(patch.speed.value);
      }
    }
    if TouchesRating(patch) then
      merged.(rating := Some(Rating(merged.isUsed.value, merged.speed.value, yearOf(merged.prodDate.value))))
    else
      merged
  }

  /** An all-null patch leaves the row as it was. */
  lemma PatchedBlankIsIdentity(stored: ShipRecord, yearOf: int -> int)
    requires Persisted(stored, yearOf) && CalendarSound(yearOf)
    ensures Patched(stored, Blank, yearOf) == stored
  {
  }

  /** Applying the same patch twice is the same as applying it once. */
  lemma PatchedIdempotent(stored: ShipRecord, patch: ShipRecord, yearOf: int -> int)
    requires Persisted(stored, yearOf) && FieldsInRange(patch) && CalendarSound(yearOf)
    ensures Patched(Patched(stored, patch, yearOf), patch, yearOf) == Patched(stored, patch, yearOf)
  {
    var once := Patched(stored, patch, yearOf);
    var twice := Patched(once, patch, yearOf);
    if patch.speed.Some? {
      Round2Idempotent(patch.speed.value);
    }
    assert twice.speed == once.speed;
  }

  /** A patch that supplies only isUsed changes isUsed and rating and nothing else. */
  lemma PatchedUsageOnly(stored: ShipRecord, used: bool, yearOf: int -> int)
    requires Persisted(stored, yearOf) && CalendarSound(yearOf)
    ensures var r := Patched(stored, Blank.(isUsed := Some(used)), yearOf);
      && r == stored.(isUsed := Some(used), rating := r.rating)
      && r.rating == Some(Rating(used, stored.speed.value, yearOf(stored.prodDate.value)))
  {
  }

  /**
   * `update` from id to result: the id is checked first, then the patch, and only then is
   * the row looked up, so an invalid patch is a bad request even for an unknown id.
   */
  function Updated(store: map<int, ShipRecord>, id: Option<int>, patch: ShipRecord, yearOf: int -> int): (r: Result<ShipRecord>)
    requires CalendarSound(yearOf)
    requires forall k :: k in store ==> Persisted(store[k], yearOf)
    ensures r.Ok? <==> CheckId(id).Pass? && FieldsInRange(patch) && id.value in store
    ensures CheckId(id).Fail? ==> r == Err(BadRequest(IncorrectId))
    ensures CheckId(id).Pass? && !FieldsInRange(patch) ==> r == Err(CheckAllShipFields(patch).error)
    ensures r == Err(NotFound) <==> CheckId(id).Pass? && FieldsInRange(patch) && id.value !in store
    ensures r.Ok? ==> r.value == Patched(store[id.value], patch, yearOf)
  {
    if CheckId(id).Fail? then Err(BadRequest(IncorrectId))
    else
      var check := CheckAllShipFields(patch);
      if check.Fail? then Err(check.error)
      else if id.value !in store then Err(NotFound)
      else Ok(Patched(store[id.value], patch, yearOf))
  }

  /** Error ordering: a bad patch is reported as BadRequest whether or not the id exists. */
  lemma UpdateValidatesBeforeLookup(store: map<int, ShipRecord>, id: int, patch: ShipRecord, yearOf: int -> int)
    requires CalendarSound(yearOf)
    requires forall k :: k in store ==> Persisted(store[k], yearOf)
    requires id > 0 && id !in store && !FieldsInRange(patch)
    ensures Updated(store, Some(id), patch, yearOf).Err?
    ensures Updated(store, Some(id), patch, yearOf).error.BadRequest?
  {
  }
}
