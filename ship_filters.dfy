/**
 * The eight `filterBy*` predicate builders, their conjunction (shared by the list and
 * count endpoints) and selection over the stored rows.
 */
module ShipFilters {
  import opened Nullable
  import opened ShipTypes
  import opened Ships

  /** The optional query parameters of the list and count endpoints; `None` is an absent parameter. */
  datatype Filter = Filter(
    name: Option<string>,
    planet: Option<string>,
    shipType: Option<ShipType>,
    after: Option<int>,
    before: Option<int>,
    isUsed: Option<bool>,
    minSpeed: Option<real>,
    maxSpeed: Option<real>,
    minCrewSize: Option<int>,
    maxCrewSize: Option<int>,
    minRating: Option<real>,
    maxRating: Option<real>)

  /** A request with no filter parameter at all. */
  const NoFilter: Filter := Filter(None, None, None, None, None, None, None, None, None, None, None, None)

  /** `part` occurs in `text` starting at index `i`. */
  predicate OccursAt(text: string, part: string, i: int) {
    0 <= i && i + |part| <= |text| && text[i..i + |part|] == part
  }

  /** `text LIKE '%part%'`, read as plain (case-sensitive, unanchored) substring containment. */
  predicate ContainsText(text: string, part: string) {
    exists i :: 0 <= i <= |text| && OccursAt(text, part, i)
  }

  /** The empty text is contained in every string. */
  lemma ContainsEmpty(text: string)
    ensures ContainsText(text, "")
  {
    assert OccursAt(text, "", 0);
  }

  /** Every infix is contained, the whole string included. */
  lemma ContainsInfix(a: string, b: string, c: string)
    ensures ContainsText(a + b + c, b)
  {
    assert (a + b + c)[|a|..|a| + |b|] == b;
    assert OccursAt(a + b + c, b, |a|);
  }

  /** A text longer than the field is never contained in it. */
  lemma LongerTextNotContained(text: string, part: string)
    requires |part| > |text|
    ensures !ContainsText(text, part)
  {
  }

  /**
   * The three-way range rule: both bounds absent is no constraint, min only is `>= min`,
   * max only is `<= max`, both is the inclusive `between`. A null column never satisfies
   * an active comparison.
   */
  function IntRange(v: Option<int>, min: Option<int>, max: Option<int>): (r: bool)
    ensures r <==> (min.None? && max.None?) ||
                   (v.Some? && (min.None? || min.value <= v.value) && (max.None? || v.value <= max.value))
    ensures min.Some? && max.Some? && min.value > max.value ==> !r
  {
    RealRange(AsReal(v), AsReal(min), AsReal(max))
  }

  /** An integer column or bound compared as a real; null stays null. */
  function AsReal(v: Option<int>): Option<real> {
    if v.Some? then Some(v.value as real) else None
  }

  function RealRange(v: Option<real>, min: Option<real>, max: Option<real>): (r: bool)
    ensures r <==> (min.None? && max.None?) ||
                   (v.Some? && (min.None? || min.value <= v.value) && (max.None? || v.value <= max.value))
    ensures min.Some? && max.Some? && min.value > max.value ==> !r
  {
    if min.None? && max.None? then true
    else if min.None? then v.Some? && v.value <= max.value
    else if max.None? then v.Some? && v.value >= min.value
    else v.Some? && min.value <= v.value <= max.value
  }

  predicate ByName(name: Option<string>, s: ShipRecord) {
    name.None? || (s.name.Some? && ContainsText(s.name.value, name.value))
  }

  predicate ByPlanet(planet: Option<string>, s: ShipRecord) {
    planet.None? || (s.planet.Some? && ContainsText(s.planet.value, planet.value))
  }

  predicate ByShipType(shipType: Option<ShipType>, s: ShipRecord) {
    shipType.None? || s.shipType == shipType
  }

  /** `filterByDate`: the range rule on prodDate in epoch milliseconds. */
  predicate ByDate(after: Option<int>, before: Option<int>, s: ShipRecord) {
    IntRange(s.prodDate, after, before)
  }

  predicate ByUsage(isUsed: Option<bool>, s: ShipRecord) {
    isUsed.None? || s.isUsed == isUsed
  }

  predicate BySpeed(minSpeed: Option<real>, maxSpeed: Option<real>, s: ShipRecord) {
    RealRange(s.speed, minSpeed, maxSpeed)
  }

  predicate ByCrewSize(minCrewSize: Option<int>, maxCrewSize: Option<int>, s: ShipRecord) {
    IntRange(s.crewSize, minCrewSize, maxCrewSize)
  }

  predicate ByRating(minRating: Option<real>, maxRating: Option<real>, s: ShipRecord) {
    RealRange(s.rating, minRating, maxRating)
  }

  /** The conjunction of the eight filters, in the controller's order. */
  predicate Matches(f: Filter, s: ShipRecord) {
    && ByName(f.name, s)
    && ByPlanet(f.planet, s)
    && ByShipType(f.shipType, s)
    && ByDate(f.after, f.before, s)
    && ByUsage(f.isUsed, s)
    && BySpeed(f.minSpeed, f.maxSpeed, s)
    && ByCrewSize(f.minCrewSize, f.maxCrewSize, s)
    && ByRating(f.minRating, f.maxRating, s)
  }

  /** The rows the list endpoint draws its pages from (sorting and paging aside). */
  function Select(store: map<int, ShipRecord>, f: Filter): (r: map<int, ShipRecord>)
    ensures forall id :: id in r <==> id in store && Matches(f, store[id])
    ensures forall id :: id in r ==> r[id] == store[id]
  {
    map id | id in store && Matches(f, store[id]) :: store[id]
  }

  /** The count endpoint: the number of rows the same conjunction selects. */
  function Count(store: map<int, ShipRecord>, f: Filter): (n: nat)
    ensures n == |Select(store, f)|
    ensures n <= |store|
    ensures f == NoFilter ==> n == |store|
  {
    var selected := Select(store, f);
    CardinalityOfSubset(selected.Keys, store.Keys);
    SelectNoFilter(store);
    |selected|
  }

  lemma CardinalityOfSubset<T>(a: set<T>, b: set<T>)
    requires a <= b
    ensures |a| <= |b|
  {
    assert b == a + (b - a);
  }

  /** An absent parameter imposes no constraint, on any row, whatever its fields hold. */
  lemma AbsentParametersImposeNothing(s: ShipRecord)
    ensures ByName(None, s) && ByPlanet(None, s) && ByShipType(None, s) && ByDate(None, None, s)
    ensures ByUsage(None, s) && BySpeed(None, None, s) && ByCrewSize(None, None, s) && ByRating(None, None, s)
    ensures Matches(NoFilter, s)
  {
  }

  /** Ship type and usage are exact matches against a non-null column. */
  lemma ExactMatchFilters(s: ShipRecord, t: ShipType, used: bool)
    ensures ByShipType(Some(t), s) <==> s.shipType == Some(t)
    ensures ByUsage(Some(used), s) <==> s.isUsed == Some(used)
  {
  }

  /** With no parameter given, every row is selected: an absent filter is no constraint, not "field is null". */
  lemma SelectNoFilter(store: map<int, ShipRecord>)
    ensures Select(store, NoFilter) == store
  {
  }

  /** Each text filter accepts a row whose field contains the text. */
  lemma NameFilterAcceptsInfix(s: ShipRecord, a: string, b: string, c: string)
    requires s.name == Some(a + b + c)
    ensures ByName(Some(b), s)
  {
    ContainsInfix(a, b, c);
  }

  /** A range with its lower bound above its upper bound selects nothing. */
  lemma InvertedSpeedRangeSelectsNothing(store: map<int, ShipRecord>, f: Filter)
    requires f.minSpeed.Some? && f.maxSpeed.Some? && f.minSpeed.value > f.maxSpeed.value
    ensures Select(store, f) == map[]
  {
  }

  /** Adding a parameter can only shrink the selection. */
  lemma SelectNarrowsWithSpeedBound(store: map<int, ShipRecord>, f: Filter, min: real)
    requires f.minSpeed.None?
    ensures Select(store, f.(minSpeed := Some(min))).Keys <= Select(store, f).Keys
  {
  }
}
