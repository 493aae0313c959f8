# Cosmoport ship service, modelled in Dafny

This project models the rules of the cosmoport ship service: the `Ship` entity and its
setters, the `ShipType` enumeration and its name check, and the `ShipServiceImpl` operations
on the repository of ships. Those operations are id and field validation, create (`save`),
partial update, get, delete, the rating formula with half-up rounding to hundredths, and the
eight `filterBy*` predicates that the list and count endpoints AND together.

Modules. `Ship.java` and `ShipType.java` have one each, `ShipServiceImpl.java` is split into three (rules, filters, the stateful service), and `Nullable` is a shared helper:

- `Nullable` (`nullable.dfy`): `Option`, standing for Java's nullable boxed values.
- `ShipTypes` (`ship_type.dfy`): the enum, `name()`, `values()` and the linear search `IsMember`.
- `Ships` (`ship.dfy`): `ShipRecord`, the value of a ship's nine fields, and the mutable class
  `Ship` with one setter per field and no setter for `id`.
- `ShipRules` (`ship_rules.dfy`): `checkId`, `checkAllShipFields`, the rounding, `calculateRating`,
  and what `save` and `update` make of a request body, as functions on values, with lemmas.
- `ShipFilters` (`ship_filters.dfy`): the filter predicates, their conjunction `Matches`, and
  the rows it selects.
- `ShipServices` (`ship_service.dfy`): the class `ShipService`. Its repository is a
  `map<int, ShipRecord>` plus the identity counter `nextId`. `Save` and `Update` change a `Ship`
  object through its setters as the source does, then write it to the map. `Valid()` says every
  stored row meets `ShipRules.Persisted`, and every method keeps it.

Speeds and ratings are `real`s. `Math.round(x * 100) / 100` is `Round2(x) = Floor(x*100 + 1/2)/100`.
The year of a production date comes from the calendar function `yearOf`, which the service is
given. `CalendarSound(yearOf)` assumes that every allowed production date has a year of at most
3019.

Speed is checked to lie strictly between 0 and 1 before it is rounded. So an accepted 0.004 is stored as
0.0 and 0.996 as 1.0 (`ShipRules.RoundedSpeedLeavesOpenRange`). A stored speed is therefore only
guaranteed to lie in [0, 1], not in (0, 1).

## Model

| member | source | states |
|---|---|---|
| `Nullable.Overlay` | src/main/java/com/space/service/ShipServiceImpl.java:63-83 | a non-null patch value replaces the current one; a null one leaves it |
| `ShipTypes.IsMember` | src/main/java/com/space/model/ShipType.java:8-14 | the search over `values()` returns true iff the text equals one constant's name exactly |
| `ShipTypes.ValuesComplete` | src/main/java/com/space/model/ShipType.java:3-6 | `values()` has exactly three entries, lists every constant, and lists none twice |
| `ShipTypes.NameInjective` | src/main/java/com/space/model/ShipType.java:4-6 | distinct constants have distinct names |
| `ShipTypes.IsMemberNameIff` | src/main/java/com/space/model/ShipType.java:8-14 | membership holds exactly for the names of the constants |
| `ShipTypes.NameIsMember` | src/main/java/com/space/model/ShipType.java:9-13 | `isMember(t.name())` holds for every constant |
| `ShipTypes.LowerCaseIsNotMember` | src/main/java/com/space/model/ShipType.java:11 | the match is case-sensitive: "transport", "military" and "merchant" are not members |
| `Ships.Ship.constructor` | src/main/java/com/space/model/Ship.java:34-35 | a new ship has every field null, `id`, `isUsed` and `rating` included |
| `Ships.Ship.Load` | src/main/java/com/space/model/Ship.java:15-32 | an entity loaded from a row holds exactly that row's fields, its id included |
| `Ships.Ship.SetName` | src/main/java/com/space/model/Ship.java:45-47 | sets `name` to the argument (possibly null) and changes no other field |
| `Ships.Ship.SetPlanet` | src/main/java/com/space/model/Ship.java:53-55 | sets `planet` and changes no other field |
| `Ships.Ship.SetShipType` | src/main/java/com/space/model/Ship.java:61-63 | sets `shipType` and changes no other field |
| `Ships.Ship.SetProdDate` | src/main/java/com/space/model/Ship.java:69-71 | sets `prodDate` and changes no other field |
| `Ships.Ship.SetUsed` | src/main/java/com/space/model/Ship.java:77-79 | `isUsed` becomes non-null and equal to the argument; no other field changes |
| `Ships.Ship.SetSpeed` | src/main/java/com/space/model/Ship.java:85-87 | `speed` becomes non-null and equal to the argument; no other field changes |
| `Ships.Ship.SetCrewSize` | src/main/java/com/space/model/Ship.java:93-95 | `crewSize` becomes non-null and equal to the argument; no other field changes |
| `Ships.Ship.SetRating` | src/main/java/com/space/model/Ship.java:101-103 | `rating` becomes non-null and equal to the argument; no other field changes |
| `ShipRules.CheckId` | src/main/java/com/space/service/ShipServiceImpl.java:194-196 | fails with BadRequest exactly when the id is null or not positive |
| `ShipRules.CheckAllShipFields` | src/main/java/com/space/service/ShipServiceImpl.java:173-192 | passes iff every non-null field is in range (null fields are never checked); a failure is a BadRequest naming a field that is out of range |
| `ShipRules.FieldsInRangeIff` | src/main/java/com/space/service/ShipServiceImpl.java:173-192 | the field check is the conjunction over all six checked fields |
| `ShipRules.CheckReportsFirstViolation` | src/main/java/com/space/service/ShipServiceImpl.java:173-192 | the reported field is out of range and every field checked before it is in range |
| `ShipRules.TypeCheckNeverFails` | src/main/java/com/space/service/ShipServiceImpl.java:189-191 | the ship-type check never fails for a present type |
| `ShipRules.Round2` | src/main/java/com/space/service/ShipServiceImpl.java:48 | the result is a whole number of hundredths within (x - 0.005, x + 0.005] |
| `ShipRules.Round2Unique` | src/main/java/com/space/service/ShipServiceImpl.java:207 | those two properties determine the rounded value: the nearest hundredth, ties upward |
| `ShipRules.Round2Idempotent` | src/main/java/com/space/service/ShipServiceImpl.java:73 | rounding a rounded speed again changes nothing |
| `ShipRules.Round2Monotone` | src/main/java/com/space/service/ShipServiceImpl.java:207 | rounding preserves order |
| `ShipRules.RoundedSpeedRange` | src/main/java/com/space/service/ShipServiceImpl.java:47-48 | a speed that passes the check rounds into [0, 1] |
| `ShipRules.RoundedSpeedLeavesOpenRange` | src/main/java/com/space/service/ShipServiceImpl.java:47-48 | accepted speeds 0.004 and 0.996 are stored as 0.0 and 1.0 |
| `ShipRules.Rating` | src/main/java/com/space/service/ShipServiceImpl.java:198-208 | the rating is the hundredth nearest to 80·speed·k/(3019 − year + 1), with k = 0.5 iff used; for years up to 3019 the divisor is at least 1 |
| `ShipRules.RatingBounds` | src/main/java/com/space/service/ShipServiceImpl.java:198-208 | for a speed in [0, 1] the rating lies in [0, 80] |
| `ShipRules.UsedRatesNoHigher` | src/main/java/com/space/service/ShipServiceImpl.java:199-204 | a used ship's rating never exceeds that of the same ship unused |
| `ShipRules.RatingMonotoneInSpeed` | src/main/java/com/space/service/ShipServiceImpl.java:207 | a faster ship never rates lower |
| `ShipRules.RatingExample` | src/main/java/com/space/service/ShipServiceImpl.java:207 | an unused ship of speed 0.5 built in 3000 rates 2.0 |
| `ShipRules.Created` | src/main/java/com/space/service/ShipServiceImpl.java:42-54 | succeeds iff all six required fields are present and in range; a missing one is BadRequest before any range check; the row keeps the input fields, gets the fresh id, speed rounded, isUsed defaulting to false, and a rating consistent with stored isUsed, speed and prodDate |
| `ShipRules.CreatedRatingFromStoredFields` | src/main/java/com/space/service/ShipServiceImpl.java:48-52 | the stored rating is computed from the stored (rounded) speed, not the input speed |
| `ShipRules.CreatedExample` | src/main/java/com/space/service/ShipServiceImpl.java:42-54 | creating "Eagle" (MILITARY, speed 0.5, 100 crew, year 3000, isUsed omitted) stores isUsed false and rating 2.0 |
| `ShipRules.Patched` | src/main/java/com/space/service/ShipServiceImpl.java:63-86 | each non-null patch field overwrites the stored one (speed rounded), null fields and the id are kept, the rating is untouched unless isUsed, speed or prodDate is supplied, and the result still meets the stored-row invariant |
| `ShipRules.PatchedBlankIsIdentity` | src/main/java/com/space/service/ShipServiceImpl.java:63-86 | an all-null patch leaves the row unchanged |
| `ShipRules.PatchedIdempotent` | src/main/java/com/space/service/ShipServiceImpl.java:63-86 | applying a patch twice gives the same row as applying it once |
| `ShipRules.PatchedUsageOnly` | src/main/java/com/space/service/ShipServiceImpl.java:81-86 | a patch with only isUsed changes isUsed and recomputes the rating, and leaves every other field as it was |
| `ShipRules.Updated` | src/main/java/com/space/service/ShipServiceImpl.java:57-88 | the id is checked first, the patch second, existence last; success iff all three pass, with the patched row as result |
| `ShipRules.UpdateValidatesBeforeLookup` | src/main/java/com/space/service/ShipServiceImpl.java:57-61 | an invalid patch for a positive but unknown id is a BadRequest, not NotFound |
| `ShipFilters.ContainsEmpty` | src/main/java/com/space/service/ShipServiceImpl.java:99 | the empty name filter matches every present name |
| `ShipFilters.ContainsInfix` | src/main/java/com/space/service/ShipServiceImpl.java:99 | any infix of a field is contained in it |
| `ShipFilters.LongerTextNotContained` | src/main/java/com/space/service/ShipServiceImpl.java:104 | a text longer than the field is not contained in it |
| `ShipFilters.ContainsText` | src/main/java/com/space/service/ShipServiceImpl.java:99 | `LIKE '%text%'`: the text occurs somewhere in the column value |
| `ShipFilters.ByName` | src/main/java/com/space/service/ShipServiceImpl.java:98-100 | a null argument accepts every row; otherwise the name is non-null and contains the text |
| `ShipFilters.ByPlanet` | src/main/java/com/space/service/ShipServiceImpl.java:103-105 | a null argument accepts every row; otherwise the planet is non-null and contains the text |
| `ShipFilters.ByShipType` | src/main/java/com/space/service/ShipServiceImpl.java:108-110 | a null argument accepts every row; otherwise the ship type equals the argument |
| `ShipFilters.ByDate` | src/main/java/com/space/service/ShipServiceImpl.java:113-129 | the three-way range rule on prodDate milliseconds, `after` as lower and `before` as upper inclusive bound |
| `ShipFilters.ByUsage` | src/main/java/com/space/service/ShipServiceImpl.java:132-138 | a null argument accepts every row; otherwise isUsed is non-null and equal to the argument |
| `ShipFilters.BySpeed` | src/main/java/com/space/service/ShipServiceImpl.java:141-149 | the three-way range rule on speed |
| `ShipFilters.ByCrewSize` | src/main/java/com/space/service/ShipServiceImpl.java:152-160 | the three-way range rule on crew size |
| `ShipFilters.ByRating` | src/main/java/com/space/service/ShipServiceImpl.java:163-171 | the three-way range rule on rating |
| `ShipFilters.Matches` | src/main/java/com/space/controller/ShipsController.java:41-48 | a row matches iff it satisfies all eight filters; list and count use this one predicate |
| `ShipFilters.IntRange` | src/main/java/com/space/service/ShipServiceImpl.java:152-160 | three-way rule (the real-valued rule applied to the values as reals): no bounds is no constraint, otherwise the value is present and within every given bound (inclusive); min > max matches nothing |
| `ShipFilters.RealRange` | src/main/java/com/space/service/ShipServiceImpl.java:141-149 | the same three-way rule for speed and rating bounds |
| `ShipFilters.AbsentParametersImposeNothing` | src/main/java/com/space/service/ShipServiceImpl.java:97-171 | each filter with null arguments accepts every row, whatever its fields hold |
| `ShipFilters.ExactMatchFilters` | src/main/java/com/space/service/ShipServiceImpl.java:107-138 | ship type and usage filters match exactly the rows whose field equals the argument |
| `ShipFilters.Select` | src/main/java/com/space/controller/ShipsController.java:41-48 | the selected rows are exactly the stored rows that satisfy all eight filters |
| `ShipFilters.Count` | src/main/java/com/space/controller/ShipsController.java:80-87 | the count is the size of the same selection the list draws from, at most the number of rows, and all of them when no filter is given |
| `ShipFilters.SelectNoFilter` | src/main/java/com/space/controller/ShipsController.java:80-87 | with no parameter the selection is the whole repository |
| `ShipFilters.NameFilterAcceptsInfix` | src/main/java/com/space/service/ShipServiceImpl.java:98-100 | the name filter accepts a ship whose name contains the text |
| `ShipFilters.InvertedSpeedRangeSelectsNothing` | src/main/java/com/space/service/ShipServiceImpl.java:141-149 | minSpeed above maxSpeed selects no row |
| `ShipFilters.SelectNarrowsWithSpeedBound` | src/main/java/com/space/service/ShipServiceImpl.java:141-149 | adding a lower speed bound never adds rows to the selection |
| `ShipServices.ShipService.constructor` | src/main/java/com/space/service/ShipServiceImpl.java:20-21 | a service over an empty repository satisfies the stored-row invariant |
| `ShipServices.ShipService.Get` | src/main/java/com/space/service/ShipServiceImpl.java:34-39 | BadRequest for a null or non-positive id, NotFound for an absent one, otherwise the stored row |
| `ShipServices.ShipService.Save` | src/main/java/com/space/service/ShipServiceImpl.java:42-54 | returns what `Created` gives for the input under a fresh id; on success the ship object holds that row and the repository gains exactly it; on error neither changes |
| `ShipServices.ShipService.Update` | src/main/java/com/space/service/ShipServiceImpl.java:57-88 | returns what `Updated` gives; on success only that id's row is replaced; on any error the repository is unchanged; the invariant is kept |
| `ShipServices.CopyPresentFields` | src/main/java/com/space/service/ShipServiceImpl.java:63-83 | the setter chain leaves the loaded ship with each non-null patch field copied over (speed rounded) and the rest as loaded |
| `ShipServices.ShipService.DeleteById` | src/main/java/com/space/service/ShipServiceImpl.java:91-95 | BadRequest or NotFound as for `get`; otherwise removes exactly that id |

## Left out

- The `Ship` getters are plain field reads of the class, not separate members. The setters' contracts say that each read returns the value last set.
- HTTP wiring, request-parameter binding and defaults, and `ResponseEntity` in the controller are not modelled. Only the conjunction of the eight filters is kept, as `ShipFilters.Matches`.
- Sorting and paging (`PageRequest`, `Sort`) are framework behaviour. `ShipFilters.Select` is the unsorted, unpaged result, which is what the count endpoint measures.
- The Spring Data repository is a map from id to row plus an identity counter. `findAll(Specification)` is a pass-through and is not modelled separately.
- `ShipServices.ShipService.Save` assumes the create body carries no id and always inserts under a fresh id. A body with an `id` (which JSON binding can fill through the field behind `getId()`) would reach the repository unchanged and be merged into an existing row instead; that path is not modelled.
- The calendar is the `yearOf` parameter. `CalendarSound` assumes that each allowed production date falls in a year of at most 3019. The bounds are midnight of 2800-01-01 and of 3020-01-01 in UTC+3. In that time zone the inclusive upper bound has year 3020, which makes the divisor 0. That case is excluded by the assumption.
- `ShipRules.Rating`: IEEE-754 doubles are modelled as exact reals. Binary rounding of `x * 100`, overflow of `Math.round`, and infinity or NaN from a zero divisor are not modelled.
- `ShipFilters.ContainsText`: `%` and `_` in the filter text act as SQL wildcards. The model reads the text as a plain substring. Whether `LIKE` is case-sensitive depends on the database collation; the model compares characters exactly.
- String lengths are counted in Dafny characters, not UTF-16 code units.
- 32-bit `int` and 64-bit `long` wrap-around are not modelled. The range checks keep the crew size small, and ids and dates are far from the limits.
- JSON deserialisation rejects an unknown ship-type name before the service sees it. That is why `ShipRules.TypeCheckNeverFails` holds.
- A null patch body in `update` (a NullPointerException) and a stored row with a null `isUsed` are Java null-pointer behaviour. A patch is always an object, and `Valid()` rules out such rows.
- Concurrency and transactions are not modelled: each operation runs alone.
