/**
 * The ship service over its repository. The repository is a map from id to stored row
 * plus the identity counter that hands out ids; `yearOf` is the calendar that gives the
 * year of a production date.
 */
module ShipServices {
  import opened Nullable
  import opened ShipTypes
  import opened Ships
  import opened ShipRules

  class ShipService {
    /** The rows in the repository, by id. */
    var store: map<int, ShipRecord>
    /** The next id the identity column will assign. */
    var nextId: int
    /** Year of an epoch-millisecond instant in the default calendar. */
    const yearOf: int -> int

    /** Every stored row is keyed by its own id, below the next id, and meets `Persisted`. */
    ghost predicate Valid()
      reads this
    {
      && CalendarSound(yearOf)
      && nextId > 0
      && forall id :: id in store ==> 0 < id < nextId && store[id].id == Some(id) && Persisted(store[id], yearOf)
    }

    /** A service over an empty repository. */
    constructor (yearOf: int -> int)
      requires CalendarSound(yearOf)
      ensures Valid()
      ensures store == map[] && this.yearOf == yearOf
    {
      this.yearOf := yearOf;
      store := map[];
      nextId := 1;
    }

    /** `get`: BadRequest for a null or non-positive id, NotFound for an absent one, else the row. */
    method Get(id: Option<int>) returns (r: Result<ShipRecord>)
      ensures r.Ok? <==> id.Some? && id.value > 0 && id.value in store
      ensures r.Ok? ==> r.value == store[id.value]
      ensures CheckId(id).Fail? ==> r == Err(BadRequest(IncorrectId))
      ensures CheckId(id).Pass? && id.value !in store ==> r == Err(NotFound)
    {
      var check := CheckId(id);
      if check.Fail? {
        return Err(check.error);
      }
      if id.value !in store {
        return Err(NotFound);
      }
      r := Ok(store[id.value]);
    }

    /**
     * `save`: checks for the required fields and their ranges, then rounds the speed,
     * defaults isUsed to false and sets the rating on `ship` itself, and writes it under a
     * fresh id. On an error neither `ship` nor the repository changes.
     */
    method Save(ship: Ship) returns (r: Result<ShipRecord>)
      requires Valid()
      modifies this, ship
      ensures Valid()
      ensures r == Created(old(ship.Snapshot()), old(nextId), yearOf)
      ensures r.Ok? ==> && old(nextId) !in old(store)
                        && store == old(store)[old(nextId) := r.value]
                        && nextId == old(nextId) + 1
                        && ship.Snapshot() == r.value
      ensures r.Err? ==> store == old(store) && nextId == old(nextId) && ship.Snapshot() == old(ship.Snapshot())
    {
      if ship.speed.None? || ship.prodDate.None? || ship.planet.None? ||
         ship.shipType.None? || ship.name.None? || ship.crewSize.None? {
        return Err(BadRequest(NotEnoughParameters));
      }
      var check := CheckAllShipFields(ship.Snapshot());
      if check.Fail? {
        return Err(check.error);
      }
      ghost var input := ship.Snapshot();
      RoundedSpeedRange(ship.speed.value);
      ship.SetSpeed(Round2(ship.speed.value));
      if ship.isUsed.None? {
        ship.SetUsed(false);
      }
      ship.SetRating(Rating(ship.isUsed.value, ship.speed.value, yearOf(ship.prodDate.value)));
      // The identity column assigns the id when the row is inserted.
      ship.id := Some(nextId);
      store := store[nextId := ship.Snapshot()];
      nextId := nextId + 1;
      r := Ok(ship.Snapshot());
      assert r == Created(input, old(nextId), yearOf);
    }

    /**
     * `update`: checks the id, then the patch, then that the row exists; loads the row,
     * copies every non-null patch field onto it through the setters, recomputes the rating
     * when isUsed, speed or prodDate was supplied, and writes it back. Only that row changes.
     */
    method Update(id: Option<int>, patch: Ship) returns (r: Result<ShipRecord>)
      requires Valid()
      modifies this
      ensures Valid()
      ensures r == Updated(old(store), id, patch.Snapshot(), yearOf)
      ensures r.Ok? ==> store == old(store)[id.value := r.value]
      ensures r.Err? ==> store == old(store)
      ensures nextId == old(nextId)
    {
      var idCheck := CheckId(id);
      if idCheck.Fail? {
        return Err(idCheck.error);
      }
      var check := CheckAllShipFields(patch.Snapshot());
      if check.Fail? {
        return Err(check.error);
      }
      var got := Get(id);
      if got.Err? {
        return Err(got.error);
      }
      var found := new Ship.Load(got.value);
      CopyPresentFields(found, patch);
      if patch.isUsed.Some? || patch.speed.Some? || patch.prodDate.Some? {
        found.SetRating(Rating(found.isUsed.value, found.speed.value, yearOf(found.prodDate.value)));
      }
      assert found.Snapshot() == Patched(got.value, patch.Snapshot(), yearOf);
      store := store[id.value := found.Snapshot()];
      r := Ok(found.Snapshot());
    }

    /** `deleteById`: BadRequest or NotFound as for `get`; otherwise removes that one row. */
    method DeleteById(id: Option<int>) returns (r: Check)
      requires Valid()
      modifies this
      ensures Valid()
      ensures r.Pass? <==> id.Some? && id.value > 0 && id.value in old(store)
      ensures CheckId(id).Fail? ==> r == Fail(BadRequest(IncorrectId))
      ensures CheckId(id).Pass? && id.value !in old(store) ==> r == Fail(NotFound)
      ensures store == if r.Pass? then old(store) - {id.value} else old(store)
      ensures nextId == old(nextId)
    {
      var check := CheckId(id);
      if check.Fail? {
        return check;
      }
      var got := Get(id);
      if got.Err? {
        return Fail(got.error);
      }
      store := store - {got.value.id.value};
      r := Pass;
    }
  }

  /** The chain of conditional setter calls in `update`: each non-null patch field is set on `found`. */
  method CopyPresentFields(found: Ship, patch: Ship)
    requires found != patch
    modifies found
    ensures found.Snapshot() == Overlaid(old(found.Snapshot()), patch.Snapshot())
  {
    ghost var w := found.Snapshot();
    ghost var p := patch.Snapshot();
    if patch.name.Some? {
      found.SetName(patch.name);
    }
    w := w.(name := Overlay(w.name, p.name));
    assert found.Snapshot() == w;
    if patch.planet.Some? {
      found.SetPlanet(patch.planet);
    }
    w := w.(planet := Overlay(w.planet, p.planet));
    assert found.Snapshot() == w;
    if patch.prodDate.Some? {
      found.SetProdDate(patch.prodDate);
    }
    w := w.(prodDate := Overlay(w.prodDate, p.prodDate));
    assert found.Snapshot() == w;
    if patch.speed.Some? {
      found.SetSpeed(Round2(patch.speed.value));
    }
    w := w.(speed := if p.speed.Some? then Some(Round2(p.speed.value)) else w.speed);
    assert found.Snapshot() == w;
    if patch.crewSize.Some? {
      found.SetCrewSize(patch.crewSize.value);
    }
    w := w.(crewSize := Overlay(w.crewSize, p.crewSize));
    assert found.Snapshot() == w;
    if patch.shipType.Some? {
      found.SetShipType(patch.shipType);
    }
    w := w.(shipType := Overlay(w.shipType, p.shipType));
    assert found.Snapshot() == w;
    if patch.isUsed.Some? {
      found.SetUsed(patch.isUsed.value);
    }
  }
}
