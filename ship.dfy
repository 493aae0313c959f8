/** The ship entity: every field is a nullable box, and only the persistence layer sets `id`. */
module Ships {
  import opened Nullable
  import opened ShipTypes

  /**
   * The value of a ship's nine fields at one moment: a stored row, a request body,
   * or the state of a `Ship` object. `prodDate` is in epoch milliseconds.
   */
  datatype ShipRecord = ShipRecord(
    id: Option<int>,
    name: Option<string>,
    planet: Option<string>,
    shipType: Option<ShipType>,
    prodDate: Option<int>,
    isUsed: Option<bool>,
    speed: Option<real>,
    crewSize: Option<int>,
    rating: Option<real>)

  /** A record with every field null. */
  const Blank: ShipRecord := ShipRecord(None, None, None, None, None, None, None, None, None)

  /**
   * The mutable entity. Getters are plain field reads. `String`, `ShipType` and `Date`
   * setters take nullable arguments; `setUsed`, `setSpeed`, `setCrewSize` and `setRating`
   * take primitives, so they always leave a non-null value behind. There is no setter for `id`.
   */
  class Ship {
    var id: Option<int>
    var name: Option<string>
    var planet: Option<string>
    var shipType: Option<ShipType>
    var prodDate: Option<int>
    var isUsed: Option<bool>
    var speed: Option<real>
    var crewSize: Option<int>
    var rating: Option<real>

    /** The object's current field values. */
    function Snapshot(): ShipRecord
      reads this
    {
      ShipRecord(id, name, planet, shipType, prodDate, isUsed, speed, crewSize, rating)
    }

    /** The no-argument constructor: every field, `id`, `isUsed` and `rating` included, is null. */
    constructor ()
      ensures Snapshot() == Blank
    {
      id, name, planet, shipType, prodDate := None, None, None, None, None;
      isUsed, speed, crewSize, rating := None, None, None, None;
    }

    /** An entity materialised from a stored row (the persistence layer also fills in `id`). */
    constructor Load(row: ShipRecord)
      ensures Snapshot() == row
    {
      id, name, planet, shipType, prodDate := row.id, row.name, row.planet, row.shipType, row.prodDate;
      isUsed, speed, crewSize, rating := row.isUsed, row.speed, row.crewSize, row.rating;
    }

    method SetName(name: Option<string>)
      modifies this
      ensures this.name == name
      ensures Snapshot() == old(Snapshot()).(name := name)
    {
      this.name := name;
    }

    method SetPlanet(planet: Option<string>)
      modifies this
      ensures this.planet == planet
      ensures Snapshot() == old(Snapshot()).(planet := planet)
    {
      this.planet := planet;
    }

    method SetShipType(shipType: Option<ShipType>)
      modifies this
      ensures this.shipType == shipType
      ensures Snapshot() == old(Snapshot()).(shipType := shipType)
    {
      this.shipType := shipType;
    }

    method SetProdDate(prodDate: Option<int>)
      modifies this
      ensures this.prodDate == prodDate
      ensures Snapshot() == old(Snapshot()).(prodDate := prodDate)
    {
      this.prodDate := prodDate;
    }

    method SetUsed(used: bool)
      modifies this
      ensures isUsed == Some(used)
      ensures Snapshot() == old(Snapshot()).(isUsed := Some(used))
    {
      isUsed := Some(used);
    }

    method SetSpeed(speed: real)
      modifies this
      ensures this.speed == Some(speed)
      ensures Snapshot() == old(Snapshot()).(speed := Some(speed))
    {
      this.speed := Some(speed);
    }

    method SetCrewSize(crewSize: int)
      modifies this
      ensures this.crewSize == Some(crewSize)
      ensures Snapshot() == old(Snapshot()).(crewSize := Some(crewSize))
    {
      this.crewSize := Some(crewSize);
    }

    method SetRating(rating: real)
      modifies this
      ensures this.rating == Some(rating)
      ensures Snapshot() == old(Snapshot()).(rating := Some(rating))
    {
      this.rating := Some(rating);
    }
  }
}
