/** The enumeration of ship types and its name-membership check. */
module ShipTypes {

  datatype ShipType = TRANSPORT | MILITARY | MERCHANT

  /** The enum constants in declaration order, as `values()` returns them. */
  const Values: seq<ShipType> := [TRANSPORT, MILITARY, MERCHANT]

  /** The constant's name, as `name()` returns it. */
  function Name(t: ShipType): string {
    match t
    case TRANSPORT => "TRANSPORT"
    case MILITARY => "MILITARY"
    case MERCHANT => "MERCHANT"
  }

  /** Reference definition of membership: the text is exactly one of the three names. */
  predicate IsMemberName(name: string) {
    name == "TRANSPORT" || name == "MILITARY" || name == "MERCHANT"
  }

  /** The linear search over `values()` with an early return on the first exact match. */
  method IsMember(name: string) returns (found: bool)
    ensures found <==> IsMemberName(name)
    ensures found <==> exists t: ShipType :: Name(t) == name
  {
    var ships := Values;
    for i := 0 to |ships|
      invariant ships == Values
      invariant forall j :: 0 <= j < i ==> Name(ships[j]) != name
    {
      if Name(ships[i]) == name {
        return true;
      }
    }
    assert Name(ships[0]) != name && Name(ships[1]) != name && Name(ships[2]) != name;
    ValuesComplete();
    return false;
  }

  /** `values()` lists every constant, exactly once, and there are three of them. */
  lemma ValuesComplete()
    ensures |Values| == 3
    ensures forall t: ShipType :: t in Values
    ensures forall i, j :: 0 <= i < j < |Values| ==> Values[i] != Values[j]
  {
    forall t: ShipType ensures t in Values {
      match t
      case TRANSPORT => assert Values[0] == t;
      case MILITARY => assert Values[1] == t;
      case MERCHANT => assert Values[2] == t;
    }
  }

  /** Distinct constants have distinct names. */
  lemma NameInjective(t: ShipType, u: ShipType)
    requires Name(t) == Name(u)
    ensures t == u
  {
  }

  /** Membership holds exactly for the names of the constants. */
  lemma IsMemberNameIff(name: string)
    ensures IsMemberName(name) <==> exists t: ShipType :: Name(t) == name
  {
    if IsMemberName(name) {
      var t := if name == "TRANSPORT" then TRANSPORT else if name == "MILITARY" then MILITARY else MERCHANT;
      assert Name(t) == name;
    }
  }

  /** The name of every constant is a member, so the ship-type check of a present type never fails. */
  lemma NameIsMember(t: ShipType)
    ensures IsMemberName(Name(t))
  {
  }

  /** The comparison is case-sensitive: a lower-case name is not a member. */
  lemma LowerCaseIsNotMember()
    ensures !IsMemberName("transport") && !IsMemberName("military") && !IsMemberName("merchant")
  {
    assert "transport"[0] != "TRANSPORT"[0];
    assert "military"[0] != "MILITARY"[0];
    assert "merchant"[0] != "MERCHANT"[0];
  }
}
