/// The link base class: the three status flags that decide whether a joint takes part in
/// the solve, the default answers of its virtual queries, and the table of integer link
/// type identifiers.
module LinkBase {

  /// One constructor per link type identifier in the table.
  datatype LinkKind =
    Lock | Spherical | PointPlane | PointLine | Cylindrical | Prismatic
    | PlanePlane | Oldham | Revolute | RackPin | Free | Screw
    | Align | Parallel | Perpend | Universal | Gear | Coupler
    | Distance | PointSpline | Trajectory | RevoluteSpherical | RevoluteTranslational | Spring
    | Wheel | LinActuator | Base | SpringCallback | Engine | Brake
    | Pneumatic | Clearance | FastContact | GeometricDistance | Pulley | Contact
    | Mate | MateGeneric | MatePlane | MateCoaxial | MateSpherical | MateXDistance
    | MateParallel | MateOrthogonal | RevolutePrismatic | MateFix

  /// The integer identifier of each link kind, as the table assigns it. Two kinds share 48,
  /// so the identifiers are not unique.
  function TypeTag(k: LinkKind): (tag: int)
    ensures 0 <= tag <= 49
  {
    match k
      case Lock => 0
      case Spherical => 1
      case PointPlane => 2
      case PointLine => 3
      case Cylindrical => 4
      case Prismatic => 5
      case PlanePlane => 6
      case Oldham => 7
      case Revolute => 8
      case RackPin => 9
      case Free => 10
      case Screw => 12
      case Align => 13
      case Parallel => 14
      case Perpend => 15
      case Universal => 16
      case Gear => 17
      case Coupler => 18
      case Distance => 19
      case PointSpline => 20
      case Trajectory => 22
      case RevoluteSpherical => 23
      case RevoluteTranslational => 24
      case Spring => 25
      case Wheel => 26
      case LinActuator => 27
      case Base => 29
      case SpringCallback => 30
      case Engine => 31
      case Brake => 32
      case Pneumatic => 33
      case Clearance => 34
      case FastContact => 35
      case GeometricDistance => 37
      case Pulley => 38
      case Contact => 40
      case Mate => 41
      case MateGeneric => 42
      case MatePlane => 43
      case MateCoaxial => 44
      case MateSpherical => 45
      case MateXDistance => 48
      case MateParallel => 46
      case MateOrthogonal => 47
      case RevolutePrismatic => 48
      case MateFix => 49
  }

  /// Every identifier other than 48 names at most one kind.
  lemma TagDeterminesKind(k1: LinkKind, k2: LinkKind)
    requires TypeTag(k1) == TypeTag(k2) != 48
    ensures k1 == k2
  {
  }

  /// Exactly two kinds carry 48.
  lemma SharedTag(k: LinkKind)
    ensures TypeTag(k) == 48 <==> k == MateXDistance || k == RevolutePrismatic
  {
  }

  /// The identifiers collide exactly once: two different kinds share an identifier only
  /// when they are MateXDistance and RevolutePrismatic.
  lemma TagCollisions(k1: LinkKind, k2: LinkKind)
    ensures k1 != k2 && TypeTag(k1) == TypeTag(k2) <==>
      (k1 == MateXDistance && k2 == RevolutePrismatic) || (k1 == RevolutePrismatic && k2 == MateXDistance)
  {
    SharedTag(k1);
    SharedTag(k2);
    if TypeTag(k1) == TypeTag(k2) != 48 {
      TagDeterminesKind(k1, k2);
    }
  }

  /// The base link object. Derived links refine the virtual queries; the base answers
  /// are modelled here.
  class ChLinkBase {
    /// All constraints of the link turned off by the user.
    var disabled: bool
    /// The link data (its references to other items) is usable.
    var valid: bool
    /// The link has failed under excessive load.
    var broken: bool

    /// A new link is intact, valid and enabled, hence active.
    constructor ()
      ensures !broken && valid && !disabled
      ensures IsActive()
    {
      broken, valid, disabled := false, true, false;
    }

    /// IsValid: whether the link data is usable.
    function IsValid(): (v: bool)
      reads this
      ensures v == valid
    {
      valid
    }

    /// IsDisabled: whether the user turned the link off.
    function IsDisabled(): (d: bool)
      reads this
      ensures d == disabled
    {
      disabled
    }

    /// IsBroken: whether the link has failed.
    function IsBroken(): (b: bool)
      reads this
      ensures b == broken
    {
      broken
    }

    /// Whether the solver includes the link: any one of the three flags can exclude it.
    function IsActive(): (active: bool)
      reads this
      ensures active <==> IsValid() && !IsDisabled() && !IsBroken()
    {
      valid && !disabled && !broken
    }

    method SetValid(mon: bool)
      modifies this
      ensures IsValid() == mon
      ensures disabled == old(disabled) && broken == old(broken)
      ensures !mon ==> !IsActive()
      ensures mon ==> IsActive() == old(!disabled && !broken)
    {
      valid := mon;
    }

    method SetDisabled(mdis: bool)
      modifies this
      ensures IsDisabled() == mdis
      ensures valid == old(valid) && broken == old(broken)
      ensures mdis ==> !IsActive()
      ensures !mdis ==> IsActive() == old(valid && !broken)
    {
      disabled := mdis;
    }

    /// A plain assignment in both directions: a broken link can be marked intact again.
    method SetBroken(mon: bool)
      modifies this
      ensures IsBroken() == mon
      ensures valid == old(valid) && disabled == old(disabled)
      ensures mon ==> !IsActive()
      ensures !mon ==> IsActive() == old(valid && !disabled)
    {
      broken := mon;
    }

    /// The base class reports the base identifier.
    function GetType(): (tag: int)
      ensures tag == TypeTag(Base) && tag == 29
    {
      TypeTag(Base)
    }

    /// By default a link keeps the bodies it connects awake.
    function IsRequiringWaking(): (r: bool)
      ensures r
    {
      true
    }
  }

  /// A fresh link with its flags set as given is active exactly when it is valid, enabled
  /// and intact, for every combination of the three flags.
  method ActivationTruthTable(v: bool, d: bool, b: bool) returns (active: bool)
    ensures active <==> v && !d && !b
  {
    var link := new ChLinkBase();
    link.SetValid(v);
    link.SetDisabled(d);
    link.SetBroken(b);
    active := link.IsActive();
  }

  /// Breaking a new link deactivates it; marking it intact again restores it.
  method BreakAndRepair() returns (afterBreak: bool, afterRepair: bool)
    ensures !afterBreak && afterRepair
  {
    var link := new ChLinkBase();
    link.SetBroken(true);
    afterBreak := link.IsActive();
    link.SetBroken(false);
    afterRepair := link.IsActive();
  }
}
