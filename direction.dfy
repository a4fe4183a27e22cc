/**
  Compass classification of a bearing (`calculate_direction`). The bearing
  itself comes from floating-point trigonometry on the two coordinates and is
  taken here as a given real, already normalised by `(b + 360) % 360`.
*/
module Compass {

  datatype Direction =
    | North | Northeast | East | Southeast | South | Southwest | West | Northwest
    | Unknown
  {
    /** The label the source returns and prints. */
    function Label(): string
    {
      match this
      case North => "north"
      case Northeast => "northeast"
      case East => "east"
      case Southeast => "southeast"
      case South => "south"
      case Southwest => "southwest"
      case West => "west"
      case Northwest => "northwest"
      case Unknown => "unknown"
    }
  }

  /** `(initial_bearing + 360) % 360` with Python's floored `%`, for an
      `atan2` result in degrees: the bearing is moved into [0, 360) by at
      most one whole turn, so the classification never says "unknown". */
  function NormalizeBearing(initial: real): (b: real)
    requires -180.0 <= initial <= 180.0
    ensures 0.0 <= b < 360.0
    ensures b == initial || b == initial + 360.0
    ensures CalculateDirection(b) != Unknown
  {
    var shifted := initial + 360.0;
    if shifted >= 360.0 then shifted - 360.0 else shifted
  }

  /** The half-open 45-degree sector each of the eight labels stands for;
      north is the sector that wraps around 0. */
  predicate InSector(d: Direction, bearing: real)
  {
    match d
    case North => 337.5 <= bearing < 360.0 || 0.0 <= bearing < 22.5
    case Northeast => 22.5 <= bearing < 67.5
    case East => 67.5 <= bearing < 112.5
    case Southeast => 112.5 <= bearing < 157.5
    case South => 157.5 <= bearing < 202.5
    case Southwest => 202.5 <= bearing < 247.5
    case West => 247.5 <= bearing < 292.5
    case Northwest => 292.5 <= bearing < 337.5
    case Unknown => false
  }

  /** The if/elif chain of `calculate_direction` on the normalised bearing.
      In [0, 360) exactly one sector holds and its label is returned;
      "unknown" is returned exactly for bearings outside that range. */
  function CalculateDirection(bearing: real): (d: Direction)
    ensures d == Unknown <==> !(0.0 <= bearing < 360.0)
    ensures d != Unknown ==> InSector(d, bearing)
    ensures forall e :: InSector(e, bearing) ==> e == d
  {
    if 337.5 <= bearing < 360.0 || 0.0 <= bearing < 22.5 then North
    else if 22.5 <= bearing < 67.5 then Northeast
    else if 67.5 <= bearing < 112.5 then East
    else if 112.5 <= bearing < 157.5 then Southeast
    else if 157.5 <= bearing < 202.5 then South
    else if 202.5 <= bearing < 247.5 then Southwest
    else if 247.5 <= bearing < 292.5 then West
    else if 292.5 <= bearing < 337.5 then Northwest
    else Unknown
  }

  /** The sector boundaries belong to the sector clockwise of them. */
  lemma SectorBoundaries()
    ensures CalculateDirection(0.0) == North
    ensures CalculateDirection(337.5) == North
    ensures CalculateDirection(22.5) == Northeast
    ensures CalculateDirection(67.5) == East
    ensures CalculateDirection(359.9) == North
    ensures CalculateDirection(360.0) == Unknown
  {
  }
}
