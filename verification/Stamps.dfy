/** Revision stamps: Python datetimes, the text Neo4j stores, and their comparison as UTC instants. */
module Stamps {
  import opened Common

  /** A wall-clock microsecond count; an aware value also carries its UTC offset in microseconds. */
  datatype PyDatetime = Naive(local: int) | Aware(local: int, offset: int)

  /** The property text: `isoformat() + "Z"`, `isoformat()` with an offset, or text no parser accepts. */
  datatype StampText = IsoZ(local: int) | IsoOffset(local: int, offset: int) | NotIso(text: string)

  function IsoUtc(value: PyDatetime): StampText {
    match value
    case Naive(local) => IsoZ(local)
    case Aware(local, offset) => IsoOffset(local, offset)
  }

  /** UTC instant of a SQLite datetime; naive values are read as UTC. */
  function InstantOf(value: PyDatetime): int {
    match value
    case Naive(local) => local
    case Aware(local, offset) => local - offset
  }

  /** UTC instant of stored text; a trailing Z is an offset of zero. */
  function NormalizeText(text: StampText): Option<int> {
    match text
    case IsoZ(local) => Some(local)
    case IsoOffset(local, offset) => Some(local - offset)
    case NotIso(_) => None
  }
}
