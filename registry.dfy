/**
 * The eleven subelement kinds, their wire ids, their packed payload sizes
 * and whether an element may carry more than one of them.
 */
module Registry {
  import opened Wrappers

  datatype Kind =
    | DevInfo | AssocBssid | AudioFormats | VideoFormats | Formats3D | ContentProtect
    | CoupledSink | ExtCap | LocalIp | SessionInfo | AltMac

  /** Number of defined kinds; ids 0 to SUB_NUM - 1 are recognised. */
  const SUB_NUM: bv8 := 11

  function Id(k: Kind): (id: bv8)
    ensures id < SUB_NUM
  {
    match k
    case DevInfo => 0
    case AssocBssid => 1
    case AudioFormats => 2
    case VideoFormats => 3
    case Formats3D => 4
    case ContentProtect => 5
    case CoupledSink => 6
    case ExtCap => 7
    case LocalIp => 8
    case SessionInfo => 9
    case AltMac => 10
  }

  /** The kind a wire id names, if any: exactly the ids below SUB_NUM are known. */
  function KindOf(id: bv8): (r: Option<Kind>)
    ensures r.Some? <==> id < SUB_NUM
    ensures r.Some? ==> Id(r.value) == id
  {
    if id == 0 then Some(DevInfo)
    else if id == 1 then Some(AssocBssid)
    else if id == 2 then Some(AudioFormats)
    else if id == 3 then Some(VideoFormats)
    else if id == 4 then Some(Formats3D)
    else if id == 5 then Some(ContentProtect)
    else if id == 6 then Some(CoupledSink)
    else if id == 7 then Some(ExtCap)
    else if id == 8 then Some(LocalIp)
    else if id == 9 then Some(SessionInfo)
    else if id == 10 then Some(AltMac)
    else None
  }

  /** Ids and kinds are in one-to-one correspondence. */
  lemma KindOfId(k: Kind)
    ensures KindOf(Id(k)) == Some(k)
  {
  }

  /** Size in octets of one packed session-info entry, its own length octet included. */
  const SESSION_INFO_ENTRY_SIZE: nat := 24

  /** Packed payload size of each fixed-size kind; session info is an array instead. */
  function FixedSize(k: Kind): (r: Option<nat>)
    ensures r.None? <==> k == SessionInfo
  {
    match k
    case DevInfo => Some(6)
    case AssocBssid => Some(6)
    case AudioFormats => Some(15)
    case VideoFormats => Some(21)
    case Formats3D => Some(17)
    case ContentProtect => Some(1)
    case CoupledSink => Some(7)
    case ExtCap => Some(2)
    case LocalIp => Some(5)
    case SessionInfo => None
    case AltMac => Some(6)
  }

  datatype Cardinality = Singleton | Repeatable

  /** Video and 3D formats come once per supported H.264 profile; every other kind at most once. */
  function CardinalityOf(k: Kind): (c: Cardinality)
    ensures c == Repeatable <==> k == VideoFormats || k == Formats3D
  {
    match k
    case VideoFormats => Repeatable
    case Formats3D => Repeatable
    case _ => Singleton
  }
}
