/**
 * One decoded subelement payload of any kind, and the dispatch from a
 * subelement kind to the decoder and encoder of its packed layout.
 */
module Payloads {
  import opened Wrappers
  import opened Bytes
  import opened Registry
  import opened Records

  datatype Payload =
    | DevInfoPayload(devInfo: DevInfo)
    | AssocBssidPayload(bssid: Mac)
    | AudioPayload(audio: AudioFormats)
    | VideoPayload(video: VideoFormats)
    | Formats3DPayload(formats3D: Formats3D)
    | ContentProtectPayload(flags: bv8)
    | CoupledSinkPayload(coupled: CoupledSink)
    | ExtCapPayload(extCap: bv16)
    | LocalIpPayload(localIp: LocalIp)
    | SessionInfoPayload(sessions: seq<SessionEntry>)
    | AltMacPayload(altMac: Mac)

  function KindOfPayload(p: Payload): Kind
  {
    match p
    case DevInfoPayload(_) => Kind.DevInfo
    case AssocBssidPayload(_) => Kind.AssocBssid
    case AudioPayload(_) => Kind.AudioFormats
    case VideoPayload(_) => Kind.VideoFormats
    case Formats3DPayload(_) => Kind.Formats3D
    case ContentProtectPayload(_) => Kind.ContentProtect
    case CoupledSinkPayload(_) => Kind.CoupledSink
    case ExtCapPayload(_) => Kind.ExtCap
    case LocalIpPayload(_) => Kind.LocalIp
    case SessionInfoPayload(_) => Kind.SessionInfo
    case AltMacPayload(_) => Kind.AltMac
  }

  /**
   * The payload a subelement of kind `k` carries. A fixed-size kind is
   * accepted exactly when the data has its packed size; session information
   * when it is whole entries, each led by the length octet 23.
   */
  function DecodePayload(k: Kind, data: seq<bv8>): (r: Option<Payload>)
    ensures r.Some? ==> KindOfPayload(r.value) == k
    ensures FixedSize(k).Some? ==> (r.Some? <==> |data| == FixedSize(k).value)
    ensures k == Kind.SessionInfo ==> (r.Some? <==> DecodeSessionInfo(data).Some?)
  {
    match k
    case DevInfo => (match DecodeDevInfo(data) case Some(d) => Some(DevInfoPayload(d)) case None => None)
    case AssocBssid => (match DecodeMac(data) case Some(m) => Some(AssocBssidPayload(m)) case None => None)
    case AudioFormats => (match DecodeAudio(data) case Some(a) => Some(AudioPayload(a)) case None => None)
    case VideoFormats => (match DecodeVideo(data) case Some(v) => Some(VideoPayload(v)) case None => None)
    case Formats3D => (match Decode3D(data) case Some(f) => Some(Formats3DPayload(f)) case None => None)
    case ContentProtect =>
      (match DecodeContentProtect(data) case Some(b) => Some(ContentProtectPayload(b)) case None => None)
    case CoupledSink => (match DecodeCoupledSink(data) case Some(c) => Some(CoupledSinkPayload(c)) case None => None)
    case ExtCap => (match DecodeExtCap(data) case Some(x) => Some(ExtCapPayload(x)) case None => None)
    case LocalIp => (match DecodeLocalIp(data) case Some(l) => Some(LocalIpPayload(l)) case None => None)
    case SessionInfo =>
      (match DecodeSessionInfo(data) case Some(es) => Some(SessionInfoPayload(es)) case None => None)
    case AltMac => (match DecodeMac(data) case Some(m) => Some(AltMacPayload(m)) case None => None)
  }

  /** The packed octets of a payload. */
  function EncodePayload(p: Payload): (r: seq<bv8>)
  {
    match p
    case DevInfoPayload(d) => EncodeDevInfo(d)
    case AssocBssidPayload(m) => m
    case AudioPayload(a) => EncodeAudio(a)
    case VideoPayload(v) => EncodeVideo(v)
    case Formats3DPayload(f) => Encode3D(f)
    case ContentProtectPayload(b) => [b]
    case CoupledSinkPayload(c) => EncodeCoupledSink(c)
    case ExtCapPayload(x) => U16(x)
    case LocalIpPayload(l) => EncodeLocalIp(l)
    case SessionInfoPayload(es) => EncodeSessionInfo(es)
    case AltMacPayload(m) => m
  }

  lemma DecodeOfEncodePayload(p: Payload)
    ensures DecodePayload(KindOfPayload(p), EncodePayload(p)) == Some(p)
  {
    match p
    case VideoPayload(v) => VideoDecodes(v);
    case AudioPayload(a) => AudioDecodes(a);
    case Formats3DPayload(f) => Formats3DDecodes(f);
    case SessionInfoPayload(es) => DecodeOfEncodeSessionInfo(es);
    case _ =>
  }

  lemma VideoDecodes(v: Records.VideoFormats)
    ensures DecodePayload(Kind.VideoFormats, EncodeVideo(v)) == Some(VideoPayload(v))
  {
  }

  lemma AudioDecodes(a: Records.AudioFormats)
    ensures DecodePayload(Kind.AudioFormats, EncodeAudio(a)) == Some(AudioPayload(a))
  {
  }

  lemma Formats3DDecodes(f: Records.Formats3D)
    ensures DecodePayload(Kind.Formats3D, Encode3D(f)) == Some(Formats3DPayload(f))
  {
  }

  /** Every payload that decodes is exactly the encoding of what it decodes to. */
  lemma EncodeOfDecodePayload(k: Kind, data: seq<bv8>)
    requires DecodePayload(k, data).Some?
    ensures EncodePayload(DecodePayload(k, data).value) == data
  {
    match k
    case DevInfo => EncodeOfDecodeDevInfo(data);
    case AudioFormats => EncodeOfDecodeAudio(data);
    case VideoFormats => EncodeOfDecodeVideo(data);
    case Formats3D => EncodeOfDecode3D(data);
    case CoupledSink => EncodeOfDecodeCoupledSink(data);
    case LocalIp => EncodeOfDecodeLocalIp(data);
    case SessionInfo => EncodeOfDecodeSessionInfo(data);
    case _ =>
  }
}
