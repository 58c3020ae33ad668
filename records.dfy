/**
 * The packed payload of each subelement kind, field for field as the
 * structures lay it out: no padding, every multi-octet integer most
 * significant octet first. Each kind has a decoder that accepts exactly the
 * packed size and an encoder that is its exact inverse.
 */
module Records {
  import opened Wrappers
  import opened Bytes

  // ---- device information: three 16-bit words ----

  datatype DevInfo = DevInfo(devInfo: bv16, ctrlPort: bv16, maxThroughput: bv16)

  const DEV_INFO_SIZE: nat := 6

  function DecodeDevInfo(s: seq<bv8>): (r: Option<DevInfo>)
    ensures r.Some? <==> |s| == DEV_INFO_SIZE
  {
    if |s| != DEV_INFO_SIZE then None
    else Some(DevInfo(ReadU16(s, 0), ReadU16(s, 2), ReadU16(s, 4)))
  }

  function EncodeDevInfo(d: DevInfo): (r: seq<bv8>)
    ensures DecodeDevInfo(r) == Some(d)
  {
    U16(d.devInfo) + U16(d.ctrlPort) + U16(d.maxThroughput)
  }

  lemma EncodeOfDecodeDevInfo(s: seq<bv8>)
    requires DecodeDevInfo(s).Some?
    ensures EncodeDevInfo(DecodeDevInfo(s).value) == s
  {
    U16OfRead(s, 0);
    U16OfRead(s, 2);
    U16OfRead(s, 4);
    assert s == s[0..2] + s[2..4] + s[4..6];
  }

  // ---- associated BSSID and alternative MAC: one address each ----

  const MAC_SIZE: nat := 6

  function DecodeMac(s: seq<bv8>): (r: Option<Mac>)
    ensures r.Some? <==> |s| == MAC_SIZE
    ensures r.Some? ==> r.value == s
  {
    if |s| != MAC_SIZE then None else Some(s)
  }

  // ---- audio formats: three (modes, latency) pairs ----

  datatype AudioFormats = AudioFormats(
    lpcmModes: bv32, lpcmLatency: bv8,
    aacModes: bv32, aacLatency: bv8,
    ac3Modes: bv32, ac3Latency: bv8)

  const AUDIO_FORMATS_SIZE: nat := 15

  function DecodeAudio(s: seq<bv8>): (r: Option<AudioFormats>)
    ensures r.Some? <==> |s| == AUDIO_FORMATS_SIZE
  {
    if |s| != AUDIO_FORMATS_SIZE then None
    else Some(AudioFormats(ReadU32(s, 0), s[4], ReadU32(s, 5), s[9], ReadU32(s, 10), s[14]))
  }

  function EncodeAudio(a: AudioFormats): (r: seq<bv8>)
    ensures DecodeAudio(r) == Some(a)
  {
    U32(a.lpcmModes) + [a.lpcmLatency] + U32(a.aacModes) + [a.aacLatency] + U32(a.ac3Modes) + [a.ac3Latency]
  }

  lemma EncodeOfDecodeAudio(s: seq<bv8>)
    requires DecodeAudio(s).Some?
    ensures EncodeAudio(DecodeAudio(s).value) == s
  {
    U32OfRead(s, 0);
    U32OfRead(s, 5);
    U32OfRead(s, 10);
    assert s == s[0..4] + [s[4]] + s[5..9] + [s[9]] + s[10..14] + [s[14]];
  }

  // ---- video formats ----

  datatype VideoFormats = VideoFormats(
    ceaModes: bv32, vesaModes: bv32, hhModes: bv32,
    nativeMode: bv8, h264Profile: bv8, h264MaxLevel: bv8, latency: bv8,
    sliceMin: bv16, sliceEnc: bv16, frameSkip: bv8)

  const VIDEO_FORMATS_SIZE: nat := 21

  function DecodeVideo(s: seq<bv8>): (r: Option<VideoFormats>)
    ensures r.Some? <==> |s| == VIDEO_FORMATS_SIZE
  {
    if |s| != VIDEO_FORMATS_SIZE then None
    else Some(VideoFormats(ReadU32(s, 0), ReadU32(s, 4), ReadU32(s, 8), s[12], s[13], s[14], s[15],
                           ReadU16(s, 16), ReadU16(s, 18), s[20]))
  }

  function EncodeVideo(v: VideoFormats): (r: seq<bv8>)
    ensures DecodeVideo(r) == Some(v)
  {
    U32(v.ceaModes) + U32(v.vesaModes) + U32(v.hhModes)
    + [v.nativeMode, v.h264Profile, v.h264MaxLevel, v.latency]
    + U16(v.sliceMin) + U16(v.sliceEnc) + [v.frameSkip]
  }

  lemma EncodeOfDecodeVideo(s: seq<bv8>)
    requires DecodeVideo(s).Some?
    ensures EncodeVideo(DecodeVideo(s).value) == s
  {
    U32OfRead(s, 0);
    U32OfRead(s, 4);
    U32OfRead(s, 8);
    U16OfRead(s, 16);
    U16OfRead(s, 18);
    Cut(s, 0, 20, 21);
    Cut(s, 0, 18, 20);
    Cut(s, 0, 16, 18);
    Cut(s, 0, 12, 16);
    Cut(s, 0, 8, 12);
    Cut(s, 0, 4, 8);
    assert s[12..16] == [s[12], s[13], s[14], s[15]];
    assert s[20..21] == [s[20]];
    assert s[0..21] == s;
  }

  // ---- 3D video formats: a 64-bit capability mask, then the video tail ----

  datatype Formats3D = Formats3D(
    capabilities: bv64,
    nativeMode: bv8, h264Profile: bv8, h264MaxLevel: bv8, latency: bv8,
    sliceMin: bv16, sliceEnc: bv16, frameSkip: bv8)

  const FORMATS_3D_SIZE: nat := 17

  function Decode3D(s: seq<bv8>): (r: Option<Formats3D>)
    ensures r.Some? <==> |s| == FORMATS_3D_SIZE
  {
    if |s| != FORMATS_3D_SIZE then None
    else Some(Formats3D(ReadU64(s, 0), s[8], s[9], s[10], s[11], ReadU16(s, 12), ReadU16(s, 14), s[16]))
  }

  function Encode3D(f: Formats3D): (r: seq<bv8>)
    ensures Decode3D(r) == Some(f)
  {
    U64(f.capabilities) + [f.nativeMode, f.h264Profile, f.h264MaxLevel, f.latency]
    + U16(f.sliceMin) + U16(f.sliceEnc) + [f.frameSkip]
  }

  lemma EncodeOfDecode3D(s: seq<bv8>)
    requires Decode3D(s).Some?
    ensures Encode3D(Decode3D(s).value) == s
  {
    U64OfRead(s, 0);
    U16OfRead(s, 12);
    U16OfRead(s, 14);
    assert s == s[0..8] + [s[8], s[9], s[10], s[11]] + s[12..14] + s[14..16] + [s[16]];
  }

  // ---- content protection: one flags octet ----

  const CONTENT_PROTECT_SIZE: nat := 1

  function DecodeContentProtect(s: seq<bv8>): (r: Option<bv8>)
    ensures r.Some? <==> |s| == CONTENT_PROTECT_SIZE
    ensures r.Some? ==> [r.value] == s
  {
    if |s| != CONTENT_PROTECT_SIZE then None else Some(s[0])
  }

  // ---- coupled sink: status octet and the coupled peer's address ----

  datatype CoupledSink = CoupledSink(status: bv8, mac: Mac)

  const COUPLED_SINK_SIZE: nat := 7

  function DecodeCoupledSink(s: seq<bv8>): (r: Option<CoupledSink>)
    ensures r.Some? <==> |s| == COUPLED_SINK_SIZE
  {
    if |s| != COUPLED_SINK_SIZE then None else Some(CoupledSink(s[0], s[1..]))
  }

  function EncodeCoupledSink(c: CoupledSink): (r: seq<bv8>)
    ensures DecodeCoupledSink(r) == Some(c)
  {
    assert ([c.status] + c.mac)[1..] == c.mac;
    [c.status] + c.mac
  }

  lemma EncodeOfDecodeCoupledSink(s: seq<bv8>)
    requires DecodeCoupledSink(s).Some?
    ensures EncodeCoupledSink(DecodeCoupledSink(s).value) == s
  {
    assert s == [s[0]] + s[1..];
  }

  // ---- extended capabilities: one 16-bit flags word ----

  const EXT_CAP_SIZE: nat := 2

  function DecodeExtCap(s: seq<bv8>): (r: Option<bv16>)
    ensures r.Some? <==> |s| == EXT_CAP_SIZE
    ensures r.Some? ==> U16(r.value) == s
  {
    if |s| != EXT_CAP_SIZE then None
    else
      U16OfRead(s, 0);
      Some(ReadU16(s, 0))
  }

  // ---- local IP address: version octet and an IPv4 address ----

  /** The only address version defined. */
  const LOCAL_IP_IPV4: bv8 := 0x01

  datatype LocalIp = LocalIp(version: bv8, ip: Ipv4)

  const LOCAL_IP_SIZE: nat := 5

  function DecodeLocalIp(s: seq<bv8>): (r: Option<LocalIp>)
    ensures r.Some? <==> |s| == LOCAL_IP_SIZE
  {
    if |s| != LOCAL_IP_SIZE then None else Some(LocalIp(s[0], s[1..]))
  }

  function EncodeLocalIp(l: LocalIp): (r: seq<bv8>)
    ensures DecodeLocalIp(r) == Some(l)
  {
    assert ([l.version] + l.ip)[1..] == l.ip;
    [l.version] + l.ip
  }

  lemma EncodeOfDecodeLocalIp(s: seq<bv8>)
    requires DecodeLocalIp(s).Some?
    ensures EncodeLocalIp(DecodeLocalIp(s).value) == s
  {
    assert s == [s[0]] + s[1..];
  }

  // ---- session information: an array of 24-octet device entries ----

  /** The value every entry's own length octet must hold: the entry size less that octet. */
  const SESSION_INFO_LENGTH: bv8 := 23

  const SESSION_ENTRY_SIZE: nat := 24

  datatype SessionEntry = SessionEntry(
    mac: Mac, bssid: Mac, devInfo: bv16, maxThroughput: bv16, coupledStatus: bv8, coupledMac: Mac)

  function DecodeSessionEntry(s: seq<bv8>): (r: Option<SessionEntry>)
    ensures r.Some? <==> |s| == SESSION_ENTRY_SIZE && s[0] == SESSION_INFO_LENGTH
  {
    if |s| != SESSION_ENTRY_SIZE || s[0] != SESSION_INFO_LENGTH then None
    else Some(SessionEntry(s[1..7], s[7..13], ReadU16(s, 13), ReadU16(s, 15), s[17], s[18..24]))
  }

  function EncodeSessionEntry(e: SessionEntry): (r: seq<bv8>)
    ensures |r| == SESSION_ENTRY_SIZE && DecodeSessionEntry(r) == Some(e)
  {
    var r := [SESSION_INFO_LENGTH] + e.mac + e.bssid + U16(e.devInfo) + U16(e.maxThroughput)
             + [e.coupledStatus] + e.coupledMac;
    assert r[1..7] == e.mac && r[7..13] == e.bssid && r[18..24] == e.coupledMac;
    r
  }

  lemma EncodeOfDecodeSessionEntry(s: seq<bv8>)
    requires DecodeSessionEntry(s).Some?
    ensures EncodeSessionEntry(DecodeSessionEntry(s).value) == s
  {
    U16OfRead(s, 13);
    U16OfRead(s, 15);
    assert s == [s[0]] + s[1..7] + s[7..13] + s[13..15] + s[15..17] + [s[17]] + s[18..24];
  }

  /** The entries of a session-information payload, in order; any malformed entry refuses the whole. */
  function DecodeSessionInfo(s: seq<bv8>): (r: Option<seq<SessionEntry>>)
    ensures r.Some? ==> |s| == SESSION_ENTRY_SIZE * |r.value|
    decreases |s|
  {
    if |s| == 0 then Some([])
    else if |s| < SESSION_ENTRY_SIZE then None
    else
      match DecodeSessionEntry(s[..SESSION_ENTRY_SIZE])
      case None => None
      case Some(e) =>
        match DecodeSessionInfo(s[SESSION_ENTRY_SIZE..])
        case None => None
        case Some(es) => Some([e] + es)
  }

  function EncodeSessionInfo(es: seq<SessionEntry>): (r: seq<bv8>)
    ensures |r| == SESSION_ENTRY_SIZE * |es|
  {
    if es == [] then [] else EncodeSessionEntry(es[0]) + EncodeSessionInfo(es[1..])
  }

  /** A session-information payload is accepted exactly when it is whole entries, each led by the length octet 23. */
  lemma {:induction false} SessionInfoAccepts(s: seq<bv8>)
    ensures DecodeSessionInfo(s).Some?
        <==> |s| % SESSION_ENTRY_SIZE == 0
             && forall k :: 0 <= k < |s| && k % SESSION_ENTRY_SIZE == 0 ==> s[k] == SESSION_INFO_LENGTH
    decreases |s|
  {
    if |s| >= SESSION_ENTRY_SIZE {
      var t := s[SESSION_ENTRY_SIZE..];
      SessionInfoAccepts(t);
      assert forall k :: 0 <= k < |t| ==> t[k] == s[k + SESSION_ENTRY_SIZE];
      assert forall k :: SESSION_ENTRY_SIZE <= k ==> (k % SESSION_ENTRY_SIZE == 0 <==> (k - SESSION_ENTRY_SIZE) % SESSION_ENTRY_SIZE == 0);
    }
  }

  /** Decoding the encoding of any entries gives the same entries back. */
  lemma {:induction false} DecodeOfEncodeSessionInfo(es: seq<SessionEntry>)
    ensures DecodeSessionInfo(EncodeSessionInfo(es)) == Some(es)
  {
    if es != [] {
      var head, tail := EncodeSessionEntry(es[0]), EncodeSessionInfo(es[1..]);
      DecodeOfEncodeSessionInfo(es[1..]);
      AppendParts(head, tail);
      assert [es[0]] + es[1..] == es;
    }
  }

  /** Encoding what a session-information payload decodes to gives the payload back. */
  lemma {:induction false} EncodeOfDecodeSessionInfo(s: seq<bv8>)
    requires DecodeSessionInfo(s).Some?
    ensures EncodeSessionInfo(DecodeSessionInfo(s).value) == s
    decreases |s|
  {
    if |s| != 0 {
      var head, tail := s[..SESSION_ENTRY_SIZE], s[SESSION_ENTRY_SIZE..];
      EncodeOfDecodeSessionInfo(tail);
      EncodeOfDecodeSessionEntry(head);
      var es := DecodeSessionInfo(s).value;
      assert es[0] == DecodeSessionEntry(head).value && es[1..] == DecodeSessionInfo(tail).value;
      assert s == head + tail;
    }
  }
}
