/**
 * The capability record an element advertises: at most one payload of each
 * singleton kind and the video and 3D format entries in the order they came.
 * Decoding checks the element header, scans the subelement stream and
 * decodes each payload; encoding writes one subelement per payload in id
 * order and wraps them in an element.
 */
module Capabilities {
  import opened Wrappers
  import opened Bytes
  import opened Registry
  import opened Records
  import opened Payloads
  import opened Scanner
  import opened Envelope

  datatype Capability = Capability(
    devInfo: Option<DevInfo>,
    assocBssid: Option<Mac>,
    audio: Option<Records.AudioFormats>,
    video: seq<Records.VideoFormats>,
    formats3D: seq<Records.Formats3D>,
    contentProtect: Option<bv8>,
    coupledSink: Option<Records.CoupledSink>,
    extCap: Option<bv16>,
    localIp: Option<Records.LocalIp>,
    sessionInfo: Option<seq<SessionEntry>>,
    altMac: Option<Mac>)

  const EMPTY := Capability(None, None, None, [], [], None, None, None, None, None, None)

  /** Conditions that do not stop a decode. */
  datatype Warning =
    | UnknownSubelement(id: bv8, size: nat)
    | DuplicateSingleton(kind: Kind)

  /** A capability record and the warnings met while building it. */
  datatype Collected = Collected(cap: Capability, warnings: seq<Warning>)

  datatype DecodeError =
    | MalformedEnvelope(envelope: EnvelopeError)
    | TruncatedSubelement(scan: ScanError)
    | BadPayload(kind: Kind, size: nat)

  datatype EncodeError =
    | SubelementTooLong(kind: Kind, size: nat)
    | ElementTooLong(size: nat)

  // ---- the payloads of one kind in a record ----

  function VideoPayloads(vs: seq<Records.VideoFormats>): (r: seq<Payload>)
    ensures |r| == |vs|
    ensures forall i :: 0 <= i < |vs| ==> r[i] == VideoPayload(vs[i])
  {
    if vs == [] then [] else [VideoPayload(vs[0])] + VideoPayloads(vs[1..])
  }

  function Formats3DPayloads(fs: seq<Records.Formats3D>): (r: seq<Payload>)
    ensures |r| == |fs|
    ensures forall i :: 0 <= i < |fs| ==> r[i] == Formats3DPayload(fs[i])
  {
    if fs == [] then [] else [Formats3DPayload(fs[0])] + Formats3DPayloads(fs[1..])
  }

  /** The payloads of kind `k` a record holds, in order. */
  function Field(c: Capability, k: Kind): seq<Payload>
  {
    match k
    case DevInfo => if c.devInfo.Some? then [DevInfoPayload(c.devInfo.value)] else []
    case AssocBssid => if c.assocBssid.Some? then [AssocBssidPayload(c.assocBssid.value)] else []
    case AudioFormats => if c.audio.Some? then [AudioPayload(c.audio.value)] else []
    case VideoFormats => VideoPayloads(c.video)
    case Formats3D => Formats3DPayloads(c.formats3D)
    case ContentProtect => if c.contentProtect.Some? then [ContentProtectPayload(c.contentProtect.value)] else []
    case CoupledSink => if c.coupledSink.Some? then [CoupledSinkPayload(c.coupledSink.value)] else []
    case ExtCap => if c.extCap.Some? then [ExtCapPayload(c.extCap.value)] else []
    case LocalIp => if c.localIp.Some? then [LocalIpPayload(c.localIp.value)] else []
    case SessionInfo => if c.sessionInfo.Some? then [SessionInfoPayload(c.sessionInfo.value)] else []
    case AltMac => if c.altMac.Some? then [AltMacPayload(c.altMac.value)] else []
  }

  /** Every payload a record holds under kind `k` has kind `k`, and a singleton kind holds at most one. */
  lemma FieldShape(c: Capability, k: Kind)
    ensures forall i :: 0 <= i < |Field(c, k)| ==> KindOfPayload(Field(c, k)[i]) == k
    ensures CardinalityOf(k) == Singleton ==> |Field(c, k)| <= 1
  {
  }

  // ---- adding one decoded payload ----

  /** A payload of a repeatable kind is always taken; one of a singleton kind only if none is held yet. */
  predicate Admits(c: Capability, p: Payload)
  {
    CardinalityOf(KindOfPayload(p)) == Repeatable || Field(c, KindOfPayload(p)) == []
  }

  /**
   * Adds a decoded payload to the record. The first payload of a singleton
   * kind wins; a later one leaves the record as it is and is reported.
   */
  function Absorb(acc: Collected, p: Payload): Collected
  {
    var c := acc.cap;
    if !Admits(c, p) then Collected(c, acc.warnings + [DuplicateSingleton(KindOfPayload(p))])
    else Collected(Put(c, p), acc.warnings)
  }

  /** The record with `p` stored as its payload of p's kind (appended, for a repeatable kind). */
  function Put(c: Capability, p: Payload): Capability
  {
    match p
    case DevInfoPayload(x) => c.(devInfo := Some(x))
    case AssocBssidPayload(x) => c.(assocBssid := Some(x))
    case AudioPayload(x) => c.(audio := Some(x))
    case VideoPayload(x) => c.(video := c.video + [x])
    case Formats3DPayload(x) => c.(formats3D := c.formats3D + [x])
    case ContentProtectPayload(x) => c.(contentProtect := Some(x))
    case CoupledSinkPayload(x) => c.(coupledSink := Some(x))
    case ExtCapPayload(x) => c.(extCap := Some(x))
    case LocalIpPayload(x) => c.(localIp := Some(x))
    case SessionInfoPayload(x) => c.(sessionInfo := Some(x))
    case AltMacPayload(x) => c.(altMac := Some(x))
  }

  /**
   * Absorbing a payload touches only its own kind: an admitted payload is
   * appended to the payloads of that kind, a duplicate singleton changes
   * nothing but the warnings.
   */
  lemma AbsorbFields(acc: Collected, p: Payload)
    ensures var r := Absorb(acc, p);
      forall j :: j != KindOfPayload(p) ==> Field(r.cap, j) == Field(acc.cap, j)
    ensures var r := Absorb(acc, p);
      Admits(acc.cap, p) ==>
        Field(r.cap, KindOfPayload(p)) == Field(acc.cap, KindOfPayload(p)) + [p] && r.warnings == acc.warnings
    ensures var r := Absorb(acc, p);
      !Admits(acc.cap, p) ==>
        r.cap == acc.cap && r.warnings == acc.warnings + [DuplicateSingleton(KindOfPayload(p))]
  {
    if Admits(acc.cap, p) {
      PutFields(acc.cap, p);
    }
  }

  lemma PutFields(c: Capability, p: Payload)
    requires Admits(c, p)
    ensures forall j :: j != KindOfPayload(p) ==> Field(Put(c, p), j) == Field(c, j)
    ensures Field(Put(c, p), KindOfPayload(p)) == Field(c, KindOfPayload(p)) + [p]
  {
    PutKeepsOthers(c, p);
    match p
    case VideoPayload(x) => VideoPayloadsSnoc(c.video, x);
    case Formats3DPayload(x) => Formats3DPayloadsSnoc(c.formats3D, x);
    case _ =>
  }

  lemma PutKeepsOthers(c: Capability, p: Payload)
    ensures forall j :: j != KindOfPayload(p) ==> Field(Put(c, p), j) == Field(c, j)
  {
  }

  lemma VideoPayloadsSnoc(vs: seq<Records.VideoFormats>, v: Records.VideoFormats)
    ensures VideoPayloads(vs + [v]) == VideoPayloads(vs) + [VideoPayload(v)]
  {
  }

  lemma Formats3DPayloadsSnoc(fs: seq<Records.Formats3D>, f: Records.Formats3D)
    ensures Formats3DPayloads(fs + [f]) == Formats3DPayloads(fs) + [Formats3DPayload(f)]
  {
  }

  // ---- adding many payloads ----

  function AbsorbAll(acc: Collected, ps: seq<Payload>): Collected
    decreases ps
  {
    if ps == [] then acc else AbsorbAll(Absorb(acc, ps[0]), ps[1..])
  }

  lemma {:induction false} AbsorbAllAppend(acc: Collected, a: seq<Payload>, b: seq<Payload>)
    ensures AbsorbAll(acc, a + b) == AbsorbAll(AbsorbAll(acc, a), b)
    decreases a
  {
    if a == [] {
      assert a + b == b;
    } else {
      assert (a + b)[1..] == a[1..] + b;
      AbsorbAllAppend(Absorb(acc, a[0]), a[1..], b);
    }
  }

  /** Video format entries are all taken, in order. */
  lemma {:induction false} AbsorbVideos(acc: Collected, vs: seq<Records.VideoFormats>)
    ensures AbsorbAll(acc, VideoPayloads(vs)) == Collected(acc.cap.(video := acc.cap.video + vs), acc.warnings)
    decreases vs
  {
    if vs != [] {
      var next := Collected(acc.cap.(video := acc.cap.video + [vs[0]]), acc.warnings);
      calc {
        AbsorbAll(acc, VideoPayloads(vs));
        AbsorbAll(Absorb(acc, VideoPayload(vs[0])), VideoPayloads(vs[1..]));
        { AbsorbVideosStep(acc, vs[0]); }
        AbsorbAll(next, VideoPayloads(vs[1..]));
        { AbsorbVideos(next, vs[1..]); }
        Collected(next.cap.(video := next.cap.video + vs[1..]), acc.warnings);
        { assert acc.cap.video + [vs[0]] + vs[1..] == acc.cap.video + vs; }
        Collected(acc.cap.(video := acc.cap.video + vs), acc.warnings);
      }
    }
  }

  /** 3D format entries are all taken, in order. */
  lemma {:induction false} Absorb3Ds(acc: Collected, fs: seq<Records.Formats3D>)
    ensures AbsorbAll(acc, Formats3DPayloads(fs)) == Collected(acc.cap.(formats3D := acc.cap.formats3D + fs), acc.warnings)
    decreases fs
  {
    if fs != [] {
      var next := Collected(acc.cap.(formats3D := acc.cap.formats3D + [fs[0]]), acc.warnings);
      calc {
        AbsorbAll(acc, Formats3DPayloads(fs));
        AbsorbAll(Absorb(acc, Formats3DPayload(fs[0])), Formats3DPayloads(fs[1..]));
        { Absorb3DsStep(acc, fs[0]); }
        AbsorbAll(next, Formats3DPayloads(fs[1..]));
        { Absorb3Ds(next, fs[1..]); }
        Collected(next.cap.(formats3D := next.cap.formats3D + fs[1..]), acc.warnings);
        { assert acc.cap.formats3D + [fs[0]] + fs[1..] == acc.cap.formats3D + fs; }
        Collected(acc.cap.(formats3D := acc.cap.formats3D + fs), acc.warnings);
      }
    }
  }

  lemma AbsorbVideosStep(acc: Collected, v: Records.VideoFormats)
    ensures Absorb(acc, VideoPayload(v)) == Collected(acc.cap.(video := acc.cap.video + [v]), acc.warnings)
  {
  }

  lemma Absorb3DsStep(acc: Collected, f: Records.Formats3D)
    ensures Absorb(acc, Formats3DPayload(f)) == Collected(acc.cap.(formats3D := acc.cap.formats3D + [f]), acc.warnings)
  {
  }

  // ---- the payloads of a record in wire order ----

  /** The kinds in id order, the order an encoder writes them in. */
  const KINDS: seq<Kind> := [
    Kind.DevInfo, Kind.AssocBssid, Kind.AudioFormats, Kind.VideoFormats, Kind.Formats3D,
    Kind.ContentProtect, Kind.CoupledSink, Kind.ExtCap, Kind.LocalIp, Kind.SessionInfo, Kind.AltMac]

  lemma KindsInIdOrder()
    ensures |KINDS| == SUB_NUM as nat
    ensures forall i :: 0 <= i < |KINDS| ==> Id(KINDS[i]) == i as bv8
  {
  }

  /** The payloads of the first `n` kinds, kind by kind. */
  function Below(c: Capability, n: nat): seq<Payload>
    requires n <= |KINDS|
  {
    if n == 0 then [] else Below(c, n - 1) + Field(c, KINDS[n - 1])
  }

  function PayloadsOf(c: Capability): seq<Payload>
  {
    Below(c, |KINDS|)
  }

  /** The record restricted to its first `n` kinds. */
  function Upto(c: Capability, n: nat): Capability
  {
    Capability(
      if n > 0 then c.devInfo else None,
      if n > 1 then c.assocBssid else None,
      if n > 2 then c.audio else None,
      if n > 3 then c.video else [],
      if n > 4 then c.formats3D else [],
      if n > 5 then c.contentProtect else None,
      if n > 6 then c.coupledSink else None,
      if n > 7 then c.extCap else None,
      if n > 8 then c.localIp else None,
      if n > 9 then c.sessionInfo else None,
      if n > 10 then c.altMac else None)
  }

  lemma UptoStep(c: Capability, n: nat, w: seq<Warning>)
    requires n < |KINDS|
    ensures AbsorbAll(Collected(Upto(c, n), w), Field(c, KINDS[n])) == Collected(Upto(c, n + 1), w)
  {
    var acc := Collected(Upto(c, n), w);
    if n == 3 {
      AbsorbVideos(acc, c.video);
    } else if n == 4 {
      Absorb3Ds(acc, c.formats3D);
    } else {
      AbsorbSingle(acc, Field(c, KINDS[n]));
      if n < 3 {
        UptoSingleLow(c, n, w);
      } else if n < 8 {
        UptoSingleMid(c, n, w);
      } else {
        UptoSingleHigh(c, n, w);
      }
    }
  }

  lemma AbsorbSingle(acc: Collected, ps: seq<Payload>)
    requires |ps| <= 1
    ensures AbsorbAll(acc, ps) == if ps == [] then acc else Absorb(acc, ps[0])
  {
    if ps != [] {
      assert ps[1..] == [];
    }
  }

  lemma UptoSingleLow(c: Capability, n: nat, w: seq<Warning>)
    requires n < 3
    ensures var ps := Field(c, KINDS[n]);
      |ps| <= 1 && (if ps == [] then Collected(Upto(c, n), w) else Absorb(Collected(Upto(c, n), w), ps[0]))
                   == Collected(Upto(c, n + 1), w)
  {
  }

  lemma UptoSingleMid(c: Capability, n: nat, w: seq<Warning>)
    requires 5 <= n < 8
    ensures var ps := Field(c, KINDS[n]);
      |ps| <= 1 && (if ps == [] then Collected(Upto(c, n), w) else Absorb(Collected(Upto(c, n), w), ps[0]))
                   == Collected(Upto(c, n + 1), w)
  {
  }

  lemma UptoSingleHigh(c: Capability, n: nat, w: seq<Warning>)
    requires 8 <= n < 11
    ensures var ps := Field(c, KINDS[n]);
      |ps| <= 1 && (if ps == [] then Collected(Upto(c, n), w) else Absorb(Collected(Upto(c, n), w), ps[0]))
                   == Collected(Upto(c, n + 1), w)
  {
  }

  lemma {:induction false} AbsorbBelow(c: Capability, n: nat, w: seq<Warning>)
    requires n <= |KINDS|
    ensures AbsorbAll(Collected(EMPTY, w), Below(c, n)) == Collected(Upto(c, n), w)
  {
    if n > 0 {
      AbsorbBelow(c, n - 1, w);
      AbsorbAllAppend(Collected(EMPTY, w), Below(c, n - 1), Field(c, KINDS[n - 1]));
      UptoStep(c, n - 1, w);
    }
  }

  /** Absorbing a record's payloads in wire order into the empty record rebuilds it, with no warning. */
  lemma AbsorbPayloads(c: Capability)
    ensures AbsorbAll(Collected(EMPTY, []), PayloadsOf(c)) == Collected(c, [])
  {
    AbsorbBelow(c, |KINDS|, []);
  }

  // ---- decoding scanned subelements ----

  /**
   * Takes in one scanned subelement: an unknown id is skipped and reported,
   * a payload that does not decode stops the whole decode, and any other
   * payload is absorbed into the record.
   */
  function Step(acc: Collected, s: RawSubelement): Result<Collected, DecodeError>
  {
    match KindOf(s.id)
    case None => Ok(Collected(acc.cap, acc.warnings + [UnknownSubelement(s.id, |s.data|)]))
    case Some(k) =>
      match DecodePayload(k, s.data)
      case None => Err(BadPayload(k, |s.data|))
      case Some(p) => Ok(Absorb(acc, p))
  }

  /** Takes in scanned subelements in stream order. */
  function Collect(acc: Collected, subs: seq<RawSubelement>): Result<Collected, DecodeError>
    decreases subs
  {
    if subs == [] then Ok(acc)
    else
      match Step(acc, subs[0])
      case Err(e) => Err(e)
      case Ok(next) => Collect(next, subs[1..])
  }

  /** The capability record an element advertises, with the warnings met on the way. */
  function DecodeCapability(buf: seq<bv8>): Result<Collected, DecodeError>
  {
    match DecodeEnvelope(buf)
    case Err(e) => Err(MalformedEnvelope(e))
    case Ok(data) =>
      match Scan(data, 0)
      case Err(e) => Err(TruncatedSubelement(e))
      case Ok(subs) => Collect(Collected(EMPTY, []), subs)
  }

  /** A subelement the decoder gets past: one of an unknown id, or one whose payload decodes. */
  predicate Decodable(s: RawSubelement)
  {
    KindOf(s.id).None? || DecodePayload(KindOf(s.id).value, s.data).Some?
  }

  /**
   * Taking in a stream succeeds exactly when every subelement in it is
   * decodable; otherwise the error names the kind and size of the first one
   * that is not.
   */
  lemma {:induction false} CollectOkIff(acc: Collected, subs: seq<RawSubelement>)
    ensures Collect(acc, subs).Ok? <==> forall i :: 0 <= i < |subs| ==> Decodable(subs[i])
    ensures Collect(acc, subs).Err? ==>
      exists i :: 0 <= i < |subs| && !Decodable(subs[i]) && (forall j :: 0 <= j < i ==> Decodable(subs[j]))
        && Collect(acc, subs).error == BadPayload(KindOf(subs[i].id).value, |subs[i].data|)
    decreases subs
  {
    if subs != [] {
      var s := subs[0];
      match Step(acc, s)
      case Err(e) =>
        assert !Decodable(s);
      case Ok(next) =>
        assert Decodable(s);
        var rest := subs[1..];
        CollectOkIff(next, rest);
        assert forall i :: 1 <= i < |subs| ==> subs[i] == rest[i - 1];
        if Collect(next, rest).Err? {
          var i :| 0 <= i < |rest| && !Decodable(rest[i]) && (forall j :: 0 <= j < i ==> Decodable(rest[j]))
            && Collect(next, rest).error == BadPayload(KindOf(rest[i].id).value, |rest[i].data|);
          assert subs[i + 1] == rest[i];
        }
    }
  }

  /**
   * The decoder fails on the element header exactly when the envelope is
   * malformed, on the subelement stream exactly when the header is sound and
   * the scan stops, and otherwise takes in the scanned stream from an empty
   * record.
   */
  lemma DecodeCapabilityOutcome(buf: seq<bv8>)
    ensures DecodeEnvelope(buf).Err? <==> DecodeCapability(buf).Err? && DecodeCapability(buf).error.MalformedEnvelope?
    ensures DecodeEnvelope(buf).Err? ==> DecodeCapability(buf) == Err(MalformedEnvelope(DecodeEnvelope(buf).error))
    ensures DecodeCapability(buf).Err? && DecodeCapability(buf).error.TruncatedSubelement?
        <==> DecodeEnvelope(buf).Ok? && Scan(DecodeEnvelope(buf).value, 0).Err?
    ensures DecodeEnvelope(buf).Ok? && Scan(DecodeEnvelope(buf).value, 0).Err? ==>
      DecodeCapability(buf) == Err(TruncatedSubelement(Scan(DecodeEnvelope(buf).value, 0).error))
    ensures DecodeEnvelope(buf).Ok? && Scan(DecodeEnvelope(buf).value, 0).Ok? ==>
      DecodeCapability(buf) == Collect(Collected(EMPTY, []), Scan(DecodeEnvelope(buf).value, 0).value)
  {
    if DecodeEnvelope(buf).Ok? && Scan(DecodeEnvelope(buf).value, 0).Ok? {
      CollectOkIff(Collected(EMPTY, []), Scan(DecodeEnvelope(buf).value, 0).value);
    }
  }

  /** An element decodes exactly when its header is sound, its stream scans and every subelement in it is decodable. */
  lemma DecodeCapabilityOkIff(buf: seq<bv8>)
    ensures DecodeCapability(buf).Ok? <==>
      DecodeEnvelope(buf).Ok? && Scan(DecodeEnvelope(buf).value, 0).Ok?
      && forall i :: 0 <= i < |Scan(DecodeEnvelope(buf).value, 0).value| ==> Decodable(Scan(DecodeEnvelope(buf).value, 0).value[i])
  {
    if DecodeEnvelope(buf).Ok? && Scan(DecodeEnvelope(buf).value, 0).Ok? {
      CollectOkIff(Collected(EMPTY, []), Scan(DecodeEnvelope(buf).value, 0).value);
    }
  }

  // ---- encoding ----

  /** One subelement per payload, in the order given; a payload too long for the 16-bit length is refused. */
  function Subelements(ps: seq<Payload>): Result<seq<RawSubelement>, EncodeError>
  {
    if ps == [] then Ok([])
    else
      var data := EncodePayload(ps[0]);
      if |data| >= 0x1_0000 then Err(SubelementTooLong(KindOfPayload(ps[0]), |data|))
      else
        match Subelements(ps[1..])
        case Err(e) => Err(e)
        case Ok(rest) => Ok([RawSubelement(Id(KindOfPayload(ps[0])), data)] + rest)
  }

  /** The element advertising a record, its subelements in id order; a record too large for one element is refused. */
  function EncodeCapability(c: Capability): (r: Result<seq<bv8>, EncodeError>)
    ensures r.Ok? ==> IE_HEADER_SIZE <= |r.value| <= IE_HEADER_SIZE + IE_DATA_MAX
  {
    match Subelements(PayloadsOf(c))
    case Err(e) => Err(e)
    case Ok(subs) =>
      var data := Serialize(subs);
      if |data| > IE_DATA_MAX then Err(ElementTooLong(|data|))
      else Ok(EncodeEnvelope(data).value)
  }

  // ---- round trip ----

  /** Taking in the subelements written for some payloads absorbs exactly those payloads. */
  lemma {:induction false} CollectSubelements(acc: Collected, ps: seq<Payload>, subs: seq<RawSubelement>)
    requires Subelements(ps) == Ok(subs)
    ensures Collect(acc, subs) == Ok(AbsorbAll(acc, ps))
    decreases ps
  {
    if ps != [] {
      var p := ps[0];
      DecodeOfEncodePayload(p);
      KindOfId(KindOfPayload(p));
      assert Step(acc, subs[0]) == Ok(Absorb(acc, p));
      assert subs[1..] == Subelements(ps[1..]).value;
      CollectSubelements(Absorb(acc, p), ps[1..], subs[1..]);
    }
  }

  /** Every record that can be encoded decodes back to itself, with no warning. */
  lemma DecodeOfEncode(c: Capability)
    requires EncodeCapability(c).Ok?
    ensures DecodeCapability(EncodeCapability(c).value) == Ok(Collected(c, []))
  {
    var subs := Subelements(PayloadsOf(c)).value;
    ScanSerialize(subs);
    CollectSubelements(Collected(EMPTY, []), PayloadsOf(c), subs);
    AbsorbPayloads(c);
  }

  // ---- how the stream is taken in ----

  /** An unknown subelement is skipped and reported; the rest of the stream is taken in as if it were absent. */
  lemma CollectUnknown(acc: Collected, s: RawSubelement, rest: seq<RawSubelement>)
    requires s.id >= SUB_NUM
    ensures Collect(acc, [s] + rest)
         == Collect(Collected(acc.cap, acc.warnings + [UnknownSubelement(s.id, |s.data|)]), rest)
  {
    assert ([s] + rest)[1..] == rest;
  }

  /** A payload of a known kind that does not decode stops the decode, whatever follows it. */
  lemma CollectBadPayload(acc: Collected, s: RawSubelement, rest: seq<RawSubelement>)
    requires KindOf(s.id).Some? && DecodePayload(KindOf(s.id).value, s.data).None?
    ensures Collect(acc, [s] + rest) == Err(BadPayload(KindOf(s.id).value, |s.data|))
  {
  }

  /**
   * Two subelements of the same singleton kind in a row: the first is kept,
   * the second is reported and dropped, and the stream goes on.
   */
  lemma CollectDuplicate(acc: Collected, s: RawSubelement, t: RawSubelement, rest: seq<RawSubelement>)
    requires KindOf(s.id).Some? && t.id == s.id
    requires CardinalityOf(KindOf(s.id).value) == Singleton && Field(acc.cap, KindOf(s.id).value) == []
    requires DecodePayload(KindOf(s.id).value, s.data).Some? && DecodePayload(KindOf(s.id).value, t.data).Some?
    ensures var k := KindOf(s.id).value;
      Collect(acc, [s, t] + rest)
      == Collect(Collected(Put(acc.cap, DecodePayload(k, s.data).value), acc.warnings + [DuplicateSingleton(k)]), rest)
  {
    var k := KindOf(s.id).value;
    var p := DecodePayload(k, s.data).value;
    PutFields(acc.cap, p);
    var next := Collected(Put(acc.cap, p), acc.warnings);
    assert Step(acc, s) == Ok(next);
    assert !Admits(next.cap, DecodePayload(k, t.data).value);
    assert ([s, t] + rest)[1..] == [t] + rest;
    assert ([t] + rest)[1..] == rest;
  }
}
