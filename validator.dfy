/**
 * The consistency rules the subelement definitions state in their comments,
 * checked on a decoded capability record. Each broken rule is reported as a
 * violation naming the format entry it was found in; none of them stops a
 * decode.
 */
module Validation {
  import opened Wrappers
  import opened BitField
  import opened Fields
  import opened Records
  import opened Capabilities

  // ---- the modes the rules mention ----

  /** Two-channel 16-bit 48 kHz LPCM: every audio-capable device must support it. */
  const LPCM_2C_16_48000: bv32 := 0x0000_0002

  const CEA_640_480_P60: bv32 := 0x0000_0001
  const CEA_720_480_P60: bv32 := 0x0000_0002
  const CEA_720_576_P50: bv32 := 0x0000_0008

  /** The CEA modes above 720x480 at 60 frames per second progressive. */
  const CEA_HIGHER_P60: bv32 := 0x0000_0040 | 0x0000_0100

  /** The CEA modes above 720x576 at 50 frames per second progressive. */
  const CEA_HIGHER_P50: bv32 := 0x0000_0800 | 0x0000_2000

  /** A VESA resolution: its 30 Hz and its 60 Hz mode bit. */
  datatype VesaResolution = VesaResolution(p30: bv32, p60: bv32)

  /** The fifteen VESA resolutions, 800x600 through 1920x1200, in bit order. */
  const VESA_RESOLUTIONS: seq<VesaResolution> := [
    VesaResolution(0x0000_0001, 0x0000_0002), VesaResolution(0x0000_0004, 0x0000_0008),
    VesaResolution(0x0000_0010, 0x0000_0020), VesaResolution(0x0000_0040, 0x0000_0080),
    VesaResolution(0x0000_0100, 0x0000_0200), VesaResolution(0x0000_0400, 0x0000_0800),
    VesaResolution(0x0000_1000, 0x0000_2000), VesaResolution(0x0000_4000, 0x0000_8000),
    VesaResolution(0x0001_0000, 0x0002_0000), VesaResolution(0x0004_0000, 0x0008_0000),
    VesaResolution(0x0010_0000, 0x0020_0000), VesaResolution(0x0040_0000, 0x0080_0000),
    VesaResolution(0x0100_0000, 0x0200_0000), VesaResolution(0x0400_0000, 0x0800_0000),
    VesaResolution(0x1000_0000, 0x2000_0000)]

  /** 1920x540/540 at p24: every 3D-capable device must support it. */
  const CAP_3D_1920_X_540_540_P24: bv64 := 0x0000_0000_0000_0001

  datatype Violation =
    | LpcmMandatoryMissing
    | Hdcp21WithoutHdcp20
    | CeaBaselineMissing(entry: nat)
    | CeaP60BaseMissing(entry: nat)
    | CeaP50BaseMissing(entry: nat)
    | VesaLowerRateMissing(entry: nat, resolution: nat)
    | VideoSliceEncIncomplete(entry: nat)
    | VideoProfileRepeated(entry: nat)
    | Formats3DBaseMissing(entry: nat)
    | Formats3DSliceEncIncomplete(entry: nat)
    | Formats3DProfileRepeated(entry: nat)

  // ---- the rules, stated declaratively ----

  predicate AudioConforms(a: Records.AudioFormats)
  {
    a.lpcmModes & LPCM_2C_16_48000 != 0
  }

  /** HDCP 2.1 may only be advertised together with HDCP 2.0. */
  predicate ContentProtectConforms(flags: bv8)
  {
    Get8(flags, HDCP_2_1) != 0 ==> Get8(flags, HDCP_2_0) != 0
  }

  predicate CeaConforms(cea: bv32)
  {
    && cea & CEA_640_480_P60 != 0
    && (cea & CEA_HIGHER_P60 != 0 ==> cea & CEA_720_480_P60 != 0)
    && (cea & CEA_HIGHER_P50 != 0 ==> cea & CEA_720_576_P50 != 0)
  }

  /** The 60 Hz mode of a resolution is only advertised together with its 30 Hz mode. */
  predicate ResolutionConforms(vesa: bv32, res: VesaResolution)
  {
    vesa & res.p60 != 0 ==> vesa & res.p30 != 0
  }

  predicate VesaConforms(vesa: bv32)
  {
    forall i :: 0 <= i < |VESA_RESOLUTIONS| ==> ResolutionConforms(vesa, VESA_RESOLUTIONS[i])
  }

  /** A slice_enc word other than "no slicing" has a non-zero slice count and a non-zero ratio. */
  predicate SliceEncConforms(sliceEnc: bv16)
  {
    sliceEnc != NO_SLICE_ENC ==> Get16(sliceEnc, SLICE_ENC_MAX) != 0 && Get16(sliceEnc, SLICE_ENC_RATIO) != 0
  }

  predicate VideoConforms(v: Records.VideoFormats)
  {
    CeaConforms(v.ceaModes) && VesaConforms(v.vesaModes) && SliceEncConforms(v.sliceEnc)
  }

  predicate Formats3DConforms(f: Records.Formats3D)
  {
    f.capabilities & CAP_3D_1920_X_540_540_P24 != 0 && SliceEncConforms(f.sliceEnc)
  }

  /** A record that keeps every rule: one video and one 3D entry per H.264 profile, each conforming. */
  predicate Conforms(c: Capability)
  {
    && (c.audio.Some? ==> AudioConforms(c.audio.value))
    && (c.contentProtect.Some? ==> ContentProtectConforms(c.contentProtect.value))
    && (forall i :: 0 <= i < |c.video| ==> VideoConforms(c.video[i]))
    && (forall i, j :: 0 <= j < i < |c.video| ==> c.video[j].h264Profile != c.video[i].h264Profile)
    && (forall i :: 0 <= i < |c.formats3D| ==> Formats3DConforms(c.formats3D[i]))
    && (forall i, j :: 0 <= j < i < |c.formats3D| ==> c.formats3D[j].h264Profile != c.formats3D[i].h264Profile)
  }

  // ---- the checks that report violations ----

  function AudioViolations(audio: Option<Records.AudioFormats>): seq<Violation>
  {
    if audio.Some? && audio.value.lpcmModes & LPCM_2C_16_48000 == 0 then [LpcmMandatoryMissing] else []
  }

  function ContentProtectViolations(flags: Option<bv8>): seq<Violation>
  {
    if flags.Some? && Get8(flags.value, HDCP_2_1) != 0 && Get8(flags.value, HDCP_2_0) == 0
    then [Hdcp21WithoutHdcp20] else []
  }

  /** The resolutions among the first `n` of `table` whose 30 Hz mode is missing beside the 60 Hz one. */
  function VesaViolations(vesa: bv32, entry: nat, table: seq<VesaResolution>, n: nat): seq<Violation>
    requires n <= |table|
  {
    if n == 0 then []
    else
      VesaViolations(vesa, entry, table, n - 1)
      + (if ResolutionConforms(vesa, table[n - 1]) then [] else [VesaLowerRateMissing(entry, n - 1)])
  }

  function CeaViolations(cea: bv32, entry: nat): seq<Violation>
  {
    (if cea & CEA_640_480_P60 == 0 then [CeaBaselineMissing(entry)] else [])
    + (if cea & CEA_HIGHER_P60 != 0 && cea & CEA_720_480_P60 == 0 then [CeaP60BaseMissing(entry)] else [])
    + (if cea & CEA_HIGHER_P50 != 0 && cea & CEA_720_576_P50 == 0 then [CeaP50BaseMissing(entry)] else [])
  }

  function VideoViolations(v: Records.VideoFormats, entry: nat): seq<Violation>
  {
    CeaViolations(v.ceaModes, entry)
    + VesaViolations(v.vesaModes, entry, VESA_RESOLUTIONS, |VESA_RESOLUTIONS|)
    + (if SliceEncConforms(v.sliceEnc) then [] else [VideoSliceEncIncomplete(entry)])
  }

  function Formats3DViolations(f: Records.Formats3D, entry: nat): seq<Violation>
  {
    (if f.capabilities & CAP_3D_1920_X_540_540_P24 == 0 then [Formats3DBaseMissing(entry)] else [])
    + (if SliceEncConforms(f.sliceEnc) then [] else [Formats3DSliceEncIncomplete(entry)])
  }

  /** Whether one of the first `n` video entries advertises profile `p`. */
  function VideoProfileSeen(vs: seq<Records.VideoFormats>, n: nat, p: bv8): bool
    requires n <= |vs|
  {
    n > 0 && (vs[n - 1].h264Profile == p || VideoProfileSeen(vs, n - 1, p))
  }

  function Formats3DProfileSeen(fs: seq<Records.Formats3D>, n: nat, p: bv8): bool
    requires n <= |fs|
  {
    n > 0 && (fs[n - 1].h264Profile == p || Formats3DProfileSeen(fs, n - 1, p))
  }

  /** The violations in the first `n` video entries, entry by entry. */
  function VideoEntriesViolations(vs: seq<Records.VideoFormats>, n: nat): seq<Violation>
    requires n <= |vs|
  {
    if n == 0 then []
    else
      VideoEntriesViolations(vs, n - 1) + VideoViolations(vs[n - 1], n - 1)
      + (if VideoProfileSeen(vs, n - 1, vs[n - 1].h264Profile) then [VideoProfileRepeated(n - 1)] else [])
  }

  function Formats3DEntriesViolations(fs: seq<Records.Formats3D>, n: nat): seq<Violation>
    requires n <= |fs|
  {
    if n == 0 then []
    else
      Formats3DEntriesViolations(fs, n - 1) + Formats3DViolations(fs[n - 1], n - 1)
      + (if Formats3DProfileSeen(fs, n - 1, fs[n - 1].h264Profile) then [Formats3DProfileRepeated(n - 1)] else [])
  }

  /** Every rule violation in a record. */
  function Validate(c: Capability): seq<Violation>
  {
    AudioViolations(c.audio) + ContentProtectViolations(c.contentProtect)
    + VideoEntriesViolations(c.video, |c.video|) + Formats3DEntriesViolations(c.formats3D, |c.formats3D|)
  }

  // ---- the checks report nothing exactly when the rules hold ----

  /** The content-protection check fires exactly on HDCP 2.1 advertised without HDCP 2.0. */
  lemma ContentProtectViolationsExact(flags: bv8)
    ensures ContentProtectViolations(Some(flags)) == [Hdcp21WithoutHdcp20] <==> flags & 0x03 == 0x02
    ensures ContentProtectViolations(Some(flags)) == [] <==> ContentProtectConforms(flags)
  {
  }

  lemma {:induction false} VesaViolationsEmpty(vesa: bv32, entry: nat, table: seq<VesaResolution>, n: nat)
    requires n <= |table|
    ensures VesaViolations(vesa, entry, table, n) == [] <==>
      forall i :: 0 <= i < n ==> ResolutionConforms(vesa, table[i])
  {
    if n > 0 {
      VesaViolationsEmpty(vesa, entry, table, n - 1);
    }
  }

  lemma CeaViolationsEmpty(cea: bv32, entry: nat)
    ensures CeaViolations(cea, entry) == [] <==> CeaConforms(cea)
  {
  }

  lemma VesaTableEmpty(vesa: bv32, entry: nat)
    ensures VesaViolations(vesa, entry, VESA_RESOLUTIONS, |VESA_RESOLUTIONS|) == [] <==> VesaConforms(vesa)
  {
    VesaViolationsEmpty(vesa, entry, VESA_RESOLUTIONS, |VESA_RESOLUTIONS|);
  }

  lemma VideoViolationsEmpty(v: Records.VideoFormats, entry: nat)
    ensures VideoViolations(v, entry) == [] <==> VideoConforms(v)
  {
    CeaViolationsEmpty(v.ceaModes, entry);
    VesaTableEmpty(v.vesaModes, entry);
  }

  lemma {:induction false} VideoProfileSeenIff(vs: seq<Records.VideoFormats>, n: nat, p: bv8)
    requires n <= |vs|
    ensures VideoProfileSeen(vs, n, p) <==> exists j :: 0 <= j < n && vs[j].h264Profile == p
  {
    if n > 0 {
      VideoProfileSeenIff(vs, n - 1, p);
    }
  }

  lemma {:induction false} Formats3DProfileSeenIff(fs: seq<Records.Formats3D>, n: nat, p: bv8)
    requires n <= |fs|
    ensures Formats3DProfileSeen(fs, n, p) <==> exists j :: 0 <= j < n && fs[j].h264Profile == p
  {
    if n > 0 {
      Formats3DProfileSeenIff(fs, n - 1, p);
    }
  }

  lemma {:induction false} VideoEntriesEmpty(vs: seq<Records.VideoFormats>, n: nat)
    requires n <= |vs|
    ensures VideoEntriesViolations(vs, n) == [] <==>
      (forall i :: 0 <= i < n ==> VideoViolations(vs[i], i) == [])
      && (forall i, j :: 0 <= j < i < n ==> vs[j].h264Profile != vs[i].h264Profile)
  {
    if n > 0 {
      VideoEntriesEmpty(vs, n - 1);
      VideoEntriesStep(vs, n);
    }
  }

  lemma VideoEntriesStep(vs: seq<Records.VideoFormats>, n: nat)
    requires 0 < n <= |vs|
    ensures VideoEntriesViolations(vs, n) == [] <==>
      VideoEntriesViolations(vs, n - 1) == [] && VideoViolations(vs[n - 1], n - 1) == []
      && forall j :: 0 <= j < n - 1 ==> vs[j].h264Profile != vs[n - 1].h264Profile
  {
    var v := vs[n - 1];
    VideoProfileSeenIff(vs, n - 1, v.h264Profile);
    var repeated := if VideoProfileSeen(vs, n - 1, v.h264Profile) then [VideoProfileRepeated(n - 1)] else [];
    ConcatEmpty(VideoEntriesViolations(vs, n - 1), VideoViolations(v, n - 1), repeated);
  }

  lemma VideoEntriesConform(vs: seq<Records.VideoFormats>)
    ensures (forall i :: 0 <= i < |vs| ==> VideoViolations(vs[i], i) == [])
      <==> forall i :: 0 <= i < |vs| ==> VideoConforms(vs[i])
  {
    forall i | 0 <= i < |vs|
      ensures VideoViolations(vs[i], i) == [] <==> VideoConforms(vs[i])
    {
      VideoViolationsEmpty(vs[i], i);
    }
  }

  lemma ConcatEmpty<T>(a: seq<T>, b: seq<T>, c: seq<T>)
    ensures a + b + c == [] <==> a == [] && b == [] && c == []
  {
    if a + b + c == [] {
      assert |a + b + c| == |a| + |b| + |c|;
    }
  }

  lemma {:induction false} Formats3DEntriesEmpty(fs: seq<Records.Formats3D>, n: nat)
    requires n <= |fs|
    ensures Formats3DEntriesViolations(fs, n) == [] <==>
      (forall i :: 0 <= i < n ==> Formats3DConforms(fs[i]))
      && (forall i, j :: 0 <= j < i < n ==> fs[j].h264Profile != fs[i].h264Profile)
  {
    if n > 0 {
      Formats3DEntriesEmpty(fs, n - 1);
      Formats3DProfileSeenIff(fs, n - 1, fs[n - 1].h264Profile);
    }
  }

  /** A record has no violation exactly when it keeps every rule. */
  lemma ValidateEmpty(c: Capability)
    ensures Validate(c) == [] <==> Conforms(c)
  {
    VideoEntriesEmpty(c.video, |c.video|);
    VideoEntriesConform(c.video);
    Formats3DEntriesEmpty(c.formats3D, |c.formats3D|);
  }
}
