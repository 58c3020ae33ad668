/**
 * The named fields of the WFD subelements, as mask/shift pairs, and the laws
 * that make them independent of one another.
 */
module Fields {
  import opened Wrappers
  import opened BitField

  // ---- device information (16-bit dev_info word) ----

  const DEV_INFO_ROLE := Field16(0x0003, 0)
  const DEV_INFO_SRC_COUPLED_SINK := Field16(0x0004, 0)
  const DEV_INFO_SINK_COUPLED_SINK := Field16(0x0008, 0)
  const DEV_INFO_AVAILABLE := Field16(0x0030, 0)
  const DEV_INFO_WSD := Field16(0x0040, 0)
  const DEV_INFO_PC := Field16(0x0080, 0)
  const DEV_INFO_CP := Field16(0x0100, 0)
  const DEV_INFO_TIME_SYNC := Field16(0x0200, 0)
  const DEV_INFO_NO_AUDIO := Field16(0x0400, 0)
  const DEV_INFO_AUDIO_ONLY := Field16(0x0800, 0)
  const DEV_INFO_PERSIST_TDLS := Field16(0x1000, 0)
  const DEV_INFO_TDLS_REINVOKE := Field16(0x2000, 0)

  const DEV_INFO_FIELDS: seq<Field16> := [
    DEV_INFO_ROLE, DEV_INFO_SRC_COUPLED_SINK, DEV_INFO_SINK_COUPLED_SINK,
    DEV_INFO_AVAILABLE, DEV_INFO_WSD, DEV_INFO_PC, DEV_INFO_CP,
    DEV_INFO_TIME_SYNC, DEV_INFO_NO_AUDIO, DEV_INFO_AUDIO_ONLY,
    DEV_INFO_PERSIST_TDLS, DEV_INFO_TDLS_REINVOKE]

  const DEV_INFO_DEFAULT_PORT: bv16 := 7236

  /** The device role held in the two low bits of dev_info. */
  datatype Role = Source | PrimarySink | SecondarySink | DualRole

  function RoleBits(role: Role): bv16
  {
    match role
    case Source => 0x0000
    case PrimarySink => 0x0001
    case SecondarySink => 0x0002
    case DualRole => 0x0003
  }

  /** The role a dev_info word advertises; every 2-bit pattern names one. */
  function RoleOf(devInfo: bv16): (r: Role)
    ensures RoleBits(r) == Get16(devInfo, DEV_INFO_ROLE)
  {
    var bits := Get16(devInfo, DEV_INFO_ROLE);
    if bits == 0 then Source
    else if bits == 1 then PrimarySink
    else if bits == 2 then SecondarySink
    else DualRole
  }

  /** Writing a role and reading it back gives the same role, and no other dev_info field moves. */
  lemma RoleRoundTrip(devInfo: bv16, role: Role, i: nat)
    requires 0 < i < |DEV_INFO_FIELDS|
    ensures RoleOf(Set16(devInfo, DEV_INFO_ROLE, RoleBits(role))) == role
    ensures Get16(Set16(devInfo, DEV_INFO_ROLE, RoleBits(role)), DEV_INFO_FIELDS[i])
         == Get16(devInfo, DEV_INFO_FIELDS[i])
  {
    GetSet16(devInfo, DEV_INFO_ROLE, RoleBits(role));
    DevInfoFieldsDisjoint();
    SetKeepsOthers16(devInfo, DEV_INFO_ROLE, DEV_INFO_FIELDS[i], RoleBits(role));
  }

  /** The twelve dev_info fields occupy pairwise disjoint bits. */
  lemma DevInfoFieldsDisjoint()
    ensures forall i, j :: 0 <= i < j < |DEV_INFO_FIELDS| ==> DEV_INFO_FIELDS[i].mask & DEV_INFO_FIELDS[j].mask == 0
    ensures forall i :: 0 <= i < |DEV_INFO_FIELDS| ==> DEV_INFO_FIELDS[i].shift == 0
  {
  }

  // ---- video / 3D formats: native mode byte ----

  const NATIVE_MODE_TABLE := Field8(0x03, 0)
  const NATIVE_MODE_CEA_TABLE: bv8 := 0x00
  const NATIVE_MODE_VESA_TABLE: bv8 := 0x01
  const NATIVE_MODE_HH_TABLE: bv8 := 0x02

  /** The index field exactly as the header defines it: mask 0xfc with shift 3. */
  const NATIVE_MODE_IDX_AS_WRITTEN := Field8(0xfc, 3)

  /** The index field as its mask means it: the six bits above the table selector. */
  const NATIVE_MODE_IDX := Field8(0xfc, 2)

  /** A native-mode byte built from a table selector and a 6-bit index; out-of-range parts are refused. */
  function NativeModeByte(table: bv8, index: bv8): (r: Option<bv8>)
    ensures r.Some? <==> table < 4 && index < 64
    ensures r.Some? ==> NativeModeOf(r.value) == (table, index)
  {
    NativeModeIndexFits(index);
    match Put8(0, NATIVE_MODE_TABLE, table)
    case None => None
    case Some(b) => Put8(b, NATIVE_MODE_IDX, index)
  }

  /** The (table selector, index) pair a native-mode byte names. */
  function NativeModeOf(b: bv8): (bv8, bv8)
  {
    (Get8(b, NATIVE_MODE_TABLE), Get8(b, NATIVE_MODE_IDX))
  }

  // ---- video / 3D formats: slice_enc word ----

  const SLICE_ENC_MAX := Field16(0x03ff, 0)
  const SLICE_ENC_RATIO := Field16(0x0c00, 10)
  const NO_SLICE_ENC: bv16 := 0x0000

  // ---- video / 3D formats: frame_skip byte ----

  const FRAME_SKIP_CAN := Field8(0x01, 0)
  const FRAME_SKIP_MAX_I := Field8(0x0e, 1)
  const FRAME_SKIP_DYN := Field8(0x10, 0)

  // ---- content protection flags byte ----

  const HDCP_2_0 := Field8(0x01, 0)
  const HDCP_2_1 := Field8(0x02, 0)

  // ---- coupled sink status byte ----

  const COUPLED_SINK_STATUS := Field8(0x03, 0)
  const COUPLED_SINK_NOT_COUPLED: bv8 := 0x00
  const COUPLED_SINK_COUPLED: bv8 := 0x01
  const COUPLED_SINK_COUPLE_TEARDOWN: bv8 := 0x02

  // ---- extended capabilities flags word ----

  const EXT_CAP_UIBC := Field16(0x01, 0)
  const EXT_CAP_I2C := Field16(0x02, 0)
  const EXT_CAP_PREFER_MODE := Field16(0x04, 0)
  const EXT_CAP_STANDBY := Field16(0x08, 0)
  const EXT_CAP_PERSIST_TDLS := Field16(0x10, 0)
  const EXT_CAP_PERSIST_TDLS_BSSID := Field16(0x20, 0)

  const EXT_CAP_FIELDS: seq<Field16> := [
    EXT_CAP_UIBC, EXT_CAP_I2C, EXT_CAP_PREFER_MODE, EXT_CAP_STANDBY,
    EXT_CAP_PERSIST_TDLS, EXT_CAP_PERSIST_TDLS_BSSID]

  lemma ExtCapFieldsDisjoint()
    ensures forall i, j :: 0 <= i < j < |EXT_CAP_FIELDS| ==> EXT_CAP_FIELDS[i].mask & EXT_CAP_FIELDS[j].mask == 0
  {
  }

  // ---- the shifted fields hold exactly their declared widths ----

  /** slice_enc: the maximum-slice count is 10 bits wide and the ratio 2 bits; they do not overlap. */
  lemma SliceEncFields(x: bv16)
    ensures Fits16(SLICE_ENC_MAX, x) <==> x < 0x400
    ensures Fits16(SLICE_ENC_RATIO, x) <==> x < 4
    ensures SLICE_ENC_MAX.mask & SLICE_ENC_RATIO.mask == 0
  {
  }

  /** frame_skip: capability bit, 3-bit maximum I-frame skip and dynamic bit are disjoint. */
  lemma FrameSkipFields(x: bv8)
    ensures Fits8(FRAME_SKIP_MAX_I, x) <==> x < 8
    ensures FRAME_SKIP_CAN.mask & FRAME_SKIP_MAX_I.mask == 0
    ensures FRAME_SKIP_CAN.mask & FRAME_SKIP_DYN.mask == 0
    ensures FRAME_SKIP_MAX_I.mask & FRAME_SKIP_DYN.mask == 0
  {
  }

  /** The corrected native-mode index holds every 6-bit value and is disjoint from the table selector. */
  lemma NativeModeIndexFits(x: bv8)
    ensures Fits8(NATIVE_MODE_IDX, x) <==> x < 64
    ensures NATIVE_MODE_IDX.mask & NATIVE_MODE_TABLE.mask == 0
  {
  }

  /** With the corrected shift, every native-mode byte is rebuilt from its index read back. */
  lemma NativeModeIndexSetGet(v: bv8)
    ensures Set8(v, NATIVE_MODE_IDX, Get8(v, NATIVE_MODE_IDX)) == v
  {
  }

  /**
   * With the header's shift of 3, only indices below 32 survive a write: the
   * 6-bit index 32 is written as 0 and read back as 0.
   */
  lemma NativeModeIndexAsWrittenLoses(x: bv8)
    ensures Fits8(NATIVE_MODE_IDX_AS_WRITTEN, x) <==> x < 32
    ensures Get8(Set8(0, NATIVE_MODE_IDX_AS_WRITTEN, 32), NATIVE_MODE_IDX_AS_WRITTEN) == 0
  {
  }

  /** With the header's shift of 3, bit 2 of the byte is never read: the byte 0x04 is not rebuilt. */
  lemma NativeModeIndexAsWrittenDropsBit2()
    ensures Get8(0x04, NATIVE_MODE_IDX_AS_WRITTEN) == 0
    ensures Set8(0x04, NATIVE_MODE_IDX_AS_WRITTEN, Get8(0x04, NATIVE_MODE_IDX_AS_WRITTEN)) == 0x00
  {
  }
}
