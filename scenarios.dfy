/**
 * Whole elements taken apart octet by octet: the outcomes the decoder
 * gives for a few concrete advertisements.
 */
module Scenarios {
  import opened Wrappers
  import opened Bytes
  import opened Fields
  import opened Envelope
  import opened Scanner
  import opened Registry
  import opened Records
  import opened Payloads
  import opened Capabilities

  /** A sink's element holding one device-information subelement. */
  const DEV_INFO_ELEMENT: seq<bv8> :=
    [0xdd, 13, 0x50, 0x6f, 0x9a, 0x0a, 0x00, 0x00, 0x06, 0x00, 0x01, 0x1c, 0x44, 0x00, 0x32]

  /** Its device information: a primary sink listening on the default control port, 50 Mbps. */
  const SINK_DEV_INFO := Records.DevInfo(0x0001, 7236, 50)

  lemma DevInfoElementDecodes()
    ensures DecodeCapability(DEV_INFO_ELEMENT)
         == Ok(Collected(EMPTY.(devInfo := Some(SINK_DEV_INFO)), []))
    ensures RoleOf(SINK_DEV_INFO.devInfo) == PrimarySink
    ensures SINK_DEV_INFO.ctrlPort == DEV_INFO_DEFAULT_PORT
  {
    var buf := DEV_INFO_ELEMENT;
    OctetValueIsNat(buf[1]);
    var data := buf[IE_HEADER_SIZE..];
    assert DecodeEnvelope(buf) == Ok(data);
    OctetValueIsNat(data[1]);
    OctetValueIsNat(data[2]);
    var sub := RawSubelement(0, data[3..9]);
    assert ReadCount(data, 1) == 6;
    assert Scan(data, 9) == Ok([]);
    assert [sub] + [] == [sub];
    assert Scan(data, 0) == Ok([sub]);
    assert DecodePayload(Kind.DevInfo, sub.data) == Some(DevInfoPayload(SINK_DEV_INFO));
    assert Collect(Collected(EMPTY, []), [sub]) == Ok(Collected(EMPTY.(devInfo := Some(SINK_DEV_INFO)), []));
  }

  /** The record a primary sink advertises with nothing but its device information. */
  const SINK_RECORD := EMPTY.(devInfo := Some(SINK_DEV_INFO))

  lemma SinkFieldsEmpty(k: Kind)
    requires k != Kind.DevInfo
    ensures Field(SINK_RECORD, k) == []
  {
  }

  lemma {:induction false} SinkPayloadsBelow(n: nat)
    requires 1 <= n <= |KINDS|
    ensures Below(SINK_RECORD, n) == [DevInfoPayload(SINK_DEV_INFO)]
  {
    if n > 1 {
      SinkPayloadsBelow(n - 1);
      KindsInIdOrder();
      assert Id(KINDS[n - 1]) != 0;
      SinkFieldsEmpty(KINDS[n - 1]);
    }
  }

  /** The device-information payload of the record, as its one subelement. */
  const SINK_SUBELEMENT := RawSubelement(0, [0x00, 0x01, 0x1c, 0x44, 0x00, 0x32])

  lemma SinkSubelements()
    ensures Subelements(PayloadsOf(SINK_RECORD)) == Ok([SINK_SUBELEMENT])
  {
    SinkPayloadsBelow(|KINDS|);
    var p := DevInfoPayload(SINK_DEV_INFO);
    assert EncodePayload(p) == SINK_SUBELEMENT.data;
    assert [p][1..] == [];
    assert Subelements([]) == Ok([]);
    assert [SINK_SUBELEMENT] + [] == [SINK_SUBELEMENT];
    assert Subelements([p]) == Ok([SINK_SUBELEMENT]);
  }

  lemma SinkSerializes()
    ensures Serialize([SINK_SUBELEMENT]) == DEV_INFO_ELEMENT[IE_HEADER_SIZE..]
  {
    OctetIsBv(6);
    assert Count(6) == [0x00, 0x06];
    assert [SINK_SUBELEMENT][1..] == [];
  }

  /** Encoding that record writes exactly the element above, so the decoder and the encoder meet on it. */
  lemma SinkRecordEncodes()
    ensures EncodeCapability(SINK_RECORD) == Ok(DEV_INFO_ELEMENT)
  {
    var data := DEV_INFO_ELEMENT[IE_HEADER_SIZE..];
    SinkSerializes();
    assert |data| == 9;
    OctetIsBv(13);
    calc {
      EncodeCapability(SINK_RECORD);
      { SinkSubelements(); }
      Ok(EncodeEnvelope(Serialize([SINK_SUBELEMENT])).value);
      Ok(EncodeEnvelope(data).value);
      Ok([IE_ID, Octet(|data| + 4)] + U32(IE_OUI_1_0) + data);
      { assert [IE_ID, Octet(13)] + U32(IE_OUI_1_0) == DEV_INFO_ELEMENT[..IE_HEADER_SIZE]; }
      Ok(DEV_INFO_ELEMENT[..IE_HEADER_SIZE] + DEV_INFO_ELEMENT[IE_HEADER_SIZE..]);
      { assert DEV_INFO_ELEMENT[..IE_HEADER_SIZE] + DEV_INFO_ELEMENT[IE_HEADER_SIZE..] == DEV_INFO_ELEMENT; }
      Ok(DEV_INFO_ELEMENT);
    }
  }

  /** An element under another organisation's OUI is refused before any subelement is read. */
  lemma ForeignOuiRefused()
    ensures DecodeCapability([0xdd, 4, 0x12, 0x34, 0x56, 0x78]) == Err(MalformedEnvelope(BadOui(0x1234_5678)))
  {
    OctetValueIsNat(4);
  }

  /** The same subelement behind an entry of an id the definitions do not know, which is skipped and reported. */
  const UNKNOWN_FIRST_DATA: seq<bv8> :=
    [99, 0x00, 0x02, 0xab, 0xcd, 0x00, 0x00, 0x06, 0x00, 0x01, 0x1c, 0x44, 0x00, 0x32]

  const UNKNOWN_FIRST_ELEMENT: seq<bv8> := [0xdd, 18, 0x50, 0x6f, 0x9a, 0x0a] + UNKNOWN_FIRST_DATA

  lemma UnknownFirstScans()
    ensures Scan(UNKNOWN_FIRST_DATA, 0)
         == Ok([RawSubelement(99, [0xab, 0xcd]), RawSubelement(0, [0x00, 0x01, 0x1c, 0x44, 0x00, 0x32])])
  {
    var data := UNKNOWN_FIRST_DATA;
    OctetValueIsNat(data[1]);
    OctetValueIsNat(data[2]);
    OctetValueIsNat(data[6]);
    OctetValueIsNat(data[7]);
    var unknown := RawSubelement(99, data[3..5]);
    var sub := RawSubelement(0, data[8..14]);
    assert ReadCount(data, 1) == 2 && ReadCount(data, 6) == 6;
    assert Scan(data, 14) == Ok([]);
    assert [sub] + [] == [sub];
    assert Scan(data, 5) == Ok([sub]);
    assert data[3..5] == [0xab, 0xcd] && data[8..14] == [0x00, 0x01, 0x1c, 0x44, 0x00, 0x32];
    assert [unknown] + [sub] == [unknown, sub];
  }

  lemma UnknownFirstEnvelope()
    ensures DecodeEnvelope(UNKNOWN_FIRST_ELEMENT) == Ok(UNKNOWN_FIRST_DATA)
  {
    var buf := UNKNOWN_FIRST_ELEMENT;
    OctetValueIsNat(buf[1]);
    assert buf[IE_HEADER_SIZE..] == UNKNOWN_FIRST_DATA;
  }

  lemma UnknownFirstCollects()
    ensures Collect(Collected(EMPTY, []),
                    [RawSubelement(99, [0xab, 0xcd]), RawSubelement(0, [0x00, 0x01, 0x1c, 0x44, 0x00, 0x32])])
         == Ok(Collected(EMPTY.(devInfo := Some(SINK_DEV_INFO)), [UnknownSubelement(99, 2)]))
  {
    var unknown := RawSubelement(99, [0xab, 0xcd]);
    var sub := RawSubelement(0, [0x00, 0x01, 0x1c, 0x44, 0x00, 0x32]);
    assert [unknown, sub] == [unknown] + [sub];
    CollectUnknown(Collected(EMPTY, []), unknown, [sub]);
    var skipped := Collected(EMPTY, [UnknownSubelement(99, 2)]);
    assert [] + [UnknownSubelement(99, |unknown.data|)] == skipped.warnings;
    assert DecodePayload(Kind.DevInfo, sub.data) == Some(DevInfoPayload(SINK_DEV_INFO));
    assert Absorb(skipped, DevInfoPayload(SINK_DEV_INFO)) == Collected(EMPTY.(devInfo := Some(SINK_DEV_INFO)), skipped.warnings);
    assert Step(skipped, sub) == Ok(Absorb(skipped, DevInfoPayload(SINK_DEV_INFO)));
    assert [sub][1..] == [];
    assert Collect(skipped, [sub]) == Ok(Collected(EMPTY.(devInfo := Some(SINK_DEV_INFO)), skipped.warnings));
  }

  lemma UnknownSubelementSkipped()
    ensures DecodeCapability(UNKNOWN_FIRST_ELEMENT)
         == Ok(Collected(EMPTY.(devInfo := Some(SINK_DEV_INFO)), [UnknownSubelement(99, 2)]))
  {
    UnknownFirstEnvelope();
    UnknownFirstScans();
    UnknownFirstCollects();
  }
}
