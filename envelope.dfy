/**
 * The vendor-specific element that carries the WFD subelements: element id
 * 0xdd, a length octet counting everything after itself, the 4-octet WFD
 * OUI and at most 251 octets of subelement data.
 */
module Envelope {
  import opened Wrappers
  import opened Bytes

  const IE_ID: bv8 := 0xdd
  const IE_OUI_1_0: bv32 := 0x506f9a0a
  const IE_DATA_MAX: nat := 251

  /** Packed size of element_id, length and oui. */
  const IE_HEADER_SIZE: nat := 6

  datatype EnvelopeError =
    | Truncated(available: nat)
    | BadElementId(id: bv8)
    | BadLength(declared: nat, available: nat)
    | BadOui(oui: bv32)
    | PayloadTooLong(size: nat)

  /** The bytes a correct element carrying `data` consists of. */
  ghost predicate IsElementOf(buf: seq<bv8>, data: seq<bv8>)
  {
    |buf| == IE_HEADER_SIZE + |data|
    && buf[0] == IE_ID
    && OctetValue(buf[1]) == |buf| - 2
    && ReadU32(buf, 2) == IE_OUI_1_0
    && buf[IE_HEADER_SIZE..] == data
  }

  /**
   * Checks the element header of a buffer holding exactly one element and
   * returns its subelement data.
   */
  function DecodeEnvelope(buf: seq<bv8>): (r: Result<seq<bv8>, EnvelopeError>)
    ensures r.Ok? <==> |buf| >= IE_HEADER_SIZE && IsElementOf(buf, buf[IE_HEADER_SIZE..])
    ensures r.Ok? ==> IsElementOf(buf, r.value) && |r.value| <= IE_DATA_MAX
    ensures |buf| >= 1 && buf[0] != IE_ID ==> r == Err(BadElementId(buf[0]))
  {
    if |buf| < 2 then
      if |buf| == 1 && buf[0] != IE_ID then Err(BadElementId(buf[0])) else Err(Truncated(|buf|))
    else if buf[0] != IE_ID then Err(BadElementId(buf[0]))
    else if OctetValue(buf[1]) < IE_HEADER_SIZE - 2 || OctetValue(buf[1]) != |buf| - 2 then
      Err(BadLength(OctetValue(buf[1]), |buf| - 2))
    else if ReadU32(buf, 2) != IE_OUI_1_0 then Err(BadOui(ReadU32(buf, 2)))
    else
      OctetOfValue(buf[1]);
      Ok(buf[IE_HEADER_SIZE..])
  }

  /** The element carrying `data`; data longer than one element can hold is refused. */
  function EncodeEnvelope(data: seq<bv8>): (r: Result<seq<bv8>, EnvelopeError>)
    ensures r.Ok? <==> |data| <= IE_DATA_MAX
    ensures r.Ok? ==> IsElementOf(r.value, data) && DecodeEnvelope(r.value) == Ok(data)
    ensures r.Err? ==> r.error == PayloadTooLong(|data|)
  {
    if |data| > IE_DATA_MAX then Err(PayloadTooLong(|data|))
    else
      ValueOfOctet(|data| + 4);
      var buf := [IE_ID, Octet(|data| + 4)] + U32(IE_OUI_1_0) + data;
      assert buf[2..6] == U32(IE_OUI_1_0);
      U32OfRead(buf, 2);
      assert buf[6..] == data;
      Ok(buf)
  }

  /** Every element that decodes is exactly the encoding of its data. */
  lemma EncodeOfDecode(buf: seq<bv8>)
    requires DecodeEnvelope(buf).Ok?
    ensures EncodeEnvelope(DecodeEnvelope(buf).value) == Ok(buf)
  {
    var data := buf[IE_HEADER_SIZE..];
    U32OfRead(buf, 2);
    OctetOfValue(buf[1]);
    assert buf == [buf[0], buf[1]] + buf[2..6] + data;
  }
}
