# Wi-Fi Display information element, modelled in Dafny

This project models the wire definitions of the OpenWFD header
`src/openwfd/wfd_defs.h`. These define the Wi-Fi Display vendor-specific
information element:

- **The element envelope:** element id 0xDD, a length octet, the OUI and type
  word 0x506F9A0A, and at most 251 octets of data.
- **The subelement stream:** a 1-octet id, a 16-bit length, then the data.
- **Eleven packed payload layouts:** device information, associated BSSID,
  audio formats, video formats, 3D formats, content protection, coupled sink,
  extended capabilities, local IP, session information and alternative MAC.
- **Bit fields:** the mask/shift fields inside those layouts.
- **The latency macro:** multiples of 5 ms.
- **Consistency rules:** the rules the header's comments state.

The header declares the layouts and leaves parsing to its users. The model
supplies the parser and serialiser those layouts determine, and proves the
following about them:

- The element is decoded and encoded exactly, in both directions.
- The scanner never reads past the data it is given.
- Every fixed layout decodes exactly its packed size and round-trips.
- Session information is an array of 24-octet entries, each led by the length
  octet 23.
- Writing a field reads back what was written and leaves the other fields alone.
- The latency macro computes a ceiling.
- The validator reports no violation exactly when every stated rule holds.
- Every record that fits one element decodes back to itself with no warning.

Multi-octet fields use network byte order (most significant octet first),
applied uniformly. The header states no byte order of its own. It does state
the OUI constant 0x506F9A0A, and read in network order that constant is the
Wi-Fi Alliance OUI 50:6F:9A followed by the WFD type octet 0x0A.

The modules follow the layers of the header:

- `Bytes`: octets and fixed-width integers
- `BitField`: mask/shift accessors
- `Fields`: the named fields
- `Latency`
- `Envelope`
- `Registry`: the subelement kinds
- `Scanner`: the subelement stream
- `Records`: the packed layouts
- `Payloads`: dispatch by kind
- `Capabilities`: a whole decoded element
- `Validation`
- `Scenarios`: concrete elements

Decoding applies these policies:

- A subelement with an unknown id is skipped, and a warning names it.
- A second subelement of a kind that may appear only once is dropped, and a
  warning names it. The first one is kept.
- A known subelement whose payload has the wrong size stops the decode with an
  error.

Video-formats and 3D-formats subelements may repeat, one per supported H.264
profile, as the header's comments say.

## Model

| member | source | states |
|---|---|---|
| Envelope.DecodeEnvelope | src/openwfd/wfd_defs.h:61-72 | a buffer is accepted exactly when it is id 0xDD, a length octet equal to the octets after it, the OUI 0x506F9A0A and data; the data returned is at most 251 octets; a wrong first octet is reported as such |
| Envelope.EncodeEnvelope | src/openwfd/wfd_defs.h:61-72 | data of at most 251 octets is wrapped into a well-formed element that decodes back to the same data; longer data is refused |
| Envelope.EncodeOfDecode | src/openwfd/wfd_defs.h:61-72 | every element that decodes is exactly the element re-encoded from its data |
| Registry.Id | src/openwfd/wfd_defs.h:78-91 | every kind has a wire id below SUB_NUM = 11 |
| Registry.KindOf | src/openwfd/wfd_defs.h:78-91 | exactly the ids below 11 name a kind, and that kind's id is the id read |
| Registry.KindOfId | src/openwfd/wfd_defs.h:78-91 | ids and kinds correspond one to one |
| Registry.FixedSize | src/openwfd/wfd_defs.h:167-512 | every kind but session information has one packed size |
| Registry.CardinalityOf | src/openwfd/wfd_defs.h:214-217 | only video and 3D formats may appear more than once in an element |
| Bytes.U16 | src/openwfd/wfd_defs.h:93-97 | a 16-bit field is written as two octets that read back as the same value |
| Bytes.U32 | src/openwfd/wfd_defs.h:67-72 | a 32-bit field is written as four octets that read back as the same value |
| Bytes.U64 | src/openwfd/wfd_defs.h:398-399 | a 64-bit field is written as eight octets that read back as the same value |
| Bytes.U16OfRead | src/openwfd/wfd_defs.h:93-97 | any two octets read as a 16-bit value are written back unchanged |
| Bytes.U32OfRead | src/openwfd/wfd_defs.h:67-72 | any four octets read as a 32-bit value are written back unchanged |
| Bytes.U64OfRead | src/openwfd/wfd_defs.h:398-399 | any eight octets read as a 64-bit value are written back unchanged |
| Bytes.ReadCount | src/openwfd/wfd_defs.h:93-97 | a subelement length read off the wire is below 65536 |
| Bytes.ReadOfCount | src/openwfd/wfd_defs.h:93-97 | a length below 65536 written as two octets reads back as itself |
| Bytes.CountOfRead | src/openwfd/wfd_defs.h:93-97 | any two length octets read and written back are unchanged |
| Scanner.Scan | src/openwfd/wfd_defs.h:93-97 | splitting the data into id/length/data entries either succeeds or names the offset of an entry inside the data at which it stopped |
| Scanner.ScanSound | src/openwfd/wfd_defs.h:93-97 | whatever the scan accepts is exactly the serialization of the entries it returns, so no octet is skipped or invented |
| Scanner.ScanSerialize | src/openwfd/wfd_defs.h:93-97 | scanning serialized entries gives back exactly those entries |
| Scanner.ScanAppend | src/openwfd/wfd_defs.h:93-97 | a serialized stream followed by any octets scans as its entries followed by what those octets yield |
| Scanner.ScanPrefix | src/openwfd/wfd_defs.h:93-97 | entries serialized at any offset are scanned as themselves and the scan goes on after them |
| Scanner.ScanOverrun | src/openwfd/wfd_defs.h:93-97 | a declared length that overruns the remaining octets stops the scan at that entry with the declared and available sizes |
| Scanner.ScanShortHeader | src/openwfd/wfd_defs.h:93-97 | one or two stray octets after a well-formed stream stop the scan at the stray header |
| BitField.Put8 | src/openwfd/wfd_defs.h:327-336 | an 8-bit field write succeeds exactly when the value fits the field, and then reads back as written and leaves every disjoint field unchanged |
| BitField.Put16 | src/openwfd/wfd_defs.h:319-325 | a 16-bit field write succeeds exactly when the value fits the field, and then reads back as written and leaves every disjoint field unchanged |
| BitField.GetSet8 | src/openwfd/wfd_defs.h:327-336 | get after set returns the value set, when it fits the field |
| BitField.GetSet16 | src/openwfd/wfd_defs.h:319-325 | get after set returns the value set, when it fits the field |
| BitField.SetKeepsOthers8 | src/openwfd/wfd_defs.h:327-336 | setting one field leaves a field with a disjoint mask unchanged |
| BitField.SetKeepsOthers16 | src/openwfd/wfd_defs.h:103-163 | setting one field leaves a field with a disjoint mask unchanged |
| BitField.SetSet16 | src/openwfd/wfd_defs.h:319-325 | a second write to a field overrides the first |
| BitField.SetOutsideMask16 | src/openwfd/wfd_defs.h:319-325 | a write never touches the bits outside its field's mask |
| Fields.RoleOf | src/openwfd/wfd_defs.h:103-108 | each of the four values of the two role bits names one device role |
| Fields.RoleRoundTrip | src/openwfd/wfd_defs.h:103-163 | writing a role reads it back and leaves each of the other eleven dev_info fields unchanged |
| Fields.DevInfoFieldsDisjoint | src/openwfd/wfd_defs.h:103-163 | the twelve dev_info fields, role 0x0003 through TDLS re-invoke 0x2000, occupy pairwise disjoint bits and are unshifted |
| Fields.SliceEncFields | src/openwfd/wfd_defs.h:319-325 | the slice count holds exactly the values below 1024, the ratio those below 4, and the two fields are disjoint |
| Fields.FrameSkipFields | src/openwfd/wfd_defs.h:327-336 | the maximum I-frame skip holds exactly the values below 8, and the capability, skip and dynamic fields are pairwise disjoint |
| Fields.ExtCapFieldsDisjoint | src/openwfd/wfd_defs.h:446-474 | the six extended-capability flags occupy pairwise disjoint bits |
| Fields.NativeModeByte | src/openwfd/wfd_defs.h:287-295 | a native-mode byte is built exactly from a table selector below 4 and an index below 64, and decomposes back into the same pair |
| Fields.NativeModeIndexFits | src/openwfd/wfd_defs.h:293-295 | the corrected index field holds exactly the 6-bit values and does not overlap the table selector |
| Fields.NativeModeIndexSetGet | src/openwfd/wfd_defs.h:293-295 | with the corrected shift, every byte is rebuilt from the index read out of it |
| Fields.NativeModeIndexAsWrittenLoses | src/openwfd/wfd_defs.h:294-295 | with mask 0xfc and shift 3 only indices below 32 fit, and index 32 is written and read back as 0 |
| Fields.NativeModeIndexAsWrittenDropsBit2 | src/openwfd/wfd_defs.h:294-295 | with mask 0xfc and shift 3 the byte 0x04 reads as index 0, and writing that index back loses bit 2 |
| Latency.LatencyFromMs | src/openwfd/wfd_defs.h:200-203 | (ms + 4) / 5 in 64-bit arithmetic gives a count of 5 ms units that covers ms by less than one unit, and 0 ms gives the unknown-latency value 0 |
| Latency.LatencyIsCeiling | src/openwfd/wfd_defs.h:200-203 | the macro's result is the least count of 5 ms units covering ms |
| Latency.LatencyFromMsWraps | src/openwfd/wfd_defs.h:202-203 | for the largest 64-bit ms the addition wraps and the macro yields 0 |
| Latency.LatencyToMs | src/openwfd/wfd_defs.h:308-311 | a latency octet stands for a multiple of 5 ms of at most 1275 ms |
| Latency.LatencyByte | src/openwfd/wfd_defs.h:308-311 | a latency octet exists exactly for latencies up to 1275 ms, and it covers the latency by less than 5 ms |
| Latency.LatencyByteOfWire | src/openwfd/wfd_defs.h:308-311 | a latency octet read off the wire is written back as the same octet |
| Records.DecodeDevInfo | src/openwfd/wfd_defs.h:167-171 | device information decodes exactly from 6 octets |
| Records.EncodeDevInfo | src/openwfd/wfd_defs.h:167-171 | encoded device information decodes back to itself |
| Records.EncodeOfDecodeDevInfo | src/openwfd/wfd_defs.h:167-171 | every 6 octets are the encoding of what they decode to |
| Records.DecodeMac | src/openwfd/wfd_defs.h:177-179 | a BSSID or MAC decodes exactly from 6 octets, as those octets |
| Records.DecodeAudio | src/openwfd/wfd_defs.h:205-212 | audio formats decode exactly from 15 octets |
| Records.EncodeAudio | src/openwfd/wfd_defs.h:205-212 | encoded audio formats decode back to themselves |
| Records.EncodeOfDecodeAudio | src/openwfd/wfd_defs.h:205-212 | every 15 octets are the encoding of what they decode to |
| Records.DecodeVideo | src/openwfd/wfd_defs.h:338-349 | video formats decode exactly from 21 octets |
| Records.EncodeVideo | src/openwfd/wfd_defs.h:338-349 | encoded video formats decode back to themselves |
| Records.EncodeOfDecodeVideo | src/openwfd/wfd_defs.h:338-349 | every 21 octets are the encoding of what they decode to |
| Records.Decode3D | src/openwfd/wfd_defs.h:398-407 | 3D formats decode exactly from 17 octets |
| Records.Encode3D | src/openwfd/wfd_defs.h:398-407 | encoded 3D formats decode back to themselves |
| Records.EncodeOfDecode3D | src/openwfd/wfd_defs.h:398-407 | every 17 octets are the encoding of what they decode to |
| Records.DecodeContentProtect | src/openwfd/wfd_defs.h:423-425 | content protection decodes exactly from 1 octet, as that octet |
| Records.DecodeCoupledSink | src/openwfd/wfd_defs.h:437-440 | coupled-sink information decodes exactly from 7 octets |
| Records.EncodeCoupledSink | src/openwfd/wfd_defs.h:437-440 | encoded coupled-sink information decodes back to itself |
| Records.EncodeOfDecodeCoupledSink | src/openwfd/wfd_defs.h:437-440 | every 7 octets are the encoding of what they decode to |
| Records.DecodeExtCap | src/openwfd/wfd_defs.h:476-478 | extended capabilities decode exactly from 2 octets, which are the 16-bit flags written back |
| Records.DecodeLocalIp | src/openwfd/wfd_defs.h:484-489 | local IP decodes exactly from 5 octets |
| Records.EncodeLocalIp | src/openwfd/wfd_defs.h:484-489 | encoded local IP decodes back to itself |
| Records.EncodeOfDecodeLocalIp | src/openwfd/wfd_defs.h:484-489 | every 5 octets are the encoding of what they decode to |
| Records.DecodeSessionEntry | src/openwfd/wfd_defs.h:495-504 | a session entry decodes exactly from 24 octets whose first octet is the length 23 |
| Records.EncodeSessionEntry | src/openwfd/wfd_defs.h:495-504 | an encoded session entry is 24 octets and decodes back to itself |
| Records.EncodeOfDecodeSessionEntry | src/openwfd/wfd_defs.h:495-504 | every accepted 24 octets are the encoding of the entry they decode to |
| Records.DecodeSessionInfo | src/openwfd/wfd_defs.h:495-504 | decoded session information is 24 octets per entry |
| Records.EncodeSessionInfo | src/openwfd/wfd_defs.h:495-504 | encoded session information is 24 octets per entry |
| Records.SessionInfoAccepts | src/openwfd/wfd_defs.h:495-504 | session information decodes exactly when its length is a multiple of 24 and every entry starts with the length octet 23 |
| Records.DecodeOfEncodeSessionInfo | src/openwfd/wfd_defs.h:495-504 | encoded session entries decode back to the same entries in the same order |
| Records.EncodeOfDecodeSessionInfo | src/openwfd/wfd_defs.h:495-504 | accepted session information is exactly the encoding of the entries it decodes to |
| Payloads.DecodePayload | src/openwfd/wfd_defs.h:78-91 | a payload decodes with its subelement's kind; a fixed-size kind decodes exactly at its packed size, and session information exactly when its entries decode |
| Payloads.DecodeOfEncodePayload | src/openwfd/wfd_defs.h:167-512 | every payload decodes back to itself from its encoding under its own kind |
| Payloads.EncodeOfDecodePayload | src/openwfd/wfd_defs.h:167-512 | every payload that decodes is exactly the encoding of what it decodes to |
| Capabilities.FieldShape | src/openwfd/wfd_defs.h:214-217 | a record holds only payloads of the right kind under each kind, and at most one for a kind that may not repeat |
| Capabilities.AbsorbFields | src/openwfd/wfd_defs.h:214-217 | taking in a payload changes only its own kind; it is appended when admitted, and a duplicate of a single-occurrence kind is reported and changes nothing else |
| Capabilities.EncodeCapability | src/openwfd/wfd_defs.h:61-72 | an encoded element is between 6 and 257 octets long |
| Capabilities.DecodeOfEncode | src/openwfd/wfd_defs.h:61-97 | every record that fits one element decodes back to the same record with no warning |
| Capabilities.CollectOkIff | src/openwfd/wfd_defs.h:78-97 | taking in a subelement stream succeeds exactly when every subelement has an unknown id or a payload that decodes under its kind; otherwise the error names the kind and size of the first one that does not |
| Capabilities.DecodeCapabilityOutcome | src/openwfd/wfd_defs.h:61-97 | the decoder fails with a malformed envelope exactly when the element header is refused, with a truncated subelement exactly when the header is sound and the scan stops, and otherwise takes in the scanned stream from an empty record |
| Capabilities.DecodeCapabilityOkIff | src/openwfd/wfd_defs.h:61-97 | an element decodes exactly when its header is sound, its subelement stream scans, and every subelement in it has an unknown id or a payload that decodes |
| Capabilities.CollectUnknown | src/openwfd/wfd_defs.h:78-91 | a subelement with an id of 11 or more is skipped and reported, and the rest is taken in as if it were absent |
| Capabilities.CollectBadPayload | src/openwfd/wfd_defs.h:167-512 | a known subelement whose payload does not decode stops the decode, whatever follows it |
| Capabilities.CollectDuplicate | src/openwfd/wfd_defs.h:214-217 | of two subelements of a single-occurrence kind, the first is kept and the second is reported and dropped |
| Validation.ContentProtectViolationsExact | src/openwfd/wfd_defs.h:413-421 | the HDCP check fires exactly on flags with HDCP 2.1 set and HDCP 2.0 clear (0x02 fails, 0x03 passes), and reports nothing exactly when the rule holds |
| Validation.CeaViolationsEmpty | src/openwfd/wfd_defs.h:219-225 | the CEA check reports nothing exactly when 640x480p60 is present, a higher p60 mode comes with 720x480p60 and a higher p50 mode with 720x576p50 |
| Validation.VesaViolationsEmpty | src/openwfd/wfd_defs.h:240-271 | the VESA check over any table reports nothing exactly when every listed resolution with its 60 Hz bit also has its 30 Hz bit |
| Validation.VesaTableEmpty | src/openwfd/wfd_defs.h:240-271 | for the fifteen VESA resolutions, the check reports nothing exactly when the lower-rate rule holds for each |
| Validation.VideoViolationsEmpty | src/openwfd/wfd_defs.h:219-325 | a video entry has no violation exactly when its CEA, VESA and slice-encoding rules hold |
| Validation.VideoProfileSeenIff | src/openwfd/wfd_defs.h:214-217 | the repeated-profile search finds a profile exactly when an earlier video entry has it |
| Validation.Formats3DProfileSeenIff | src/openwfd/wfd_defs.h:351-354 | the repeated-profile search finds a profile exactly when an earlier 3D entry has it |
| Validation.VideoEntriesEmpty | src/openwfd/wfd_defs.h:214-217 | the video entries have no violation exactly when each entry passes and no two advertise the same H.264 profile |
| Validation.Formats3DEntriesEmpty | src/openwfd/wfd_defs.h:351-359 | the 3D entries have no violation exactly when each has 1920x540/540p24 and complete slice encoding, and no two advertise the same H.264 profile |
| Validation.ValidateEmpty | src/openwfd/wfd_defs.h:185-425 | a record has no violation exactly when every stated rule holds: mandatory LPCM 2ch/16-bit/48 kHz, HDCP 2.1 only with 2.0, the CEA, VESA, slice-encoding and 3D rules, and one entry per H.264 profile |
| Scenarios.DevInfoElementDecodes | src/openwfd/wfd_defs.h:61-171 | the 15-octet element carrying device information 0x0001, port 7236 and 50 Mbps decodes to a primary sink on the default port, with no warning |
| Scenarios.SinkRecordEncodes | src/openwfd/wfd_defs.h:61-171 | the record holding only that device information encodes to exactly the same 15-octet element, so the encoder does produce elements |
| Scenarios.ForeignOuiRefused | src/openwfd/wfd_defs.h:61-63 | an element under OUI 0x12345678 is refused with that OUI named |
| Scenarios.UnknownSubelementSkipped | src/openwfd/wfd_defs.h:78-97 | an entry with id 99 in front of device information is skipped with a warning and the device information is still decoded |

## Left out

- Handheld (HH) video modes: every HH mode constant in the header is 0x00000000, so there are no bits to check. The HH word is decoded and encoded as a raw 32-bit field.
- WFD service-discovery frames: the header marks them as a TODO and defines nothing for them.
- Host byte-order conversion and the packed attribute: the layout is explicit octet offsets in network byte order, not a compiler's struct layout.
- 802.11 frame handling, fragmentation of data longer than one element, and session transport: these are outside the header.
- The 3D rule that higher p60/p50 modes require 1280x360/360 at p60/p50: the comment does not say which capability bits count as "higher". Only the mandatory 1920x540/540p24 bit is checked.
- H.264 profile and level "mostly only one bit allowed": the comment states no rule exact enough to encode. Only distinct profiles across entries are checked.
- Whether the native-mode index names a mode that is also advertised: the header states no such rule. The native-mode byte is decomposed but not cross-checked.
- Capabilities.DecodeCapability: it has no contract of its own. Its outcomes are stated by Capabilities.DecodeCapabilityOutcome, Capabilities.DecodeCapabilityOkIff and Capabilities.DecodeOfEncode.
- Capabilities.DecodeCapability: it accepts subelements in any order, while Capabilities.EncodeCapability writes them in id order. The round trip is stated from record to octets and back, not from octets to record and back.
- Capabilities.DecodeCapability: a known subelement with a payload of the wrong size is fatal. The header gives no policy, and this is the choice made here.
- Envelope.DecodeEnvelope: the buffer must hold exactly one element. Octets after the declared length are refused, not ignored.
- Payloads.EncodePayload: it has no contract of its own. It is specified through Payloads.DecodeOfEncodePayload and Payloads.EncodeOfDecodePayload.
- Capabilities.EncodeCapability: its own contract states only the size bounds. What it writes is specified through Capabilities.DecodeOfEncode.
- Latency.LatencyFromMs: the ceiling bounds are stated only for ms below 2^64 - 4. Above that the 64-bit addition wraps, as Latency.LatencyFromMsWraps shows.

## Findings

| source | as written | input that shows it | evidently intended | confidence | as-written member | corrected member |
|---|---|---|---|---|---|---|
| src/openwfd/wfd_defs.h:294-295 | native-mode index mask 0xfc with shift 3 | index 32 is written as 0x00 and read back as 0; the byte 0x04 reads as index 0, so bit 2 is lost | a mask and shift that agree: either mask 0xfc with shift 2 (a 6-bit index, 0-63) or mask 0xf8 with shift 3 (a 5-bit index, 0-31); the header's mode tables fit either, and this model takes shift 2, keeping the mask as written | not executed | Fields.NativeModeIndexAsWrittenLoses | Fields.NativeModeIndexSetGet |
