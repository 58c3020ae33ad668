/**
 * The subelement stream inside an element: entries of a 1-octet id, a
 * 2-octet length and exactly that many data octets, back to back with no
 * padding.
 */
module Scanner {
  import opened Wrappers
  import opened Bytes

  /** Packed size of subelement_id and length. */
  const SUB_HEADER_SIZE: nat := 3

  /** Data whose length fits the 16-bit length field. */
  type SubData = s: seq<bv8> | |s| < 0x1_0000

  /** One entry of the stream, not yet interpreted. */
  datatype RawSubelement = RawSubelement(id: bv8, data: SubData)

  /** Offsets are relative to the start of the element's subelement data. */
  datatype ScanError =
    | TruncatedHeader(offset: nat, available: nat)
    | TruncatedData(offset: nat, id: bv8, declared: nat, available: nat)

  function SerializeOne(s: RawSubelement): (r: seq<bv8>)
    ensures |r| == SUB_HEADER_SIZE + |s.data|
  {
    [s.id] + Count(|s.data|) + s.data
  }

  /** The octets of a stream of entries. */
  function Serialize(subs: seq<RawSubelement>): (r: seq<bv8>)
  {
    if subs == [] then [] else SerializeOne(subs[0]) + Serialize(subs[1..])
  }

  /**
   * Splits the subelement data `p` into its entries, starting at offset
   * `at`. An entry whose header or declared data runs past the end of `p`
   * stops the scan with the offset of that entry.
   */
  function Scan(p: seq<bv8>, at: nat): (r: Result<seq<RawSubelement>, ScanError>)
    requires at <= |p|
    ensures r.Err? ==> at <= r.error.offset < |p|
    decreases |p| - at
  {
    if at == |p| then Ok([])
    else if |p| - at < SUB_HEADER_SIZE then Err(TruncatedHeader(at, |p| - at))
    else
      var len := ReadCount(p, at + 1);
      if at + SUB_HEADER_SIZE + len > |p| then Err(TruncatedData(at, p[at], len, |p| - at - SUB_HEADER_SIZE))
      else Prepend([RawSubelement(p[at], p[at + SUB_HEADER_SIZE..at + SUB_HEADER_SIZE + len])],
                   Scan(p, at + SUB_HEADER_SIZE + len))
  }

  /** `subs` in front of the entries of a successful scan; errors pass through. */
  function Prepend(subs: seq<RawSubelement>, r: Result<seq<RawSubelement>, ScanError>): Result<seq<RawSubelement>, ScanError>
  {
    match r
    case Ok(rest) => Ok(subs + rest)
    case Err(e) => Err(e)
  }

  lemma PrependPrepend(a: seq<RawSubelement>, b: seq<RawSubelement>, r: Result<seq<RawSubelement>, ScanError>)
    ensures Prepend(a, Prepend(b, r)) == Prepend(a + b, r)
  {
    if r.Ok? {
      assert a + (b + r.value) == (a + b) + r.value;
    }
  }

  lemma SerializeCons(s: RawSubelement, rest: seq<RawSubelement>)
    ensures Serialize([s] + rest) == SerializeOne(s) + Serialize(rest)
  {
    assert ([s] + rest)[0] == s;
    assert ([s] + rest)[1..] == rest;
  }

  /** The octets the scan reads one entry from are exactly that entry's serialization. */
  lemma EntryBytes(p: seq<bv8>, at: nat, len: nat)
    requires at + SUB_HEADER_SIZE + len <= |p| && ReadCount(p, at + 1) == len
    ensures SerializeOne(RawSubelement(p[at], p[at + SUB_HEADER_SIZE..at + SUB_HEADER_SIZE + len]))
         == p[at..at + SUB_HEADER_SIZE + len]
  {
    CountOfRead(p, at + 1);
  }

  /** The octets of one accepted entry followed by those of the rest rebuild the input. */
  lemma SoundStep(p: seq<bv8>, at: nat, first: RawSubelement, rest: seq<RawSubelement>)
    requires at + SUB_HEADER_SIZE <= |p| && at + SUB_HEADER_SIZE + ReadCount(p, at + 1) <= |p|
    requires first == RawSubelement(p[at], p[at + SUB_HEADER_SIZE..at + SUB_HEADER_SIZE + ReadCount(p, at + 1)])
    requires Serialize(rest) == p[at + SUB_HEADER_SIZE + ReadCount(p, at + 1)..]
    ensures Serialize([first] + rest) == p[at..]
  {
    var len := ReadCount(p, at + 1);
    var k := at + SUB_HEADER_SIZE + len;
    calc {
      Serialize([first] + rest);
      { SerializeCons(first, rest); }
      SerializeOne(first) + Serialize(rest);
      { EntryBytes(p, at, len); }
      p[at..k] + p[k..];
      { Cut(p, at, k, |p|); assert p[at..] == p[at..|p|] && p[k..] == p[k..|p|]; }
      p[at..];
    }
  }

  /** Whatever the scan accepts is exactly the serialization of the entries it returns. */
  lemma {:induction false} ScanSound(p: seq<bv8>, at: nat, subs: seq<RawSubelement>)
    requires at <= |p| && Scan(p, at) == Ok(subs)
    ensures Serialize(subs) == p[at..]
    decreases |p| - at
  {
    if at < |p| {
      var len := ReadCount(p, at + 1);
      var first := RawSubelement(p[at], p[at + SUB_HEADER_SIZE..at + SUB_HEADER_SIZE + len]);
      var rest := Scan(p, at + SUB_HEADER_SIZE + len).value;
      assert subs == [first] + rest;
      ScanSound(p, at + SUB_HEADER_SIZE + len, rest);
      SoundStep(p, at, first, rest);
    }
  }

  /** The entries `subs` lie in `p` one after another from offset `at` on, each with a correct header. */
  ghost predicate EntriesAt(p: seq<bv8>, at: nat, subs: seq<RawSubelement>)
    decreases subs
  {
    if subs == [] then at <= |p|
    else
      var s := subs[0];
      && at + SUB_HEADER_SIZE + |s.data| <= |p|
      && p[at] == s.id && ReadCount(p, at + 1) == |s.data|
      && p[at + SUB_HEADER_SIZE..at + SUB_HEADER_SIZE + |s.data|] == s.data
      && EntriesAt(p, at + SUB_HEADER_SIZE + |s.data|, subs[1..])
  }

  /** The offset just past the entries `subs` laid out from offset `at`. */
  ghost function EndOf(at: nat, subs: seq<RawSubelement>): nat
    decreases subs
  {
    if subs == [] then at else EndOf(at + SUB_HEADER_SIZE + |subs[0].data|, subs[1..])
  }

  lemma {:induction false} EndOfSerialize(at: nat, subs: seq<RawSubelement>)
    ensures EndOf(at, subs) == at + |Serialize(subs)|
    decreases subs
  {
    if subs != [] {
      EndOfSerialize(at + SUB_HEADER_SIZE + |subs[0].data|, subs[1..]);
    }
  }

  /** Where the octets at `at` are one serialized entry, its header and data can be read back there. */
  lemma HeaderAt(p: seq<bv8>, at: nat, s: RawSubelement)
    requires at + SUB_HEADER_SIZE + |s.data| <= |p|
    requires p[at..at + SUB_HEADER_SIZE + |s.data|] == SerializeOne(s)
    ensures p[at] == s.id && ReadCount(p, at + 1) == |s.data|
    ensures p[at + SUB_HEADER_SIZE..at + SUB_HEADER_SIZE + |s.data|] == s.data
  {
    var e := SerializeOne(s);
    var c := Count(|s.data|);
    ReadOfCount(|s.data|);
    assert p[at] == e[0] == s.id;
    assert p[at + 1] == e[1] == c[0] && p[at + 2] == e[2] == c[1];
    assert p[at + SUB_HEADER_SIZE..at + SUB_HEADER_SIZE + |s.data|] == e[SUB_HEADER_SIZE..];
  }

  /** Splits the octets a serialized stream occupies into its first entry and the rest. */
  lemma PrefixStep(p: seq<bv8>, at: nat, subs: seq<RawSubelement>)
    requires subs != [] && at + |Serialize(subs)| <= |p|
    requires p[at..at + |Serialize(subs)|] == Serialize(subs)
    ensures var next := at + SUB_HEADER_SIZE + |subs[0].data|;
      && next + |Serialize(subs[1..])| == at + |Serialize(subs)|
      && p[at..next] == SerializeOne(subs[0])
      && p[next..next + |Serialize(subs[1..])|] == Serialize(subs[1..])
  {
    var one, more := SerializeOne(subs[0]), Serialize(subs[1..]);
    assert Serialize(subs) == one + more;
    SliceParts(p, at, |one|, |more|);
    AppendParts(one, more);
  }

  lemma SliceParts(p: seq<bv8>, at: nat, m: nat, n: nat)
    requires at + m + n <= |p|
    ensures p[at..at + m + n][..m] == p[at..at + m]
    ensures p[at..at + m + n][m..] == p[at + m..at + m + n]
  {
  }

  /** A serialized stream found at offset `at` is laid out entry by entry. */
  lemma {:induction false} SerializedEntriesAt(p: seq<bv8>, at: nat, subs: seq<RawSubelement>)
    requires at + |Serialize(subs)| <= |p|
    requires p[at..at + |Serialize(subs)|] == Serialize(subs)
    ensures EntriesAt(p, at, subs)
    decreases subs
  {
    if subs != [] {
      PrefixStep(p, at, subs);
      HeaderAt(p, at, subs[0]);
      SerializedEntriesAt(p, at + SUB_HEADER_SIZE + |subs[0].data|, subs[1..]);
      EntriesCons(p, at, subs);
    }
  }

  lemma EntriesCons(p: seq<bv8>, at: nat, subs: seq<RawSubelement>)
    requires subs != [] && at + SUB_HEADER_SIZE + |subs[0].data| <= |p|
    requires p[at] == subs[0].id && ReadCount(p, at + 1) == |subs[0].data|
    requires p[at + SUB_HEADER_SIZE..at + SUB_HEADER_SIZE + |subs[0].data|] == subs[0].data
    requires EntriesAt(p, at + SUB_HEADER_SIZE + |subs[0].data|, subs[1..])
    ensures EntriesAt(p, at, subs)
  {
  }

  lemma PrependNil(r: Result<seq<RawSubelement>, ScanError>)
    ensures Prepend([], r) == r
  {
    if r.Ok? { assert [] + r.value == r.value; }
  }

  /** One step of the scan, when the first entry's header and data are all present. */
  lemma ScanStep(p: seq<bv8>, at: nat, s: RawSubelement)
    requires at + SUB_HEADER_SIZE + |s.data| <= |p|
    requires p[at] == s.id && ReadCount(p, at + 1) == |s.data|
    requires p[at + SUB_HEADER_SIZE..at + SUB_HEADER_SIZE + |s.data|] == s.data
    ensures Scan(p, at) == Prepend([s], Scan(p, at + SUB_HEADER_SIZE + |s.data|))
  {
  }

  lemma Chain(x: Result<seq<RawSubelement>, ScanError>, y: Result<seq<RawSubelement>, ScanError>,
              z: Result<seq<RawSubelement>, ScanError>, subs: seq<RawSubelement>)
    requires subs != [] && x == Prepend([subs[0]], y) && y == Prepend(subs[1..], z)
    ensures x == Prepend(subs, z)
  {
    PrependPrepend([subs[0]], subs[1..], z);
    assert [subs[0]] + subs[1..] == subs;
  }

  /**
   * Where entries lie one after another from offset `at`, the scan yields
   * them and then whatever follows them yields.
   */
  lemma {:induction false} ScanEntries(p: seq<bv8>, at: nat, subs: seq<RawSubelement>)
    requires EntriesAt(p, at, subs)
    ensures EndOf(at, subs) <= |p|
    ensures Scan(p, at) == Prepend(subs, Scan(p, EndOf(at, subs)))
    decreases subs
  {
    if subs == [] {
      PrependNil(Scan(p, at));
    } else {
      var next := at + SUB_HEADER_SIZE + |subs[0].data|;
      ScanEntries(p, next, subs[1..]);
      EntriesStep(p, at, subs, Scan(p, EndOf(next, subs[1..])));
    }
  }

  /** The inductive step of `ScanEntries`: one entry in front of what the rest yields. */
  lemma EntriesStep(p: seq<bv8>, at: nat, subs: seq<RawSubelement>, rest: Result<seq<RawSubelement>, ScanError>)
    requires subs != [] && EntriesAt(p, at, subs)
    requires Scan(p, at + SUB_HEADER_SIZE + |subs[0].data|) == Prepend(subs[1..], rest)
    ensures Scan(p, at) == Prepend(subs, rest)
  {
    var next := at + SUB_HEADER_SIZE + |subs[0].data|;
    ScanStep(p, at, subs[0]);
    Chain(Scan(p, at), Scan(p, next), rest, subs);
  }

  /**
   * Where a serialized stream sits at offset `at`, the scan yields its
   * entries and then whatever follows it yields.
   */
  lemma ScanPrefix(p: seq<bv8>, at: nat, subs: seq<RawSubelement>)
    requires at + |Serialize(subs)| <= |p|
    requires p[at..at + |Serialize(subs)|] == Serialize(subs)
    ensures Scan(p, at) == Prepend(subs, Scan(p, at + |Serialize(subs)|))
  {
    SerializedEntriesAt(p, at, subs);
    ScanEntriesTo(p, at, subs);
  }

  lemma ScanEntriesTo(p: seq<bv8>, at: nat, subs: seq<RawSubelement>)
    requires EntriesAt(p, at, subs) && at + |Serialize(subs)| <= |p|
    ensures Scan(p, at) == Prepend(subs, Scan(p, at + |Serialize(subs)|))
  {
    ScanEntries(p, at, subs);
    EndOfSerialize(at, subs);
  }

  /** Scanning a serialized stream followed by any octets: its entries, then what the octets yield. */
  lemma ScanAppend(subs: seq<RawSubelement>, rest: seq<bv8>)
    ensures Scan(Serialize(subs) + rest, 0) == Prepend(subs, Scan(Serialize(subs) + rest, |Serialize(subs)|))
  {
    TakeOfAppend(Serialize(subs), rest);
    ScanPrefix(Serialize(subs) + rest, 0, subs);
  }

  /** Scanning a serialized stream gives back exactly its entries. */
  lemma ScanSerialize(subs: seq<RawSubelement>)
    ensures Scan(Serialize(subs), 0) == Ok(subs)
  {
    ScanAppend(subs, []);
    assert Serialize(subs) + [] == Serialize(subs);
    assert subs + [] == subs;
  }

  /** The octets of `header` and `tail` placed after `a` are read at offset `|a|` on. */
  lemma HeaderAfter(a: seq<bv8>, header: seq<bv8>, tail: seq<bv8>)
    requires |header| == SUB_HEADER_SIZE
    ensures var p := a + (header + tail);
      |p| == |a| + SUB_HEADER_SIZE + |tail| && p[|a|] == header[0] && ReadCount(p, |a| + 1) == ReadCount(header, 1)
  {
    var p := a + (header + tail);
    assert p[|a| + 1] == header[1] && p[|a| + 2] == header[2];
  }

  /**
   * A well-formed prefix followed by an entry header whose declared length
   * overruns what is left fails exactly at that header: the scan never reads
   * past the data it was given.
   */
  lemma ScanOverrun(subs: seq<RawSubelement>, header: seq<bv8>, tail: seq<bv8>)
    requires |header| == SUB_HEADER_SIZE && |tail| < ReadCount(header, 1)
    ensures Scan(Serialize(subs) + (header + tail), 0)
         == Err(TruncatedData(|Serialize(subs)|, header[0], ReadCount(header, 1), |tail|))
  {
    ScanAppend(subs, header + tail);
    HeaderAfter(Serialize(subs), header, tail);
  }

  /** A well-formed prefix followed by one or two stray octets fails at the stray header. */
  lemma ScanShortHeader(subs: seq<RawSubelement>, tail: seq<bv8>)
    requires 0 < |tail| < SUB_HEADER_SIZE
    ensures Scan(Serialize(subs) + tail, 0) == Err(TruncatedHeader(|Serialize(subs)|, |tail|))
  {
    ScanAppend(subs, tail);
  }

  lemma TakeOfAppend(a: seq<bv8>, b: seq<bv8>)
    ensures (a + b)[0..|a|] == a
  {
  }
}
