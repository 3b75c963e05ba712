/** The identity of an artifact: its entries in byte order, length-prefixed, hashed. The hash is
    a free constructor, so that equal digests mean equal pre-images. */
module ArtifactEncoding {
  import opened Protocol
  import opened Sorting

  /** A file has content, a directory has none. */
  datatype Entry = Entry(path: string, content: Option<seq<byte>>)

  datatype ArtifactDigest = Sha256(preimage: seq<byte>)

  const HEADER: seq<byte> := [65, 72, 77, 45, 65, 82, 84, 73, 70, 65, 67, 84, 45, 86, 49, 0]
  const FILE: byte := 70
  const DIRECTORY: byte := 68

  predicate EntryOrder(a: Entry, b: Entry) { TextLeq(a.path, b.path) }

  // ----- lengths -----

  /** The low `k` bytes of `n`, most significant first. */
  function BigEndian(n: nat, k: nat): (bytes: seq<byte>)
    ensures |bytes| == k
  {
    if k == 0 then [] else BigEndian(n / 256, k - 1) + [n % 256]
  }

  function FromBigEndian(bytes: seq<byte>): nat {
    if bytes == [] then 0 else FromBigEndian(bytes[..|bytes| - 1]) * 256 + bytes[|bytes| - 1]
  }

  function Power256(k: nat): nat { if k == 0 then 1 else 256 * Power256(k - 1) }

  const LENGTH_BYTES := 8

  predicate Measurable(n: nat) { n < Power256(LENGTH_BYTES) }

  lemma {:induction false} BigEndianRoundTrip(n: nat, k: nat)
    requires n < Power256(k)
    ensures FromBigEndian(BigEndian(n, k)) == n
  {
    if k > 0 {
      BigEndianRoundTrip(n / 256, k - 1);
      var bytes := BigEndian(n, k);
      assert bytes[..|bytes| - 1] == BigEndian(n / 256, k - 1);
    }
  }

  function Prefixed(bytes: seq<byte>): seq<byte> { BigEndian(|bytes|, LENGTH_BYTES) + bytes }

  // ----- the encoding -----

  function EncodeEntry(entry: Entry): seq<byte> {
    match entry.content
    case None => [DIRECTORY] + Prefixed(Utf8(entry.path))
    case Some(content) => [FILE] + Prefixed(Utf8(entry.path)) + Prefixed(content)
  }

  function EncodeAll(entries: seq<Entry>): seq<byte> {
    if entries == [] then [] else EncodeEntry(entries[0]) + EncodeAll(entries[1..])
  }

  function Preimage(entries: seq<Entry>): seq<byte> {
    HEADER + EncodeAll(SortBy(entries, EntryOrder))
  }

  function DigestOf(entries: seq<Entry>): ArtifactDigest { Sha256(Preimage(entries)) }

  lemma EncodeAllFrom(hashed: seq<byte>, entries: seq<Entry>, i: nat)
    requires i < |entries|
    ensures hashed + EncodeAll(entries[i..]) == hashed + EncodeEntry(entries[i]) + EncodeAll(entries[i + 1..])
  {
    assert entries[i..][1..] == entries[i + 1..] && entries[i..][0] == entries[i];
  }

  /** What the loop feeds to the hash for one entry. */
  method Update(hashed: seq<byte>, entry: Entry) returns (updated: seq<byte>)
    ensures updated == hashed + EncodeEntry(entry)
  {
    var path := Utf8(entry.path);
    updated := hashed + [if entry.content.Some? then FILE else DIRECTORY];
    updated := updated + BigEndian(|path|, LENGTH_BYTES);
    updated := updated + path;
    assert updated == hashed + [if entry.content.Some? then FILE else DIRECTORY] + Prefixed(path);
    if entry.content.Some? {
      var content := entry.content.value;
      ghost var before := updated;
      updated := updated + BigEndian(|content|, LENGTH_BYTES);
      updated := updated + content;
      assert updated == before + Prefixed(content);
    }
  }

  /** One running hash over a sorted copy. */
  method UpdateAll(start: seq<byte>, sorted: seq<Entry>) returns (hashed: seq<byte>)
    ensures hashed == start + EncodeAll(sorted)
  {
    hashed := start;
    for i := 0 to |sorted|
      invariant hashed + EncodeAll(sorted[i..]) == start + EncodeAll(sorted)
    {
      EncodeAllFrom(hashed, sorted, i);
      hashed := Update(hashed, sorted[i]);
    }
    assert hashed + EncodeAll([]) == hashed;
  }

  method Hash(sorted: seq<Entry>) returns (digest: ArtifactDigest)
    ensures digest == Sha256(HEADER + EncodeAll(sorted))
  {
    var hashed := UpdateAll(HEADER, sorted);
    digest := Sha256(hashed);
  }

  method ArtifactDigestOf(entries: seq<Entry>) returns (digest: ArtifactDigest)
    ensures digest == DigestOf(entries)
  {
    digest := Hash(SortBy(entries, EntryOrder));
  }

  // ----- decoding -----

  /** An entry as the encoding carries it. */
  datatype Wire = Wire(path: seq<byte>, content: Option<seq<byte>>)

  function ToWire(entry: Entry): Wire { Wire(Utf8(entry.path), entry.content) }

  function Wires(entries: seq<Entry>): seq<Wire> {
    seq(|entries|, i requires 0 <= i < |entries| => ToWire(entries[i]))
  }

  /** A length-prefixed string and what follows it. */
  function Take(bytes: seq<byte>): (taken: Option<(seq<byte>, seq<byte>)>)
    ensures taken.Some? ==> |taken.value.1| < |bytes|
  {
    if |bytes| < LENGTH_BYTES then None
    else
      var n := FromBigEndian(bytes[..LENGTH_BYTES]);
      if |bytes| < LENGTH_BYTES + n then None
      else Some((bytes[LENGTH_BYTES..LENGTH_BYTES + n], bytes[LENGTH_BYTES + n..]))
  }

  function DecodeAll(bytes: seq<byte>): Option<seq<Wire>>
    decreases |bytes|
  {
    if bytes == [] then Some([])
    else
      var path := Take(bytes[1..]);
      if path.None? then None
      else if bytes[0] == DIRECTORY then
        var rest := DecodeAll(path.value.1);
        if rest.None? then None else Some([Wire(path.value.0, None)] + rest.value)
      else if bytes[0] == FILE then
        var content := Take(path.value.1);
        if content.None? then None
        else
          var rest := DecodeAll(content.value.1);
          if rest.None? then None else Some([Wire(path.value.0, Some(content.value.0))] + rest.value)
      else None
  }

  function Decode(bytes: seq<byte>): Option<seq<Wire>> {
    if |bytes| < |HEADER| || bytes[..|HEADER|] != HEADER then None else DecodeAll(bytes[|HEADER|..])
  }

  /** No path and no content is as long as 2^64 bytes. */
  ghost predicate Encodable(entries: seq<Entry>) {
    forall e | e in entries ::
      Measurable(|Utf8(e.path)|) && (e.content.Some? ==> Measurable(|e.content.value|))
  }

  lemma TakeTakes(bytes: seq<byte>, rest: seq<byte>)
    requires Measurable(|bytes|)
    ensures Take(Prefixed(bytes) + rest) == Some((bytes, rest))
  {
    BigEndianRoundTrip(|bytes|, LENGTH_BYTES);
    var all := Prefixed(bytes) + rest;
    assert all[..LENGTH_BYTES] == BigEndian(|bytes|, LENGTH_BYTES);
    assert all[LENGTH_BYTES..LENGTH_BYTES + |bytes|] == bytes;
    assert all[LENGTH_BYTES + |bytes|..] == rest;
  }

  lemma DecodeDirectory(path: seq<byte>, rest: seq<byte>)
    requires Measurable(|path|)
    ensures DecodeAll([DIRECTORY] + Prefixed(path) + rest)
            == if DecodeAll(rest).None? then None else Some([Wire(path, None)] + DecodeAll(rest).value)
  {
    var bytes := [DIRECTORY] + Prefixed(path) + rest;
    TakeTakes(path, rest);
    assert bytes[0] == DIRECTORY && bytes[1..] == Prefixed(path) + rest;
  }

  lemma DecodeFile(path: seq<byte>, content: seq<byte>, rest: seq<byte>)
    requires Measurable(|path|) && Measurable(|content|)
    ensures DecodeAll([FILE] + Prefixed(path) + (Prefixed(content) + rest))
            == if DecodeAll(rest).None? then None else Some([Wire(path, Some(content))] + DecodeAll(rest).value)
  {
    var tail := Prefixed(content) + rest;
    var bytes := [FILE] + Prefixed(path) + tail;
    TakeTakes(path, tail);
    TakeTakes(content, rest);
    assert bytes[0] == FILE && bytes[1..] == Prefixed(path) + tail;
  }

  lemma FileBytes(path: string, content: seq<byte>, rest: seq<byte>)
    ensures EncodeEntry(Entry(path, Some(content))) + rest
            == [FILE] + Prefixed(Utf8(path)) + (Prefixed(content) + rest)
  {
    var front, middle := [FILE] + Prefixed(Utf8(path)), Prefixed(content);
    assert (front + middle) + rest == front + (middle + rest);
  }

  lemma DecodeOne(entry: Entry, rest: seq<byte>)
    requires Measurable(|Utf8(entry.path)|)
    requires entry.content.Some? ==> Measurable(|entry.content.value|)
    ensures DecodeAll(EncodeEntry(entry) + rest)
            == if DecodeAll(rest).None? then None else Some([ToWire(entry)] + DecodeAll(rest).value)
  {
    match entry.content {
      case None =>
        DecodeDirectory(Utf8(entry.path), rest);
      case Some(content) =>
        FileBytes(entry.path, content, rest);
        DecodeFile(Utf8(entry.path), content, rest);
    }
  }

  lemma WiresStep(entries: seq<Entry>)
    requires entries != []
    ensures Wires(entries) == [ToWire(entries[0])] + Wires(entries[1..])
  {
  }

  lemma RestIsEncodable(entries: seq<Entry>)
    requires Encodable(entries) && entries != []
    ensures Encodable(entries[1..])
    ensures Measurable(|Utf8(entries[0].path)|)
    ensures entries[0].content.Some? ==> Measurable(|entries[0].content.value|)
  {
    assert entries[0] in entries;
  }

  lemma {:induction false} DecodeAllDecodes(entries: seq<Entry>)
    requires Encodable(entries)
    ensures DecodeAll(EncodeAll(entries)) == Some(Wires(entries))
  {
    if entries == [] {
      assert Wires(entries) == [];
    } else {
      RestIsEncodable(entries);
      DecodeAllDecodes(entries[1..]);
      DecodeOne(entries[0], EncodeAll(entries[1..]));
      WiresStep(entries);
    }
  }

  /** The encoding is uniquely decodable: from the bytes that are hashed the entries come back,
      in byte order. */
  lemma DecodingRecoversTheEntries(entries: seq<Entry>)
    requires Encodable(entries)
    ensures Decode(Preimage(entries)) == Some(Wires(SortBy(entries, EntryOrder)))
  {
    EntryOrderOrders();
    var sorted := SortBy(entries, EntryOrder);
    SortSorts(entries, EntryOrder);
    DecodeAllDecodes(sorted);
    var bytes := Preimage(entries);
    assert bytes[..|HEADER|] == HEADER && bytes[|HEADER|..] == EncodeAll(sorted);
  }

  lemma EntryOrderOrders()
    ensures Orders(EntryOrder)
  {
    TextLeqOrders();
  }

  // ----- what a digest identifies -----

  ghost predicate UniquePaths(entries: seq<Entry>) {
    forall i, j | 0 <= i < j < |entries| :: entries[i].path != entries[j].path
  }

  lemma SameWiresSameEntries(a: seq<Entry>, b: seq<Entry>)
    requires Wires(a) == Wires(b)
    ensures a == b
  {
    assert |a| == |Wires(a)| == |Wires(b)| == |b|;
    forall i | 0 <= i < |a| ensures a[i] == b[i] {
      assert Wires(a)[i] == ToWire(a[i]) && Wires(b)[i] == ToWire(b[i]);
      Utf8IsInjective(a[i].path, b[i].path);
    }
  }

  lemma UniquePathsAreSeparated(entries: seq<Entry>)
    requires UniquePaths(entries)
    ensures Separates(entries, EntryOrder)
  {
    TextLeqOrders();
    forall a, b | a in entries && b in entries && EntryOrder(a, b) && EntryOrder(b, a)
      ensures a == b
    {
      var i :| 0 <= i < |entries| && entries[i] == a;
      var j :| 0 <= j < |entries| && entries[j] == b;
      assert a.path == b.path;
    }
  }

  /** In any input order, two lists with unique paths have equal digests exactly when they hold
      the same entries. */
  lemma DigestIdentifiesTheEntries(a: seq<Entry>, b: seq<Entry>)
    requires Encodable(a) && Encodable(b) && UniquePaths(a) && UniquePaths(b)
    ensures DigestOf(a) == DigestOf(b) <==> forall e :: e in a <==> e in b
  {
    EntryOrderOrders();
    SortSorts(a, EntryOrder);
    SortSorts(b, EntryOrder);
    if DigestOf(a) == DigestOf(b) {
      DecodingRecoversTheEntries(a);
      DecodingRecoversTheEntries(b);
      SameWiresSameEntries(SortBy(a, EntryOrder), SortBy(b, EntryOrder));
      assert forall e :: e in a <==> e in SortBy(a, EntryOrder);
    }
    if forall e :: e in a <==> e in b {
      SameElementsSameMultiset(a, b);
      UniquePathsAreSeparated(a);
      SortForgetsOrder(a, b, EntryOrder);
    }
  }
}
