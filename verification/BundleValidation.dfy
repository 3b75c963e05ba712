/** What the control plane demands of an uploaded artifact bundle. */
module BundleValidation {
  import opened Protocol
  import opened Sorting
  import opened ArtifactPaths
  import opened ArtifactEncoding

  datatype EntryKind = DirectoryEntry | FileEntry | OtherEntry

  /** Contents are given decoded; a directory carries none. */
  datatype RawEntry = RawEntry(path: string, kind: EntryKind, content: Option<seq<byte>>)

  /** The declared digest is absent when its text is not a SHA-256 digest. */
  datatype Bundle = Bundle(contentDigest: Option<ArtifactDigest>, entries: seq<RawEntry>)

  datatype Verdict = Fine | BadRequest | TooLarge

  const MAX_ENTRIES := 5_000
  const MAX_BYTES := 10 * 1024 * 1024

  function Typed(entry: RawEntry): Entry {
    Entry(entry.path, if entry.kind == FileEntry then entry.content else None)
  }

  function TypedAll(entries: seq<RawEntry>): seq<Entry> {
    seq(|entries|, i requires 0 <= i < |entries| => Typed(entries[i]))
  }

  predicate WellTyped(entry: RawEntry) {
    (entry.kind == DirectoryEntry && entry.content == None) || (entry.kind == FileEntry && entry.content.Some?)
  }

  function Size(entry: RawEntry): nat { if entry.content.Some? then |entry.content.value| else 0 }

  function TotalBytes(entries: seq<RawEntry>): nat {
    if entries == [] then 0 else TotalBytes(entries[..|entries| - 1]) + Size(entries[|entries| - 1])
  }

  ghost predicate DistinctPaths(entries: seq<RawEntry>) {
    forall i, j | 0 <= i < j < |entries| :: entries[i].path != entries[j].path
  }

  function DirectoryPaths(entries: seq<RawEntry>): set<string> {
    set e | e in entries && e.kind == DirectoryEntry :: e.path
  }

  /** The path made of the first `count` segments. */
  function Ancestor(path: string, count: nat): string
    requires count <= |Split(path)|
  {
    Join(Split(path)[..count])
  }

  ghost predicate HasParents(path: string, directories: set<string>) {
    forall count | 1 <= count < |Split(path)| :: Ancestor(path, count) in directories
  }

  ghost predicate Shaped(entries: seq<RawEntry>) {
    && (forall e | e in entries :: IsHosted(e.path) && WellTyped(e))
    && DistinctPaths(entries)
    && TotalBytes(entries) <= MAX_BYTES
  }

  ghost predicate Acceptable(bundle: Bundle) {
    && bundle.contentDigest.Some?
    && |bundle.entries| <= MAX_ENTRIES
    && Shaped(bundle.entries)
    && (forall e | e in bundle.entries :: HasParents(e.path, DirectoryPaths(bundle.entries)))
    && bundle.contentDigest.value == DigestOf(TypedAll(bundle.entries))
  }

  lemma {:induction false} TotalGrows(entries: seq<RawEntry>, i: nat)
    requires i <= |entries|
    ensures TotalBytes(entries[..i]) <= TotalBytes(entries)
    decreases |entries| - i
  {
    if i < |entries| {
      TotalGrows(entries, i + 1);
      assert entries[..i + 1][..i] == entries[..i];
    } else {
      assert entries[..i] == entries;
    }
  }

  lemma BrokenPrefix(entries: seq<RawEntry>, i: nat)
    requires i <= |entries| && !Shaped(entries[..i])
    ensures !Shaped(entries)
  {
    TotalGrows(entries, i);
    if !DistinctPaths(entries[..i]) {
      var j, k :| 0 <= j < k < i && entries[..i][j].path == entries[..i][k].path;
      assert entries[j].path == entries[k].path;
    }
    if e :| e in entries[..i] && !(IsHosted(e.path) && WellTyped(e)) {
      assert e in entries;
    }
  }

  lemma ShapedPrefixGrows(entries: seq<RawEntry>, i: nat)
    requires i < |entries| && Shaped(entries[..i])
    ensures Shaped(entries[..i + 1]) <==>
            && IsHosted(entries[i].path) && WellTyped(entries[i])
            && (forall e | e in entries[..i] :: e.path != entries[i].path)
            && TotalBytes(entries[..i]) + Size(entries[i]) <= MAX_BYTES
    ensures TotalBytes(entries[..i + 1]) == TotalBytes(entries[..i]) + Size(entries[i])
  {
    var longer := entries[..i + 1];
    assert longer[..i] == entries[..i] && longer[i] == entries[i];
    assert longer == entries[..i] + [entries[i]];
    assert entries[i] in longer;
    if DistinctPaths(longer) {
      forall e | e in entries[..i] ensures e.path != entries[i].path {
        var j :| 0 <= j < i && entries[j] == e;
        assert longer[j].path != longer[i].path;
      }
    }
  }

  /** One pass over the entries with a running byte count and the set of paths seen. */
  method CheckEntries(entries: seq<RawEntry>) returns (verdict: Verdict)
    ensures verdict == Fine <==> Shaped(entries)
    ensures verdict == TooLarge ==> TotalBytes(entries) > MAX_BYTES
  {
    var decodedBytes := 0;
    var paths: set<string> := {};
    assert Shaped(entries[..0]);
    for i := 0 to |entries|
      invariant Shaped(entries[..i])
      invariant decodedBytes == TotalBytes(entries[..i])
      invariant forall p :: p in paths <==> exists e :: e in entries[..i] && e.path == p
    {
      var entry := entries[i];
      ShapedPrefixGrows(entries, i);
      if !IsHosted(entry.path) || entry.path in paths || !WellTyped(entry) {
        BrokenPrefix(entries, i + 1);
        return BadRequest;
      }
      paths := paths + {entry.path};
      decodedBytes := decodedBytes + Size(entry);
      if decodedBytes > MAX_BYTES {
        BrokenPrefix(entries, i + 1);
        TotalGrows(entries, i + 1);
        return TooLarge;
      }
      assert entries[..i + 1] == entries[..i] + [entry];
    }
    assert entries[..|entries|] == entries;
    verdict := Fine;
  }

  method CheckParents(entries: seq<RawEntry>) returns (complete: bool)
    ensures complete <==> forall e | e in entries :: HasParents(e.path, DirectoryPaths(entries))
  {
    var directories := DirectoryPaths(entries);
    for i := 0 to |entries|
      invariant forall e | e in entries[..i] :: HasParents(e.path, directories)
    {
      var parts := Split(entries[i].path);
      for count := 1 to |parts|
        invariant forall k | 1 <= k < count :: Ancestor(entries[i].path, k) in directories
      {
        if Join(parts[..count]) !in directories {
          assert Ancestor(entries[i].path, count) !in directories;
          assert entries[i] in entries && !HasParents(entries[i].path, directories);
          return false;
        }
      }
      assert entries[..i + 1] == entries[..i] + [entries[i]];
    }
    assert entries[..|entries|] == entries;
    complete := true;
  }

  method ValidateArtifactBundle(bundle: Bundle) returns (verdict: Verdict)
    ensures verdict == Fine <==> Acceptable(bundle)
    ensures verdict == TooLarge ==> TotalBytes(bundle.entries) > MAX_BYTES
  {
    if bundle.contentDigest.None? || |bundle.entries| > MAX_ENTRIES { return BadRequest; }
    verdict := CheckEntries(bundle.entries);
    if verdict != Fine { return; }
    var complete := CheckParents(bundle.entries);
    if !complete { return BadRequest; }
    var digest := ArtifactDigestOf(TypedAll(bundle.entries));
    verdict := if digest == bundle.contentDigest.value then Fine else BadRequest;
  }
}
