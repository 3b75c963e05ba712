/** Which bundles the control plane accepts, character by character and byte by byte. */
module BundleAnswers {
  import opened Protocol
  import opened ArtifactPaths
  import opened ArtifactEncoding
  import opened BundleValidation
  import opened ArtifactTrees
  import opened LibrarySnapshots

  /** No backslash, no colon, no control character. */
  predicate IsPlainChar(c: char) {
    c != '\\' && c != ':' && c as int >= 32 && !(127 <= c as int <= 159)
  }

  predicate IsPlainPart(part: string) { part != "" && part != "." && part != ".." && part != ".git" }

  predicate IsPlainPath(path: string) {
    && 0 < Utf16Length(path) <= 500
    && (forall c | c in path :: IsPlainChar(c))
    && forall part | part in Split(path) :: IsPlainPart(part)
  }

  /** Lengths are counted in UTF-16: a character beyond the first plane counts twice. */
  lemma {:induction false} LengthsAdd(a: string, b: string, c: char)
    ensures Utf16Length([]) == 0 && Utf16Length([c]) == if c as int > 0xFFFF then 2 else 1
    ensures Utf16Length(a + b) == Utf16Length(a) + Utf16Length(b)
  {
    if a == [] {
      assert a + b == b;
    } else {
      LengthsAdd(a[1..], b, c);
      assert (a + b)[1..] == a[1..] + b;
    }
  }

  lemma HostedMeansPlain(path: string)
    ensures IsHosted(path) <==> IsPlainPath(path)
  {
    forall c ensures IsPlainChar(c) <==> !Forbidden(c) {}
    forall part ensures IsPlainPart(part) <==> !IsReserved(part) {}
    HostedIsPortableAndShort(path);
    assert path == [] ==> Utf16Length(path) == 0;
  }

  /** Every directory above the path is an entry. */
  ghost predicate ParentsListed(path: string, entries: seq<RawEntry>) {
    forall n | 1 <= n < |Split(path)| :: ListedAsDirectory(Join(Split(path)[..n]), entries)
  }

  ghost predicate ListedAsDirectory(path: string, entries: seq<RawEntry>) {
    exists e :: e in entries && e.kind == DirectoryEntry && e.path == path
  }

  lemma ParentsAreListed(path: string, entries: seq<RawEntry>)
    ensures HasParents(path, DirectoryPaths(entries)) <==> ParentsListed(path, entries)
  {
    forall n | 1 <= n < |Split(path)|
      ensures Ancestor(path, n) in DirectoryPaths(entries) <==> ListedAsDirectory(Join(Split(path)[..n]), entries)
    {
    }
  }

  /** A directory without content, or a file with some. */
  predicate KindFits(e: RawEntry) {
    match e.kind
    case DirectoryEntry => e.content == None
    case FileEntry => e.content.Some?
    case OtherEntry => false
  }

  /** At most 5,000 entries and 10 MiB, on plain and distinct paths, each a directory or a file, every
      parent listed as a directory, under the digest of the entries. */
  ghost predicate IsAccepted(bundle: Bundle) {
    && bundle.contentDigest == Some(DigestOf(TypedAll(bundle.entries)))
    && |bundle.entries| <= 5_000 && TotalBytes(bundle.entries) <= 10_485_760
    && (forall e | e in bundle.entries ::
          IsPlainPath(e.path) && KindFits(e) && ParentsListed(e.path, bundle.entries))
    && forall i, j | 0 <= i < j < |bundle.entries| :: bundle.entries[i].path != bundle.entries[j].path
  }

  lemma AcceptableMeans(bundle: Bundle)
    ensures Acceptable(bundle) <==> IsAccepted(bundle)
  {
    forall e | e in bundle.entries
      ensures IsHosted(e.path) <==> IsPlainPath(e.path)
      ensures WellTyped(e) <==> KindFits(e)
      ensures HasParents(e.path, DirectoryPaths(bundle.entries)) <==> ParentsListed(e.path, bundle.entries)
    {
      HostedMeansPlain(e.path);
      ParentsAreListed(e.path, bundle.entries);
    }
  }

  // ----- what is read from directories -----

  /** A snapshot is taken of a directory with a skill file, of at most 5,000 visible paths and 10 MiB,
      all of them files and folders whose paths, with slashes for backslashes, are plain. */
  lemma SnapshotableMeans(tree: Tree)
    ensures Snapshotable(tree) <==>
      && ["SKILL.md"] in tree && tree[["SKILL.md"]].Content?
      && |VisiblePaths(tree)| <= 5_000 && VisibleBytes(tree) <= 10_485_760
      && forall p | p in VisiblePaths(tree) :: tree[p] != Special && IsPlainPath(Slashed(Join(p)))
  {
    forall p | p in VisiblePaths(tree)
      ensures Takes(tree, p) <==> tree[p] != Special && IsPlainPath(Slashed(Join(p)))
    {
      HostedMeansPlain(SnapshotPath(p));
      HostedIsPortableAndShort(SnapshotPath(p));
    }
  }

  lemma {:induction false} SlashedMeans(s: string)
    ensures |Slashed(s)| == |s|
    ensures forall i | 0 <= i < |s| :: Slashed(s)[i] == if s[i] == '\\' then '/' else s[i]
  {
    if s != [] { SlashedMeans(s[1..]); }
  }

  /** A directory is read exactly when it has no special file and at most 10 MiB. */
  lemma ReadingMeans(tree: Tree)
    ensures ReadingOf(tree).Read? <==>
      && (forall p | p in tree :: tree[p] != Special)
      && Weight(EntriesAlong(tree, SomeOrder(tree.Keys))) <= 10_485_760
  {
  }
}
