/** Portable artifact paths: text with '/' between segments, and which of them the runner and
    the control plane take. */
module ArtifactPaths {
  import opened Sorting

  function Split(path: string): (parts: seq<string>)
    ensures |parts| >= 1
  {
    if path == [] then [[]]
    else
      var rest := Split(path[1..]);
      if path[0] == '/' then [[]] + rest else [[path[0]] + rest[0]] + rest[1..]
  }

  function Join(parts: seq<string>): string {
    if parts == [] then []
    else if |parts| == 1 then parts[0]
    else parts[0] + ['/'] + Join(parts[1..])
  }

  lemma {:induction false} JoinOfSplit(path: string)
    ensures Join(Split(path)) == path
  {
    if path != [] {
      JoinOfSplit(path[1..]);
      var rest := Split(path[1..]);
      assert path == [path[0]] + path[1..];
      if path[0] == '/' {
        assert ([[]] + rest)[1..] == rest;
      } else {
        var parts := [[path[0]] + rest[0]] + rest[1..];
        assert parts[1..] == rest[1..];
        if |rest| > 1 {
          assert [path[0]] + (rest[0] + ['/'] + Join(rest[1..])) == ([path[0]] + rest[0]) + ['/'] + Join(rest[1..]);
        }
      }
    }
  }

  predicate IsSegment(part: string) { '/' !in part }

  lemma {:induction false} SplitsIntoSegments(path: string)
    ensures forall part | part in Split(path) :: IsSegment(part)
  {
    if path != [] {
      SplitsIntoSegments(path[1..]);
      var rest := Split(path[1..]);
      assert rest[0] in rest;
      if path[0] != '/' {
        assert IsSegment([path[0]] + rest[0]);
        assert Split(path) == [[path[0]] + rest[0]] + rest[1..];
      }
    }
  }

  lemma {:induction false} SplitOfSegment(part: string)
    requires IsSegment(part)
    ensures Split(part) == [part]
  {
    if part != [] {
      assert part[0] != '/' && IsSegment(part[1..]);
      SplitOfSegment(part[1..]);
      assert part == [part[0]] + part[1..];
    }
  }

  lemma {:induction false} SplitAfterSegment(part: string, rest: string)
    requires IsSegment(part)
    ensures Split(part + ['/'] + rest) == [part] + Split(rest)
  {
    var whole := part + ['/'] + rest;
    if part == [] {
      assert whole[0] == '/' && whole[1..] == rest;
    } else {
      assert part[0] != '/' && IsSegment(part[1..]);
      SplitAfterSegment(part[1..], rest);
      assert whole[1..] == part[1..] + ['/'] + rest;
      assert part == [part[0]] + part[1..];
    }
  }

  lemma {:induction false} SplitOfJoin(parts: seq<string>)
    requires parts != [] && forall part | part in parts :: IsSegment(part)
    ensures Split(Join(parts)) == parts
  {
    if |parts| == 1 {
      SplitOfSegment(parts[0]);
    } else {
      SplitOfJoin(parts[1..]);
      SplitAfterSegment(parts[0], Join(parts[1..]));
      assert parts == [parts[0]] + parts[1..];
    }
  }

  // ----- which paths are portable -----

  predicate IsControl(c: char) { c as int < 32 || 127 <= c as int <= 159 }

  predicate IsReserved(part: string) { part == "" || part == "." || part == ".." || part == ".git" }

  predicate Forbidden(c: char) { c == '\\' || c == ':' || IsControl(c) }

  /** The runner's check. */
  predicate IsPortable(path: string) {
    && path != []
    && (forall c | c in path :: !Forbidden(c))
    && (forall part | part in Split(path) :: !IsReserved(part))
  }

  function Utf16Length(path: string): nat {
    if path == [] then 0
    else (if path[0] as int < 0x1_0000 then 1 else 2) + Utf16Length(path[1..])
  }

  const MAX_PATH_UNITS := 500

  /** The control plane's check of one path. */
  predicate IsHosted(path: string) {
    && 0 < Utf16Length(path) <= MAX_PATH_UNITS
    && '\\' !in path && ':' !in path
    && (forall c | c in path :: !IsControl(c))
    && path[0] != '/'
    && (forall part | part in Split(path) :: !IsReserved(part))
  }

  /** The control plane takes the runner's portable paths up to a length, and no others. */
  lemma HostedIsPortableAndShort(path: string)
    ensures IsHosted(path) <==> IsPortable(path) && Utf16Length(path) <= MAX_PATH_UNITS
  {
    if path != [] && path[0] == '/' {
      var first := Split(path)[0];
      assert first in Split(path) && IsReserved(first);
    }
    if '\\' in path { assert Forbidden('\\'); }
    if ':' in path { assert Forbidden(':'); }
    assert path != [] ==> Utf16Length(path) > 0;
  }
}
