/** Stable sorting by an order on the elements, and the byte order on UTF-8 text. */
module Sorting {

  ghost predicate Orders<T(!new)>(leq: (T, T) -> bool) {
    && (forall a, b :: leq(a, b) || leq(b, a))
    && (forall a, b, c :: leq(a, b) && leq(b, c) ==> leq(a, c))
  }

  ghost predicate SortedBy<T>(s: seq<T>, leq: (T, T) -> bool) {
    forall i, j | 0 <= i < j < |s| :: leq(s[i], s[j])
  }

  /** In front of the first element that does not precede `x`. */
  function Insert<T>(x: T, s: seq<T>, leq: (T, T) -> bool): seq<T> {
    if s == [] || leq(x, s[0]) then [x] + s else [s[0]] + Insert(x, s[1..], leq)
  }

  function SortBy<T>(s: seq<T>, leq: (T, T) -> bool): seq<T> {
    if s == [] then [] else Insert(s[0], SortBy(s[1..], leq), leq)
  }

  lemma {:induction false} InsertSorts<T(!new)>(x: T, s: seq<T>, leq: (T, T) -> bool)
    requires Orders(leq) && SortedBy(s, leq)
    ensures SortedBy(Insert(x, s, leq), leq)
    ensures multiset(Insert(x, s, leq)) == multiset(s) + multiset{x}
  {
    if s != [] && !leq(x, s[0]) {
      InsertSorts(x, s[1..], leq);
      assert s == [s[0]] + s[1..];
      var rest := Insert(x, s[1..], leq);
      forall j | 0 <= j < |rest| ensures leq(s[0], rest[j]) {
        assert rest[j] in multiset(rest);
        assert rest[j] == x || rest[j] in s[1..];
      }
    } else {
      assert leq(x, x);
      forall j | 0 <= j < |s| ensures leq(x, s[j]) {
        assert j > 0 ==> leq(s[0], s[j]);
      }
    }
  }

  lemma {:induction false} SortSorts<T(!new)>(s: seq<T>, leq: (T, T) -> bool)
    requires Orders(leq)
    ensures SortedBy(SortBy(s, leq), leq) && multiset(SortBy(s, leq)) == multiset(s)
    ensures |SortBy(s, leq)| == |s| && forall x :: x in SortBy(s, leq) <==> x in s
  {
    if s != [] {
      SortSorts(s[1..], leq);
      InsertSorts(s[0], SortBy(s[1..], leq), leq);
      assert s == [s[0]] + s[1..];
    }
    assert |SortBy(s, leq)| == |multiset(SortBy(s, leq))| == |multiset(s)|;
    SameMembers(SortBy(s, leq), s);
  }

  lemma {:induction false} SortOfSorted<T>(s: seq<T>, leq: (T, T) -> bool)
    requires SortedBy(s, leq)
    ensures SortBy(s, leq) == s
  {
    if s != [] {
      SortOfSorted(s[1..], leq);
      assert s == [s[0]] + s[1..];
    }
  }

  /** The order tells any two different elements of `s` apart. */
  ghost predicate Separates<T(!new)>(s: seq<T>, leq: (T, T) -> bool) {
    forall a, b | a in s && b in s && leq(a, b) && leq(b, a) :: a == b
  }

  lemma SameFirst<T(!new)>(a: seq<T>, b: seq<T>, leq: (T, T) -> bool)
    requires SortedBy(a, leq) && SortedBy(b, leq) && a != [] && b != []
    requires a[0] in b && b[0] in a && Separates(a, leq)
    ensures a[0] == b[0]
  {
    var i :| 0 <= i < |b| && b[i] == a[0];
    var j :| 0 <= j < |a| && a[j] == b[0];
    if i > 0 && j > 0 { assert leq(b[0], b[i]) && leq(a[0], a[j]); }
  }

  lemma RestsArePermutations<T>(a: seq<T>, b: seq<T>)
    requires a != [] && b != [] && a[0] == b[0] && multiset(a) == multiset(b)
    ensures multiset(a[1..]) == multiset(b[1..])
  {
    assert a == [a[0]] + a[1..] && b == [b[0]] + b[1..];
    assert multiset(a[1..]) == multiset(a) - multiset{a[0]};
    assert multiset(b[1..]) == multiset(b) - multiset{b[0]};
  }

  lemma {:induction false} SortedIsUnique<T(!new)>(a: seq<T>, b: seq<T>, leq: (T, T) -> bool)
    requires SortedBy(a, leq) && SortedBy(b, leq) && multiset(a) == multiset(b)
    requires Separates(a, leq)
    ensures a == b
  {
    assert |a| == |multiset(a)| == |multiset(b)| == |b|;
    if a != [] {
      SameMembers(a, b);
      SameFirst(a, b, leq);
      RestsArePermutations(a, b);
      SortedIsUnique(a[1..], b[1..], leq);
      assert a == [a[0]] + a[1..] && b == [b[0]] + b[1..];
    }
  }

  /** Sorting forgets the input order whenever the order separates the elements. */
  lemma SortForgetsOrder<T(!new)>(a: seq<T>, b: seq<T>, leq: (T, T) -> bool)
    requires Orders(leq) && multiset(a) == multiset(b) && Separates(a, leq)
    ensures SortBy(a, leq) == SortBy(b, leq)
  {
    SortSorts(a, leq);
    SortSorts(b, leq);
    SortedIsUnique(SortBy(a, leq), SortBy(b, leq), leq);
  }

  lemma RemovalKeepsTheRest<T>(s: seq<T>, i: nat)
    requires i < |s|
    ensures multiset(s[..i] + s[i + 1..]) == multiset(s) - multiset{s[i]}
  {
    assert s == s[..i] + [s[i]] + s[i + 1..];
  }

  /** Where the first element of `a` sits in a permutation of it. */
  lemma PermutationStep<T>(a: seq<T>, b: seq<T>) returns (i: nat)
    requires multiset(a) == multiset(b) && a != []
    ensures i < |b| && b[i] == a[0]
    ensures multiset(a[1..]) == multiset(b[..i] + b[i + 1..])
  {
    assert a[0] in multiset(b);
    i :| 0 <= i < |b| && b[i] == a[0];
    assert a[1..] == a[..0] + a[0 + 1..];
    RemovalKeepsTheRest(a, 0);
    RemovalKeepsTheRest(b, i);
  }

  ghost predicate Distinct<T>(s: seq<T>) { forall i, j | 0 <= i < j < |s| :: s[i] != s[j] }

  lemma {:induction false} CountIsMembership<T>(s: seq<T>, x: T)
    requires Distinct(s)
    ensures multiset(s)[x] == if x in s then 1 else 0
  {
    if s != [] {
      assert s == [s[0]] + s[1..];
      CountIsMembership(s[1..], x);
    }
  }

  lemma SameElementsSameMultiset<T>(a: seq<T>, b: seq<T>)
    requires Distinct(a) && Distinct(b) && forall x :: x in a <==> x in b
    ensures multiset(a) == multiset(b)
  {
    forall x ensures multiset(a)[x] == multiset(b)[x] {
      CountIsMembership(a, x);
      CountIsMembership(b, x);
    }
  }

  lemma TwiceCountsTwo<T>(s: seq<T>, i: nat, j: nat)
    requires i < j < |s| && s[i] == s[j]
    ensures multiset(s)[s[i]] >= 2
  {
    assert s == s[..i] + [s[i]] + s[i + 1..j] + [s[j]] + s[j + 1..];
  }

  lemma PermutationsStayDistinct<T>(a: seq<T>, b: seq<T>)
    requires Distinct(a) && multiset(a) == multiset(b)
    ensures Distinct(b)
  {
    forall i, j | 0 <= i < j < |b| ensures b[i] != b[j] {
      CountIsMembership(a, b[i]);
      if b[i] == b[j] { TwiceCountsTwo(b, i, j); }
    }
  }

  lemma SameMembers<T>(a: seq<T>, b: seq<T>)
    requires multiset(a) == multiset(b)
    ensures forall x :: x in a <==> x in b
  {
    assert forall x :: x in a <==> x in multiset(a);
    assert forall x :: x in b <==> x in multiset(b);
  }

  // ----- bytes -----

  type byte = b: nat | b < 256

  predicate BytesLeq(a: seq<byte>, b: seq<byte>) {
    a == [] || (b != [] && (a[0] < b[0] || (a[0] == b[0] && BytesLeq(a[1..], b[1..]))))
  }

  lemma {:induction false} BytesLeqTotal(a: seq<byte>, b: seq<byte>)
    ensures BytesLeq(a, b) || BytesLeq(b, a)
    ensures BytesLeq(a, b) && BytesLeq(b, a) ==> a == b
  {
    if a != [] && b != [] {
      BytesLeqTotal(a[1..], b[1..]);
      assert a == [a[0]] + a[1..] && b == [b[0]] + b[1..];
    }
  }

  lemma {:induction false} BytesLeqTransitive(a: seq<byte>, b: seq<byte>, c: seq<byte>)
    requires BytesLeq(a, b) && BytesLeq(b, c)
    ensures BytesLeq(a, c)
  {
    if a != [] && b != [] && c != [] && a[0] == b[0] == c[0] {
      BytesLeqTransitive(a[1..], b[1..], c[1..]);
    }
  }

  // ----- UTF-8 -----

  function Utf8Char(c: char): (bytes: seq<byte>)
    ensures 1 <= |bytes| <= 4
  {
    var n := c as int;
    if n < 0x80 then [n]
    else if n < 0x800 then [0xC0 + n / 64, 0x80 + n % 64]
    else if n < 0x1_0000 then [0xE0 + n / 64 / 64, 0x80 + n / 64 % 64, 0x80 + n % 64]
    else [0xF0 + n / 64 / 64 / 64, 0x80 + n / 64 / 64 % 64, 0x80 + n / 64 % 64, 0x80 + n % 64]
  }

  /** A character is as many bytes as its code point needs, and they spell it: 7, 11, 16 or 21 bits,
      six in each byte after the first. */
  lemma Utf8CharSpells(c: char)
    ensures var (n, bytes) := (c as int, Utf8Char(c));
      && |bytes| == (if n <= 0x7F then 1 else if n <= 0x7FF then 2 else if n <= 0xFFFF then 3 else 4)
      && (forall i | 0 < i < |bytes| :: 0x80 <= bytes[i] as int <= 0xBF)
      && n == match |bytes|
              case 1 => bytes[0] as int
              case 2 => (bytes[0] as int - 0xC0) * 64 + bytes[1] as int - 0x80
              case 3 => (bytes[0] as int - 0xE0) * 4_096 + (bytes[1] as int - 0x80) * 64 + bytes[2] as int - 0x80
              case _ => (bytes[0] as int - 0xF0) * 262_144 + (bytes[1] as int - 0x80) * 4_096
                        + (bytes[2] as int - 0x80) * 64 + bytes[3] as int - 0x80
  {
  }

  function Utf8(s: string): seq<byte> {
    if s == [] then [] else Utf8Char(s[0]) + Utf8(s[1..])
  }

  lemma SameQuotientAndRemainder(n: nat, m: nat)
    requires n / 64 == m / 64 && n % 64 == m % 64
    ensures n == m
  {
  }

  lemma Utf8CharIsInjective(c: char, d: char)
    requires Utf8Char(c) == Utf8Char(d)
    ensures c == d
  {
    var n, m := c as int, d as int;
    var u, v := Utf8Char(c), Utf8Char(d);
    if |u| == 1 {
      assert u[0] == n && v[0] == m;
    } else {
      assert u[|u| - 1] == 0x80 + n % 64 && v[|u| - 1] == 0x80 + m % 64;
      if |u| == 2 {
        assert u[0] == 0xC0 + n / 64 && v[0] == 0xC0 + m / 64;
      } else {
        assert u[|u| - 2] == 0x80 + n / 64 % 64 && v[|u| - 2] == 0x80 + m / 64 % 64;
        if |u| == 3 {
          assert u[0] == 0xE0 + n / 64 / 64 && v[0] == 0xE0 + m / 64 / 64;
        } else {
          assert u[1] == 0x80 + n / 64 / 64 % 64 && v[1] == 0x80 + m / 64 / 64 % 64;
          assert u[0] == 0xF0 + n / 64 / 64 / 64 && v[0] == 0xF0 + m / 64 / 64 / 64;
          SameQuotientAndRemainder(n / 64 / 64, m / 64 / 64);
        }
        SameQuotientAndRemainder(n / 64, m / 64);
      }
      SameQuotientAndRemainder(n, m);
    }
  }

  /** The first byte tells how many there are. */
  lemma Utf8FirstByteTellsLength(c: char, d: char)
    requires Utf8Char(c)[0] == Utf8Char(d)[0]
    ensures |Utf8Char(c)| == |Utf8Char(d)|
  {
  }

  /** A code point never starts like the text of another one. */
  lemma Utf8CharIsPrefixFree(c: char, d: char, x: seq<byte>, y: seq<byte>)
    requires Utf8Char(c) + x == Utf8Char(d) + y
    ensures c == d && x == y
  {
    var u, v := Utf8Char(c) + x, Utf8Char(d) + y;
    var k := |Utf8Char(c)|;
    assert u[0] == Utf8Char(c)[0] && v[0] == Utf8Char(d)[0];
    Utf8FirstByteTellsLength(c, d);
    assert Utf8Char(c) == u[..k] == v[..k] == Utf8Char(d);
    Utf8CharIsInjective(c, d);
    assert x == u[k..] && y == v[k..];
  }

  lemma {:induction false} Utf8IsInjective(s: string, t: string)
    requires Utf8(s) == Utf8(t)
    ensures s == t
  {
    if s != [] && t != [] {
      Utf8CharIsPrefixFree(s[0], t[0], Utf8(s[1..]), Utf8(t[1..]));
      Utf8IsInjective(s[1..], t[1..]);
      assert s == [s[0]] + s[1..] && t == [t[0]] + t[1..];
    }
  }

  predicate TextLeq(a: string, b: string) { BytesLeq(Utf8(a), Utf8(b)) }

  lemma TextLeqOrders()
    ensures Orders(TextLeq)
    ensures forall a, b | TextLeq(a, b) && TextLeq(b, a) :: a == b
  {
    forall a: string, b: string
      ensures TextLeq(a, b) || TextLeq(b, a)
      ensures TextLeq(a, b) && TextLeq(b, a) ==> a == b
    {
      BytesLeqTotal(Utf8(a), Utf8(b));
      if Utf8(a) == Utf8(b) { Utf8IsInjective(a, b); }
    }
    forall a: string, b: string, c: string | TextLeq(a, b) && TextLeq(b, c)
      ensures TextLeq(a, c)
    {
      BytesLeqTransitive(Utf8(a), Utf8(b), Utf8(c));
    }
  }
}
