/** Small value types and string facts shared by the component models. */
module Basics {

  datatype Option<+T> = None | Some(value: T)

  /** An operation either yields a value or reports an error message. */
  datatype Result<+T> = Ok(value: T) | Err(message: string)

  newtype byte = x: int | 0 <= x < 256

  const SLASH: byte := 0x2f

  function Min(a: int, b: int): int {
    if a <= b then a else b
  }

  ghost predicate Distinct<T>(s: seq<T>) {
    forall i, j | 0 <= i < j < |s| :: s[i] != s[j]
  }

  // ---- decimal text, as strconv.Itoa writes it ----

  function Digit(d: int): (c: char)
    requires 0 <= d < 10
    ensures c != ':' && c != '-'
  {
    ['0', '1', '2', '3', '4', '5', '6', '7', '8', '9'][d]
  }

  function NatText(n: nat): (t: string)
    ensures t != []
    ensures forall i | 0 <= i < |t| :: t[i] != ':' && t[i] != '-'
  {
    if n < 10 then [Digit(n)] else NatText(n / 10) + [Digit(n % 10)]
  }

  function Itoa(n: int): (t: string)
    ensures t != [] && (t[0] == '-' <==> n < 0)
    ensures forall i | 0 <= i < |t| :: t[i] != ':'
  {
    if n < 0 then ['-'] + NatText(-n) else NatText(n)
  }

  lemma {:induction false} NatTextInjective(m: nat, n: nat)
    requires NatText(m) == NatText(n)
    ensures m == n
  {
    var t, u := NatText(m), NatText(n);
    assert t[|t| - 1] == Digit(m % 10) && u[|u| - 1] == Digit(n % 10);
    if m >= 10 && n >= 10 {
      assert NatText(m / 10) == t[..|t| - 1] == u[..|u| - 1] == NatText(n / 10);
      NatTextInjective(m / 10, n / 10);
    }
  }

  lemma SameTail(c: char, t: string, u: string)
    requires [c] + t == [c] + u
    ensures t == u
  {
    assert t == ([c] + t)[1..] == ([c] + u)[1..];
  }

  lemma ItoaInjective(m: int, n: int)
    requires Itoa(m) == Itoa(n)
    ensures m == n
  {
    if m < 0 && n < 0 {
      SameTail('-', NatText(-m), NatText(-n));
      NatTextInjective(-m, -n);
    } else if m >= 0 && n >= 0 {
      NatTextInjective(m, n);
    }
  }

  /** The "ip:port" key under which the proxy and the agent file an endpoint. */
  function HostPortKey(ip: string, port: int): (k: string)
    ensures |ip| < |k| && k[|ip|] == ':' && ip == k[..|ip|]
    ensures forall i | |ip| < i < |k| :: k[i] != ':'
  {
    ip + ":" + Itoa(port)
  }

  /** Distinct endpoints never collide under their "ip:port" key, even when the
      address itself contains colons: the port text has none. */
  lemma HostPortKeyInjective(ip: string, port: int, ip': string, port': int)
    requires HostPortKey(ip, port) == HostPortKey(ip', port')
    ensures ip == ip' && port == port'
  {
    var k, k' := HostPortKey(ip, port), HostPortKey(ip', port');
    assert |ip| == |ip'|;
    assert Itoa(port) == k[|ip| + 1..] == k'[|ip'| + 1..] == Itoa(port');
    ItoaInjective(port, port');
  }

  // ---- string order, as Go's < compares strings ----

  predicate StrLess(a: string, b: string) {
    b != "" && (a == "" || a[0] < b[0] || (a[0] == b[0] && StrLess(a[1..], b[1..])))
  }

  lemma {:induction false} StrLessTotal(a: string, b: string)
    ensures StrLess(a, b) || StrLess(b, a) || a == b
    ensures !(StrLess(a, b) && StrLess(b, a))
    ensures a == b ==> !StrLess(a, b)
  {
    if a != "" && b != "" && a[0] == b[0] {
      StrLessTotal(a[1..], b[1..]);
      assert a == [a[0]] + a[1..] && b == [b[0]] + b[1..];
    }
  }

  lemma {:induction false} StrLessTransitive(a: string, b: string, c: string)
    requires StrLess(a, b) && StrLess(b, c)
    ensures StrLess(a, c)
  {
    if a != "" && a[0] == b[0] == c[0] {
      StrLessTransitive(a[1..], b[1..], c[1..]);
    }
  }

  /** The texts first differ at place i, or one ends there. */
  ghost predicate PartAt(a: string, b: string, i: nat) {
    && i <= |a| && i < |b| && a[..i] == b[..i]
    && (i == |a| || a[i] < b[i])
  }

  /** The first difference decides, and a proper prefix comes first. */
  lemma {:induction false} StrLessMeans(a: string, b: string)
    ensures StrLess(a, b) <==> exists i: nat :: PartAt(a, b, i)
  {
    forall i: nat | PartAt(a, b, i) && i > 0
      ensures a != "" && a[0] == b[0]
    {
      assert a[..i][0] == b[..i][0];
    }
    if b != "" && (a == "" || a[0] != b[0]) {
      assert StrLess(a, b) ==> PartAt(a, b, 0);
    } else if b != "" {
      StrLessMeans(a[1..], b[1..]);
      if i: nat :| PartAt(a[1..], b[1..], i) {
        assert a[..i + 1] == [a[0]] + a[1..][..i] && b[..i + 1] == [b[0]] + b[1..][..i];
        assert PartAt(a, b, i + 1);
      }
      if i: nat :| PartAt(a, b, i) {
        assert i > 0;
        assert a[1..][..i - 1] == a[..i][1..] && b[1..][..i - 1] == b[..i][1..];
        assert PartAt(a[1..], b[1..], i - 1);
      }
    }
  }

  // ---- sorting with a caller-supplied comparison, as sort.Slice does ----

  /** Names three elements to which transitivity is to be applied. */
  ghost predicate Chain<T>(a: T, b: T, c: T) { true }

  ghost predicate WeakOrder<T(!new)>(less: (T, T) -> bool) {
    && (forall a, b :: !(less(a, b) && less(b, a)))
    && (forall a, b, c {:trigger Chain(a, b, c)} ::
          Chain(a, b, c) && !less(b, a) && !less(c, b) ==> !less(c, a))
  }

  ghost predicate SortedBy<T>(less: (T, T) -> bool, s: seq<T>) {
    forall i, j | 0 <= i < j < |s| :: !less(s[j], s[i])
  }

  lemma InsertKeepsSorted<T(!new)>(less: (T, T) -> bool, s: seq<T>, i: nat, x: T)
    requires WeakOrder(less) && SortedBy(less, s) && i <= |s|
    requires forall j | i <= j < |s| :: less(x, s[j])
    requires i > 0 ==> !less(x, s[i - 1])
    ensures SortedBy(less, s[..i] + [x] + s[i..])
  {
    var r := s[..i] + [x] + s[i..];
    assert forall j | 0 <= j < |r| :: r[j] == if j < i then s[j] else if j == i then x else s[j - 1];
    forall a, b | 0 <= a < b < |r|
      ensures !less(r[b], r[a])
    {
      if b == i && a < i - 1 {
        assert Chain(s[a], s[i - 1], x);
      } else if a == i {
        assert less(x, s[b - 1]);
      }
    }
  }

  lemma InsertAddsOne<T>(s: seq<T>, i: nat, x: T)
    requires i <= |s|
    ensures multiset(s[..i] + [x] + s[i..]) == multiset(s) + multiset{x}
  {
    assert s == s[..i] + s[i..];
  }

  method SortSlice<T(!new)>(items: seq<T>, less: (T, T) -> bool) returns (sorted: seq<T>)
    requires WeakOrder(less)
    ensures SortedBy(less, sorted)
    ensures multiset(sorted) == multiset(items)
  {
    sorted := [];
    for n := 0 to |items|
      invariant SortedBy(less, sorted)
      invariant multiset(sorted) == multiset(items[..n])
    {
      var x := items[n];
      var i := |sorted|;
      while i > 0 && less(x, sorted[i - 1])
        invariant 0 <= i <= |sorted|
        invariant forall j | i <= j < |sorted| :: less(x, sorted[j])
      {
        i := i - 1;
      }
      assert items[..n + 1] == items[..n] + [x];
      InsertKeepsSorted(less, sorted, i, x);
      InsertAddsOne(sorted, i, x);
      sorted := sorted[..i] + [x] + sorted[i..];
    }
    assert items[..|items|] == items;
  }

  ghost predicate StrictlySorted<T>(less: (T, T) -> bool, s: seq<T>) {
    forall i, j | 0 <= i < j < |s| :: less(s[i], s[j])
  }

  ghost predicate Asymmetric<T(!new)>(less: (T, T) -> bool) {
    forall a, b :: !(less(a, b) && less(b, a))
  }

  lemma TailElements<T>(less: (T, T) -> bool, s: seq<T>, x: T)
    requires StrictlySorted(less, s) && s != [] && !less(s[0], s[0])
    ensures x in s[1..] <==> x in s && x != s[0]
  {
    if x in s && x != s[0] {
      var i :| 0 <= i < |s| && s[i] == x;
      assert s[1..][i - 1] == x;
    }
  }

  lemma Inhabited<T(!new)>(s: seq<T>)
    ensures s == [] || exists x :: x in s
  {
    if s != [] {
      assert s[0] in s;
    }
  }

  /** A strictly sorted listing of a set of elements is unique. */
  lemma {:induction false} StrictListingUnique<T(!new)>(less: (T, T) -> bool, a: seq<T>, b: seq<T>)
    requires Asymmetric(less) && StrictlySorted(less, a) && StrictlySorted(less, b)
    requires forall x :: x in a <==> x in b
    ensures a == b
  {
    if a == [] {
      Inhabited(b);
    } else {
      assert a[0] in a && b[0] in b;
      assert a[0] == b[0] && !less(a[0], a[0]);
      forall x
        ensures x in a[1..] <==> x in b[1..]
      {
        TailElements(less, a, x);
        TailElements(less, b, x);
      }
      StrictListingUnique(less, a[1..], b[1..]);
      assert a == [a[0]] + a[1..] && b == [b[0]] + b[1..];
    }
  }
}
