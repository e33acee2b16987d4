/** Cutting unwanted elements off the ends of a text, and cutting a text at a separator. */
module Trimming {

  function DropLeft<T>(t: seq<T>, p: T -> bool): seq<T> {
    if t != [] && p(t[0]) then DropLeft(t[1..], p) else t
  }

  function DropRight<T>(t: seq<T>, p: T -> bool): seq<T> {
    if t != [] && p(t[|t| - 1]) then DropRight(t[..|t| - 1], p) else t
  }

  function Strip<T>(t: seq<T>, p: T -> bool): seq<T> {
    DropLeft(DropRight(t, p), p)
  }

  /** Nothing to cut off at either end. */
  predicate Tight<T>(t: seq<T>, p: T -> bool) {
    t != [] ==> !p(t[0]) && !p(t[|t| - 1])
  }

  lemma {:induction false} DropLeftShape<T>(t: seq<T>, p: T -> bool)
    ensures var r := DropLeft(t, p); |r| <= |t| && t[|t| - |r|..] == r && (r != [] ==> !p(r[0]))
  {
    if t != [] && p(t[0]) {
      DropLeftShape(t[1..], p);
    }
  }

  lemma {:induction false} DropRightShape<T>(t: seq<T>, p: T -> bool)
    ensures var r := DropRight(t, p); |r| <= |t| && t[..|r|] == r && (r != [] ==> !p(r[|r| - 1]))
  {
    if t != [] && p(t[|t| - 1]) {
      DropRightShape(t[..|t| - 1], p);
    }
  }

  /** What is left is tight, and it is the whole text exactly if that was tight. */
  lemma StripTight<T>(t: seq<T>, p: T -> bool)
    ensures Tight(Strip(t, p), p) && |Strip(t, p)| <= |t|
    ensures Tight(t, p) ==> Strip(t, p) == t
    ensures !Tight(t, p) ==> |Strip(t, p)| < |t|
  {
    DropRightShape(t, p);
    var d := DropRight(t, p);
    DropLeftShape(d, p);
    var r := DropLeft(d, p);
    if r != [] {
      assert r[|r| - 1] == d[|d| - 1];
    }
    if |r| == |t| {
      assert t[..|t|] == t;
      assert d[0..] == d;
    }
  }

  lemma {:induction false} DropRightBehind<T>(t: seq<T>, c: seq<T>, p: T -> bool)
    requires forall x | x in c :: p(x)
    ensures DropRight(t + c, p) == DropRight(t, p)
  {
    if c != [] {
      var k := |c| - 1;
      assert (t + c)[..|t + c| - 1] == t + c[..k] && (t + c)[|t + c| - 1] == c[k];
      DropRightBehind(t, c[..k], p);
    } else {
      assert t + c == t;
    }
  }

  lemma {:induction false} DropLeftBefore<T>(a: seq<T>, t: seq<T>, p: T -> bool)
    requires forall x | x in a :: p(x)
    ensures DropLeft(a + t, p) == DropLeft(t, p)
  {
    if a != [] {
      assert (a + t)[1..] == a[1..] + t && (a + t)[0] == a[0];
      DropLeftBefore(a[1..], t, p);
    } else {
      assert a + t == t;
    }
  }

  /** Whatever is put around a tight text to be cut off is cut off. */
  lemma StripAround<T>(a: seq<T>, t: seq<T>, c: seq<T>, p: T -> bool)
    requires Tight(t, p) && (forall x | x in a :: p(x)) && forall x | x in c :: p(x)
    ensures Strip(a + t + c, p) == t
  {
    DropRightBehind(a + t, c, p);
    if t == [] {
      assert a + t == [] + a;
      DropRightBehind([], a, p);
    } else {
      assert (a + t)[|a + t| - 1] == t[|t| - 1];
      DropLeftBefore(a, t, p);
    }
  }

  lemma {:induction false} DropLeftSubset<T>(t: seq<T>, p: T -> bool, x: T)
    requires x in DropLeft(t, p)
    ensures x in t
  {
    if t != [] && p(t[0]) {
      DropLeftSubset(t[1..], p, x);
    }
  }

  lemma {:induction false} DropRightSubset<T>(t: seq<T>, p: T -> bool, x: T)
    requires x in DropRight(t, p)
    ensures x in t
  {
    if t != [] && p(t[|t| - 1]) {
      DropRightSubset(t[..|t| - 1], p, x);
    }
  }

  lemma StripSubset<T>(t: seq<T>, p: T -> bool, x: T)
    requires x in Strip(t, p)
    ensures x in t
  {
    DropLeftSubset(DropRight(t, p), p, x);
    DropRightSubset(t, p, x);
  }

  // ---- up to a separator ----

  function Before<T(==)>(s: seq<T>, c: T): seq<T> {
    if s == [] || s[0] == c then [] else [s[0]] + Before(s[1..], c)
  }

  lemma {:induction false} BeforeFree<T>(s: seq<T>, c: T, x: T)
    ensures c !in Before(s, c)
    ensures x !in s ==> x !in Before(s, c)
  {
    if s != [] && s[0] != c {
      BeforeFree(s[1..], c, x);
    }
  }

  lemma {:induction false} BeforeAt<T>(s: seq<T>, c: T, rest: seq<T>)
    requires c !in s && (rest == [] || rest[0] == c)
    ensures Before(s + rest, c) == s
  {
    if s != [] {
      BeforeAt(s[1..], c, rest);
      assert (s + rest)[1..] == s[1..] + rest;
    }
  }

  // ---- pieces between separators ----

  function Split<T(==)>(t: seq<T>, sep: T): (r: seq<seq<T>>)
    ensures |r| > 0
  {
    if t == [] then [[]]
    else
      var rest := Split(t[1..], sep);
      if t[0] == sep then [[]] + rest else [[t[0]] + rest[0]] + rest[1..]
  }

  function Join<T>(pieces: seq<seq<T>>, sep: T): seq<T> {
    if pieces == [] then []
    else if |pieces| == 1 then pieces[0]
    else pieces[0] + [sep] + Join(pieces[1..], sep)
  }

  /** Up to the first separator at `i`, the first piece; behind it, the others. */
  lemma {:induction false} SplitAt<T>(t: seq<T>, sep: T, i: nat)
    requires i < |t| && t[i] == sep && sep !in t[..i]
    ensures Split(t, sep) == [t[..i]] + Split(t[i + 1..], sep)
  {
    if i > 0 {
      assert t[1..][..i - 1] == t[..i][1..];
      assert t[0] == t[..i][0];
      SplitAt(t[1..], sep, i - 1);
      assert t[1..][i..] == t[i + 1..];
      assert [t[0]] + t[1..][..i - 1] == t[..i];
    }
  }

  lemma {:induction false} SplitNone<T>(t: seq<T>, sep: T)
    requires sep !in t
    ensures Split(t, sep) == [t]
  {
    if t != [] {
      SplitNone(t[1..], sep);
      assert [t[0]] + t[1..] == t;
    }
  }

  lemma {:induction false} PiecesFree<T>(t: seq<T>, sep: T)
    ensures forall i | 0 <= i < |Split(t, sep)| :: sep !in Split(t, sep)[i]
  {
    if t != [] {
      PiecesFree(t[1..], sep);
    }
  }

  lemma {:induction false} PieceSubset<T>(t: seq<T>, sep: T, i: nat, x: T)
    requires i < |Split(t, sep)| && x in Split(t, sep)[i]
    ensures x in t
  {
    if t != [] {
      var rest := Split(t[1..], sep);
      if t[0] == sep {
        PieceSubset(t[1..], sep, i - 1, x);
      } else if i > 0 || x in rest[0] {
        PieceSubset(t[1..], sep, i, x);
      }
    }
  }

  /** Cutting undoes joining, for pieces without separators. */
  lemma {:induction false} SplitJoin<T>(pieces: seq<seq<T>>, sep: T)
    requires pieces != [] && forall i | 0 <= i < |pieces| :: sep !in pieces[i]
    ensures Split(Join(pieces, sep), sep) == pieces
  {
    var first := pieces[0];
    if |pieces| == 1 {
      SplitNone(first, sep);
    } else {
      var rest := Join(pieces[1..], sep);
      var t := first + [sep] + rest;
      SplitJoin(pieces[1..], sep);
      assert t[..|first|] == first && t[|first| + 1..] == rest;
      SplitAt(t, sep, |first|);
    }
  }

  lemma {:induction false} JoinMore<T>(pieces: seq<seq<T>>, sep: T, piece: seq<T>)
    ensures Join(pieces + [piece], sep) == (if pieces == [] then [] else Join(pieces, sep) + [sep]) + piece
  {
    if pieces != [] {
      JoinMore(pieces[1..], sep, piece);
      assert (pieces + [piece])[1..] == pieces[1..] + [piece];
      if |pieces| > 1 {
        var head, tail := pieces[0] + [sep], Join(pieces[1..], sep);
        assert head + (tail + [sep] + piece) == head + tail + [sep] + piece;
      }
    }
  }

  // ---- cleaning pieces ----

  /** The pieces after cleaning each; those with nothing left are dropped. */
  function Keep<T(==)>(clean: seq<T> -> seq<T>, pieces: seq<seq<T>>): seq<seq<T>> {
    if pieces == [] then []
    else
      var first := clean(pieces[0]);
      (if first == [] then [] else [first]) + Keep(clean, pieces[1..])
  }

  lemma KeptOne<T>(clean: seq<T> -> seq<T>, piece: seq<T>)
    ensures Keep(clean, [piece]) == if clean(piece) == [] then [] else [clean(piece)]
  {
    assert [piece][1..] == [];
  }

  lemma {:induction false} KeptMore<T>(clean: seq<T> -> seq<T>, pieces: seq<seq<T>>, piece: seq<T>)
    ensures Keep(clean, pieces + [piece]) == Keep(clean, pieces) + if clean(piece) == [] then [] else [clean(piece)]
  {
    if pieces == [] {
      KeptOne(clean, piece);
      assert [] + [piece] == [piece];
    } else {
      KeptMore(clean, pieces[1..], piece);
      assert (pieces + [piece])[1..] == pieces[1..] + [piece];
    }
  }

  /** One piece further into the list. */
  lemma KeptNext<T>(clean: seq<T> -> seq<T>, pieces: seq<seq<T>>, n: nat, piece: seq<T>, rest: seq<seq<T>>)
    requires n <= |pieces| && pieces[n..] == [piece] + rest
    ensures n < |pieces| && pieces[n + 1..] == rest
    ensures Keep(clean, pieces[..n + 1]) == Keep(clean, pieces[..n]) + if clean(piece) == [] then [] else [clean(piece)]
  {
    assert pieces[n] == pieces[n..][0] == piece;
    assert pieces[n + 1..] == pieces[n..][1..];
    assert pieces[..n + 1] == pieces[..n] + [piece];
    KeptMore(clean, pieces[..n], piece);
  }

  /** What holds of every nonempty cleaned piece holds of everything kept. */
  lemma {:induction false} KeptAll<T>(clean: seq<T> -> seq<T>, pieces: seq<seq<T>>, good: seq<T> -> bool)
    requires forall i | 0 <= i < |pieces| :: clean(pieces[i]) != [] ==> good(clean(pieces[i]))
    ensures forall i | 0 <= i < |Keep(clean, pieces)| :: good(Keep(clean, pieces)[i])
  {
    if pieces != [] {
      KeptAll(clean, pieces[1..], good);
    }
  }

  function Total<T>(pieces: seq<seq<T>>): nat {
    if pieces == [] then 0 else |pieces[0]| + Total(pieces[1..])
  }

  lemma {:induction false} KeptFixed<T>(clean: seq<T> -> seq<T>, pieces: seq<seq<T>>)
    requires forall i | 0 <= i < |pieces| :: pieces[i] != [] && clean(pieces[i]) == pieces[i]
    ensures Keep(clean, pieces) == pieces
  {
    if pieces != [] {
      KeptFixed(clean, pieces[1..]);
      assert clean(pieces[0]) == pieces[0];
      assert pieces == [pieces[0]] + pieces[1..];
    }
  }

  lemma {:induction false} KeptShrinks<T>(clean: seq<T> -> seq<T>, pieces: seq<seq<T>>)
    requires forall i | 0 <= i < |pieces| :: |clean(pieces[i])| <= |pieces[i]|
    ensures Total(Keep(clean, pieces)) <= Total(pieces)
    ensures (exists i | 0 <= i < |pieces| :: |clean(pieces[i])| < |pieces[i]|) ==>
              Total(Keep(clean, pieces)) < Total(pieces)
  {
    if pieces != [] {
      var rest := pieces[1..];
      KeptShrinks(clean, rest);
      var first := clean(pieces[0]);
      assert |first| <= |pieces[0]|;
      if first != [] {
        assert ([first] + Keep(clean, rest))[1..] == Keep(clean, rest);
      } else {
        assert [] + Keep(clean, rest) == Keep(clean, rest);
      }
      if i :| 0 <= i < |pieces| && |clean(pieces[i])| < |pieces[i]| && i > 0 {
        assert rest[i - 1] == pieces[i];
      }
    }
  }
}
