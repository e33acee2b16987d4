/** The seed_paths mount option: parsing its text into a list and printing the list back. */
module SeedOptions {
  import opened Basics
  import opened Trimming

  type Text = seq<byte>

  const COMMA: byte := 0x2c

  /** isspace in the kernel's character table, which counts the no-break space of Latin-1. */
  predicate Blank(c: byte) {
    0x09 <= c <= 0x0d || c == 0x20 || c == 0xa0
  }

  predicate IsSlash(c: byte) {
    c == SLASH
  }

  /** What is left of one item: blanks are cut off first, then slashes. */
  function Clean(item: Text): Text {
    DropRight(DropLeft(Strip(item, Blank), IsSlash), IsSlash)
  }

  function Parse(value: Text): seq<Text> {
    Keep(Clean, Split(value, COMMA))
  }

  /** The list after any number of options. */
  function ParseAll(values: seq<Text>): seq<Text> {
    if values == [] then [] else ParseAll(values[..|values| - 1]) + Parse(values[|values| - 1])
  }

  function Printed(seeds: seq<Text>): Text {
    Join(seeds, COMMA)
  }

  /** What strsep has still to deliver. */
  function Pieces(cursor: Option<Text>): seq<Text> {
    match cursor
    case None => []
    case Some(t) => Split(t, COMMA)
  }

  class MountOptions {
    var seedPaths: seq<Text>

    constructor ()
      ensures seedPaths == []
    {
      seedPaths := [];
    }

    method AppendSeedPath(path: Text)
      modifies this
      ensures seedPaths == old(seedPaths) + [path]
    {
      seedPaths := seedPaths + [path];
    }

    /** One item of the option's text. */
    method AddItem(text: Text)
      modifies this
      ensures seedPaths == old(seedPaths) + if Clean(text) == [] then [] else [Clean(text)]
    {
      var item := CleanItem(text);
      if item != [] {
        AppendSeedPath(item);
      }
    }

    /** One round of the parse loop, which takes item n off the front of the text. */
    method TakeItem(text: Text, ghost items: seq<Text>, ghost n: nat) returns (rest: Option<Text>)
      requires n <= |items| && items[n..] == Pieces(Some(text))
      modifies this
      ensures n < |items| && items[n + 1..] == Pieces(rest)
      ensures forall before | old(seedPaths) == before + Keep(Clean, items[..n]) ::
                seedPaths == before + Keep(Clean, items[..n + 1])
    {
      var item;
      item, rest := Separate(text);
      KeptNext(Clean, items, n, item, Pieces(rest));
      AddItem(item);
    }

    /** The parse loop; the option may be given several times, and the seeds add up. */
    method ParseSeedPaths(value: Text)
      modifies this
      ensures seedPaths == old(seedPaths) + Parse(value)
      ensures forall values | old(seedPaths) == ParseAll(values) :: seedPaths == ParseAll(values + [value])
    {
      var cursor := Some(value);
      ghost var items, n := Pieces(cursor), 0;
      while cursor.Some?
        invariant n <= |items| && items[n..] == Pieces(cursor)
        invariant seedPaths == old(seedPaths) + Keep(Clean, items[..n])
        decreases |items| - n
      {
        cursor := TakeItem(cursor.value, items, n);
        n := n + 1;
      }
      assert items[..n] == items;
      forall values | old(seedPaths) == ParseAll(values)
        ensures seedPaths == ParseAll(values + [value])
      {
        assert (values + [value])[..|values|] == values;
      }
    }

    /** The loop that writes the list out between the other mount options. */
    method ShowSeedPaths() returns (out: Text)
      ensures out == Printed(seedPaths)
    {
      out := [];
      for i := 0 to |seedPaths|
        invariant out == Printed(seedPaths[..i])
      {
        assert seedPaths[..i + 1] == seedPaths[..i] + [seedPaths[i]];
        JoinMore(seedPaths[..i], COMMA, seedPaths[i]);
        if i > 0 {
          out := out + [COMMA];
        }
        out := out + seedPaths[i];
      }
      assert seedPaths[..|seedPaths|] == seedPaths;
    }
  }

  /** strsep: the text up to the first comma, and what is behind it if there was one. */
  method Separate(text: Text) returns (item: Text, rest: Option<Text>)
    ensures Pieces(Some(text)) == [item] + Pieces(rest)
  {
    for i := 0 to |text|
      invariant COMMA !in text[..i]
    {
      if text[i] == COMMA {
        SplitAt(text, COMMA, i);
        return text[..i], Some(text[i + 1..]);
      }
    }
    assert text[..|text|] == text;
    SplitNone(text, COMMA);
    return text, None;
  }

  /** The two loops that cut slashes off an item without blanks at its ends. */
  method CleanItem(text: Text) returns (item: Text)
    ensures item == Clean(text)
  {
    item := Strip(text, Blank);
    while item != [] && item[0] == SLASH
      invariant DropRight(DropLeft(item, IsSlash), IsSlash) == Clean(text)
      decreases |item|
    {
      item := item[1..];
    }
    while item != [] && item[|item| - 1] == SLASH
      invariant DropRight(item, IsSlash) == Clean(text)
      decreases |item|
    {
      item := item[..|item| - 1];
    }
  }

  // ---- what a parsed list looks like ----

  predicate GoodSeed(seed: Text) {
    seed != [] && COMMA !in seed && Tight(seed, IsSlash)
  }

  lemma CleanShape(item: Text)
    ensures Tight(Clean(item), IsSlash) && |Clean(item)| <= |Strip(item, Blank)|
  {
    var a := Strip(item, Blank);
    var b := DropLeft(a, IsSlash);
    var r := DropRight(b, IsSlash);
    DropLeftShape(a, IsSlash);
    DropRightShape(b, IsSlash);
    if r != [] {
      assert r[0] == b[0];
    }
  }

  lemma CleanSubset(item: Text, c: byte)
    requires c in Clean(item)
    ensures c in item
  {
    var a := Strip(item, Blank);
    DropRightSubset(DropLeft(a, IsSlash), IsSlash, c);
    DropLeftSubset(a, IsSlash, c);
    StripSubset(item, Blank, c);
  }

  lemma CleanIsGood(item: Text)
    requires COMMA !in item && Clean(item) != []
    ensures GoodSeed(Clean(item))
  {
    if COMMA in Clean(item) {
      CleanSubset(item, COMMA);
    }
    CleanShape(item);
  }

  /** Every parsed seed is nonempty, without commas, and without a slash at either end. */
  lemma ParsedAreGood(value: Text)
    ensures forall i | 0 <= i < |Parse(value)| :: GoodSeed(Parse(value)[i])
  {
    var items := Split(value, COMMA);
    PiecesFree(value, COMMA);
    forall i | 0 <= i < |items| && Clean(items[i]) != []
      ensures GoodSeed(Clean(items[i]))
    {
      CleanIsGood(items[i]);
    }
    KeptAll(Clean, items, GoodSeed);
  }

  /** The same holds of the list after any number of options. */
  lemma {:induction false} AllAreGood(values: seq<Text>)
    ensures forall i | 0 <= i < |ParseAll(values)| :: GoodSeed(ParseAll(values)[i])
  {
    if values != [] {
      AllAreGood(values[..|values| - 1]);
      ParsedAreGood(values[|values| - 1]);
    }
  }

  // ---- printing and parsing again ----

  /** A good seed survives cleaning exactly if it has no blank at either end, and loses
      bytes otherwise. */
  lemma CleanFixed(seed: Text)
    requires GoodSeed(seed)
    ensures Tight(seed, Blank) ==> Clean(seed) == seed
    ensures |Clean(seed)| <= |seed|
    ensures !Tight(seed, Blank) ==> |Clean(seed)| < |seed|
  {
    StripTight(seed, Blank);
    CleanShape(seed);
  }

  lemma KeepFixed(seeds: seq<Text>)
    requires forall i | 0 <= i < |seeds| :: GoodSeed(seeds[i])
    ensures Keep(Clean, seeds) == seeds <==> forall i | 0 <= i < |seeds| :: Tight(seeds[i], Blank)
  {
    forall i | 0 <= i < |seeds|
      ensures Tight(seeds[i], Blank) ==> Clean(seeds[i]) == seeds[i]
      ensures |Clean(seeds[i])| <= |seeds[i]|
      ensures !Tight(seeds[i], Blank) ==> |Clean(seeds[i])| < |seeds[i]|
    {
      CleanFixed(seeds[i]);
    }
    KeptShrinks(Clean, seeds);
    if forall i | 0 <= i < |seeds| :: Tight(seeds[i], Blank) {
      KeptFixed(Clean, seeds);
    }
  }

  lemma PrintParse(seeds: seq<Text>)
    requires forall i | 0 <= i < |seeds| :: GoodSeed(seeds[i])
    ensures Parse(Printed(seeds)) == Keep(Clean, seeds)
  {
    if seeds != [] {
      SplitJoin(seeds, COMMA);
    } else {
      SplitNone([], COMMA);
      KeptOne(Clean, []);
    }
  }

  /** For the list after any number of options: printing and parsing gives it back exactly if
      no seed has a blank at either end. */
  lemma PrintedParsesBack(values: seq<Text>)
    ensures Parse(Printed(ParseAll(values))) == ParseAll(values)
            <==> forall i | 0 <= i < |ParseAll(values)| :: Tight(ParseAll(values)[i], Blank)
  {
    var seeds := ParseAll(values);
    AllAreGood(values);
    PrintParse(seeds);
    KeepFixed(seeds);
  }

  predicate BlankFree(t: Text) {
    forall c | c in t :: !Blank(c)
  }

  lemma CleanBlankFree(item: Text)
    requires BlankFree(item)
    ensures BlankFree(Clean(item))
  {
    forall c | c in Clean(item)
      ensures !Blank(c)
    {
      CleanSubset(item, c);
    }
  }

  lemma ParsedBlankFree(value: Text)
    requires BlankFree(value)
    ensures forall i | 0 <= i < |Parse(value)| :: BlankFree(Parse(value)[i])
  {
    var items := Split(value, COMMA);
    forall i | 0 <= i < |items|
      ensures BlankFree(Clean(items[i]))
    {
      forall c | c in items[i]
        ensures !Blank(c)
      {
        PieceSubset(value, COMMA, i, c);
      }
      CleanBlankFree(items[i]);
    }
    KeptAll(Clean, items, BlankFree);
  }

  lemma {:induction false} AllBlankFree(values: seq<Text>)
    requires forall i | 0 <= i < |values| :: BlankFree(values[i])
    ensures forall i | 0 <= i < |ParseAll(values)| :: BlankFree(ParseAll(values)[i])
  {
    if values != [] {
      AllBlankFree(values[..|values| - 1]);
      ParsedBlankFree(values[|values| - 1]);
    }
  }

  /** In particular for options without blanks. */
  lemma BlankFreeParsesBack(values: seq<Text>)
    requires forall i | 0 <= i < |values| :: BlankFree(values[i])
    ensures Parse(Printed(ParseAll(values))) == ParseAll(values)
  {
    var seeds := ParseAll(values);
    AllBlankFree(values);
    forall i | 0 <= i < |seeds|
      ensures Tight(seeds[i], Blank)
    {
      assert BlankFree(seeds[i]);
    }
    PrintedParsesBack(values);
  }

  /** A blank behind a leading slash becomes the first byte of a seed, which is printed as
      it is and lost when the text is parsed again. */
  lemma BlankBehindSlash()
    ensures Parse([SLASH, 0x20, 0x61]) == [[0x20, 0x61]]
    ensures Parse(Printed([[0x20, 0x61]])) == [[0x61]]
  {
    var text: Text, seed: Text, rest: Text := [SLASH, 0x20, 0x61], [0x20, 0x61], [0x61];
    assert text[1..] == seed && seed[1..] == rest;
    SplitNone(text, COMMA);
    KeptOne(Clean, text);
    StripTight(text, Blank);
    assert DropLeft(text, IsSlash) == DropLeft(seed, IsSlash) == seed;
    SplitNone(seed, COMMA);
    KeptOne(Clean, seed);
    assert Strip(seed, Blank) == DropLeft(seed, Blank) == DropLeft(rest, Blank) == rest;
  }
}
