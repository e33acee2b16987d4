/** Files of NAME=value lines: reading one variable and writing one variable. */
module Dotenv {
  import opened Basics
  import opened Trimming

  // ---- lines ----

  /** What str.splitlines cuts at, besides the pair of carriage return and newline, which
      reading in text mode has already turned into a newline. */
  predicate IsBreak(c: char) {
    var n := c as int;
    0x0a <= n <= 0x0d || 0x1c <= n <= 0x1e || n == 0x85 || n == 0x2028 || n == 0x2029
  }

  /** What str.strip removes. */
  predicate IsSpace(c: char) {
    var n := c as int;
    || 0x09 <= n <= 0x0d || 0x1c <= n <= 0x20 || n == 0x85 || n == 0xa0 || n == 0x1680
    || 0x2000 <= n <= 0x200a || n == 0x2028 || n == 0x2029 || n == 0x202f || n == 0x205f || n == 0x3000
  }

  predicate IsQuote(c: char) {
    c == '\"' || c == '\''
  }

  /** Reading in text mode: every kind of line end becomes a newline. */
  function Universal(t: string): string {
    if t == [] then []
    else if t[0] != '\r' then [t[0]] + Universal(t[1..])
    else if |t| > 1 && t[1] == '\n' then ['\n'] + Universal(t[2..])
    else ['\n'] + Universal(t[1..])
  }

  function SplitLines(t: string): seq<string> {
    if t == [] then []
    else
      var rest := SplitLines(t[1..]);
      if IsBreak(t[0]) then [[]] + rest
      else if rest == [] then [[t[0]]]
      else [[t[0]] + rest[0]] + rest[1..]
  }

  /** The lines of a file. */
  function Lines(t: string): seq<string> {
    SplitLines(Universal(t))
  }

  function Render(lines: seq<string>): string {
    if lines == [] then [] else lines[0] + ['\n'] + Render(lines[1..])
  }

  predicate OneLine(line: string) {
    forall c | c in line :: !IsBreak(c)
  }

  lemma {:induction false} LinesAreLines(t: string)
    ensures OneLineEach(SplitLines(t))
  {
    if t != [] {
      LinesAreLines(t[1..]);
    }
  }

  lemma {:induction false} UniversalId(t: string)
    requires '\r' !in t
    ensures Universal(t) == t
  {
    if t != [] {
      UniversalId(t[1..]);
    }
  }

  lemma {:induction false} SplitRender(lines: seq<string>)
    requires OneLineEach(lines)
    ensures SplitLines(Render(lines)) == lines && '\r' !in Render(lines)
  {
    if lines != [] {
      SplitRender(lines[1..]);
      assert OneLine(lines[0]);
      SplitPast(lines[0], '\n', Render(lines[1..]));
      assert lines == [lines[0]] + lines[1..];
    }
  }

  /** Writing lines and reading them back gives the same lines. */
  lemma LinesInvert(lines: seq<string>)
    requires OneLineEach(lines)
    ensures Lines(Render(lines)) == lines
  {
    SplitRender(lines);
    UniversalId(Render(lines));
  }

  /** What ends a line: a carriage return with its newline, or one of the single characters; a
      carriage return in front of a newline is not one by itself. */
  predicate EndsLine(end: string, rest: string) {
    || end == ['\r', '\n']
    || (|end| == 1 && IsBreak(end[0]) && (end[0] == '\r' ==> rest == [] || rest[0] != '\n'))
  }

  lemma {:induction false} UniversalPast(line: string, rest: string)
    requires OneLine(line)
    ensures Universal(line + rest) == line + Universal(rest)
  {
    if line != [] {
      assert line[0] in line;
      assert (line + rest)[1..] == line[1..] + rest;
      UniversalPast(line[1..], rest);
      assert [line[0]] + (line[1..] + Universal(rest)) == line + Universal(rest);
    } else {
      assert line + rest == rest;
    }
  }

  lemma {:induction false} SplitPast(line: string, c: char, rest: string)
    requires OneLine(line) && IsBreak(c)
    ensures SplitLines(line + [c] + rest) == [line] + SplitLines(rest)
  {
    var t := line + [c] + rest;
    if line == [] {
      assert t[1..] == rest;
    } else {
      SplitPast(line[1..], c, rest);
      assert t[1..] == line[1..] + [c] + rest;
      assert [line[0]] + line[1..] == line;
      assert t[0] in line;
    }
  }

  /** The first line is what stands before the first line end, however lines end, and the
      others are the lines behind it. */
  lemma FirstLine(line: string, end: string, rest: string)
    requires OneLine(line) && EndsLine(end, rest)
    ensures Lines(line + (end + rest)) == [line] + Lines(rest)
  {
    UniversalPast(line, end + rest);
    var c := if end[0] == '\r' then '\n' else end[0];
    assert (end + rest)[0] == end[0];
    assert if |end| == 2 then (end + rest)[2..] == rest else (end + rest)[1..] == rest;
    assert Universal(end + rest) == [c] + Universal(rest);
    assert line + ([c] + Universal(rest)) == line + [c] + Universal(rest);
    SplitPast(line, c, Universal(rest));
  }

  // ---- one line ----

  datatype Binding = Binding(name: string, value: string)

  /** What the reader makes of a line. */
  function Parse(raw: string): Option<Binding> {
    var line := Strip(raw, IsSpace);
    if line == [] || line[0] == '#' || '=' !in line then None
    else
      var name := Before(line, '=');
      Some(Binding(Strip(name, IsSpace), Strip(Strip(After(line), IsSpace), IsQuote)))
  }

  /** Behind the first equals sign. */
  function After(line: string): string {
    var n := |Before(line, '=')|;
    if n < |line| then line[n + 1..] else []
  }

  /** What the writer takes for the variable's line. */
  predicate Hit(raw: string, key: string) {
    var line := Strip(raw, IsSpace);
    |line| > |key| && line[..|key|] == key && line[|key|] == '='
  }

  function Assignment(key: string, value: string): string {
    key + ['='] + value
  }

  /** A variable name that both sides can take. */
  predicate GoodKey(key: string) {
    key != [] && key[0] != '#' && '=' !in key && Tight(key, IsSpace) && OneLine(key)
  }

  predicate PlainValue(value: string) {
    Tight(value, IsSpace) && Tight(value, IsQuote) && OneLine(value)
  }

  lemma CutAtEquals(line: string, key: string, value: string)
    requires '=' !in key && line == Assignment(key, value)
    ensures Before(line, '=') == key && After(line) == value
  {
    assert line == key + (['='] + value);
    BeforeAt(key, '=', ['='] + value);
  }

  /** The writer's lines are among the reader's. */
  lemma HitBinds(raw: string, key: string)
    requires GoodKey(key) && Hit(raw, key)
    ensures Parse(raw).Some? && Parse(raw).value.name == key
  {
    var line := Strip(raw, IsSpace);
    var value := line[|key| + 1..];
    assert line == Assignment(key, value);
    CutAtEquals(line, key, value);
    StripTight(key, IsSpace);
  }

  lemma AssignmentIsTight(key: string, value: string)
    requires GoodKey(key) && PlainValue(value)
    ensures Strip(Assignment(key, value), IsSpace) == Assignment(key, value)
  {
    var line := Assignment(key, value);
    assert line[0] == key[0];
    assert line[|line| - 1] == if value == [] then '=' else value[|value| - 1];
    StripTight(line, IsSpace);
  }

  lemma PlainIsKept(value: string)
    requires PlainValue(value)
    ensures Strip(Strip(value, IsSpace), IsQuote) == value
  {
    StripTight(value, IsSpace);
    StripTight(value, IsQuote);
  }

  lemma AssignmentIsOneLine(key: string, value: string)
    requires GoodKey(key) && PlainValue(value)
    ensures OneLine(Assignment(key, value))
  {}

  /** The reader takes a line that is stripped already for what its two halves say. */
  lemma ParseCut(line: string, name: string, value: string)
    requires Strip(line, IsSpace) == line && line != [] && line[0] != '#' && '=' in line
    requires Before(line, '=') == name && After(line) == value
    ensures Parse(line) == Some(Binding(Strip(name, IsSpace), Strip(Strip(value, IsSpace), IsQuote)))
  {}

  lemma AssignmentBinds(key: string, value: string)
    requires GoodKey(key) && PlainValue(value)
    ensures Parse(Assignment(key, value)) == Some(Binding(key, value))
    ensures OneLine(Assignment(key, value)) && Hit(Assignment(key, value), key)
  {
    var line := Assignment(key, value);
    AssignmentIsTight(key, value);
    AssignmentIsOneLine(key, value);
    assert line[0] == key[0] && line[|key|] == '=';
    CutAtEquals(line, key, value);
    StripTight(key, IsSpace);
    PlainIsKept(value);
    ParseCut(line, key, value);
  }

  ghost predicate AllSpace(t: string) {
    forall c | c in t :: IsSpace(c)
  }

  ghost predicate AllQuotes(t: string) {
    forall c | c in t :: IsQuote(c)
  }

  lemma CoreParses(name: string, gap: string, gap': string, open: string, value: string, close: string)
    requires name != [] && name[0] != '#' && '=' !in name && Tight(name, IsSpace)
    requires Tight(value, IsSpace) && Tight(value, IsQuote) && AllQuotes(open) && AllQuotes(close)
    requires AllSpace(gap) && AllSpace(gap')
    ensures var quoted := open + value + close;
            var line := name + gap + ['='] + if quoted == [] then [] else gap' + quoted;
            Strip(line, IsSpace) == line && Parse(line) == Some(Binding(name, value))
  {
    var quoted := open + value + close;
    var tail := if quoted == [] then [] else gap' + quoted;
    var line := name + gap + ['='] + tail;
    assert line[0] == name[0];
    QuotedIsTight(open, value, close);
    assert line[|line| - 1] == if quoted == [] then '=' else quoted[|quoted| - 1];
    StripTight(line, IsSpace);
    assert '=' !in name + gap;
    CutAtEquals(line, name + gap, tail);
    assert [] + name + gap == name + gap;
    StripAround([], name, gap, IsSpace);
    assert tail + [] == tail;
    StripAround(if quoted == [] then [] else gap', quoted, [], IsSpace);
    StripAround(open, value, close, IsQuote);
    ParseCut(line, name + gap, tail);
  }

  lemma QuotedIsTight(open: string, value: string, close: string)
    requires Tight(value, IsSpace) && AllQuotes(open) && AllQuotes(close)
    ensures Tight(open + value + close, IsSpace)
  {
    var t := open + value + close;
    assert forall c | IsQuote(c) :: !IsSpace(c);
    assert open != [] ==> open[0] in open && open[|open| - 1] in open;
    assert close != [] ==> close[0] in close && close[|close| - 1] in close;
    if t != [] {
      assert t[0] == if open != [] then open[0] else if value != [] then value[0] else close[0];
      assert t[|t| - 1] == if close != [] then close[|close| - 1]
                           else if value != [] then value[|value| - 1] else open[|open| - 1];
    }
  }

  /** Blanks around the name, around the value and around its quotes do not matter: a line put
      together from its parts is read as the name and the value that were put in. */
  lemma AssembledIsRead(before: string, name: string, gap: string, gap': string, open: string, value: string,
                        close: string, after: string)
    requires name != [] && name[0] != '#' && '=' !in name && Tight(name, IsSpace)
    requires Tight(value, IsSpace) && Tight(value, IsQuote) && AllQuotes(open) && AllQuotes(close)
    requires AllSpace(before) && AllSpace(gap) && AllSpace(gap') && AllSpace(after)
    ensures Parse(before + (name + gap + ['='] + gap' + (open + value + close)) + after) == Some(Binding(name, value))
  {
    var quoted := open + value + close;
    var head := name + gap + ['='];
    var core := head + if quoted == [] then [] else gap' + quoted;
    var behind := if quoted == [] then gap' + after else after;
    CoreParses(name, gap, gap', open, value, close);
    StripTight(core, IsSpace);
    Regroup(before, head, gap', quoted, after);
    StripAround(before, core, behind, IsSpace);
    ParsesAsStripped(before + core + behind, core);
  }

  lemma Regroup(before: string, head: string, gap: string, quoted: string, after: string)
    ensures before + (head + gap + quoted) + after
            == before + (head + if quoted == [] then [] else gap + quoted) + if quoted == [] then gap + after else after
  {}

  lemma ParsesAsStripped(line: string, core: string)
    requires Strip(line, IsSpace) == core == Strip(core, IsSpace)
    ensures Parse(line) == Parse(core)
  {}

  /** A line without an equals sign, or whose first character that is no blank is '#', binds
      nothing. */
  lemma OthersBindNothing(before: string, rest: string)
    requires AllSpace(before) && ('=' !in rest || (rest != [] && rest[0] == '#'))
    ensures Parse(before + rest) == None
  {
    var line := before + rest;
    if '=' !in rest {
      if '=' in Strip(line, IsSpace) {
        StripSubset(line, IsSpace, '=');
      }
    } else {
      var kept := DropRight(rest, IsSpace);
      DropRightInside(before, rest, 0);
      DropLeftBefore(before, kept, IsSpace);
      DropRightShape(rest, IsSpace);
    }
  }

  /** What stands in front of a character that is kept is kept. */
  lemma {:induction false} DropRightInside(before: string, rest: string, i: nat)
    requires i < |rest| && !IsSpace(rest[i])
    ensures DropRight(before + rest, IsSpace) == before + DropRight(rest, IsSpace) && DropRight(rest, IsSpace) != []
  {
    var k := |rest| - 1;
    assert (before + rest)[|before + rest| - 1] == rest[k];
    if IsSpace(rest[k]) {
      assert (before + rest)[..|before + rest| - 1] == before + rest[..k];
      DropRightInside(before, rest[..k], i);
    }
  }

  lemma EmptyLine()
    ensures Parse([]) == None
  {}

  // ---- the variable in a list of lines ----

  /** The value on the first line that binds the name. */
  function ReadBy(parse: string -> Option<Binding>, lines: seq<string>, key: string): string {
    if lines == [] then []
    else match parse(lines[0])
      case Some(b) => if b.name == key then b.value else ReadBy(parse, lines[1..], key)
      case None => ReadBy(parse, lines[1..], key)
  }

  /** That line exists, and is not one the writer would replace. */
  predicate LooseBy(parse: string -> Option<Binding>, hit: string -> bool, lines: seq<string>, key: string) {
    if lines == [] then false
    else match parse(lines[0])
      case Some(b) => if b.name == key then !hit(lines[0]) else LooseBy(parse, hit, lines[1..], key)
      case None => LooseBy(parse, hit, lines[1..], key)
  }

  function Replaced(hit: string -> bool, lines: seq<string>, newLine: string): seq<string> {
    seq(|lines|, i requires 0 <= i < |lines| => if hit(lines[i]) then newLine else lines[i])
  }

  predicate AnyHit(hit: string -> bool, lines: seq<string>) {
    exists i | 0 <= i < |lines| :: hit(lines[i])
  }

  /** The variable's line is replaced wherever the writer finds it, and otherwise added
      behind an empty line. */
  function Written(hit: string -> bool, lines: seq<string>, newLine: string): seq<string> {
    if AnyHit(hit, lines) then Replaced(hit, lines, newLine)
    else lines + (if lines != [] && lines[|lines| - 1] != [] then [[]] else []) + [newLine]
  }

  /** What the writer's test and its new line have to do with the reader. */
  ghost predicate Compatible(parse: string -> Option<Binding>, hit: string -> bool, newLine: string, b: Binding) {
    && parse(newLine) == Some(b) && parse([]) == None
    && forall line | hit(line) :: parse(line).Some? && parse(line).value.name == b.name
  }

  lemma {:induction false} ReadReplaced(
    parse: string -> Option<Binding>, hit: string -> bool, lines: seq<string>, newLine: string, b: Binding)
    requires Compatible(parse, hit, newLine, b)
    ensures LooseBy(parse, hit, lines, b.name) ==>
              ReadBy(parse, Replaced(hit, lines, newLine), b.name) == ReadBy(parse, lines, b.name)
    ensures !LooseBy(parse, hit, lines, b.name) && AnyHit(hit, lines) ==>
              ReadBy(parse, Replaced(hit, lines, newLine), b.name) == b.value
    ensures forall key | key != b.name :: ReadBy(parse, Replaced(hit, lines, newLine), key) == ReadBy(parse, lines, key)
  {
    if lines != [] {
      ReadReplaced(parse, hit, lines[1..], newLine, b);
      assert Replaced(hit, lines, newLine)[1..] == Replaced(hit, lines[1..], newLine);
      if AnyHit(hit, lines) && !hit(lines[0]) {
        var i :| 0 <= i < |lines| && hit(lines[i]);
        assert hit(lines[1..][i - 1]);
      }
    }
  }

  lemma {:induction false} ReadAppended(
    parse: string -> Option<Binding>, hit: string -> bool, lines: seq<string>, line: string, key: string)
    ensures ReadBy(parse, lines + [line], key)
            == if Bound(parse, lines, key) then ReadBy(parse, lines, key) else ReadBy(parse, [line], key)
    ensures LooseBy(parse, hit, lines, key) ==> Bound(parse, lines, key)
    ensures Bound(parse, lines, key) && !LooseBy(parse, hit, lines, key) ==> AnyHit(hit, lines)
    ensures !Bound(parse, lines, key) ==> ReadBy(parse, lines, key) == []
    ensures Bound(parse, lines + [line], key) <==> Bound(parse, lines, key) || Bound(parse, [line], key)
  {
    if lines != [] {
      ReadAppended(parse, hit, lines[1..], line, key);
      assert (lines + [line])[1..] == lines[1..] + [line];
      if AnyHit(hit, lines[1..]) {
        var i :| 0 <= i < |lines[1..]| && hit(lines[1..][i]);
        assert hit(lines[i + 1]);
      }
    } else {
      assert lines + [line] == [line];
    }
  }

  /** Some line binds the name. */
  predicate Bound(parse: string -> Option<Binding>, lines: seq<string>, key: string) {
    if lines == [] then false
    else match parse(lines[0])
      case Some(b) => b.name == key || Bound(parse, lines[1..], key)
      case None => Bound(parse, lines[1..], key)
  }

  lemma ReadOne(parse: string -> Option<Binding>, line: string, key: string)
    ensures var bound := parse(line).Some? && parse(line).value.name == key;
            && Bound(parse, [line], key) == bound
            && ReadBy(parse, [line], key) == if bound then parse(line).value.value else []
  {
    assert [line][1..] == [];
  }

  lemma ReadAdded(
    parse: string -> Option<Binding>, hit: string -> bool, lines: seq<string>, newLine: string, b: Binding, key: string)
    requires Compatible(parse, hit, newLine, b) && !AnyHit(hit, lines)
    ensures var r := ReadBy(parse, Written(hit, lines, newLine), key);
            r == if key == b.name && !LooseBy(parse, hit, lines, key) then b.value else ReadBy(parse, lines, key)
  {
    var front := lines + if lines != [] && lines[|lines| - 1] != [] then [[]] else [];
    ReadAppended(parse, hit, lines, [], key);
    ReadAppended(parse, hit, front, newLine, key);
    ReadOne(parse, [], key);
    ReadOne(parse, newLine, key);
    assert front == lines || front == lines + [[]];
    assert Bound(parse, front, key) == Bound(parse, lines, key);
    assert ReadBy(parse, front, key) == ReadBy(parse, lines, key);
  }

  /** After writing, the variable reads as the new value, unless the first line that binds
      it is loose, in which case it reads as before; every other variable reads as before. */
  lemma ReadWritten(
    parse: string -> Option<Binding>, hit: string -> bool, lines: seq<string>, newLine: string, b: Binding, key: string)
    requires Compatible(parse, hit, newLine, b)
    ensures var r := ReadBy(parse, Written(hit, lines, newLine), key);
            r == if key == b.name && !LooseBy(parse, hit, lines, key) then b.value else ReadBy(parse, lines, key)
  {
    if AnyHit(hit, lines) {
      ReadReplaced(parse, hit, lines, newLine, b);
    } else {
      ReadAdded(parse, hit, lines, newLine, b, key);
    }
  }

  // ---- files ----

  const HEADER: seq<string> := [
    "# MonoFS Docker Compose " + "Environment Variables",
    "#",
    "# Auto-generated by stratatools.",
    ""
  ]

  /** The value of a variable in a file's text; a variable that is not there is empty. */
  function Read(text: string, key: string): string {
    ReadBy(Parse, Lines(text), key)
  }

  /** The first line that binds the variable has blanks before its equals sign. */
  predicate Loose(text: string, key: string) {
    LooseBy(Parse, line => Hit(line, key), Lines(text), key)
  }

  function LinesOf(file: Option<string>): seq<string> {
    match file
    case None => HEADER
    case Some(text) => Lines(text)
  }

  /** The text that writing a variable leaves behind. */
  function Write(file: Option<string>, key: string, value: string): string {
    Render(Written(line => Hit(line, key), LinesOf(file), Assignment(key, value)))
  }

  /** The reader's loop. */
  method ReadDotenvValue(text: string, key: string) returns (value: string)
    ensures value == Read(text, key)
  {
    var lines := Lines(text);
    for i := 0 to |lines|
      invariant Read(text, key) == ReadBy(Parse, lines[i..], key)
    {
      var binding := Parse(lines[i]);
      assert lines[i..][1..] == lines[i + 1..];
      if binding.None? || binding.value.name != key {
        continue;
      }
      return binding.value.value;
    }
    return [];
  }

  /** The writer's loop over the lines, with its test for the variable's line. */
  method RenderLines(hit: string -> bool, lines: seq<string>, newLine: string) returns (rendered: seq<string>)
    ensures rendered == Written(hit, lines, newLine)
  {
    var updated := false;
    rendered := [];
    for i := 0 to |lines|
      invariant |rendered| == i
      invariant updated <==> exists j | 0 <= j < i :: hit(lines[j])
      invariant forall j | 0 <= j < i :: rendered[j] == if hit(lines[j]) then newLine else lines[j]
    {
      if hit(lines[i]) {
        rendered := rendered + [newLine];
        updated := true;
        continue;
      }
      rendered := rendered + [lines[i]];
    }
    if !updated {
      assert rendered == lines;
      if rendered != [] && rendered[|rendered| - 1] != [] {
        rendered := rendered + [[]];
      }
      rendered := rendered + [newLine];
    } else {
      assert rendered == Replaced(hit, lines, newLine);
    }
  }

  /** The writer: its loop and the final join. */
  method WriteDotenvValue(file: Option<string>, key: string, value: string) returns (text: string)
    ensures text == Write(file, key, value)
  {
    var rendered := RenderLines(line => Hit(line, key), LinesOf(file), Assignment(key, value));
    RenderIsJoin(rendered);
    text := Join(rendered, '\n') + ['\n'];
  }

  lemma {:induction false} RenderIsJoin(lines: seq<string>)
    requires lines != []
    ensures Render(lines) == Join(lines, '\n') + ['\n']
  {
    if |lines| > 1 {
      RenderIsJoin(lines[1..]);
    } else {
      assert lines[1..] == [];
    }
  }

  lemma KeyCompatible(key: string, value: string)
    requires GoodKey(key) && PlainValue(value)
    ensures Compatible(Parse, line => Hit(line, key), Assignment(key, value), Binding(key, value))
  {
    AssignmentBinds(key, value);
    forall line | Hit(line, key)
      ensures Parse(line).Some? && Parse(line).value.name == key
    {
      HitBinds(line, key);
    }
  }

  predicate OneLineEach(lines: seq<string>) {
    forall i | 0 <= i < |lines| :: OneLine(lines[i])
  }

  lemma WrittenOneLineEach(hit: string -> bool, lines: seq<string>, newLine: string)
    requires OneLineEach(lines) && OneLine(newLine)
    ensures OneLineEach(Written(hit, lines, newLine))
  {}

  lemma OneLineConcat(a: string, b: string)
    requires OneLine(a) && OneLine(b)
    ensures OneLine(a + b)
  {}

  lemma TitleLine()
    ensures OneLine("# MonoFS Docker Compose " + "Environment Variables")
  {
    var a, b := "# MonoFS Docker Compose ", "Environment Variables";
    assert OneLine(a);
    assert OneLine(b);
    OneLineConcat(a, b);
  }

  lemma OriginLine()
    ensures OneLine("# Auto-generated by stratatools.")
  {}

  lemma HeaderLines()
    ensures OneLineEach(HEADER)
  {
    TitleLine();
    OriginLine();
  }

  lemma FileLines(file: Option<string>)
    ensures OneLineEach(LinesOf(file))
  {
    match file
    case None => HeaderLines();
    case Some(text) => LinesAreLines(Universal(text));
  }

  lemma WrittenLines(file: Option<string>, key: string, value: string)
    requires GoodKey(key) && PlainValue(value)
    ensures Lines(Write(file, key, value)) == Written(line => Hit(line, key), LinesOf(file), Assignment(key, value))
  {
    var hit := line => Hit(line, key);
    var newLine := Assignment(key, value);
    FileLines(file);
    AssignmentBinds(key, value);
    WrittenOneLineEach(hit, LinesOf(file), newLine);
    LinesInvert(Written(hit, LinesOf(file), newLine));
  }

  /** The stripped line begins with the name and an equals sign. */
  predicate IsOwn(line: string, key: string) {
    key + ['='] <= Strip(line, IsSpace)
  }

  lemma HitIsOwn(line: string, key: string)
    ensures Hit(line, key) <==> IsOwn(line, key)
  {
    var s := Strip(line, IsSpace);
    if |s| > |key| {
      assert s[..|key| + 1] == s[..|key|] + [s[|key|]];
    }
  }

  /** Line by line: if the file has lines that begin with the name and an equals sign, each of
      them becomes the assignment and the others stay as they are; otherwise all stay, and the
      assignment follows them, behind an empty line if the last one is not empty. */
  lemma FileAfterWrite(file: Option<string>, key: string, value: string)
    requires GoodKey(key) && PlainValue(value)
    ensures var was, now := LinesOf(file), Lines(Write(file, key, value));
            var n := |was|;
            if exists i | 0 <= i < n :: IsOwn(was[i], key) then
              |now| == n
              && forall i | 0 <= i < n :: now[i] == if IsOwn(was[i], key) then key + ['='] + value else was[i]
            else
              was <= now && now[|now| - 1] == key + ['='] + value
              && if n > 0 && was[n - 1] != [] then |now| == n + 2 && now[n] == [] else |now| == n + 1
  {
    var was := LinesOf(file);
    WrittenLines(file, key, value);
    forall i | 0 <= i < |was| {
      HitIsOwn(was[i], key);
    }
  }

  /** The value of a variable in a file that may be missing. */
  function ReadFile(file: Option<string>, key: string): string {
    match file
    case None => []
    case Some(text) => Read(text, key)
  }

  predicate LooseFile(file: Option<string>, key: string) {
    file.Some? && Loose(file.value, key)
  }

  lemma {:induction false} ReadNothing(
    parse: string -> Option<Binding>, hit: string -> bool, lines: seq<string>, key: string)
    requires forall i | 0 <= i < |lines| :: parse(lines[i]) == None
    ensures ReadBy(parse, lines, key) == [] && !LooseBy(parse, hit, lines, key)
  {
    if lines != [] {
      ReadNothing(parse, hit, lines[1..], key);
    }
  }

  lemma CommentBindsNothing(line: string)
    requires line != [] && line[0] == '#' && !IsSpace(line[|line| - 1])
    ensures Parse(line) == None
  {
    StripTight(line, IsSpace);
  }

  lemma HeaderBindsNothing(i: nat)
    requires i < 4
    ensures Parse(HEADER[i]) == None
  {
    if i < 3 {
      CommentBindsNothing(HEADER[i]);
    } else {
      EmptyLine();
    }
  }

  /** Writing a variable, then reading any variable: the one written has its new value,
      unless its first line is loose, and every other one has the value it had. */
  lemma ReadAfterWrite(file: Option<string>, key: string, value: string, other: string)
    requires GoodKey(key) && PlainValue(value)
    ensures Read(Write(file, key, value), other)
            == if other == key && !LooseFile(file, key) then value else ReadFile(file, other)
  {
    WrittenLines(file, key, value);
    KeyCompatible(key, value);
    ReadWritten(Parse, line => Hit(line, key), LinesOf(file), Assignment(key, value), Binding(key, value), other);
    if file.None? {
      forall i: nat | i < 4
        ensures Parse(HEADER[i]) == None
      {
        HeaderBindsNothing(i);
      }
      ReadNothing(Parse, line => Hit(line, key), HEADER, other);
    }
  }
}
