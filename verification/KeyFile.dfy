/** The encryption key kept in a .env file: found there, taken from the environment, or
    generated, and never rotated once it is in the file. */
module KeyFile {
  import opened Basics
  import opened Trimming
  import opened Dotenv

  const KEY_NAME := "MONOFS_ENCRYPTION_KEY"

  predicate IsHex(c: char) {
    '0' <= c <= '9' || 'a' <= c <= 'f' || 'A' <= c <= 'F'
  }

  predicate ValidKey(value: string) {
    |value| == 64 && forall c | c in value :: IsHex(c)
  }

  type HexKey = v: string | ValidKey(v) witness seq(64, _ => '0')

  datatype Source = FromFile | FromEnvironment | Nowhere
  datatype KeyState = KeyState(key: string, source: Source, created: bool)
  datatype Failure = InvalidKey(source: Source) | NotConfigured | NoRepository

  /** The flags of a call, whether the repository's directory exists, and what the random
      generator would deliver. */
  datatype Request = Request(dryRun: bool, create: bool, repositoryExists: bool, generated: HexKey)

  function FileKey(file: Option<string>): string {
    ReadFile(file, KEY_NAME)
  }

  /** A valid key in the file comes first, then a valid one in the environment, then
      anything in the file, then anything in the environment. */
  function Resolve(file: Option<string>, env: string): KeyState {
    var fileValue := FileKey(file);
    var envValue := Strip(env, IsSpace);
    if ValidKey(fileValue) then KeyState(fileValue, FromFile, false)
    else if ValidKey(envValue) then KeyState(envValue, FromEnvironment, false)
    else if fileValue != [] then KeyState(fileValue, FromFile, false)
    else if envValue != [] then KeyState(envValue, FromEnvironment, false)
    else KeyState([], Nowhere, false)
  }

  datatype Outcome = Found(value: KeyState) | Failed(error: Failure)
  datatype Step = Step(result: Outcome, file: Option<string>, env: string)

  function Store(file: Option<string>, key: string, q: Request): Option<string> {
    if q.dryRun then file else Some(Write(file, KEY_NAME, key))
  }

  /** The outcome of a call in any situation. */
  function Ensured(file: Option<string>, env: string, q: Request): Step {
    var found := Resolve(file, env);
    if ValidKey(found.key) && found.source == FromFile then Step(Found(found), file, found.key)
    else if ValidKey(found.key) then Step(Found(found.(created := true)), Store(file, found.key, q), found.key)
    else if found.key != [] then Step(Failed(InvalidKey(found.source)), file, env)
    else if !q.create then Step(Failed(NotConfigured), file, env)
    else if !q.repositoryExists && !q.dryRun then Step(Failed(NoRepository), file, env)
    else Step(Found(KeyState(q.generated, Nowhere, true)), Store(file, q.generated, q), q.generated)
  }

  class KeyStore {
    var file: Option<string>
    var env: string

    constructor (file: Option<string>, env: string)
      ensures this.file == file && this.env == env
    {
      this.file, this.env := file, env;
    }

    /** A valid key is found exactly if the file or the environment has one. The file's
        value is taken unless only the environment's is valid or the file has none, and the
        environment's is taken in those two cases. */
    method ResolveState() returns (state: KeyState)
      ensures state == Resolve(file, env)
      ensures var f, e := FileKey(file), Strip(env, IsSpace);
              && (ValidKey(state.key) <==> ValidKey(f) || ValidKey(e))
              && (state.source == FromFile <==> f != [] && (ValidKey(e) ==> ValidKey(f)))
              && (state.source == FromEnvironment <==> e != [] && !ValidKey(f) && (f == [] || ValidKey(e)))
              && (state.source == FromFile ==> state.key == f)
              && (state.source == FromEnvironment ==> state.key == e)
              && (state.source == Nowhere <==> state.key == [])
              && !state.created
    {
      var envValue := Strip(env, IsSpace);
      var fileValue := [];
      if file.Some? {
        fileValue := ReadDotenvValue(file.value, KEY_NAME);
      }
      if ValidKey(fileValue) {
        return KeyState(fileValue, FromFile, false);
      }
      if ValidKey(envValue) {
        return KeyState(envValue, FromEnvironment, false);
      }
      if fileValue != [] {
        return KeyState(fileValue, FromFile, false);
      }
      if envValue != [] {
        return KeyState(envValue, FromEnvironment, false);
      }
      return KeyState([], Nowhere, false);
    }

    method Ensure(q: Request) returns (result: Outcome)
      modifies this
      ensures Step(result, file, env) == Ensured(old(file), old(env), q)
      ensures q.dryRun ==> file == old(file)
      ensures if result.Failed? then file == old(file) && env == old(env) else env == result.value.key
    {
      var state := ResolveState();
      if ValidKey(state.key) {
        env := state.key;
        if state.source == FromFile {
          return Found(state);
        }
        if !q.dryRun {
          var text := WriteDotenvValue(file, KEY_NAME, state.key);
          file := Some(text);
        }
        return Found(state.(created := true));
      }
      if state.key != [] {
        return Failed(InvalidKey(state.source));
      }
      if !q.create {
        return Failed(NotConfigured);
      }
      if !q.repositoryExists && !q.dryRun {
        return Failed(NoRepository);
      }
      if !q.dryRun {
        var text := WriteDotenvValue(file, KEY_NAME, q.generated);
        file := Some(text);
      }
      env := q.generated;
      return Found(KeyState(q.generated, Nowhere, true));
    }
  }

  lemma KeyNameIsGood()
    ensures GoodKey(KEY_NAME)
  {}

  lemma ValidKeyIsPlain(value: string)
    requires ValidKey(value)
    ensures PlainValue(value)
  {
    assert value[0] in value && value[|value| - 1] in value;
  }

  // ---- how a call ends ----

  /** Why a call fails: there is a value and none is valid, in which case the file's is blamed
      if it has one; or there is none, and none may be created or there is no repository to
      create it in. In every other case it succeeds. */
  lemma FailureCauses(file: Option<string>, env: string, q: Request)
    ensures var f, e := ReadFile(file, KEY_NAME), Strip(env, IsSpace);
            var none, invalid := f == [] && e == [], (f != [] || e != []) && !ValidKey(f) && !ValidKey(e);
            var result := Ensured(file, env, q).result;
            && (result == Failed(InvalidKey(FromFile)) <==> invalid && f != [])
            && (result == Failed(InvalidKey(FromEnvironment)) <==> invalid && f == [])
            && (result == Failed(NotConfigured) <==> none && !q.create)
            && (result == Failed(NoRepository) <==> none && q.create && !q.repositoryExists && !q.dryRun)
            && (result.Found? <==> ValidKey(f) || ValidKey(e)
                                   || (none && q.create && (q.repositoryExists || q.dryRun)))
  {
    assert !ValidKey([]);
  }

  /** A failed call leaves the file and the environment as they were, so an invalid value is
      never overwritten. */
  lemma FailureChangesNothing(file: Option<string>, env: string, q: Request)
    requires Ensured(file, env, q).result.Failed?
    ensures Ensured(file, env, q).file == file && Ensured(file, env, q).env == env
  {}

  /** The key of a successful call: the file's if that is valid, otherwise the environment's,
      otherwise the generated one. It is in the environment afterwards, and the call counts as
      having created it exactly if it did not come from the file. */
  lemma SuccessGives(file: Option<string>, env: string, q: Request)
    requires Ensured(file, env, q).result.Found?
    ensures var f, e := ReadFile(file, KEY_NAME), Strip(env, IsSpace);
            var a := Ensured(file, env, q);
            && a.result.value ==
               (if ValidKey(f) then KeyState(f, FromFile, false)
                else if ValidKey(e) then KeyState(e, FromEnvironment, true)
                else KeyState(q.generated, Nowhere, true))
            && ValidKey(a.env) && a.env == a.result.value.key
  {}

  /** A dry run leaves the file as it was, and so does every call that finds its key there. */
  lemma DryRunWritesNothing(file: Option<string>, env: string, q: Request)
    ensures q.dryRun || ValidKey(ReadFile(file, KEY_NAME)) ==> Ensured(file, env, q).file == file
  {}

  /** A dry run tells what the real call does: the same result and the same environment,
      unless the real call fails for want of a repository. */
  lemma DryRunForesees(file: Option<string>, env: string, q: Request)
    ensures var trial, call := Ensured(file, env, q.(dryRun := true)), Ensured(file, env, q.(dryRun := false));
            call.result != Failed(NoRepository) ==> trial.result == call.result && trial.env == call.env
  {}

  // ---- what the file holds after a call ----

  /** The file holds a valid key, or the first line that binds the variable, if any, is one
      that the writer recognises. */
  predicate Safe(file: Option<string>) {
    ValidKey(FileKey(file)) || !LooseFile(file, KEY_NAME)
  }

  /** A successful call that may write leaves its key in the file exactly if the file was
      safe; otherwise the file's value is the invalid one it was. */
  lemma KeyIsStored(file: Option<string>, env: string, q: Request)
    requires !q.dryRun && Ensured(file, env, q).result.Found?
    ensures var a := Ensured(file, env, q);
            && ValidKey(a.result.value.key)
            && FileKey(a.file) == (if Safe(file) then a.result.value.key else FileKey(file))
  {
    var a := Ensured(file, env, q);
    var key := a.result.value.key;
    KeyNameIsGood();
    ValidKeyIsPlain(key);
    ReadAfterWrite(file, KEY_NAME, key, KEY_NAME);
  }

  /** Every other variable reads as before, after any call. */
  lemma OthersAreKept(file: Option<string>, env: string, q: Request, other: string)
    requires other != KEY_NAME
    ensures ReadFile(Ensured(file, env, q).file, other) == ReadFile(file, other)
  {
    var a := Ensured(file, env, q);
    if a.file != file {
      KeyNameIsGood();
      ValidKeyIsPlain(a.result.value.key);
      ReadAfterWrite(file, KEY_NAME, a.result.value.key, other);
    }
  }

  // ---- no rotation ----

  /** A later call, in whatever environment. */
  datatype Call = Call(env: string, request: Request)

  /** Each of the calls returns the key and leaves the file alone. */
  ghost predicate AllReturn(file: Option<string>, calls: seq<Call>, key: string) {
    calls != [] ==>
      var a := Ensured(file, calls[0].env, calls[0].request);
      a.result.Found? && a.result.value.key == key && a.file == file && AllReturn(file, calls[1..], key)
  }

  lemma {:induction false} StoredKeyIsReturned(file: Option<string>, calls: seq<Call>)
    requires ValidKey(FileKey(file))
    ensures AllReturn(file, calls, FileKey(file))
  {
    if calls != [] {
      StoredKeyIsReturned(file, calls[1..]);
    }
  }

  lemma OtherKey(key: string) returns (k: HexKey)
    ensures k != key && Strip(k, IsSpace) == k
  {
    k := seq(64, _ => '0');
    if k == key {
      k := seq(64, _ => '1');
      assert k[0] != key[0];
    }
    StripTight(k, IsSpace);
  }

  lemma StoredForever(file: Option<string>, key: string)
    requires ValidKey(FileKey(file)) && key == FileKey(file)
    ensures forall calls :: AllReturn(file, calls, key)
  {
    forall calls
      ensures AllReturn(file, calls, key)
    {
      StoredKeyIsReturned(file, calls);
    }
  }

  lemma NotStored(file: Option<string>, key: string, q: Request)
    requires !ValidKey(FileKey(file))
    ensures exists calls :: !AllReturn(file, calls, key)
  {
    var k := OtherKey(key);
    var calls := [Call(k, q)];
    assert Resolve(file, k) == KeyState(k, FromEnvironment, false);
    assert !AllReturn(file, calls, key);
  }

  /** After a successful call that may write, every later call, in any environment and with
      any flags, returns the same key and leaves the file alone: exactly if the file was
      safe. */
  lemma NoRotation(file: Option<string>, env: string, q: Request)
    requires !q.dryRun && Ensured(file, env, q).result.Found?
    ensures var a := Ensured(file, env, q);
            (forall calls :: AllReturn(a.file, calls, a.result.value.key)) <==> Safe(file)
  {
    KeyIsStored(file, env, q);
    Rotation(Ensured(file, env, q).file, Ensured(file, env, q).result.value.key, q, Safe(file));
  }

  lemma Rotation(file: Option<string>, key: string, q: Request, safe: bool)
    requires if safe then ValidKey(key) && FileKey(file) == key else !ValidKey(FileKey(file))
    ensures (forall calls :: AllReturn(file, calls, key)) <==> safe
  {
    if safe {
      StoredForever(file, key);
    } else {
      NotStored(file, key, q);
    }
  }

  /** An unsafe file: a blank before the equals sign, and no valid key behind it. */
  lemma BlankBeforeEquals(value: string)
    requires PlainValue(value) && !ValidKey(value)
    ensures !Safe(Some(KEY_NAME + " =" + value))
  {
    var text := KEY_NAME + " =" + value;
    KeyNameIsGood();
    LooseLine(KEY_NAME, value);
    OneLineFile(text);
    ReadOne(Parse, text, KEY_NAME);
  }

  /** With a file that names the key but has no value for it, and nothing in the environment,
      two calls generate two keys: the second does not find what the first one wrote. */
  lemma KeyIsRotated(q: Request, q': Request)
    requires !q.dryRun && q.create && q.repositoryExists && q'.create && (q'.repositoryExists || q'.dryRun)
    ensures var first := Ensured(Some(KEY_NAME + " ="), "", q);
            && first.result == Found(KeyState(q.generated, Nowhere, true))
            && Ensured(first.file, "", q').result == Found(KeyState(q'.generated, Nowhere, true))
  {
    var text := KEY_NAME + " =" + "";
    assert text == KEY_NAME + " =";
    KeyNameIsGood();
    LooseLine(KEY_NAME, "");
    OneLineFile(text);
    ReadOne(Parse, text, KEY_NAME);
    assert Strip("", IsSpace) == "";
    BlankBeforeEquals("");
    KeyIsStored(Some(text), "", q);
  }

  lemma LooseIsTight(key: string, value: string)
    requires GoodKey(key) && PlainValue(value)
    ensures Strip(key + " =" + value, IsSpace) == key + " =" + value
  {
    var line := key + " =" + value;
    assert line[0] == key[0];
    assert line[|line| - 1] == if value == [] then '=' else value[|value| - 1];
    StripTight(line, IsSpace);
  }

  lemma LooseLine(key: string, value: string)
    requires GoodKey(key) && PlainValue(value)
    ensures Parse(key + " =" + value) == Some(Binding(key, value))
    ensures !Hit(key + " =" + value, key) && OneLine(key + " =" + value)
  {
    var line := key + " =" + value;
    LooseIsTight(key, value);
    assert line[0] == key[0] && line[|key|] == ' ' && line[|key| + 1] == '=';
    assert line == Assignment(key + " ", value);
    CutAtEquals(line, key + " ", value);
    StripBlankTail(key);
    PlainIsKept(value);
    ParseCut(line, key + " ", value);
  }

  lemma StripBlankTail(key: string)
    requires GoodKey(key)
    ensures Strip(key + " ", IsSpace) == key
  {
    var t := key + " ";
    assert t[..|t| - 1] == key;
    assert DropRight(t, IsSpace) == DropRight(key, IsSpace) == key;
    assert DropLeft(key, IsSpace) == key;
  }

  lemma OneLineFile(line: string)
    requires OneLine(line) && line != []
    ensures Lines(line) == [line]
  {
    UniversalId(line);
    SplitOne(line);
  }

  lemma {:induction false} SplitOne(line: string)
    requires OneLine(line) && line != []
    ensures SplitLines(line) == [line]
  {
    assert line[0] in line;
    if |line| > 1 {
      SplitOne(line[1..]);
      assert line == [line[0]] + line[1..];
    } else {
      assert line[1..] == [] && line == [line[0]];
    }
  }
}
