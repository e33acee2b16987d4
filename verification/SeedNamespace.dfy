/** Directory listing and lookup of the kernel client while it is not connected: the tree
    consists of the seed paths given at mount time.  Strings are byte sequences without
    the terminating NUL. */
module SeedNamespace {
  import opened Basics
  import opened Errno

  type Name = seq<byte>

  /** An inode number: one of the fixed ones, or the hash of a path (see InoNumber). */
  datatype Ino = Fixed(number: bv64) | PathHash(path: Name)

  const DOT: Name := [0x2e]
  const DOTDOT: Name := [0x2e, 0x2e]
  const MONOFS: Name := [0x2e, 0x6d, 0x6f, 0x6e, 0x6f, 0x66, 0x73]
  const STATUS: Name := [0x73, 0x74, 0x61, 0x74, 0x75, 0x73]
  const SEEDS: Name := [0x73, 0x65, 0x65, 0x64, 0x73]

  const CONTROL_INO: Ino := Fixed(2)
  const STATUS_INO: Ino := Fixed(3)
  const SEEDS_INO: Ino := Fixed(4)

  datatype Kind = Root | ControlDir | StatusFile | SeedsFile | NamespaceDir | RemoteDir | RemoteFile

  datatype Dirent = Dirent(name: Name, ino: Ino, isDir: bool)

  datatype Inode = Inode(kind: Kind, path: Name, ino: Ino, parentIno: Ino)

  // ---- names and inode numbers ----

  const FNV_BASIS: bv64 := 1469598103934665603
  const FNV_PRIME: bv64 := 1099511628211

  /** One round of FNV-1a, with 64-bit wrap-around. */
  function Mix(hash: bv64, c: byte): bv64 {
    (hash ^ (c as bv64)) * FNV_PRIME
  }

  /** The bytes of the path mixed in from the first to the last. */
  function Fold<H>(mix: (H, byte) -> H, path: Name, hash: H): H {
    if path == [] then hash else Fold(mix, path[1..], mix(hash, path[0]))
  }

  function InoNumber(ino: Ino): bv64 {
    match ino
    case Fixed(n) => n
    case PathHash(path) => 0x1_0000_0000 | (Fold(Mix, path, FNV_BASIS) & 0x7fff_ffff)
  }

  lemma {:induction false} FoldMore<H>(mix: (H, byte) -> H, path: Name, hash: H, c: byte)
    ensures Fold(mix, path + [c], hash) == mix(Fold(mix, path, hash), c)
  {
    if path != [] {
      assert (path + [c])[1..] == path[1..] + [c];
      FoldMore(mix, path[1..], mix(hash, path[0]), c);
    } else {
      assert path + [c] == [c];
    }
  }

  /** The loop over the bytes of the path. */
  method MixAll<H>(mix: (H, byte) -> H, path: Name, start: H) returns (hash: H)
    ensures hash == Fold(mix, path, start)
  {
    hash := start;
    for i := 0 to |path|
      invariant hash == Fold(mix, path[..i], start)
    {
      assert path[..i + 1] == path[..i] + [path[i]];
      FoldMore(mix, path[..i], start, path[i]);
      hash := mix(hash, path[i]);
    }
    assert path[..|path|] == path;
  }

  function ChildPath(parent: Name, name: Name): Name {
    if parent == [] then name else parent + [SLASH] + name
  }

  predicate SlashFree(s: Name) {
    forall i | 0 <= i < |s| :: s[i] != SLASH
  }

  /** The part of a path before its first slash. */
  function FirstComponent(s: Name): (c: Name)
    ensures c <= s && SlashFree(c)
    ensures |c| < |s| ==> s[|c|] == SLASH
  {
    if s == [] || s[0] == SLASH then [] else [s[0]] + FirstComponent(s[1..])
  }

  /** `prefix` followed by a slash starts `s`. */
  predicate Below(s: Name, prefix: Name) {
    prefix <= s && |prefix| < |s| && s[|prefix|] == SLASH
  }

  /** The component of a seed path directly below a directory, if the seed lies below it. */
  function NextComponent(seed: Name, parent: Name): Option<Name> {
    if parent == [] then
      if seed == [] then None else Some(FirstComponent(seed))
    else if seed == parent || !Below(seed, parent) then None
    else
      var start := seed[|parent| + 1..];
      if start == [] then None else Some(FirstComponent(start))
  }

  predicate IsSeedOrParent(seeds: seq<Name>, candidate: Name) {
    exists i :: 0 <= i < |seeds| && (seeds[i] == candidate || (candidate != [] && Below(seeds[i], candidate)))
  }

  // ---- the full listing ----

  function AddChild(found: seq<Name>, seed: Name, parent: Name): seq<Name> {
    match NextComponent(seed, parent)
    case None => found
    case Some(c) => if c in found then found else found + [c]
  }

  /** The distinct next components of the seeds, in the order they first occur. */
  function Children(seeds: seq<Name>, parent: Name): seq<Name> {
    if seeds == [] then []
    else AddChild(Children(seeds[..|seeds| - 1], parent), seeds[|seeds| - 1], parent)
  }

  function ChildEntries(names: seq<Name>, parent: Name): (r: seq<Dirent>)
    ensures |r| == |names|
  {
    seq(|names|, i requires 0 <= i < |names| => Dirent(names[i], PathHash(ChildPath(parent, names[i])), true))
  }

  function FixedEntries(kind: Kind): seq<Dirent> {
    match kind
    case Root => [Dirent(MONOFS, CONTROL_INO, true)]
    case ControlDir => [Dirent(STATUS, STATUS_INO, false), Dirent(SEEDS, SEEDS_INO, false)]
    case _ => []
  }

  predicate IsDir(kind: Kind) {
    kind == Root || kind == ControlDir || kind == NamespaceDir || kind == RemoteDir
  }

  function DynamicEntries(dir: Inode, seeds: seq<Name>): seq<Dirent> {
    if dir.kind == Root || dir.kind == NamespaceDir then ChildEntries(Children(seeds, dir.path), dir.path) else []
  }

  function Dots(dir: Inode): seq<Dirent> {
    [Dirent(DOT, dir.ino, true), Dirent(DOTDOT, dir.parentIno, true)]
  }

  /** Everything below the dots. */
  function Entries(dir: Inode, seeds: seq<Name>): seq<Dirent> {
    FixedEntries(dir.kind) + DynamicEntries(dir, seeds)
  }

  function Listing(dir: Inode, seeds: seq<Name>): seq<Dirent> {
    Dots(dir) + Entries(dir, seeds)
  }

  // ---- emitting it into a buffer ----

  /** One getdents buffer: it takes `room` more entries and then refuses. */
  class DirContext {
    var pos: nat
    var room: nat
    var out: seq<Dirent>

    constructor (pos: nat, room: nat)
      ensures this.pos == pos && this.room == room && out == []
    {
      this.pos, this.room, out := pos, room, [];
    }

    /** The buffer holds exactly the entries of `list` from `start` up to the position. */
    ghost predicate Shows(list: seq<Dirent>, start: nat)
      reads this
    {
      && start <= pos
      && if start <= |list| then pos <= |list| && out == list[start..pos] else pos == start && out == []
    }

    /** dir_emit: stores the entry unless the buffer is full; does not move `pos`. */
    method Emit(e: Dirent) returns (ok: bool)
      modifies this`room, this`out
      ensures ok == (old(room) > 0)
      ensures if ok then out == old(out) + [e] && room == old(room) - 1 else out == old(out) && room == old(room)
    {
      ok := room > 0;
      if ok {
        out, room := out + [e], room - 1;
      }
    }

    /** dir_emit followed, when it succeeds, by the caller's pos++. */
    method EmitNext(e: Dirent, ghost list: seq<Dirent>, ghost start: nat) returns (ok: bool)
      requires Shows(list, start) && pos < |list| && list[pos] == e
      modifies this
      ensures Shows(list, start) && room + pos == old(room + pos)
      ensures if ok then pos == old(pos) + 1 else pos == old(pos) && room == 0
    {
      ok := Emit(e);
      if ok {
        pos := pos + 1;
      }
    }
  }

  lemma {:induction false} ChildrenGrow(seeds: seq<Name>, parent: Name, n: nat)
    requires n <= |seeds|
    ensures Children(seeds[..n], parent) <= Children(seeds, parent)
  {
    if n < |seeds| {
      ChildrenGrow(seeds[..|seeds| - 1], parent, n);
      assert seeds[..|seeds| - 1][..n] == seeds[..n];
    } else {
      assert seeds[..n] == seeds;
    }
  }

  lemma ChildrenStep(seeds: seq<Name>, parent: Name, i: nat)
    requires i < |seeds|
    ensures Children(seeds[..i + 1], parent) == AddChild(Children(seeds[..i], parent), seeds[i], parent)
    ensures Children(seeds[..i + 1], parent) <= Children(seeds, parent)
  {
    assert seeds[..i + 1][..i] == seeds[..i];
    ChildrenGrow(seeds, parent, i + 1);
  }

  method Contains(seen: seq<Name>, name: Name) returns (duplicate: bool)
    ensures duplicate == (name in seen)
  {
    duplicate := false;
    for j := 0 to |seen|
      invariant !duplicate && name !in seen[..j]
    {
      if seen[j] == name {
        return true;
      }
    }
  }

  /** Adds the seed's next component to `seen` unless there is none or it was seen before. */
  method Note(seen: seq<Name>, seed: Name, parent: Name) returns (more: seq<Name>)
    ensures more == AddChild(seen, seed, parent)
  {
    more := seen;
    var child := NextComponent(seed, parent);
    if child.Some? {
      var duplicate := Contains(seen, child.value);
      if !duplicate {
        more := seen + [child.value];
      }
    }
  }

  /** `list` ends with the children of the directory, from index `base` on. */
  ghost predicate EndsWithChildren(list: seq<Dirent>, base: nat, kids: seq<Name>, parent: Name) {
    && |list| == base + |kids|
    && forall i | 0 <= i < |kids| :: list[base + i] == Dirent(kids[i], PathHash(ChildPath(parent, kids[i])), true)
  }

  /** Walks all seeds, rediscovers the distinct children in order, and emits those after
      the first `skip`. */
  method EmitNamespaceChildren(ctx: DirContext, seeds: seq<Name>, parent: Name, skip: nat,
                               ghost list: seq<Dirent>, ghost base: nat, ghost start: nat)
    requires EndsWithChildren(list, base, Children(seeds, parent), parent)
    requires ctx.Shows(list, start) && ctx.pos == base + skip
    modifies ctx
    ensures ctx.Shows(list, start) && ctx.room + ctx.pos == old(ctx.room + ctx.pos)
    ensures ctx.room == 0 || ctx.pos >= |list|
  {
    var seen: seq<Name> := [];
    for i := 0 to |seeds|
      invariant seen == Children(seeds[..i], parent) && seen <= Children(seeds, parent)
      invariant ctx.Shows(list, start) && ctx.room + ctx.pos == old(ctx.room + ctx.pos)
      invariant ctx.pos == base + if |seen| < skip then skip else |seen|
    {
      ChildrenStep(seeds, parent, i);
      var n := |seen|;
      seen := Note(seen, seeds[i], parent);
      if |seen| > n && n >= skip {
        var ok := ctx.EmitNext(Dirent(seen[n], PathHash(ChildPath(parent, seen[n])), true), list, start);
        if !ok {
          return;
        }
      }
    }
    assert seeds[..|seeds|] == seeds;
  }

  // ---- one call of iterate_shared ----

  method EmitDots(dir: Inode, ctx: DirContext, ghost list: seq<Dirent>, ghost start: nat) returns (ok: bool)
    requires Dots(dir) <= list && ctx.Shows(list, start)
    modifies ctx
    ensures ctx.Shows(list, start) && ctx.room + ctx.pos == old(ctx.room + ctx.pos)
    ensures ok == (ctx.pos >= 2) && (!ok ==> ctx.room == 0)
  {
    if ctx.pos == 0 {
      ok := ctx.EmitNext(Dots(dir)[0], list, start);
      if !ok {
        return;
      }
    }
    if ctx.pos == 1 {
      ok := ctx.EmitNext(Dots(dir)[1], list, start);
      if !ok {
        return;
      }
    }
    ok := true;
  }

  method EmitFixed(dir: Inode, ctx: DirContext, ghost list: seq<Dirent>, ghost start: nat) returns (ok: bool)
    requires Dots(dir) + FixedEntries(dir.kind) <= list && ctx.Shows(list, start) && ctx.pos >= 2
    modifies ctx
    ensures ctx.Shows(list, start) && ctx.room + ctx.pos == old(ctx.room + ctx.pos)
    ensures ok == (ctx.pos >= 2 + |FixedEntries(dir.kind)|) && (!ok ==> ctx.room == 0)
  {
    var entries := FixedEntries(dir.kind);
    var index := ctx.pos - 2;
    while index < |entries|
      invariant ctx.Shows(list, start) && ctx.room + ctx.pos == old(ctx.room + ctx.pos)
      invariant ctx.pos == index + 2
    {
      assert list[index + 2] == (Dots(dir) + entries)[index + 2];
      ok := ctx.EmitNext(entries[index], list, start);
      if !ok {
        return;
      }
      index := index + 1;
    }
    ok := true;
  }

  lemma ListingEndsWithChildren(dir: Inode, seeds: seq<Name>)
    requires dir.kind == Root || dir.kind == NamespaceDir
    ensures EndsWithChildren(Listing(dir, seeds), 2 + |FixedEntries(dir.kind)|, Children(seeds, dir.path), dir.path)
  {
    var front := Dots(dir) + FixedEntries(dir.kind);
    assert Listing(dir, seeds) == front + DynamicEntries(dir, seeds);
  }

  method EmitAll(dir: Inode, ctx: DirContext, seeds: seq<Name>, ghost list: seq<Dirent>, ghost start: nat)
    requires IsDir(dir.kind) && list == Listing(dir, seeds) && Dots(dir) + FixedEntries(dir.kind) <= list
    requires ctx.Shows(list, start)
    modifies ctx
    ensures ctx.Shows(list, start) && ctx.room + ctx.pos == old(ctx.room + ctx.pos)
    ensures ctx.room == 0 || ctx.pos >= |list|
  {
    assert Dots(dir) <= Dots(dir) + FixedEntries(dir.kind);
    var ok := EmitDots(dir, ctx, list, start);
    if !ok {
      return;
    }
    ok := EmitFixed(dir, ctx, list, start);
    if !ok {
      return;
    }
    var count := |FixedEntries(dir.kind)|;
    if dir.kind == Root || dir.kind == NamespaceDir {
      ListingEndsWithChildren(dir, seeds);
      EmitNamespaceChildren(ctx, seeds, dir.path, ctx.pos - 2 - count, list, 2 + count, start);
    }
  }

  /** The slice of `list` a buffer of the given room gets from position `pos`. */
  function Window(list: seq<Dirent>, pos: nat, room: nat): seq<Dirent> {
    var from := Min(pos, |list|);
    list[from..Min(from + room, |list|)]
  }

  /** A buffer that shows the list from `start` and is full, or has reached the end, holds
      the whole window. */
  lemma ShowsWindow(list: seq<Dirent>, start: nat, pos: nat, room: nat)
    requires start <= pos <= |list| && pos - start <= room
    requires pos - start == room || pos == |list|
    ensures list[start..pos] == Window(list, start, room) && |Window(list, start, room)| == pos - start
  {}

  /** One call fills an empty buffer with the next entries of the one fixed listing, from
      the position where the last call stopped, and moves the position past them. */
  method IterateShared(dir: Inode, ctx: DirContext, seeds: seq<Name>) returns (ret: int)
    requires ctx.out == []
    modifies ctx
    ensures !IsDir(dir.kind) ==> ret == -ENOTDIR && ctx.out == [] && ctx.pos == old(ctx.pos)
    ensures IsDir(dir.kind) ==>
              && ret == 0
              && ctx.out == Window(Listing(dir, seeds), old(ctx.pos), old(ctx.room))
              && ctx.pos == old(ctx.pos) + |ctx.out|
  {
    if !IsDir(dir.kind) {
      return -ENOTDIR;
    }
    ghost var list, start := Listing(dir, seeds), ctx.pos;
    assert Dots(dir) + FixedEntries(dir.kind) <= list by {
      assert list == Dots(dir) + FixedEntries(dir.kind) + DynamicEntries(dir, seeds);
    }
    EmitAll(dir, ctx, seeds, list, start);
    if start <= |list| {
      ShowsWindow(list, start, ctx.pos, old(ctx.room));
    }
    return 0;
  }

  // ---- a directory read in pieces ----

  function Total(rooms: seq<nat>): nat {
    if rooms == [] then 0 else Total(rooms[..|rooms| - 1]) + rooms[|rooms| - 1]
  }

  lemma TotalNext(rooms: seq<nat>, i: nat)
    requires i < |rooms|
    ensures Total(rooms[..i + 1]) == Total(rooms[..i]) + rooms[i]
  {
    assert rooms[..i + 1][..i] == rooms[..i];
  }

  lemma WindowNext(list: seq<Dirent>, pos: nat, room: nat)
    requires pos <= |list|
    ensures list[..pos] + Window(list, pos, room) == list[..Min(pos + room, |list|)]
    ensures pos + |Window(list, pos, room)| == Min(pos + room, |list|)
  {}

  /** Reading a directory with any sequence of buffer sizes returns a prefix of the one
      listing, as long as the buffers allow: nothing is repeated or skipped at the seams. */
  method ReadDirectory(dir: Inode, seeds: seq<Name>, rooms: seq<nat>) returns (all: seq<Dirent>)
    requires IsDir(dir.kind)
    ensures all == Listing(dir, seeds)[..Min(Total(rooms), |Listing(dir, seeds)|)]
  {
    all := [];
    var pos := 0;
    ghost var list := Listing(dir, seeds);
    for i := 0 to |rooms|
      invariant pos == Min(Total(rooms[..i]), |list|) && all == list[..pos]
    {
      TotalNext(rooms, i);
      WindowNext(list, pos, rooms[i]);
      var ctx := new DirContext(pos, rooms[i]);
      var ret := IterateShared(dir, ctx, seeds);
      all := all + ctx.out;
      pos := ctx.pos;
    }
    assert rooms[..|rooms|] == rooms;
  }

  // ---- empty names ----

  /** The seed goes on with another slash right below the directory. */
  predicate DoubleSlash(seed: Name, parent: Name) {
    if parent == [] then seed != [] && seed[0] == SLASH
    else Below(seed, parent) && |seed| > |parent| + 1 && seed[|parent| + 1] == SLASH
  }

  lemma EmptyComponent(seed: Name, parent: Name)
    ensures NextComponent(seed, parent) == Some([]) <==> DoubleSlash(seed, parent)
  {}

  /** A directory has a child with the empty name exactly if some seed doubles the slash
      below it. */
  lemma EmptyNameIff(seeds: seq<Name>, parent: Name)
    ensures [] in Children(seeds, parent) <==> exists i :: 0 <= i < |seeds| && DoubleSlash(seeds[i], parent)
  {
    ChildIffNext(seeds, parent, []);
    if i :| 0 <= i < |seeds| && NextComponent(seeds[i], parent) == Some([]) {
      EmptyComponent(seeds[i], parent);
    }
    if i :| 0 <= i < |seeds| && DoubleSlash(seeds[i], parent) {
      EmptyComponent(seeds[i], parent);
    }
  }

  /** No slash in front, and none right behind another. */
  ghost predicate SingleSlashes(seed: Name) {
    (seed != [] ==> seed[0] != SLASH) && forall i | 1 <= i < |seed| - 1 :: !(seed[i] == SLASH && seed[i + 1] == SLASH)
  }

  lemma SingleSlashesEverywhere(seed: Name)
    ensures SingleSlashes(seed) <==> forall parent :: !DoubleSlash(seed, parent)
  {
    if !SingleSlashes(seed) {
      if seed != [] && seed[0] == SLASH {
        assert DoubleSlash(seed, []);
      } else {
        var i :| 1 <= i < |seed| - 1 && seed[i] == SLASH && seed[i + 1] == SLASH;
        assert DoubleSlash(seed, seed[..i]);
      }
    }
  }

  /** Every child of every directory has a nonempty name exactly if no seed has a slash in
      front or right behind another. */
  lemma NamesAreNonempty(seeds: seq<Name>)
    ensures (forall parent :: [] !in Children(seeds, parent))
            <==> forall i | 0 <= i < |seeds| :: SingleSlashes(seeds[i])
  {
    if forall i | 0 <= i < |seeds| :: SingleSlashes(seeds[i]) {
      forall parent
        ensures [] !in Children(seeds, parent)
      {
        EmptyNameIff(seeds, parent);
        forall i | 0 <= i < |seeds|
          ensures !DoubleSlash(seeds[i], parent)
        {
          SingleSlashesEverywhere(seeds[i]);
        }
      }
    }
    if i :| 0 <= i < |seeds| && !SingleSlashes(seeds[i]) {
      SingleSlashesEverywhere(seeds[i]);
      var parent :| DoubleSlash(seeds[i], parent);
      EmptyNameIff(seeds, parent);
    }
  }

  /** The seed "a//b" gives the directory "a" a child without a name. */
  lemma DoubleSlashListsEmptyName()
    ensures [] in Children([[0x61, SLASH, SLASH, 0x62]], [0x61])
  {
    var seeds: seq<Name> := [[0x61, SLASH, SLASH, 0x62]];
    EmptyNameIff(seeds, [0x61]);
    assert seeds[0][..1] == [0x61];
    assert DoubleSlash(seeds[0], [0x61]);
  }

  // ---- which names are listed ----

  /** A name is a child exactly when some seed has it as its next component. */
  lemma {:induction false} ChildIffNext(seeds: seq<Name>, parent: Name, name: Name)
    ensures name in Children(seeds, parent)
            <==> exists i :: 0 <= i < |seeds| && NextComponent(seeds[i], parent) == Some(name)
  {
    if seeds != [] {
      var n := |seeds| - 1;
      ChildIffNext(seeds[..n], parent, name);
      if exists i :: 0 <= i < n && NextComponent(seeds[..n][i], parent) == Some(name) {
        var i :| 0 <= i < n && NextComponent(seeds[..n][i], parent) == Some(name);
        assert NextComponent(seeds[i], parent) == Some(name);
      }
      if exists i :: 0 <= i < |seeds| && NextComponent(seeds[i], parent) == Some(name) {
        var i :| 0 <= i < |seeds| && NextComponent(seeds[i], parent) == Some(name);
        assert i < n ==> NextComponent(seeds[..n][i], parent) == Some(name);
      }
    }
  }

  lemma {:induction false} ChildrenDistinct(seeds: seq<Name>, parent: Name)
    ensures Distinct(Children(seeds, parent))
  {
    if seeds != [] {
      ChildrenDistinct(seeds[..|seeds| - 1], parent);
    }
  }

  /** The names that are listed besides the children of the directory. */
  function Reserved(kind: Kind): seq<Name> {
    match kind
    case Root => [DOT, DOTDOT, MONOFS]
    case ControlDir => [DOT, DOTDOT, STATUS, SEEDS]
    case _ => [DOT, DOTDOT]
  }

  function NamesOf(list: seq<Dirent>): (r: seq<Name>)
    ensures |r| == |list| && forall i | 0 <= i < |list| :: r[i] == list[i].name
  {
    seq(|list|, i requires 0 <= i < |list| => list[i].name)
  }

  function DynamicNames(dir: Inode, seeds: seq<Name>): seq<Name> {
    if dir.kind == Root || dir.kind == NamespaceDir then Children(seeds, dir.path) else []
  }

  lemma ListedNames(dir: Inode, seeds: seq<Name>)
    ensures NamesOf(Listing(dir, seeds)) == Reserved(dir.kind) + DynamicNames(dir, seeds)
  {
    assert NamesOf(Dots(dir) + FixedEntries(dir.kind)) == Reserved(dir.kind);
    assert NamesOf(DynamicEntries(dir, seeds)) == DynamicNames(dir, seeds);
    assert Listing(dir, seeds) == Dots(dir) + FixedEntries(dir.kind) + DynamicEntries(dir, seeds);
  }

  lemma ReservedDistinct(kind: Kind)
    ensures Distinct(Reserved(kind))
  {
    assert |DOT| == 1 && |DOTDOT| == 2 && |MONOFS| == 7 && |STATUS| == 6 && |SEEDS| == 5;
  }

  lemma DistinctConcat(a: seq<Name>, b: seq<Name>)
    requires Distinct(a) && Distinct(b)
    ensures Distinct(a + b) <==> forall c | c in b :: c !in a
  {
    if c :| c in b && c in a {
      var i :| 0 <= i < |a| && a[i] == c;
      var j :| 0 <= j < |b| && b[j] == c;
      assert (a + b)[i] == (a + b)[|a| + j];
    } else {
      forall i, j | 0 <= i < j < |a + b|
        ensures (a + b)[i] != (a + b)[j]
      {
        if i < |a| <= j {
          assert b[j - |a|] in b && a[i] in a;
        }
      }
    }
  }

  /** No name is listed twice, exactly when no seed component is one of the reserved names. */
  lemma NoNameTwice(dir: Inode, seeds: seq<Name>)
    ensures Distinct(NamesOf(Listing(dir, seeds)))
            <==> forall c | c in DynamicNames(dir, seeds) :: c !in Reserved(dir.kind)
  {
    ListedNames(dir, seeds);
    ReservedDistinct(dir.kind);
    ChildrenDistinct(seeds, dir.path);
    DistinctConcat(Reserved(dir.kind), DynamicNames(dir, seeds));
  }

  /** A seed below the control directory makes the root list ".monofs" twice. */
  lemma ControlSeedListedTwice()
    ensures var seed := MONOFS + [SLASH] + [0x61];
            !Distinct(NamesOf(Listing(Inode(Root, [], Fixed(1), Fixed(1)), [seed])))
  {
    var seed := MONOFS + [SLASH] + [0x61];
    FirstComponentIs(seed, MONOFS);
    var dir := Inode(Root, [], Fixed(1), Fixed(1));
    assert NextComponent([seed][0], []) == Some(MONOFS);
    ChildIffNext([seed], [], MONOFS);
    NoNameTwice(dir, [seed]);
    assert Reserved(Root)[2] == MONOFS && MONOFS in DynamicNames(dir, [seed]);
  }

  // ---- lookup ----

  function FindFixed(entries: seq<Dirent>, name: Name): Option<Ino> {
    if entries == [] then None
    else if entries[0].name == name then Some(entries[0].ino)
    else FindFixed(entries[1..], name)
  }

  /** The inode that lookup attaches to the name, or a negative entry. */
  function Lookup(dir: Inode, seeds: seq<Name>, name: Name): Option<Ino> {
    var fixed := FindFixed(FixedEntries(dir.kind), name);
    if fixed.Some? then fixed
    else if dir.kind != Root && dir.kind != NamespaceDir then None
    else
      var candidate := ChildPath(dir.path, name);
      if candidate == MONOFS then Some(CONTROL_INO)
      else if !IsSeedOrParent(seeds, candidate) then None
      else Some(PathHash(candidate))
  }

  function FixedKind(ino: Ino): Kind {
    if ino == CONTROL_INO then ControlDir else if ino == STATUS_INO then StatusFile else SeedsFile
  }

  /** The inode that lookup makes for the name. */
  function Enter(dir: Inode, seeds: seq<Name>, name: Name): Option<Inode> {
    match Lookup(dir, seeds, name)
    case None => None
    case Some(ino) =>
      match ino
      case PathHash(path) => Some(Inode(NamespaceDir, path, ino, dir.ino))
      case Fixed(_) => Some(Inode(FixedKind(ino), name, ino, dir.ino))
  }

  /** The listing of a directory found by lookup begins with "." under the number that lookup
      gave, and then ".." under the number of the directory it was found in. */
  lemma DotsOfChild(dir: Inode, seeds: seq<Name>, name: Name, child: Inode)
    requires Enter(dir, seeds, name) == Some(child) && IsDir(child.kind)
    ensures var list := Listing(child, seeds);
            |list| >= 2 && list[0] == Dirent(DOT, Lookup(dir, seeds, name).value, true)
            && list[1] == Dirent(DOTDOT, dir.ino, true)
  {}

  lemma {:induction false} FirstComponentIs(s: Name, name: Name)
    requires SlashFree(name)
    ensures FirstComponent(s) == name <==> s == name || Below(s, name)
  {
    if s != [] && s[0] != SLASH && name != [] && s[0] == name[0] {
      FirstComponentIs(s[1..], name[1..]);
      assert s == [s[0]] + s[1..] && name == [name[0]] + name[1..];
    }
  }

  /** For a slash-free name: it is the seed's next component below the directory exactly
      when the child's path is the seed or a parent of it. */
  lemma NextIffSeedOrParent(seed: Name, parent: Name, name: Name)
    requires name != [] && SlashFree(name)
    ensures var cand := ChildPath(parent, name);
            NextComponent(seed, parent) == Some(name) <==> seed == cand || (cand != [] && Below(seed, cand))
  {
    var cand := ChildPath(parent, name);
    if parent == [] {
      FirstComponentIs(seed, name);
    } else {
      var head := parent + [SLASH];
      assert cand == head + name;
      if Below(seed, parent) {
        var start := seed[|parent| + 1..];
        assert seed == head + start;
        FirstComponentIs(start, name);
        assert Below(seed, cand) <==> Below(start, name);
        assert seed == cand <==> start == name;
      } else {
        assert Below(cand, parent);
      }
    }
  }

  lemma ChildIffFound(seeds: seq<Name>, parent: Name, name: Name)
    requires name != [] && SlashFree(name)
    ensures name in Children(seeds, parent) <==> IsSeedOrParent(seeds, ChildPath(parent, name))
  {
    ChildIffNext(seeds, parent, name);
    forall i | 0 <= i < |seeds| {
      NextIffSeedOrParent(seeds[i], parent, name);
    }
  }

  ghost predicate Has(list: seq<Dirent>, name: Name) {
    exists e :: e in list && e.name == name
  }

  lemma {:induction false} FindFixedFinds(entries: seq<Dirent>, name: Name)
    requires forall i, j | 0 <= i < j < |entries| :: entries[i].name != entries[j].name
    ensures FindFixed(entries, name).Some? <==> Has(entries, name)
    ensures forall e | e in entries && e.name == name :: FindFixed(entries, name) == Some(e.ino)
  {
    if entries != [] {
      FindFixedFinds(entries[1..], name);
      assert entries == [entries[0]] + entries[1..];
      assert entries[0] in entries;
      assert forall e | e in entries[1..] :: e in entries && e.name != entries[0].name;
    }
  }

  lemma FixedLookup(kind: Kind, name: Name)
    ensures FindFixed(FixedEntries(kind), name).Some? <==> Has(FixedEntries(kind), name)
    ensures forall e | e in FixedEntries(kind) && e.name == name :: FindFixed(FixedEntries(kind), name) == Some(e.ino)
  {
    assert |STATUS| == 6 && |SEEDS| == 5;
    FindFixedFinds(FixedEntries(kind), name);
  }

  lemma DynamicEntry(dir: Inode, seeds: seq<Name>, e: Dirent)
    ensures e in DynamicEntries(dir, seeds) <==>
            e.name in DynamicNames(dir, seeds) && e == Dirent(e.name, PathHash(ChildPath(dir.path, e.name)), true)
  {
    var names := DynamicNames(dir, seeds);
    if e.name in names {
      var i :| 0 <= i < |names| && names[i] == e.name;
      assert DynamicEntries(dir, seeds)[i] == Dirent(e.name, PathHash(ChildPath(dir.path, e.name)), true);
    }
  }

  lemma DynamicLookup(dir: Inode, seeds: seq<Name>, name: Name)
    requires name != [] && SlashFree(name) && (dir.kind == Root || dir.kind == NamespaceDir)
    ensures Has(DynamicEntries(dir, seeds), name) <==> IsSeedOrParent(seeds, ChildPath(dir.path, name))
    ensures forall e | e in DynamicEntries(dir, seeds) && e.name == name :: e.ino == PathHash(ChildPath(dir.path, name))
  {
    ChildIffFound(seeds, dir.path, name);
    forall e {
      DynamicEntry(dir, seeds, e);
    }
    if name in DynamicNames(dir, seeds) {
      assert Dirent(name, PathHash(ChildPath(dir.path, name)), true) in DynamicEntries(dir, seeds);
    }
  }

  lemma NotControl(parent: Name, name: Name)
    requires parent != [] || name != MONOFS
    ensures ChildPath(parent, name) != MONOFS
  {
    if parent != [] {
      assert ChildPath(parent, name)[|parent|] == SLASH && SlashFree(MONOFS);
    }
  }

  /** In every directory and for every proper name, other than ".monofs" directly below the
      top: the name is listed exactly when lookup finds it, and every listed entry with
      that name carries the inode number that lookup gives. */
  lemma ListedIffFound(dir: Inode, seeds: seq<Name>, name: Name)
    requires name != [] && SlashFree(name) && (dir.path == [] || dir.kind == Root ==> name != MONOFS)
    ensures Has(Entries(dir, seeds), name) <==> Lookup(dir, seeds, name).Some?
    ensures forall e | e in Entries(dir, seeds) && e.name == name :: Lookup(dir, seeds, name) == Some(e.ino)
  {
    FixedLookup(dir.kind, name);
    assert forall e :: e in Entries(dir, seeds) <==> e in FixedEntries(dir.kind) || e in DynamicEntries(dir, seeds);
    if dir.kind == Root || dir.kind == NamespaceDir {
      DynamicLookup(dir, seeds, name);
      NotControl(dir.path, name);
    }
  }

  /** The type a name is listed with is that of the inode lookup makes for it. */
  lemma ListedTypeIsFound(dir: Inode, seeds: seq<Name>, e: Dirent)
    requires e in Entries(dir, seeds) && e.name != [] && SlashFree(e.name)
    requires dir.path == [] || dir.kind == Root ==> e.name != MONOFS
    ensures Enter(dir, seeds, e.name).Some? && (e.isDir <==> IsDir(Enter(dir, seeds, e.name).value.kind))
  {
    ListedIffFound(dir, seeds, e.name);
    DynamicEntry(dir, seeds, e);
    assert e in FixedEntries(dir.kind) || e in DynamicEntries(dir, seeds);
  }

  /** The three fixed names lead to what they stand for, whatever the seeds are. */
  lemma FixedNamesFound(top: Inode, seeds: seq<Name>)
    requires top.kind == Root
    ensures Enter(top, seeds, MONOFS) == Some(Inode(ControlDir, MONOFS, CONTROL_INO, top.ino))
    ensures var control := Enter(top, seeds, MONOFS).value;
            && Enter(control, seeds, STATUS) == Some(Inode(StatusFile, STATUS, STATUS_INO, control.ino))
            && Enter(control, seeds, SEEDS) == Some(Inode(SeedsFile, SEEDS, SEEDS_INO, control.ino))
  {
    var files := FixedEntries(ControlDir);
    assert |STATUS| == 6 && |SEEDS| == 5;
    assert FindFixed(files, SEEDS) == FindFixed(files[1..], SEEDS);
    assert FixedEntries(Root)[0].name == MONOFS;
  }

  // ---- walking down ----

  /** The path of a chain of names below the top. */
  function PathOf(names: seq<Name>): Name {
    if names == [] then [] else ChildPath(PathOf(names[..|names| - 1]), names[|names| - 1])
  }

  /** Looking up one name after the other. */
  function WalkDown(dir: Inode, seeds: seq<Name>, names: seq<Name>): Option<Inode> {
    if names == [] then Some(dir)
    else match WalkDown(dir, seeds, names[..|names| - 1])
      case None => None
      case Some(d) => Enter(d, seeds, names[|names| - 1])
  }

  ghost predicate ProperNames(names: seq<Name>) {
    && (forall i | 0 <= i < |names| :: names[i] != [] && SlashFree(names[i]))
    && (names != [] ==> names[0] != MONOFS)
  }

  predicate IsTop(dir: Inode) {
    dir.kind == Root && dir.path == []
  }

  lemma ParentOfSeedOrParent(seeds: seq<Name>, parent: Name, name: Name)
    requires parent != [] && IsSeedOrParent(seeds, ChildPath(parent, name))
    ensures IsSeedOrParent(seeds, parent)
  {
    var cand := ChildPath(parent, name);
    var i :| 0 <= i < |seeds| && (seeds[i] == cand || (cand != [] && Below(seeds[i], cand)));
    assert cand[..|parent|] == parent && cand[|parent|] == SLASH;
    assert seeds[i][..|cand|] == cand;
    assert seeds[i][..|parent|] == cand[..|parent|] && seeds[i][|parent|] == cand[|parent|];
  }

  lemma EnterStep(dir: Inode, seeds: seq<Name>, name: Name)
    requires name != [] && ((IsTop(dir) && name != MONOFS) || (dir.kind == NamespaceDir && dir.path != []))
    ensures var cand := ChildPath(dir.path, name);
            Enter(dir, seeds, name) == if IsSeedOrParent(seeds, cand)
                                       then Some(Inode(NamespaceDir, cand, PathHash(cand), dir.ino)) else None
  {
    NotControl(dir.path, name);
    FixedLookup(dir.kind, name);
    assert forall e | e in FixedEntries(dir.kind) :: e.name == MONOFS;
    assert FindFixed(FixedEntries(dir.kind), name).None?;
  }

  /** From the top, a chain of proper names that does not enter the control directory can be
      looked up exactly if its path is a seed or a parent of one; it ends at the directory of
      that path, whose inode number is the path's. */
  lemma {:induction false} ReachedIffSeedOrParent(top: Inode, seeds: seq<Name>, names: seq<Name>)
    requires IsTop(top) && names != [] && ProperNames(names)
    ensures var path := PathOf(names);
            match WalkDown(top, seeds, names)
            case None => !IsSeedOrParent(seeds, path)
            case Some(d) => IsSeedOrParent(seeds, path) && d.kind == NamespaceDir && d.path == path
                            && d.ino == PathHash(path)
    ensures PathOf(names) != []
  {
    var n := |names| - 1;
    var front, name := names[..n], names[n];
    if n == 0 {
      assert WalkDown(top, seeds, front) == Some(top) && PathOf(names) == ChildPath(top.path, name);
      EnterStep(top, seeds, name);
      assert WalkDown(top, seeds, names) == Enter(top, seeds, name);
    } else {
      ReachedIffSeedOrParent(top, seeds, front);
      if IsSeedOrParent(seeds, PathOf(names)) {
        ParentOfSeedOrParent(seeds, PathOf(front), name);
      }
      var d := WalkDown(top, seeds, front);
      if d.Some? {
        EnterStep(d.value, seeds, name);
      }
    }
  }

  /** And every name on the way is listed in its directory, under the number of the next one. */
  lemma ReachedIsListed(top: Inode, seeds: seq<Name>, names: seq<Name>)
    requires IsTop(top) && names != [] && ProperNames(names) && WalkDown(top, seeds, names).Some?
    ensures var front, name := WalkDown(top, seeds, names[..|names| - 1]), names[|names| - 1];
            && front.Some? && Has(Entries(front.value, seeds), name)
            && forall e | e in Entries(front.value, seeds) && e.name == name ::
                 e.ino == WalkDown(top, seeds, names).value.ino
  {
    var n := |names| - 1;
    var front := names[..n];
    if n > 0 {
      ReachedIffSeedOrParent(top, seeds, front);
    }
    ListedIffFound(WalkDown(top, seeds, front).value, seeds, names[n]);
  }

  /** At the top, ".monofs" is always found as the control directory; what is listed under
      that name agrees with it exactly when no seed has ".monofs" as its first component. */
  lemma ControlNameAgrees(seeds: seq<Name>, ino: Ino, parentIno: Ino)
    ensures var dir := Inode(Root, [], ino, parentIno);
            && Lookup(dir, seeds, MONOFS) == Some(CONTROL_INO)
            && ((forall e | e in Entries(dir, seeds) && e.name == MONOFS :: InoNumber(e.ino) == InoNumber(CONTROL_INO))
                <==> MONOFS !in Children(seeds, []))
  {
    var dir := Inode(Root, [], ino, parentIno);
    forall e {
      DynamicEntry(dir, seeds, e);
    }
    assert forall e :: e in Entries(dir, seeds) <==> e in FixedEntries(Root) || e in DynamicEntries(dir, seeds);
    if MONOFS in Children(seeds, []) {
      var e := Dirent(MONOFS, PathHash(MONOFS), true);
      assert e in Entries(dir, seeds);
      HashIsLarge(MONOFS);
    }
  }

  lemma HashIsLarge(path: Name)
    ensures InoNumber(PathHash(path)) >= 0x1_0000_0000
  {
    Masked(Fold(Mix, path, FNV_BASIS));
  }

  lemma Masked(h: bv64)
    ensures (0x1_0000_0000 | (h & 0x7fff_ffff)) >= 0x1_0000_0000
  {}
}
