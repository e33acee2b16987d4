/** Rewriting the image references of a YAML document to the references of built images. */
module ImageStamp {
  import opened Basics
  import opened Trimming

  // ---- references ----

  function AfterLast(s: string, c: char): string {
    if s == [] || s[|s| - 1] == c then [] else AfterLast(s[..|s| - 1], c) + [s[|s| - 1]]
  }

  /** The bare image name: without digest, without registry and path, without tag. */
  function RepoName(ref: string): string {
    Before(AfterLast(Before(ref, '@'), '/'), ':')
  }

  predicate Bare(name: string) {
    '@' !in name && '/' !in name && ':' !in name
  }

  // ---- the mapping ----

  /** A dictionary in insertion order. */
  datatype Entry = Entry(key: string, target: string)
  type Mapping = seq<Entry>

  ghost predicate DistinctKeys(m: Mapping) {
    forall i, j | 0 <= i < j < |m| :: m[i].key != m[j].key
  }

  function Lookup(m: Mapping, key: string): Option<string> {
    if m == [] then None else if m[0].key == key then Some(m[0].target) else Lookup(m[1..], key)
  }

  /** The first target with the given bare name. */
  function FirstTarget(m: Mapping, repo: string): Option<string> {
    if m == [] then None else if RepoName(m[0].target) == repo then Some(m[0].target) else FirstTarget(m[1..], repo)
  }

  /** What a reference becomes. */
  function Stamp(m: Mapping, v: string): string {
    match Lookup(m, v)
    case Some(t) => t
    case None =>
      match FirstTarget(m, RepoName(v))
      case Some(t) => t
      case None => v
  }

  lemma {:induction false} LookupIs(m: Mapping, key: string, i: nat)
    requires i < |m| && m[i].key == key && forall j | 0 <= j < i :: m[j].key != key
    ensures Lookup(m, key) == Some(m[i].target)
  {
    if i > 0 {
      LookupIs(m[1..], key, i - 1);
    }
  }

  lemma {:induction false} FirstTargetIs(m: Mapping, repo: string, i: nat)
    requires i < |m| && RepoName(m[i].target) == repo && forall j | 0 <= j < i :: RepoName(m[j].target) != repo
    ensures FirstTarget(m, repo) == Some(m[i].target)
  {
    if i > 0 {
      FirstTargetIs(m[1..], repo, i - 1);
    }
  }

  lemma {:induction false} NothingFound(m: Mapping, key: string, repo: string)
    ensures (forall j | 0 <= j < |m| :: m[j].key != key) ==> Lookup(m, key).None?
    ensures (forall j | 0 <= j < |m| :: RepoName(m[j].target) != repo) ==> FirstTarget(m, repo).None?
  {
    if m != [] {
      NothingFound(m[1..], key, repo);
    }
  }

  /** A reference that is a key becomes the target of its entry; any other one the target of
      the first entry whose target has its bare name; and one for which there is neither stays. */
  lemma StampMeans(m: Mapping, v: string, i: nat)
    requires DistinctKeys(m)
    ensures i < |m| && m[i].key == v ==> Stamp(m, v) == m[i].target
    ensures (forall j | 0 <= j < |m| :: m[j].key != v) && i <= |m|
            && (forall j | 0 <= j < i :: RepoName(m[j].target) != RepoName(v)) ==>
              && (i < |m| && RepoName(m[i].target) == RepoName(v) ==> Stamp(m, v) == m[i].target)
              && (i == |m| ==> Stamp(m, v) == v)
  {
    NothingFound(m, v, RepoName(v));
    if i < |m| {
      if m[i].key == v {
        LookupIs(m, v, i);
      } else if RepoName(m[i].target) == RepoName(v) && forall j | 0 <= j < i :: RepoName(m[j].target) != RepoName(v) {
        FirstTargetIs(m, RepoName(v), i);
      }
    }
  }

  /** The loop that collects the first target of every bare name. */
  method BuildRepoMapping(m: Mapping) returns (repos: map<string, string>)
    ensures forall repo :: (repo in repos <==> FirstTarget(m, repo).Some?)
    ensures forall repo | repo in repos :: Some(repos[repo]) == FirstTarget(m, repo)
  {
    repos := map[];
    for i := 0 to |m|
      invariant forall repo :: (repo in repos <==> FirstTarget(m[..i], repo).Some?)
      invariant forall repo | repo in repos :: Some(repos[repo]) == FirstTarget(m[..i], repo)
    {
      var target := m[i].target;
      var repo := RepoName(target);
      forall r
        ensures FirstTarget(m[..i + 1], r)
                == if FirstTarget(m[..i], r).Some? then FirstTarget(m[..i], r)
                   else if r == repo then Some(target) else None
      {
        assert m[..i + 1] == m[..i] + [m[i]];
        FirstTargetMore(m[..i], m[i], r);
      }
      if repo !in repos {
        repos := repos[repo := target];
      }
    }
    assert m[..|m|] == m;
  }

  lemma {:induction false} FirstTargetMore(m: Mapping, e: Entry, repo: string)
    ensures FirstTarget(m + [e], repo)
            == if FirstTarget(m, repo).Some? then FirstTarget(m, repo)
               else if RepoName(e.target) == repo then Some(e.target) else None
  {
    if m != [] {
      FirstTargetMore(m[1..], e, repo);
      assert (m + [e])[1..] == m[1..] + [e];
    } else {
      assert (m + [e])[1..] == [];
    }
  }

  // ---- documents ----

  datatype Key = Name(name: string) | OtherKey(id: int)

  /** A list has items for children, a dictionary pairs. */
  datatype Node = Text(text: string) | Atom(id: int) | Null | Branch(children: seq<Child>)
  datatype Child = Item(node: Node) | Pair(key: Key, node: Node)

  predicate IsImage(c: Child) {
    c.Pair? && c.key == Name("image") && c.node.Text?
  }

  function Stamped(m: Mapping, n: Node): Node {
    match n
    case Branch(cs) => Branch(seq(|cs|, i requires 0 <= i < |cs| => StampedChild(m, cs[i])))
    case _ => n
  }

  function StampedChild(m: Mapping, c: Child): Child {
    if IsImage(c) then c.(node := Text(Stamp(m, c.node.text))) else c.(node := Stamped(m, c.node))
  }

  /** The image references of a document, in document order. */
  function Images(n: Node): seq<string> {
    match n
    case Branch(cs) => ImagesAll(cs)
    case _ => []
  }

  function ImagesAll(cs: seq<Child>): seq<string> {
    if cs == [] then [] else ImagesAll(cs[..|cs| - 1]) + ImagesOf(cs[|cs| - 1])
  }

  function ImagesOf(c: Child): seq<string> {
    if IsImage(c) then [c.node.text] else Images(c.node)
  }

  /** The document with its image references blanked out. */
  function Frame(n: Node): Node {
    match n
    case Branch(cs) => Branch(seq(|cs|, i requires 0 <= i < |cs| => FrameOf(cs[i])))
    case _ => n
  }

  function FrameOf(c: Child): Child {
    if IsImage(c) then c.(node := Text("")) else c.(node := Frame(c.node))
  }

  /** The replacements, in document order. */
  function Changes(m: Mapping, images: seq<string>): seq<(string, string)> {
    if images == [] then []
    else
      var v := images[|images| - 1];
      Changes(m, images[..|images| - 1]) + if Stamp(m, v) == v then [] else [(v, Stamp(m, v))]
  }

  // ---- the walk over a document ----

  class Stamper {
    const m: Mapping
    const repos: map<string, string>
    const dryRun: bool
    var changes: seq<(string, string)>

    constructor (m: Mapping, repos: map<string, string>, dryRun: bool)
      requires forall repo :: (repo in repos <==> FirstTarget(m, repo).Some?)
      requires forall repo | repo in repos :: Some(repos[repo]) == FirstTarget(m, repo)
      ensures this.m == m && this.dryRun == dryRun && changes == [] && Valid()
    {
      this.m, this.repos, this.dryRun, changes := m, repos, dryRun, [];
    }

    ghost predicate Valid() {
      && (forall repo :: (repo in repos <==> FirstTarget(m, repo).Some?))
      && (forall repo | repo in repos :: Some(repos[repo]) == FirstTarget(m, repo))
    }

    /** What the walk puts in place of a reference, if it replaces it. */
    method Replacement(v: string) returns (replacement: Option<string>)
      requires Valid()
      ensures replacement == if Stamp(m, v) == v then None else Some(Stamp(m, v))
    {
      replacement := None;
      var t := Lookup(m, v);
      if t.Some? && t.value != v {
        replacement := t;
      } else if t.None? {
        var repo := RepoName(v);
        if repo in repos && repos[repo] != v {
          replacement := Some(repos[repo]);
        }
      }
    }

    function Result(c: Child): Child {
      if dryRun then c else StampedChild(m, c)
    }

    /** One child: an image reference is replaced, anything else is walked. */
    method WalkChild(c: Child) returns (out: Child)
      requires Valid()
      modifies this
      ensures out == Result(c)
      ensures changes == old(changes) + Changes(m, ImagesOf(c))
      decreases c
    {
      out := c;
      if IsImage(c) {
        var v := c.node.text;
        var replacement := Replacement(v);
        ChangesOne(m, v);
        if replacement.Some? {
          changes := changes + [(v, replacement.value)];
          if !dryRun {
            out := c.(node := Text(replacement.value));
          }
        }
      } else {
        var node := Walk(c.node);
        out := c.(node := node);
      }
    }

    /** The recursive walk: collects the replacements in document order and makes them,
        unless it is a dry run. */
    method Walk(n: Node) returns (out: Node)
      requires Valid()
      modifies this
      ensures out == if dryRun then n else Stamped(m, n)
      ensures changes == old(changes) + Changes(m, Images(n))
      decreases n
    {
      out := n;
      if n.Branch? {
        var done := WalkAll(n.children);
        out := Branch(done);
        assert done == if dryRun then n.children else Stamped(m, n).children;
      }
    }

    method WalkNext(cs: seq<Child>, i: nat) returns (c: Child)
      requires Valid() && i < |cs|
      modifies this
      ensures c == Result(cs[i])
      ensures forall before | old(changes) == before + Plan(m, cs[..i]) :: changes == before + Plan(m, cs[..i + 1])
      decreases cs, 0
    {
      ChangesNext(m, cs, i);
      c := WalkChild(cs[i]);
    }

    method WalkAll(cs: seq<Child>) returns (done: seq<Child>)
      requires Valid()
      modifies this
      ensures |done| == |cs| && forall j | 0 <= j < |cs| :: done[j] == Result(cs[j])
      ensures changes == old(changes) + Plan(m, cs)
      decreases cs, 1
    {
      done := [];
      for i := 0 to |cs|
        invariant |done| == i && forall j | 0 <= j < i :: done[j] == Result(cs[j])
        invariant changes == old(changes) + Plan(m, cs[..i])
      {
        var c := WalkNext(cs, i);
        done := done + [c];
      }
      assert cs[..|cs|] == cs;
    }
  }

  /** The replacements in some children. */
  function Plan(m: Mapping, cs: seq<Child>): seq<(string, string)> {
    Changes(m, ImagesAll(cs))
  }

  lemma ChangesNext(m: Mapping, cs: seq<Child>, i: nat)
    requires i < |cs|
    ensures Plan(m, cs[..i + 1]) == Plan(m, cs[..i]) + Changes(m, ImagesOf(cs[i]))
  {
    assert cs[..i + 1][..i] == cs[..i];
    ChangesConcat(m, ImagesAll(cs[..i]), ImagesOf(cs[i]));
  }

  lemma ChangesOne(m: Mapping, v: string)
    ensures Changes(m, [v]) == if Stamp(m, v) == v then [] else [(v, Stamp(m, v))]
  {
    assert [v][..0] == [];
  }

  lemma {:induction false} ChangesConcat(m: Mapping, a: seq<string>, b: seq<string>)
    ensures Changes(m, a + b) == Changes(m, a) + Changes(m, b)
  {
    if b == [] {
      assert a + b == a;
    } else {
      assert (a + b)[..|a + b| - 1] == a + b[..|b| - 1];
      ChangesConcat(m, a, b[..|b| - 1]);
    }
  }

  /** A document on disk; None is a file that cannot be parsed. */
  class File {
    var content: Option<Node>

    constructor (content: Option<Node>)
      ensures this.content == content
    {
      this.content := content;
    }
  }

  function PlanFor(m: Mapping, content: Option<Node>): seq<(string, string)> {
    match content
    case None => []
    case Some(n) => Changes(m, Images(n))
  }

  /** Stamping one file. A dry run returns the same replacements and writes nothing. */
  method StampFile(file: File, m: Mapping, dryRun: bool) returns (changes: seq<(string, string)>)
    modifies file
    ensures changes == PlanFor(m, old(file.content))
    ensures dryRun ==> file.content == old(file.content)
    ensures !dryRun ==>
              match old(file.content)
              case None => file.content.None?
              case Some(n) => file.content == Some(Stamped(m, n))
  {
    if file.content.None? {
      return [];
    }
    var n := file.content.value;
    if n.Null? {
      return [];
    }
    var repos := BuildRepoMapping(m);
    var stamper := new Stamper(m, repos, dryRun);
    var out := stamper.Walk(n);
    changes := stamper.changes;
    if changes == [] {
      NothingToChange(m, n);
      return;
    }
    if !dryRun {
      file.content := Some(out);
    }
  }

  // ---- what a stamped document is ----

  function StampAll(m: Mapping, images: seq<string>): seq<string> {
    seq(|images|, i requires 0 <= i < |images| => Stamp(m, images[i]))
  }

  lemma StampAllConcat(m: Mapping, a: seq<string>, b: seq<string>)
    ensures StampAll(m, a + b) == StampAll(m, a) + StampAll(m, b)
  {}

  /** Every image reference is stamped, in place. */
  lemma {:induction false} StampedImages(m: Mapping, n: Node)
    ensures Images(Stamped(m, n)) == StampAll(m, Images(n))
    decreases n
  {
    if n.Branch? {
      StampedImagesAll(m, n.children, Stamped(m, n).children);
    }
  }

  lemma {:induction false} StampedImagesAll(m: Mapping, cs: seq<Child>, ds: seq<Child>)
    requires |ds| == |cs| && forall i | 0 <= i < |cs| :: ds[i] == StampedChild(m, cs[i])
    ensures ImagesAll(ds) == StampAll(m, ImagesAll(cs))
    decreases cs
  {
    if cs != [] {
      var k := |cs| - 1;
      StampedImagesAll(m, cs[..k], ds[..k]);
      StampedImagesOf(m, cs[k]);
      StampAllConcat(m, ImagesAll(cs[..k]), ImagesOf(cs[k]));
    }
  }

  lemma {:induction false} StampedImagesOf(m: Mapping, c: Child)
    ensures ImagesOf(StampedChild(m, c)) == StampAll(m, ImagesOf(c))
    decreases c
  {
    if !IsImage(c) {
      StampedImages(m, c.node);
    }
  }

  /** Nothing but image references changes. */
  lemma {:induction false} StampedFrame(m: Mapping, n: Node)
    ensures Frame(Stamped(m, n)) == Frame(n)
    decreases n
  {
    if n.Branch? {
      forall i | 0 <= i < |n.children|
        ensures FrameOf(StampedChild(m, n.children[i])) == FrameOf(n.children[i])
      {
        if !IsImage(n.children[i]) {
          StampedFrame(m, n.children[i].node);
        }
      }
    }
  }

  lemma {:induction false} FrameImages(n: Node)
    ensures |Images(Frame(n))| == |Images(n)|
    decreases n
  {
    if n.Branch? {
      FrameImagesAll(n.children, Frame(n).children);
    }
  }

  lemma {:induction false} FrameImagesAll(cs: seq<Child>, fs: seq<Child>)
    requires |fs| == |cs| && forall i | 0 <= i < |cs| :: fs[i] == FrameOf(cs[i])
    ensures |ImagesAll(fs)| == |ImagesAll(cs)|
    decreases cs
  {
    if cs != [] {
      var k := |cs| - 1;
      FrameImagesAll(cs[..k], fs[..k]);
      FrameImagesOf(cs[k]);
    }
  }

  lemma {:induction false} FrameImagesOf(c: Child)
    ensures |ImagesOf(FrameOf(c))| == |ImagesOf(c)|
    decreases c
  {
    if !IsImage(c) {
      FrameImages(c.node);
    }
  }

  /** A document is determined by its image references and by the rest of it, so the two
      lemmas before this one say everything about a stamped document. */
  lemma {:induction false} Determined(a: Node, b: Node)
    requires Frame(a) == Frame(b) && Images(a) == Images(b)
    ensures a == b
    decreases a
  {
    if a.Branch? {
      forall i | 0 <= i < |a.children|
        ensures FrameOf(a.children[i]) == FrameOf(b.children[i])
      {
        assert Frame(a).children[i] == Frame(b).children[i];
      }
      DeterminedAll(a.children, b.children);
    }
  }

  lemma {:induction false} DeterminedAll(cs: seq<Child>, ds: seq<Child>)
    requires |cs| == |ds| && forall i | 0 <= i < |cs| :: FrameOf(cs[i]) == FrameOf(ds[i])
    requires ImagesAll(cs) == ImagesAll(ds)
    ensures cs == ds
    decreases cs
  {
    if cs != [] {
      var k := |cs| - 1;
      FrameImagesOf(cs[k]);
      FrameImagesOf(ds[k]);
      SplitEqual(ImagesAll(cs[..k]), ImagesOf(cs[k]), ImagesAll(ds[..k]), ImagesOf(ds[k]));
      DeterminedAll(cs[..k], ds[..k]);
      DeterminedChild(cs[k], ds[k]);
      assert cs == cs[..k] + [cs[k]];
      assert ds == ds[..k] + [ds[k]];
    }
  }

  lemma SplitEqual<T>(a: seq<T>, b: seq<T>, c: seq<T>, d: seq<T>)
    requires a + b == c + d && |b| == |d|
    ensures a == c && b == d
  {
    assert a == (a + b)[..|a|] && b == (a + b)[|a|..];
    assert c == (c + d)[..|c|] && d == (c + d)[|c|..];
  }

  lemma {:induction false} DeterminedChild(c: Child, d: Child)
    requires FrameOf(c) == FrameOf(d) && ImagesOf(c) == ImagesOf(d)
    ensures c == d
    decreases c
  {
    if IsImage(c) {
      assert IsImage(d);
      assert ImagesOf(c)[0] == ImagesOf(d)[0];
    } else {
      Determined(c.node, d.node);
    }
  }

  // ---- place by place ----

  /** A place in a document: which child to take at each level. */
  type Path = seq<nat>

  function Reach(c: Child, path: Path): Option<Child> {
    if path == [] then Some(c)
    else if c.node.Branch? && path[0] < |c.node.children| then Reach(c.node.children[path[0]], path[1..])
    else None
  }

  /** At every place of a document, the stamped document has the same key and the same value,
      unless the key is "image" and the value a string, which is stamped. */
  lemma {:induction false} StampedAt(m: Mapping, c: Child, path: Path)
    ensures var was, now := Reach(c, path), Reach(StampedChild(m, c), path);
            && (now.Some? <==> was.Some?)
            && (was.Some? ==>
                  && now.value == was.value.(node := now.value.node)
                  && match was.value.node
                     case Branch(cs) => now.value.node.Branch? && |now.value.node.children| == |cs|
                     case Text(v) =>
                       var image := was.value.Pair? && was.value.key == Name("image");
                       now.value.node == Text(if image then Stamp(m, v) else v)
                     case _ => now.value.node == was.value.node)
    decreases path
  {
    if path != [] && c.node.Branch? && path[0] < |c.node.children| {
      StampedAt(m, c.node.children[path[0]], path[1..]);
    }
  }

  /** The document as a whole, which has no key. */
  lemma StampedEverywhere(m: Mapping, n: Node, path: Path)
    ensures StampedChild(m, Item(n)) == Item(Stamped(m, n))
    ensures var was, now := Reach(Item(n), path), Reach(Item(Stamped(m, n)), path);
            && (now.Some? <==> was.Some?)
            && (was.Some? && !was.value.node.Branch? && now != was ==>
                  && was.value.Pair? && was.value.key == Name("image") && was.value.node.Text?
                  && now == Some(Pair(Name("image"), Text(Stamp(m, was.value.node.text)))))
  {
    StampedAt(m, Item(n), path);
  }

  /** Document order: what comes first where the paths part. */
  predicate PathLess(p: Path, q: Path) {
    q != [] && (p == [] || p[0] < q[0] || (p[0] == q[0] && PathLess(p[1..], q[1..])))
  }

  /** The value at the place is an image reference that stamping changes as said. */
  predicate Replaces(m: Mapping, c: Child, path: Path, change: (string, string)) {
    && Reach(c, path) == Some(Pair(Name("image"), Text(change.0)))
    && change.1 == Stamp(m, change.0) && change.1 != change.0
  }

  /** The changes are made at the places, in document order, and at no other place. */
  ghost predicate ListsChanges(m: Mapping, c: Child, changes: seq<(string, string)>, paths: seq<Path>) {
    && |paths| == |changes|
    && (forall i | 0 <= i < |paths| :: Replaces(m, c, paths[i], changes[i]))
    && (forall i, j | 0 <= i < j < |paths| :: PathLess(paths[i], paths[j]))
    && forall path, change | Replaces(m, c, path, change) :: path in paths
  }

  function Under(k: nat, paths: seq<Path>): seq<Path> {
    seq(|paths|, i requires 0 <= i < |paths| => [k] + paths[i])
  }

  lemma ReachUnder(cs: seq<Child>, k: nat, path: Path)
    requires k < |cs|
    ensures Reach(Item(Branch(cs)), [k] + path) == Reach(cs[k], path)
  {
    assert ([k] + path)[1..] == path;
  }

  lemma PathLessUnder(k: nat, p: Path, q: Path)
    ensures PathLess([k] + p, [k] + q) <==> PathLess(p, q)
  {
    assert ([k] + p)[1..] == p && ([k] + q)[1..] == q;
  }

  lemma ReplacesUnder(m: Mapping, cs: seq<Child>, path: Path, change: (string, string))
    ensures Replaces(m, Item(Branch(cs)), path, change)
            <==> path != [] && path[0] < |cs| && Replaces(m, cs[path[0]], path[1..], change)
  {}

  lemma ReplacesFront(m: Mapping, cs: seq<Child>, k: nat, path: Path, change: (string, string))
    requires k <= |cs|
    ensures Replaces(m, Item(Branch(cs[..k])), path, change)
            <==> path != [] && path[0] < k && Replaces(m, Item(Branch(cs)), path, change)
  {
    ReplacesUnder(m, cs[..k], path, change);
    ReplacesUnder(m, cs, path, change);
  }

  /** The places of one more child are in order behind those in the children before it. */
  lemma OrderedMore(k: nat, front: seq<Path>, last: seq<Path>)
    requires forall i | 0 <= i < |front| :: front[i] != [] && front[i][0] < k
    requires forall i, j | 0 <= i < j < |front| :: PathLess(front[i], front[j])
    requires forall i, j | 0 <= i < j < |last| :: PathLess(last[i], last[j])
    ensures var paths := front + Under(k, last); forall i, j | 0 <= i < j < |paths| :: PathLess(paths[i], paths[j])
  {
    var paths := front + Under(k, last);
    forall i, j | 0 <= i < j < |paths|
      ensures PathLess(paths[i], paths[j])
    {
      if i >= |front| {
        PathLessUnder(k, last[i - |front|], last[j - |front|]);
      }
    }
  }

  lemma UnderHas(k: nat, paths: seq<Path>, path: Path)
    requires path != [] && path[0] == k && path[1..] in paths
    ensures path in Under(k, paths)
  {
    var i :| 0 <= i < |paths| && paths[i] == path[1..];
    assert Under(k, paths)[i] == path;
  }

  lemma ListsJoined(m: Mapping, c: Child, a: seq<(string, string)>, b: seq<(string, string)>,
                    front: seq<Path>, back: seq<Path>)
    requires |front| == |a| && |back| == |b|
    requires forall i | 0 <= i < |a| :: Replaces(m, c, front[i], a[i])
    requires forall i | 0 <= i < |b| :: Replaces(m, c, back[i], b[i])
    requires forall i, j | 0 <= i < j < |front + back| :: PathLess((front + back)[i], (front + back)[j])
    requires forall path, change | Replaces(m, c, path, change) :: path in front || path in back
    ensures ListsChanges(m, c, a + b, front + back)
  {
    forall i | 0 <= i < |a + b|
      ensures Replaces(m, c, (front + back)[i], (a + b)[i])
    {}
  }

  /** The places in some children together with those in one more behind them. */
  lemma ListsMore(m: Mapping, cs: seq<Child>, k: nat, a: seq<(string, string)>, b: seq<(string, string)>,
                  front: seq<Path>, last: seq<Path>)
    requires |cs| == k + 1
    requires ListsChanges(m, Item(Branch(cs[..k])), a, front) && ListsChanges(m, cs[k], b, last)
    ensures ListsChanges(m, Item(Branch(cs)), a + b, front + Under(k, last))
  {
    var c := Item(Branch(cs));
    forall i | 0 <= i < |front|
      ensures front[i] != [] && front[i][0] < k && Replaces(m, c, front[i], a[i])
    {
      ReplacesFront(m, cs, k, front[i], a[i]);
    }
    forall i | 0 <= i < |last|
      ensures Replaces(m, c, Under(k, last)[i], b[i])
    {
      ReachUnder(cs, k, last[i]);
    }
    OrderedMore(k, front, last);
    forall path, change | Replaces(m, c, path, change)
      ensures path in front || path in Under(k, last)
    {
      ReplacesUnder(m, cs, path, change);
      if path[0] < k {
        ReplacesFront(m, cs, k, path, change);
      } else {
        UnderHas(k, last, path);
      }
    }
    ListsJoined(m, c, a, b, front, Under(k, last));
  }

  lemma {:induction false} PlacesInAll(m: Mapping, cs: seq<Child>) returns (paths: seq<Path>)
    ensures ListsChanges(m, Item(Branch(cs)), Plan(m, cs), paths)
    decreases cs, 0
  {
    if cs == [] {
      paths := [];
    } else {
      var k := |cs| - 1;
      var front := PlacesInAll(m, cs[..k]);
      var last := PlacesIn(m, cs[k]);
      ChangesNext(m, cs, k);
      assert cs[..k + 1] == cs;
      ListsMore(m, cs, k, Plan(m, cs[..k]), Changes(m, ImagesOf(cs[k])), front, last);
      paths := front + Under(k, last);
    }
  }

  lemma {:induction false} PlacesIn(m: Mapping, c: Child) returns (paths: seq<Path>)
    ensures ListsChanges(m, c, Changes(m, ImagesOf(c)), paths)
    decreases c, 1
  {
    paths := [];
    if c.node.Branch? {
      paths := PlacesInAll(m, c.node.children);
      forall path, change
        ensures Replaces(m, c, path, change) <==> Replaces(m, Item(c.node), path, change)
      {
        assert path != [] ==> Reach(c, path) == Reach(Item(c.node), path);
      }
    } else if c.Pair? && c.key == Name("image") && c.node.Text? {
      ChangesOne(m, c.node.text);
      paths := if Stamp(m, c.node.text) == c.node.text then [] else [[]];
    }
  }

  /** The list of replacements, which a dry run returns too, names for each place whose key is
      "image" and whose string stamping changes the old and the new reference, in document
      order, and nothing else. */
  lemma ChangesArePlaces(m: Mapping, n: Node) returns (paths: seq<Path>)
    ensures ListsChanges(m, Item(n), Changes(m, Images(n)), paths)
    ensures forall path | Reach(Item(n), path).Some? && !Reach(Item(n), path).value.node.Branch? ::
              path in paths <==> Reach(Item(Stamped(m, n)), path) != Reach(Item(n), path)
  {
    paths := PlacesIn(m, Item(n));
    forall path | Reach(Item(n), path).Some? && !Reach(Item(n), path).value.node.Branch?
      ensures path in paths <==> Reach(Item(Stamped(m, n)), path) != Reach(Item(n), path)
    {
      StampedEverywhere(m, n, path);
      StampedAt(m, Item(n), path);
      if Reach(Item(Stamped(m, n)), path) != Reach(Item(n), path) {
        var v := Reach(Item(n), path).value.node.text;
        assert Replaces(m, Item(n), path, (v, Stamp(m, v)));
      }
    }
  }

  // ---- dry runs and repeated runs ----

  lemma {:induction false} NoChanges(m: Mapping, images: seq<string>)
    ensures Changes(m, images) == [] <==> StampAll(m, images) == images
  {
    if images != [] {
      var k := |images| - 1;
      NoChanges(m, images[..k]);
      assert StampAll(m, images)[..k] == StampAll(m, images[..k]);
      assert images == images[..k] + [images[k]];
    }
  }

  /** The plan is empty exactly if stamping leaves the document as it is. */
  lemma NothingToChange(m: Mapping, n: Node)
    ensures Changes(m, Images(n)) == [] <==> Stamped(m, n) == n
  {
    NoChanges(m, Images(n));
    StampedImages(m, n);
    StampedFrame(m, n);
    if Changes(m, Images(n)) == [] {
      Determined(Stamped(m, n), n);
    }
  }

  /** Every target is left alone: as a key it stands for itself, and otherwise it is the
      first target with its bare name. */
  ghost predicate Settled(m: Mapping) {
    forall i | 0 <= i < |m| :: LeftAlone(m, m[i].target)
  }

  predicate LeftAlone(m: Mapping, t: string) {
    match Lookup(m, t)
    case Some(u) => u == t
    case None => FirstTarget(m, RepoName(t)) == Some(t)
  }

  lemma {:induction false} LookupIsTarget(m: Mapping, key: string)
    requires Lookup(m, key).Some?
    ensures exists i | 0 <= i < |m| :: m[i].target == Lookup(m, key).value
  {
    if m[0].key != key {
      LookupIsTarget(m[1..], key);
      var i :| 0 <= i < |m[1..]| && m[1..][i].target == Lookup(m, key).value;
      assert m[i + 1].target == Lookup(m, key).value;
    }
  }

  lemma {:induction false} FirstTargetIsTarget(m: Mapping, repo: string)
    requires FirstTarget(m, repo).Some?
    ensures exists i | 0 <= i < |m| :: m[i].target == FirstTarget(m, repo).value
  {
    if RepoName(m[0].target) != repo {
      FirstTargetIsTarget(m[1..], repo);
      var i :| 0 <= i < |m[1..]| && m[1..][i].target == FirstTarget(m, repo).value;
      assert m[i + 1].target == FirstTarget(m, repo).value;
    }
  }

  lemma SettledStamps(m: Mapping, v: string)
    requires Settled(m)
    ensures Stamp(m, Stamp(m, v)) == Stamp(m, v)
  {
    if Lookup(m, v).Some? {
      LookupIsTarget(m, v);
    } else if FirstTarget(m, RepoName(v)).Some? {
      FirstTargetIsTarget(m, RepoName(v));
    }
  }

  lemma SettledTwice(m: Mapping, n: Node)
    requires Settled(m)
    ensures Stamped(m, Stamped(m, n)) == Stamped(m, n)
  {
    var once := Stamped(m, n);
    var twice := Stamped(m, once);
    StampedImages(m, n);
    StampedImages(m, once);
    StampedFrame(m, once);
    forall i | 0 <= i < |Images(n)|
      ensures Images(twice)[i] == Images(once)[i]
    {
      SettledStamps(m, Images(n)[i]);
    }
    Determined(twice, once);
  }

  function OneImage(v: string): Node {
    Branch([Pair(Name("image"), Text(v))])
  }

  lemma StampedOne(m: Mapping, v: string)
    ensures Stamped(m, OneImage(v)) == OneImage(Stamp(m, v))
  {
    assert Stamped(m, OneImage(v)).children == [Pair(Name("image"), Text(Stamp(m, v)))];
  }

  lemma {:induction false} FirstTargetFound(m: Mapping, i: nat)
    requires i < |m|
    ensures FirstTarget(m, RepoName(m[i].target)).Some?
  {
    if i > 0 {
      FirstTargetFound(m[1..], i - 1);
    }
  }

  /** Stamping twice is stamping once, on every document, exactly if every target is left
      alone. */
  lemma StampingIsIdempotent(m: Mapping)
    requires DistinctKeys(m)
    ensures (forall n :: Stamped(m, Stamped(m, n)) == Stamped(m, n)) <==> Settled(m)
  {
    if Settled(m) {
      forall n
        ensures Stamped(m, Stamped(m, n)) == Stamped(m, n)
      {
        SettledTwice(m, n);
      }
    } else {
      var i :| 0 <= i < |m| && !LeftAlone(m, m[i].target);
      var v, t := m[i].key, m[i].target;
      LookupIs(m, v, i);
      FirstTargetFound(m, i);
      StampedOne(m, v);
      StampedOne(m, t);
      assert OneImage(Stamp(m, t)).children[0] != OneImage(t).children[0];
      assert Stamped(m, Stamped(m, OneImage(v))) != Stamped(m, OneImage(v));
    }
  }

  /** Two targets with one bare name: the second is rewritten to the first by the next run. */
  lemma SharedNameIsStampedTwice()
    ensures var m := [Entry("a", "x:1"), Entry("b", "r/x:2")];
            && Stamped(m, OneImage("b")) == OneImage("r/x:2")
            && Stamped(m, Stamped(m, OneImage("b"))) == OneImage("x:1")
            && OneImage("x:1") != OneImage("r/x:2")
  {
    var m := [Entry("a", "x:1"), Entry("b", "r/x:2")];
    RepoNameInverts("", "x", ":1", "");
    RepoNameInverts("r/", "x", ":2", "");
    assert "" + "x" + ":1" + "" == "x:1" && "r/" + "x" + ":2" + "" == "r/x:2";
    assert RepoName("x:1") == "x" == RepoName("r/x:2");
    assert m[1..] == [m[1]] && m[1..][1..] == [];
    assert Lookup(m, "b") == Lookup(m[1..], "b") == Some("r/x:2");
    assert Lookup(m, "r/x:2") == Lookup(m[1..], "r/x:2") == Lookup([], "r/x:2") == None;
    assert FirstTarget(m, "x") == Some("x:1");
    StampedOne(m, "b");
    StampedOne(m, "r/x:2");
    assert OneImage("x:1").children[0] != OneImage("r/x:2").children[0];
  }

  /** In particular if no target is a key and different targets have different names. */
  lemma SeparateTargetsSettle(m: Mapping)
    requires forall i | 0 <= i < |m| :: Lookup(m, m[i].target).None?
    requires forall i, j | 0 <= i < |m| && 0 <= j < |m| && RepoName(m[i].target) == RepoName(m[j].target) ::
               m[i].target == m[j].target
    ensures Settled(m)
  {
    forall i | 0 <= i < |m|
      ensures LeftAlone(m, m[i].target)
    {
      FirstTargetFound(m, i);
      FirstTargetNamed(m, RepoName(m[i].target));
    }
  }

  lemma {:induction false} FirstTargetNamed(m: Mapping, repo: string)
    requires FirstTarget(m, repo).Some?
    ensures exists i | 0 <= i < |m| :: m[i].target == FirstTarget(m, repo).value && RepoName(m[i].target) == repo
  {
    if RepoName(m[0].target) != repo {
      FirstTargetNamed(m[1..], repo);
      var i :| 0 <= i < |m[1..]| && m[1..][i].target == FirstTarget(m, repo).value
               && RepoName(m[1..][i].target) == repo;
      assert m[i + 1].target == FirstTarget(m, repo).value;
    }
  }

  // ---- bare names ----

  lemma {:induction false} AfterLastFree(s: string, c: char, x: char)
    ensures c !in AfterLast(s, c)
    ensures x !in s ==> x !in AfterLast(s, c)
  {
    if s != [] && s[|s| - 1] != c {
      AfterLastFree(s[..|s| - 1], c, x);
    }
  }

  lemma {:induction false} AfterLastAt(front: string, c: char, s: string)
    requires c !in s && (front == [] || front[|front| - 1] == c)
    ensures AfterLast(front + s, c) == s
  {
    if s != [] {
      var k := |s| - 1;
      AfterLastAt(front, c, s[..k]);
      assert (front + s)[..|front + s| - 1] == front + s[..k];
    } else {
      assert front + s == front;
    }
  }

  /** A bare name has no path in it. */
  lemma RepoNameIsBare(ref: string)
    ensures Bare(RepoName(ref))
  {
    var a := Before(ref, '@');
    var b := AfterLast(a, '/');
    BeforeFree(ref, '@', '@');
    AfterLastFree(a, '/', '@');
    BeforeFree(b, ':', '/');
    BeforeFree(b, ':', '@');
  }

  /** The name of a reference put together from its parts is the name put in. */
  lemma RepoNameInverts(path: string, name: string, tag: string, digest: string)
    requires Bare(name) && '@' !in path && (path == [] || path[|path| - 1] == '/')
    requires '@' !in tag && '/' !in tag && (tag == [] || tag[0] == ':')
    requires digest == [] || digest[0] == '@'
    ensures RepoName(path + name + tag + digest) == name
  {
    BeforeAt(path + name + tag, '@', digest);
    assert path + name + tag == path + (name + tag);
    AfterLastAt(path, '/', name + tag);
    BeforeAt(name, ':', tag);
  }
}
