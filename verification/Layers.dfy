/**
 Layer application (crates/snapshots/src/diff.rs), folded over an image's layers by
 `unpack_rootfs` (crates/cri/src/server.rs:482-497), against the rule of the "Whiteouts",
 "Opaque Whiteout" and "Applying Changesets" sections of the OCI image-spec's layer.md.
 */
module Layers {
  import opened Bytes
  import opened Digests

  /** The components `Path::components` yields. */
  datatype Component = Normal(name: string) | CurDir | ParentDir | RootDir

  type Path = seq<string>
  datatype Node = Dir | File(data: bytes)

  /** A file system below the target directory `[]`; no links, modes or owners. */
  type Tree = map<Path, Node>

  datatype Entry = Entry(path: seq<Component>, node: Node)

  function Get(t: Tree, q: Path): Option<Node> {
    if q in t then Some(t[q]) else None
  }

  /** What lies below a path that is there is there, in directories. */
  ghost predicate PrefixClosed(t: Tree) {
    forall q <- t, k | 0 <= k < |q| :: q[..k] in t && t[q[..k]] == Dir
  }

  // ---- classification ----

  const PREFIX := ".wh."
  const OPAQUE := ".wh..wh..opq"

  datatype Whiteout = NotWhiteout | Remove(rel: seq<Component>) | Opaque(rel: seq<Component>)

  /** `parent.join(name)` for a name without separators. */
  function Join(parent: seq<Component>, name: string): seq<Component> {
    if name == "" then parent
    else if name == "." then if parent == [] then [CurDir] else parent
    else if name == ".." then parent + [ParentDir]
    else parent + [Normal(name)]
  }

  function Classify(path: seq<Component>): Whiteout {
    if path == [] || !path[|path| - 1].Normal? then NotWhiteout
    else
      var parent, name := path[..|path| - 1], path[|path| - 1].name;
      if name == OPAQUE then Opaque(parent)
      else if PREFIX <= name then Remove(Join(parent, name[|PREFIX|..]))
      else NotWhiteout
  }

  function Names(path: seq<Component>): Path {
    if path == [] then []
    else (if path[0].Normal? then [path[0].name] else []) + Names(path[1..])
  }

  /** `safe_join`: only normal components and `.` may appear in a whiteout's path. */
  predicate Safe(rel: seq<Component>) {
    forall c <- rel :: c.Normal? || c.CurDir?
  }

  /** What one tar entry asks for. */
  datatype Effect =
    | Nothing
    | Write(path: Path, node: Node)
    | Erase(path: Path)
    | Clear(path: Path)
  {
    /** Writing a path also makes the directories above it. */
    predicate Touches(q: Path) { Write? && q <= path }

    predicate Hits(q: Path) { (Erase? && path <= q) || (Clear? && path < q) }

    function Value(q: Path): Node
      requires Touches(q)
    {
      if q == path then node else Dir
    }
  }

  /**
   An entry with `..` anywhere is skipped by the unpacker, root and `.` components are dropped,
   and the target itself is left alone; a whiteout that could escape the target is ignored.
   */
  function EffectOf(e: Entry): Effect {
    match Classify(e.path)
    case NotWhiteout =>
      if ParentDir in e.path || Names(e.path) == [] then Nothing else Write(Names(e.path), e.node)
    case Remove(rel) => if Safe(rel) then Erase(Names(rel)) else Nothing
    case Opaque(rel) => if Safe(rel) then Clear(Names(rel)) else Nothing
  }

  // ---- application ----

  function Prefixes(p: Path): set<Path> {
    set k | 0 <= k <= |p| :: p[..k]
  }

  /** The unpacker fails when the target is gone, a file stands above, or the kinds clash. */
  predicate Blocked(t: Tree, p: Path, n: Node) {
    || [] !in t
    || (exists k | 0 <= k < |p| :: p[..k] in t && t[p[..k]] != Dir)
    || (p in t && (n.Dir? != t[p].Dir?))
  }

  function Apply(t: Tree, e: Effect): Result<Tree> {
    match e
    case Nothing => Ok(t)
    case Write(p, n) =>
      if Blocked(t, p, n) then Err
      else Ok(map q | q in t.Keys + Prefixes(p) :: if q == p then n else if q in t then t[q] else Dir)
    case Erase(p) => Ok(map q | q in t && !(p <= q) :: t[q])
    case Clear(p) => if p in t && t[p].Dir? then Ok(map q | q in t && !(p < q) :: t[q]) else Ok(t)
  }

  function ApplyLayer(t: Tree, layer: seq<Entry>): Result<Tree> {
    if layer == [] then Ok(t)
    else
      match ApplyLayer(t, layer[..|layer| - 1])
      case Err => Err
      case Ok(t') => Apply(t', EffectOf(layer[|layer| - 1]))
  }

  function Unpack(t: Tree, layers: seq<seq<Entry>>): Result<Tree> {
    if layers == [] then Ok(t)
    else
      match Unpack(t, layers[..|layers| - 1])
      case Err => Err
      case Ok(t') => ApplyLayer(t', layers[|layers| - 1])
  }

  lemma ApplyKeepsPrefixClosed(t: Tree, e: Effect)
    requires PrefixClosed(t) && Apply(t, e).Ok?
    ensures PrefixClosed(Apply(t, e).value)
  {
    var t' := Apply(t, e).value;
    forall q <- t', k | 0 <= k < |q| ensures q[..k] in t' && t'[q[..k]] == Dir {
      if q in t {
        assert q[..k] in t && t[q[..k]] == Dir;
        assert e.Write? && q[..k] == e.path ==> e.path in t;
      } else {
        var i :| 0 <= i <= |e.path| && q == e.path[..i];
        assert q[..k] == e.path[..k];
      }
    }
  }

  /** Where a path stands after one effect. */
  lemma ApplyPointwise(t: Tree, e: Effect, q: Path)
    requires PrefixClosed(t) && Apply(t, e).Ok?
    ensures Get(Apply(t, e).value, q)
            == if e.Touches(q) then Some(e.Value(q)) else if e.Hits(q) then None else Get(t, q)
  {
    if e.Touches(q) {
      assert q == e.path[..|q|];
    } else if e.Write? && q in Prefixes(e.path) {
      assert false;
    }
    if e.Clear? && e.path < q && q in t {
      assert q[..|e.path|] == e.path;
    }
  }

  // ---- the OCI rule ----

  /** The layer's own content at `q`: what the last entry to touch it puts there. */
  function Upper(layer: seq<Entry>, q: Path): Option<Node> {
    if layer == [] then None
    else
      var e := EffectOf(layer[|layer| - 1]);
      if e.Touches(q) then Some(e.Value(q)) else Upper(layer[..|layer| - 1], q)
  }

  predicate WhitedOut(layer: seq<Entry>, q: Path) {
    exists e <- layer :: EffectOf(e).Hits(q)
  }

  /** Remove from the lower tree all that the layer's whiteouts name, then lay its own entries on top. */
  function Overlay(lower: Option<Node>, layer: seq<Entry>, q: Path): Option<Node> {
    match Upper(layer, q)
    case Some(n) => Some(n)
    case None => if WhitedOut(layer, q) then None else lower
  }

  function Merged(base: Tree, layers: seq<seq<Entry>>, q: Path): Option<Node> {
    if layers == [] then Get(base, q)
    else Overlay(Merged(base, layers[..|layers| - 1], q), layers[|layers| - 1], q)
  }

  /** `q` is written at `i`, hit by a whiteout of the same layer at `j`, and not written again. */
  ghost predicate LostBetween(layer: seq<Entry>, q: Path, i: nat, j: nat) {
    && i < j < |layer| && EffectOf(layer[i]).Touches(q) && EffectOf(layer[j]).Hits(q)
    && forall k | j < k < |layer| :: !EffectOf(layer[k]).Touches(q)
  }

  ghost predicate Lost(layer: seq<Entry>, q: Path) {
    exists i: nat, j: nat :: LostBetween(layer, q, i, j)
  }

  /** Nothing the layer carries is lost to a whiteout that comes after it. */
  ghost predicate EntriesSurvive(layer: seq<Entry>) {
    forall q :: !Lost(layer, q)
  }

  lemma {:induction false} UpperIsTouched(layer: seq<Entry>, q: Path)
    ensures Upper(layer, q).Some? <==> exists i | 0 <= i < |layer| :: EffectOf(layer[i]).Touches(q)
  {
    if layer != [] {
      var n := |layer| - 1;
      UpperIsTouched(layer[..n], q);
      assert forall i | 0 <= i < n :: layer[..n][i] == layer[i];
    }
  }

  /** A path lost in a layer is lost in it without its last entry, unless that entry does it. */
  lemma LostBefore(layer: seq<Entry>, q: Path, i: nat, j: nat)
    requires LostBetween(layer, q, i, j)
    ensures var n := |layer| - 1;
            && !EffectOf(layer[n]).Touches(q)
            && if j < n then LostBetween(layer[..n], q, i, j) else EffectOf(layer[n]).Hits(q)
    ensures Upper(layer[..|layer| - 1], q).Some?
  {
    var n := |layer| - 1;
    assert layer[..n][i] == layer[i];
    UpperIsTouched(layer[..n], q);
    hide EffectOf, Effect.Touches, Effect.Hits, Upper;
    assert forall k | 0 <= k < n :: layer[..n][k] == layer[k];
  }

  lemma LostAfter(layer: seq<Entry>, q: Path, i: nat, j: nat)
    requires layer != [] && LostBetween(layer[..|layer| - 1], q, i, j)
    requires !EffectOf(layer[|layer| - 1]).Touches(q)
    ensures LostBetween(layer, q, i, j)
  {
    hide EffectOf, Effect.Touches, Effect.Hits;
    var n := |layer| - 1;
    assert forall k | 0 <= k < n :: layer[..n][k] == layer[k];
  }

  /** One more entry at the end of a layer. */
  lemma LostStep(layer: seq<Entry>, q: Path)
    requires layer != []
    ensures var n := |layer| - 1;
            var e := EffectOf(layer[n]);
            Lost(layer, q) <==>
            !e.Touches(q) && if e.Hits(q) then Upper(layer[..n], q).Some? else Lost(layer[..n], q)
  {
    var n := |layer| - 1;
    var e, older := EffectOf(layer[n]), layer[..n];
    assert !(e.Touches(q) && e.Hits(q));
    hide EffectOf, Effect.Touches, Effect.Hits, Upper;
    if i: nat, j: nat :| LostBetween(layer, q, i, j) {
      LostBefore(layer, q, i, j);
      assert Lost(layer, q);
    }
    if e.Hits(q) && Upper(older, q).Some? {
      UpperIsTouched(older, q);
      var i: nat :| i < |older| && EffectOf(older[i]).Touches(q);
      assert LostBetween(layer, q, i, n);
    } else if !e.Touches(q) && !e.Hits(q) {
      if i: nat, j: nat :| LostBetween(older, q, i, j) {
        LostAfter(layer, q, i, j);
      }
    }
  }

  /** At every path the applier agrees with the rule, unless that path's own entry is lost. */
  lemma {:induction false} LayerPointwise(t: Tree, layer: seq<Entry>, q: Path)
    requires PrefixClosed(t) && ApplyLayer(t, layer).Ok?
    ensures PrefixClosed(ApplyLayer(t, layer).value)
    ensures var got := Get(ApplyLayer(t, layer).value, q);
            if Lost(layer, q) then got.None? && Overlay(Get(t, q), layer, q).Some?
            else got == Overlay(Get(t, q), layer, q)
  {
    if layer != [] {
      var n := |layer| - 1;
      var older, e := layer[..n], EffectOf(layer[n]);
      LayerPointwise(t, older, q);
      LostStep(layer, q);
      var mid := ApplyLayer(t, older).value;
      ApplyPointwise(mid, e, q);
      ApplyKeepsPrefixClosed(mid, e);
      assert WhitedOut(layer, q) <==> WhitedOut(older, q) || e.Hits(q) by {
        assert layer == older + [layer[n]];
      }
      UpperIsTouched(older, q);
    }
  }

  /**
   For every tree and every layer that unpacks without error, the applier's result is the OCI
   result if and only if no whiteout of the layer erases an earlier entry of the same layer
   that is not written again after it.
   */
  lemma LayerIsOciExactlyWhenEntriesSurvive(t: Tree, layer: seq<Entry>)
    requires PrefixClosed(t) && ApplyLayer(t, layer).Ok?
    ensures PrefixClosed(ApplyLayer(t, layer).value)
    ensures (forall q :: Get(ApplyLayer(t, layer).value, q) == Overlay(Get(t, q), layer, q))
            <==> EntriesSurvive(layer)
  {
    LayerPointwise(t, layer, []);
    forall q ensures Get(ApplyLayer(t, layer).value, q) == Overlay(Get(t, q), layer, q) <==> !Lost(layer, q) {
      LayerPointwise(t, layer, q);
    }
  }

  /** In particular when whiteouts come before the entries they would hit. */
  lemma WhiteoutsFirstSuffices(layer: seq<Entry>)
    requires forall i, j, q | 0 <= i < j < |layer| && EffectOf(layer[i]).Touches(q) :: !EffectOf(layer[j]).Hits(q)
    ensures EntriesSurvive(layer)
  {
  }

  // ---- what one entry does, by its name ----

  /** The components of a relative path of ordinary names. */
  function Plain(p: Path): (cs: seq<Component>)
    ensures |cs| == |p|
  {
    seq(|p|, i requires 0 <= i < |p| => Normal(p[i]))
  }

  lemma {:induction false} NamesAppend(a: seq<Component>, b: seq<Component>)
    ensures Names(a + b) == Names(a) + Names(b)
  {
    if a == [] {
      assert a + b == b;
    } else {
      var first: Path := if a[0].Normal? then [a[0].name] else [];
      NamesAppend(a[1..], b);
      assert (a + b)[0] == a[0] && (a + b)[1..] == a[1..] + b;
      assert first + (Names(a[1..]) + Names(b)) == first + Names(a[1..]) + Names(b);
    }
  }

  lemma {:induction false} NamesOfPlain(p: Path)
    ensures Names(Plain(p)) == p
  {
    if p != [] {
      NamesOfPlain(p[1..]);
      assert Plain(p)[1..] == Plain(p[1..]);
      assert p == [p[0]] + p[1..];
    }
  }

  /** Tar paths may start with `.`, or with `/`. */
  predicate Dotted(lead: seq<Component>) { lead == [] || lead == [CurDir] }

  lemma NamesAre(lead: seq<Component>, p: Path)
    requires Dotted(lead) || lead == [RootDir]
    ensures Names(lead + Plain(p)) == p && ParentDir !in lead + Plain(p)
    ensures Dotted(lead) ==> Safe(lead + Plain(p))
  {
    NamesAppend(lead, Plain(p));
    NamesOfPlain(p);
    assert Names(lead) == [] by {
      assert lead != [] ==> lead[1..] == [] && Names([]) == [];
    }
    assert [] + p == p;
  }

  lemma ClassifyLast(parent: seq<Component>, name: string)
    ensures Classify(parent + [Normal(name)])
            == if name == ".wh..wh..opq" then Opaque(parent)
               else if ".wh." <= name then Remove(Join(parent, name[4..]))
               else NotWhiteout
  {
    var path := parent + [Normal(name)];
    assert path[..|path| - 1] == parent;
  }

  lemma OneEntry(t: Tree, e: Entry)
    ensures ApplyLayer(t, [e]) == Apply(t, EffectOf(e))
  {
    hide Apply, EffectOf;
    assert [e][..0] == [];
    assert ApplyLayer(t, []) == Ok(t);
  }

  lemma OpaqueEffect(lead: seq<Component>, parent: Path, node: Node)
    requires Dotted(lead)
    ensures EffectOf(Entry(lead + Plain(parent) + [Normal(".wh..wh..opq")], node)) == Clear(parent)
  {
    hide Classify, Names, Safe, Join;
    ClassifyLast(lead + Plain(parent), ".wh..wh..opq");
    NamesAre(lead, parent);
  }

  /** What `.wh.<name>` beside the entries of `parent` erases. */
  function Victim(parent: Path, name: string): Path {
    if name == "" || name == "." then parent else parent + [name]
  }

  lemma JoinedNames(lead: seq<Component>, parent: Path, name: string)
    requires Dotted(lead) && name != ".."
    ensures var rel := Join(lead + Plain(parent), name); Names(rel) == Victim(parent, name) && Safe(rel)
  {
    NamesAre(lead, parent);
    NamesAre(lead, parent + [name]);
    hide Names, Safe;
    if name == "." && lead + Plain(parent) == [] {
      assert parent == [];
      NamesAre([CurDir], []);
      assert [CurDir] + Plain([]) == [CurDir];
    } else {
      assert lead + Plain(parent) + [Normal(name)] == lead + Plain(parent + [name]);
    }
  }

  lemma WhiteoutEffect(lead: seq<Component>, parent: Path, name: string, node: Node)
    requires Dotted(lead) && name != ".wh..opq"
    ensures EffectOf(Entry(lead + Plain(parent) + [Normal(".wh." + name)], node))
            == if name == ".." then Nothing else Erase(Victim(parent, name))
  {
    hide Names, Safe, Classify;
    var dir, marker := lead + Plain(parent), ".wh." + name;
    assert marker[4..] == name && ".wh." <= marker;
    assert ".wh..wh..opq"[4..] == ".wh..opq";
    ClassifyLast(dir, marker);
    if name == ".." {
      assert Join(dir, name) == dir + [ParentDir];
      NotSafe(dir + [ParentDir], ParentDir);
    } else {
      JoinedNames(lead, parent, name);
    }
  }

  lemma NotSafe(rel: seq<Component>, c: Component)
    requires c in rel && (c.ParentDir? || c.RootDir?)
    ensures !Safe(rel)
  {
  }

  lemma WriteEffect(lead: seq<Component>, path: Path, node: Node)
    requires Dotted(lead) || lead == [RootDir]
    requires path != [] && !(".wh." <= path[|path| - 1])
    ensures EffectOf(Entry(lead + Plain(path), node)) == Write(path, node)
  {
    hide Classify, Names, Safe, Join;
    var n := |path| - 1;
    assert lead + Plain(path) == lead + Plain(path[..n]) + [Normal(path[n])];
    ClassifyLast(lead + Plain(path[..n]), path[n]);
    assert ".wh." <= ".wh..wh..opq";
    NamesAre(lead, path);
  }

  /**
   The entry `parent/.wh..wh..opq`: everything strictly below `parent` goes, `parent` itself and
   everything else stays.
   */
  lemma OpaqueMarkerClears(t: Tree, lead: seq<Component>, parent: Path, node: Node)
    requires PrefixClosed(t) && Dotted(lead)
    ensures ApplyLayer(t, [Entry(lead + Plain(parent) + [Normal(".wh..wh..opq")], node)])
            == Ok(map q | q in t && !(parent < q) :: t[q])
  {
    var e := Entry(lead + Plain(parent) + [Normal(".wh..wh..opq")], node);
    OneEntry(t, e);
    OpaqueEffect(lead, parent, node);
    hide EffectOf;
    forall q <- t ensures parent < q ==> parent in t && t[parent] == Dir {
      if parent < q {
        assert q[..|parent|] == parent;
      }
    }
    assert !(parent in t && t[parent].Dir?) ==> t == map q | q in t && !(parent < q) :: t[q];
  }

  /**
   The entry `parent/.wh.<name>`: `parent/<name>` and everything below it goes, everything else
   stays.  With the names `""` and `.` that is `parent` itself; with `..` nothing happens.
   */
  lemma WhiteoutMarkerErases(t: Tree, lead: seq<Component>, parent: Path, name: string, node: Node)
    requires Dotted(lead) && name != ".wh..opq"
    ensures var gone := if name == "" || name == "." then parent else parent + [name];
            ApplyLayer(t, [Entry(lead + Plain(parent) + [Normal(".wh." + name)], node)])
            == Ok(if name == ".." then t else map q | q in t && !(gone <= q) :: t[q])
  {
    OneEntry(t, Entry(lead + Plain(parent) + [Normal(".wh." + name)], node));
    WhiteoutEffect(lead, parent, name, node);
    hide EffectOf;
  }

  /**
   An entry with any other last name: it is refused exactly when the target is gone, a file
   stands above it, or it would replace a directory by a file or the reverse; otherwise it is
   written, the directories above it are made, and nothing else changes.
   */
  lemma OtherEntryIsWritten(t: Tree, lead: seq<Component>, path: Path, node: Node)
    requires Dotted(lead) || lead == [RootDir]
    requires path != [] && !(".wh." <= path[|path| - 1])
    ensures var r := ApplyLayer(t, [Entry(lead + Plain(path), node)]);
            && (r.Err? <==>
                  || [] !in t || (path in t && t[path].Dir? != node.Dir?)
                  || exists k | 0 <= k < |path| :: path[..k] in t && t[path[..k]].File?)
            && (r.Ok? ==>
                  forall q :: Get(r.value, q)
                              == if q == path then Some(node) else if q < path && q !in t then Some(Dir) else Get(t, q))
  {
    OneEntry(t, Entry(lead + Plain(path), node));
    WriteEffect(lead, path, node);
    hide EffectOf;
    forall q ensures q in Prefixes(path) <==> q <= path {
      if q <= path {
        assert q == path[..|q|];
      }
    }
    hide Prefixes;
  }

  /** A path with `..` anywhere, a rooted whiteout, and the target itself change nothing. */
  lemma EscapesAreIgnored(t: Tree, e: Entry)
    requires || ParentDir in e.path || e.path == [] || e.path == [CurDir] || e.path == [RootDir]
             || (RootDir in e.path && e.path[|e.path| - 1].Normal? && ".wh." <= e.path[|e.path| - 1].name)
    ensures ApplyLayer(t, [e]) == Ok(t)
  {
    OneEntry(t, e);
    NothingToDo(e);
    hide EffectOf;
  }

  lemma NothingToDo(e: Entry)
    requires || ParentDir in e.path || e.path == [] || e.path == [CurDir] || e.path == [RootDir]
             || (RootDir in e.path && e.path[|e.path| - 1].Normal? && ".wh." <= e.path[|e.path| - 1].name)
    ensures EffectOf(e) == Nothing
  {
    hide Safe;
    if e.path != [] && e.path[|e.path| - 1].Normal? {
      var n := |e.path| - 1;
      var parent, name := e.path[..n], e.path[n].name;
      assert e.path == parent + [Normal(name)];
      ClassifyLast(parent, name);
      var c := if ParentDir in e.path then ParentDir else RootDir;
      assert c in parent;
      NotSafe(parent, c);
      hide Classify;
      if ".wh." <= name && name != ".wh..wh..opq" {
        var rel := Join(parent, name[4..]);
        assert c in rel;
        NotSafe(rel, c);
      }
    } else if |e.path| == 1 {
      assert e.path[1..] == [] && Names([]) == [];
    }
  }

  /** A plain name, as the witnesses below use it. */
  predicate Ordinary(name: string) { name != "" && name[0] != '.' }

  lemma OrdinaryEffect(name: string, node: Node)
    requires Ordinary(name)
    ensures EffectOf(Entry([Normal(name)], node)) == Write([name], node)
  {
    hide EffectOf;
    WriteEffect([], [name], node);
    assert [] + Plain([name]) == [Normal(name)];
  }

  lemma RemoveEffect(name: string, node: Node)
    requires Ordinary(name)
    ensures EffectOf(Entry([Normal(PREFIX + name)], node)) == Erase([name])
  {
    hide EffectOf;
    WhiteoutEffect([], [], name, node);
    assert [] + Plain([]) + [Normal(".wh." + name)] == [Normal(PREFIX + name)];
    assert [] + [name] == [name];
  }

  /** The order matters: a file followed by its own whiteout is gone, while the rule keeps it. */
  lemma WhiteoutAfterEntryLosesIt(name: string, data: bytes, marker: Node)
    requires Ordinary(name)
    ensures var layer := [Entry([Normal(name)], File(data)), Entry([Normal(PREFIX + name)], marker)];
            var t := map[[] := Dir];
            && ApplyLayer(t, layer) == Ok(t)
            && Overlay(Get(t, [name]), layer, [name]) == Some(File(data))
  {
    hide EffectOf;
    OrdinaryEffect(name, File(data));
    RemoveEffect(name, marker);
    var a, wh := Entry([Normal(name)], File(data)), Entry([Normal(PREFIX + name)], marker);
    var layer, t: Tree := [a, wh], map[[] := Dir];
    var mid: Tree := map[[] := Dir, [name] := File(data)];
    assert layer[..1] == [a] && [a][..0] == [];
    WriteOne(name, File(data));
    assert ApplyLayer(t, []) == Ok(t) && ApplyLayer(t, [a]) == Ok(mid);
    assert Apply(mid, EffectOf(wh)).value == t;
    assert Upper([a], [name]) == Some(File(data));
  }

  lemma WriteOne(name: string, node: Node)
    ensures Apply(map[[] := Dir], Write([name], node)) == Ok(map[[] := Dir, [name] := node])
  {
    var t: Tree := map[[] := Dir];
    assert Prefixes([name]) == {[], [name]} by {
      assert [name][..0] == [] && [name][..1] == [name];
    }
    assert !Blocked(t, [name], node);
    assert Apply(t, Write([name], node)).value == map[[] := Dir, [name] := node];
  }

  predicate Mentions(layer: seq<Entry>, q: Path) {
    exists e <- layer :: EffectOf(e).Touches(q) || EffectOf(e).Hits(q)
  }

  ghost predicate LostFrom(layers: seq<seq<Entry>>, q: Path, i: nat) {
    i < |layers| && Lost(layers[i], q) && forall j | i < j < |layers| :: !Mentions(layers[j], q)
  }

  /** The last layer to mention `q` is one that loses it. */
  ghost predicate LostInTheEnd(layers: seq<seq<Entry>>, q: Path) {
    exists i: nat :: LostFrom(layers, q, i)
  }

  lemma LostIsMentioned(layer: seq<Entry>, q: Path)
    ensures Lost(layer, q) ==> Mentions(layer, q)
    ensures Mentions(layer, q) <==> Upper(layer, q).Some? || WhitedOut(layer, q)
  {
    UpperIsTouched(layer, q);
    hide EffectOf, Effect.Touches, Effect.Hits, Upper;
    if i: nat, j: nat :| LostBetween(layer, q, i, j) {
      assert layer[i] in layer;
    }
  }

  lemma {:induction false} LostFromStep(layers: seq<seq<Entry>>, q: Path, i: nat)
    requires i + 1 < |layers|
    ensures var n := |layers| - 1; LostFrom(layers, q, i) <==> LostFrom(layers[..n], q, i) && !Mentions(layers[n], q)
  {
    hide Lost, Mentions;
    var n := |layers| - 1;
    assert forall j | 0 <= j < n :: layers[..n][j] == layers[j];
  }

  lemma {:induction false} LostInTheEndStep(layers: seq<seq<Entry>>, q: Path)
    requires layers != []
    ensures var n := |layers| - 1;
            LostInTheEnd(layers, q) <==>
            if Mentions(layers[n], q) then Lost(layers[n], q) else LostInTheEnd(layers[..n], q)
  {
    hide Lost, Mentions, Upper, WhitedOut;
    var n := |layers| - 1;
    LostIsMentioned(layers[n], q);
    assert LostFrom(layers, q, n) <==> Lost(layers[n], q);
    assert forall i: nat | LostFrom(layers, q, i) :: i <= n;
    assert forall i: nat | LostFrom(layers[..n], q, i) :: i < n;
    forall i: nat | i < n
      ensures LostFrom(layers, q, i) <==> LostFrom(layers[..n], q, i) && !Mentions(layers[n], q)
    {
      LostFromStep(layers, q, i);
    }
    hide LostFrom;
  }

  /** At every path the fold agrees with the merge, unless that path is lost in the end. */
  lemma {:induction false} UnpackPointwise(base: Tree, layers: seq<seq<Entry>>, q: Path)
    requires PrefixClosed(base) && Unpack(base, layers).Ok?
    ensures PrefixClosed(Unpack(base, layers).value)
    ensures var got := Get(Unpack(base, layers).value, q);
            if LostInTheEnd(layers, q) then got.None? && Merged(base, layers, q).Some?
            else got == Merged(base, layers, q)
  {
    if layers != [] {
      var n := |layers| - 1;
      UnpackPointwise(base, layers[..n], q);
      LayerPointwise(Unpack(base, layers[..n]).value, layers[n], q);
      LostInTheEndStep(layers, q);
      LostIsMentioned(layers[n], q);
      hide Lost, LostInTheEnd, Mentions, ApplyLayer, Upper, WhitedOut, PrefixClosed;
    }
  }

  /**
   Folding the applier over an image's layers gives the OCI merge of them all if and only if no
   path is lost by the last layer that mentions it.
   */
  lemma UnpackIsOciExactlyWhenNothingIsLost(base: Tree, layers: seq<seq<Entry>>)
    requires PrefixClosed(base) && Unpack(base, layers).Ok?
    ensures PrefixClosed(Unpack(base, layers).value)
    ensures (forall q :: Get(Unpack(base, layers).value, q) == Merged(base, layers, q))
            <==> forall q :: !LostInTheEnd(layers, q)
  {
    UnpackPointwise(base, layers, []);
    forall q ensures Get(Unpack(base, layers).value, q) == Merged(base, layers, q) <==> !LostInTheEnd(layers, q) {
      UnpackPointwise(base, layers, q);
    }
  }

  /** In particular when every layer keeps its own entries. */
  lemma UnpackIsOci(base: Tree, layers: seq<seq<Entry>>)
    requires PrefixClosed(base) && Unpack(base, layers).Ok?
    requires forall layer <- layers :: EntriesSurvive(layer)
    ensures forall q :: Get(Unpack(base, layers).value, q) == Merged(base, layers, q)
  {
    UnpackIsOciExactlyWhenNothingIsLost(base, layers);
    forall q ensures !LostInTheEnd(layers, q) {
      forall i | 0 <= i < |layers| ensures !Lost(layers[i], q) {
        assert layers[i] in layers;
      }
    }
  }

  // ---- when a layer unpacks at all ----

  /** What stands at `q` after `layer` when `below` stood there: the last entry to mention `q` decides. */
  function Standing(below: Option<Node>, layer: seq<Entry>, q: Path): Option<Node> {
    if layer == [] then below
    else
      var e := EffectOf(layer[|layer| - 1]);
      if e.Touches(q) then Some(e.Value(q))
      else if e.Hits(q) then None
      else Standing(below, layer[..|layer| - 1], q)
  }

  lemma {:induction false} StandingIs(t: Tree, layer: seq<Entry>, q: Path)
    requires PrefixClosed(t) && ApplyLayer(t, layer).Ok?
    ensures PrefixClosed(ApplyLayer(t, layer).value)
    ensures Get(ApplyLayer(t, layer).value, q) == Standing(Get(t, q), layer, q)
  {
    if layer != [] {
      var n := |layer| - 1;
      hide EffectOf, Effect.Touches, Effect.Hits, Apply, PrefixClosed;
      StandingIs(t, layer[..n], q);
      var mid := ApplyLayer(t, layer[..n]).value;
      ApplyPointwise(mid, EffectOf(layer[n]), q);
      ApplyKeepsPrefixClosed(mid, EffectOf(layer[n]));
    }
  }

  /**
   Entry `i` writes where the target is gone, below something that is a file by then, or a
   directory over a file or a file over a directory.
   */
  predicate Clashes(t: Tree, layer: seq<Entry>, i: nat)
    requires i < |layer|
  {
    var e, older := EffectOf(layer[i]), layer[..i];
    && e.Write?
    && (|| Standing(Get(t, []), older, []).None?
        || (exists k | 0 <= k < |e.path| :: StandsAsFile(t, older, e.path[..k]))
        || (Standing(Get(t, e.path), older, e.path).Some?
            && Standing(Get(t, e.path), older, e.path).value.Dir? != e.node.Dir?))
  }

  predicate StandsAsFile(t: Tree, older: seq<Entry>, q: Path) {
    Standing(Get(t, q), older, q).Some? && Standing(Get(t, q), older, q).value.File?
  }

  lemma BlockedIsClash(t: Tree, layer: seq<Entry>, i: nat)
    requires PrefixClosed(t) && i < |layer| && ApplyLayer(t, layer[..i]).Ok?
    ensures Apply(ApplyLayer(t, layer[..i]).value, EffectOf(layer[i])).Err? <==> Clashes(t, layer, i)
  {
    hide EffectOf, Standing, ApplyLayer, PrefixClosed;
    var mid, e := ApplyLayer(t, layer[..i]).value, EffectOf(layer[i]);
    forall q ensures Get(mid, q) == Standing(Get(t, q), layer[..i], q) {
      StandingIs(t, layer[..i], q);
    }
    if e.Write? {
      forall k | 0 <= k < |e.path|
        ensures (e.path[..k] in mid && mid[e.path[..k]] != Dir) <==> StandsAsFile(t, layer[..i], e.path[..k])
      {
        assert Get(mid, e.path[..k]) == Standing(Get(t, e.path[..k]), layer[..i], e.path[..k]);
      }
      assert Get(mid, e.path) == Standing(Get(t, e.path), layer[..i], e.path);
      assert Get(mid, []) == Standing(Get(t, []), layer[..i], []);
    }
  }

  /** A layer unpacks without error if and only if none of its entries clashes with what stands by then. */
  lemma {:induction false} LayerUnpacksExactlyWithoutClashes(t: Tree, layer: seq<Entry>)
    requires PrefixClosed(t)
    ensures ApplyLayer(t, layer).Ok? <==> forall i | 0 <= i < |layer| :: !Clashes(t, layer, i)
  {
    if layer != [] {
      var n := |layer| - 1;
      hide EffectOf, Standing, Apply, PrefixClosed, Clashes;
      LayerUnpacksExactlyWithoutClashes(t, layer[..n]);
      FewerClashes(t, layer, n);
      if ApplyLayer(t, layer[..n]).Ok? {
        BlockedIsClash(t, layer, n);
      }
    }
  }

  lemma FewerClashes(t: Tree, layer: seq<Entry>, n: nat)
    requires n < |layer|
    ensures (forall i | 0 <= i < n :: !Clashes(t, layer[..n], i)) <==> (forall i | 0 <= i < n :: !Clashes(t, layer, i))
  {
    hide Clashes;
    forall i | 0 <= i < n ensures Clashes(t, layer[..n], i) <==> Clashes(t, layer, i) {
      ClashesBefore(t, layer, n, i);
    }
  }

  lemma ClashesBefore(t: Tree, layer: seq<Entry>, n: nat, i: nat)
    requires i < n <= |layer|
    ensures Clashes(t, layer[..n], i) <==> Clashes(t, layer, i)
  {
    hide EffectOf, Standing, StandsAsFile;
    assert layer[..n][..i] == layer[..i] && layer[..n][i] == layer[i];
  }

  /** All entries of a stack of layers, in order. */
  function Entries(layers: seq<seq<Entry>>): seq<Entry> {
    if layers == [] then [] else Entries(layers[..|layers| - 1]) + layers[|layers| - 1]
  }

  lemma {:induction false} ApplyLayerAppend(t: Tree, a: seq<Entry>, b: seq<Entry>)
    ensures ApplyLayer(t, a + b) == if ApplyLayer(t, a).Ok? then ApplyLayer(ApplyLayer(t, a).value, b) else Err
  {
    hide Apply, EffectOf;
    if b == [] {
      assert a + b == a;
    } else {
      var n := |b| - 1;
      ApplyLayerAppend(t, a, b[..n]);
      assert (a + b)[..|a + b| - 1] == a + b[..n];
    }
  }

  lemma {:induction false} UnpackIsOneLayer(t: Tree, layers: seq<seq<Entry>>)
    ensures Unpack(t, layers) == ApplyLayer(t, Entries(layers))
  {
    if layers != [] {
      var n := |layers| - 1;
      hide ApplyLayer;
      UnpackIsOneLayer(t, layers[..n]);
      ApplyLayerAppend(t, Entries(layers[..n]), layers[n]);
    } else {
      assert ApplyLayer(t, []) == Ok(t);
    }
  }

  /** So does a stack, over all entries of all its layers. */
  lemma StackUnpacksExactlyWithoutClashes(t: Tree, layers: seq<seq<Entry>>)
    requires PrefixClosed(t)
    ensures Unpack(t, layers).Ok? <==> forall i | 0 <= i < |Entries(layers)| :: !Clashes(t, Entries(layers), i)
  {
    hide Clashes, ApplyLayer, PrefixClosed;
    UnpackIsOneLayer(t, layers);
    LayerUnpacksExactlyWithoutClashes(t, Entries(layers));
  }

  /** Where the rule replaces a directory by a file, the unpacker fails. */
  lemma FileOverDirectoryFails(name: string, data: bytes)
    requires Ordinary(name)
    ensures var layer := [Entry([Normal(name)], File(data))];
            var t := map[[] := Dir, [name] := Dir];
            ApplyLayer(t, layer).Err? && Overlay(Get(t, [name]), layer, [name]) == Some(File(data))
  {
    hide EffectOf;
    OrdinaryEffect(name, File(data));
    var layer, t: Tree := [Entry([Normal(name)], File(data))], map[[] := Dir, [name] := Dir];
    assert layer[..0] == [] && Blocked(t, [name], File(data));
  }

  // ---- from digests to layers ----

  /** What reading a layer blob yields: the entries up to its end, or up to where it is broken. */
  datatype Archive = Archive(entries: seq<Entry>, whole: bool)

  function ApplyArchive(t: Tree, a: Archive): Result<Tree> {
    if a.whole then ApplyLayer(t, a.entries) else Err
  }

  predicate Readable(name: string, blobs: map<Digest, bytes>) {
    Parse(name).Parsed? && Parse(name).digest in blobs
  }

  function Read(name: string, blobs: map<Digest, bytes>, open: bytes -> Archive): Archive {
    if Readable(name, blobs) then open(blobs[Parse(name).digest]) else Archive([], false)
  }

  /** `unpack_rootfs`, which looks each layer digest up in the content store. */
  function UnpackBlobs(t: Tree, names: seq<string>, blobs: map<Digest, bytes>, open: bytes -> Archive): Result<Tree> {
    if names == [] then Ok(t)
    else
      var n := |names| - 1;
      match UnpackBlobs(t, names[..n], blobs, open)
      case Err => Err
      case Ok(t') => ApplyArchive(t', Read(names[n], blobs, open))
  }

  function Contents(names: seq<string>, blobs: map<Digest, bytes>, open: bytes -> Archive): (layers: seq<seq<Entry>>)
    ensures |layers| == |names|
  {
    seq(|names|, i requires 0 <= i < |names| => Read(names[i], blobs, open).entries)
  }

  ghost predicate AllWhole(names: seq<string>, blobs: map<Digest, bytes>, open: bytes -> Archive) {
    forall i | 0 <= i < |names| :: Read(names[i], blobs, open).whole
  }

  /** A rootfs is unpacked if and only if every layer can be read to its end and the layers unpack. */
  lemma {:induction false} UnpackBlobsIsUnpack(t: Tree, names: seq<string>, blobs: map<Digest, bytes>, open: bytes -> Archive)
    ensures UnpackBlobs(t, names, blobs, open).Ok? ==> AllWhole(names, blobs, open)
    ensures AllWhole(names, blobs, open) ==>
              UnpackBlobs(t, names, blobs, open) == Unpack(t, Contents(names, blobs, open))
  {
    if names != [] {
      var n := |names| - 1;
      hide Read, ApplyLayer, AllWhole, Contents;
      UnpackBlobsIsUnpack(t, names[..n], blobs, open);
      ContentsStep(names, blobs, open);
    }
  }

  lemma {:induction false} ContentsStep(names: seq<string>, blobs: map<Digest, bytes>, open: bytes -> Archive)
    requires names != []
    ensures var n, older := |names| - 1, names[..|names| - 1];
            && Contents(names, blobs, open)[..n] == Contents(older, blobs, open)
            && Contents(names, blobs, open)[n] == Read(names[n], blobs, open).entries
            && (AllWhole(names, blobs, open) <==> AllWhole(older, blobs, open) && Read(names[n], blobs, open).whole)
  {
    hide Read;
    var n := |names| - 1;
    assert forall i | 0 <= i < n :: names[..n][i] == names[i];
  }

  // ---- the applier in place ----

  ghost function Without(t: Tree, cs: set<Path>): Tree {
    map q | q in t && !(exists c <- cs :: c <= q) :: t[q]
  }

  /** Everything below a directory is below one of its children. */
  lemma ChildrenCover(t: Tree, p: Path, children: set<Path>)
    requires PrefixClosed(t) && children == set q | q in t && |q| == |p| + 1 && p < q
    ensures Without(t, children) == map q | q in t && !(p < q) :: t[q]
  {
    forall q <- t ensures p < q <==> exists c <- children :: c <= q {
      if p < q {
        var c := q[..|p| + 1];
        assert |c| < |q| ==> c in t;
        assert |c| == |q| ==> c == q;
        assert p < c && c <= q && c in children;
      }
    }
  }

  class Rootfs {
    var tree: Tree

    constructor ()
      ensures tree == map[[] := Dir] && PrefixClosed(tree)
    {
      tree := map[[] := Dir];
    }

    /** `remove_path`: a file, or a directory with everything in it. */
    method RemovePath(p: Path)
      modifies this
      ensures tree == map q | q in old(tree) && !(p <= q) :: old(tree)[q]
    {
      tree := map q | q in tree && !(p <= q) :: tree[q];
    }

    /** The loop over `read_dir` for an opaque marker. */
    method ClearChildren(p: Path)
      requires PrefixClosed(tree)
      modifies this
      ensures tree == map q | q in old(tree) && !(p < q) :: old(tree)[q]
    {
      var children := set q | q in tree && |q| == |p| + 1 && p < q;
      var todo := children;
      while todo != {}
        invariant todo <= children && tree == Without(old(tree), children - todo)
      {
        var c :| c in todo;
        assert children - (todo - {c}) == (children - todo) + {c};
        RemovePath(c);
        todo := todo - {c};
      }
      assert children - todo == children;
      ChildrenCover(old(tree), p, children);
    }

    /** `apply_layer`: stops at the first error, leaving the entries before it applied. */
    method ApplyLayerInPlace(layer: seq<Entry>) returns (ok: bool)
      requires PrefixClosed(tree)
      modifies this
      ensures PrefixClosed(tree)
      ensures ok == ApplyLayer(old(tree), layer).Ok?
      ensures ok ==> tree == ApplyLayer(old(tree), layer).value
    {
      for i := 0 to |layer|
        invariant PrefixClosed(tree) && ApplyLayer(old(tree), layer[..i]) == Ok(tree)
      {
        assert layer[..i + 1][..i] == layer[..i];
        var e := EffectOf(layer[i]);
        ghost var was := tree;
        match e {
          case Nothing =>
          case Write(p, n) =>
            if Blocked(tree, p, n) {
              ErrorStays(old(tree), layer, i + 1);
              return false;
            }
            tree := map q | q in tree.Keys + Prefixes(p) :: if q == p then n else if q in tree then tree[q] else Dir;
          case Erase(p) => RemovePath(p);
          case Clear(p) =>
            if p in tree && tree[p].Dir? {
              ClearChildren(p);
            }
        }
        ApplyKeepsPrefixClosed(was, e);
      }
      assert layer[..|layer|] == layer;
      ok := true;
    }

    /** `unpack_rootfs`: a bad digest, a missing blob and a failing layer each stop it. */
    method UnpackRootfs(names: seq<string>, blobs: map<Digest, bytes>, open: bytes -> Archive) returns (ok: bool)
      requires PrefixClosed(tree)
      modifies this
      ensures PrefixClosed(tree)
      ensures ok == UnpackBlobs(old(tree), names, blobs, open).Ok?
      ensures ok ==> UnpackBlobs(old(tree), names, blobs, open) == Ok(tree)
    {
      hide ApplyLayer, Parse, PrefixClosed;
      for i := 0 to |names|
        invariant PrefixClosed(tree) && UnpackBlobs(old(tree), names[..i], blobs, open) == Ok(tree)
      {
        assert names[..i + 1][..i] == names[..i];
        var digest := Parse(names[i]);
        if !digest.Parsed? || digest.digest !in blobs {
          UnpackErrorStays(old(tree), names, blobs, open, i + 1);
          return false;
        }
        var archive := open(blobs[digest.digest]);
        ok := ApplyLayerInPlace(archive.entries);
        if !ok || !archive.whole {
          UnpackErrorStays(old(tree), names, blobs, open, i + 1);
          return false;
        }
      }
      assert names[..|names|] == names;
      ok := true;
    }
  }

  lemma {:induction false} ErrorStays(t: Tree, layer: seq<Entry>, k: nat)
    requires k <= |layer| && ApplyLayer(t, layer[..k]).Err?
    ensures ApplyLayer(t, layer).Err?
    decreases |layer|
  {
    if k < |layer| {
      assert layer[..|layer| - 1][..k] == layer[..k];
      ErrorStays(t, layer[..|layer| - 1], k);
    } else {
      assert layer[..k] == layer;
    }
  }

  lemma {:induction false} UnpackErrorStays(
    t: Tree, names: seq<string>, blobs: map<Digest, bytes>, open: bytes -> Archive, k: nat)
    requires k <= |names| && UnpackBlobs(t, names[..k], blobs, open).Err?
    ensures UnpackBlobs(t, names, blobs, open).Err?
    decreases |names|
  {
    if k < |names| {
      hide ApplyArchive, Read;
      assert names[..|names| - 1][..k] == names[..k];
      UnpackErrorStays(t, names[..|names| - 1], blobs, open, k);
    } else {
      assert names[..k] == names;
    }
  }
}
