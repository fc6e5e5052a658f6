/**
  Adding a tree to a replica: the files found at the source are put one by one, each
  directory before what is in it. Together they make the graft that applying the change means.
 */
module ReplAdd {
  import opened Paths
  import opened ReplDiff

  /** A file found at the source, with its data. */
  datatype Item = Item(path: Path, d: Attrs, data: seq<int>)

  /** Put a file: it fails, and does nothing, if its directory is not there, or if something of another kind is. */
  function PutItem(t: Option<Tree>, path: Path, d: Attrs, data: seq<int>): Option<Tree>
    decreases |path|
  {
    if path == [] then
      if t.None? then Some(Tree(d, data, map[]))
      else if IsDir(t.value.d) != IsDir(d) then t
      else Some(Tree(d, data, if IsDir(d) then t.value.kids else map[]))
    else if t.None? || !IsDir(t.value.d) then t
    else Some(WithKid(t.value, path[0], PutItem(Kid(t, path[0]), path[1..], d, data)))
  }

  function PutAll(t: Option<Tree>, ms: seq<Item>): Option<Tree>
    decreases |ms|
  {
    if ms == [] then t else PutAll(PutItem(t, ms[0].path, ms[0].d, ms[0].data), ms[1..])
  }

  function Below(name: string, ms: seq<Item>): seq<Item>
  {
    if ms == [] then [] else [ms[0].(path := [name] + ms[0].path)] + Below(name, ms[1..])
  }

  /** What is found at s, that f describes: directories before what they have. */
  function Items(f: File, s: Tree): seq<Item>
    decreases f, 1
  {
    [Item([], s.d, s.data)] + if IsDir(s.d) then ItemsOf(f.child, s) else []
  }

  function ItemsOf(cs: seq<File>, s: Tree): seq<Item>
    decreases cs, 0
  {
    if cs == [] then []
    else
      var name := cs[0].d.name;
      Below(name, if name in s.kids then Items(cs[0], s.kids[name]) else []) + ItemsOf(cs[1..], s)
  }

  /** Only directories have files in them. */
  predicate WellMade(t: Tree)
  {
    if IsDir(t.d) then forall k | k in t.kids :: WellMade(t.kids[k]) else t.kids == map[]
  }

  lemma {:induction false} PutAllAppend(t: Option<Tree>, a: seq<Item>, b: seq<Item>)
    ensures PutAll(t, a + b) == PutAll(PutAll(t, a), b)
    decreases |a|
  {
    if a == [] {
      assert a + b == b;
    } else {
      assert (a + b)[0] == a[0] && (a + b)[1..] == a[1..] + b;
      PutAllAppend(PutItem(t, a[0].path, a[0].d, a[0].data), a[1..], b);
    }
  }

  /** Puts below a name are puts to the child with that name, and to nothing else. */
  lemma {:induction false} PutBelow(t: Tree, name: string, ms: seq<Item>)
    requires IsDir(t.d)
    ensures PutAll(Some(t), Below(name, ms)) == Some(WithKid(t, name, PutAll(Kid(Some(t), name), ms)))
    decreases |ms|
  {
    WithKidIs(t, name, None);
    if ms != [] {
      var m, k := ms[0], Kid(Some(t), name);
      var k' := PutItem(k, m.path, m.d, m.data);
      assert ([name] + m.path)[1..] == m.path;
      WithKidIs(t, name, k');
      PutBelow(WithKid(t, name, k'), name, ms[1..]);
      assert Below(name, ms)[1..] == Below(name, ms[1..]);
    }
  }

  lemma {:induction false} PutNowhere(t: Option<Tree>, name: string, ms: seq<Item>)
    requires t.None? || !IsDir(t.value.d)
    ensures PutAll(t, Below(name, ms)) == t
    decreases |ms|
  {
    if ms != [] {
      assert Below(name, ms)[1..] == Below(name, ms[1..]);
      PutNowhere(t, name, ms[1..]);
    }
  }

  lemma {:induction false} ItemsNowhere(cs: seq<File>, s: Tree, t: Option<Tree>)
    requires t.None? || !IsDir(t.value.d)
    ensures PutAll(t, ItemsOf(cs, s)) == t
    decreases cs
  {
    if cs != [] {
      var name := cs[0].d.name;
      var ms := if name in s.kids then Items(cs[0], s.kids[name]) else [];
      PutNowhere(t, name, ms);
      ItemsNowhere(cs[1..], s, t);
      PutAllAppend(t, Below(name, ms), ItemsOf(cs[1..], s));
    }
  }

  /** What a child is when all of s has been put. */
  function Grafted(t: Option<Tree>, s: Tree, name: string): Option<Tree>
  {
    if name in s.kids then Some(Graft(Kid(t, name), s.kids[name])) else Kid(t, name)
  }

  lemma {:induction false} ItemsGraft(cs: seq<File>, s: Tree, t: Tree) returns (r: Tree)
    requires IsDir(s.d) && IsDir(t.d) && WellMade(s) && Distinct(cs)
    requires forall c | c in cs :: Holds(c, Kid(Some(s), c.d.name))
    ensures PutAll(Some(t), ItemsOf(cs, s)) == Some(r) && r.d == t.d && r.data == t.data
    ensures forall c | c in cs :: Kid(Some(r), c.d.name) == Grafted(Some(t), s, c.d.name)
    ensures forall n | (forall c | c in cs :: c.d.name != n) :: Kid(Some(r), n) == Kid(Some(t), n)
    decreases cs, 0
  {
    if cs == [] {
      r := t;
    } else {
      var c, rest := cs[0], cs[1..];
      var name := c.d.name;
      assert c in cs && forall x | x in rest :: x in cs && x.d.name != name;
      var ms := if name in s.kids then Items(c, s.kids[name]) else [];
      if name in s.kids {
        ItemsAreGraft(c, s.kids[name], Kid(Some(t), name));
      }
      PutBelow(t, name, ms);
      var k := PutAll(Kid(Some(t), name), ms);
      assert k == Grafted(Some(t), s, name);
      WithKidIs(t, name, k);
      r := ItemsGraft(rest, s, WithKid(t, name, k));
      PutAllAppend(Some(t), Below(name, ms), ItemsOf(rest, s));
      forall x | x in cs ensures Kid(Some(r), x.d.name) == Grafted(Some(t), s, x.d.name) {
        if x != c { assert x in rest; }
      }
    }
  }

  /** Putting what is found at s, one file after another, grafts s. */
  lemma {:induction false} ItemsAreGraft(f: File, s: Tree, t: Option<Tree>)
    requires Holds(f, Some(s)) && WellMade(s)
    ensures PutAll(t, Items(f, s)) == Some(Graft(t, s))
    decreases f, 1
  {
    var first := Item([], s.d, s.data);
    var t1 := PutItem(t, [], s.d, s.data);
    var rest := if IsDir(s.d) then ItemsOf(f.child, s) else [];
    assert Items(f, s)[1..] == rest;
    if t.Some? && IsDir(t.value.d) != IsDir(s.d) {
      if IsDir(s.d) { ItemsNowhere(f.child, s, t); }
    } else if IsDir(s.d) {
      var r := ItemsGraft(f.child, s, t1.value);
      GraftedAll(f, s, t, t1.value, r);
    }
  }

  lemma {:induction false} GraftedAll(f: File, s: Tree, t: Option<Tree>, t1: Tree, r: Tree)
    requires Holds(f, Some(s)) && IsDir(s.d) && (t.Some? ==> IsDir(t.value.d))
    requires t1 == Tree(s.d, s.data, if t.Some? then t.value.kids else map[]) && r.d == t1.d && r.data == t1.data
    requires forall c | c in f.child :: Kid(Some(r), c.d.name) == Grafted(Some(t1), s, c.d.name)
    requires forall n | (forall c | c in f.child :: c.d.name != n) :: Kid(Some(r), n) == Kid(Some(t1), n)
    ensures r == Graft(t, s)
  {
    var g := Graft(t, s);
    assert g.d == s.d && g.data == s.data;
    forall n ensures Kid(Some(r), n) == Kid(Some(g), n) {
      GraftKid(t, s, t1, n);
      KidNamed(f, s, n);
      hide *;
      if c :| c in f.child && c.d.name == n {
      } else {
        assert Kid(Some(r), n) == Kid(Some(t1), n);
      }
    }
    hide Kid, Graft, Holds;
    SameKidsMap(r, g);
  }

  lemma GraftKid(t: Option<Tree>, s: Tree, t1: Tree, n: string)
    requires IsDir(s.d) && (t.Some? ==> IsDir(t.value.d))
    requires t1 == Tree(s.d, s.data, if t.Some? then t.value.kids else map[])
    ensures Kid(Some(Graft(t, s)), n) == Grafted(Some(t1), s, n)
    ensures n !in s.kids ==> Grafted(Some(t1), s, n) == Kid(Some(t1), n)
  {}

  lemma KidNamed(f: File, s: Tree, n: string)
    requires Holds(f, Some(s)) && IsDir(s.d)
    ensures n in s.kids ==> exists c :: c in f.child && c.d.name == n
  {
    if n in s.kids {
      assert Walk1(f, n).Some? && Walk1(f, n).value in f.child;
    }
  }

  lemma SameKidsMap(r: Tree, g: Tree)
    requires IsDir(r.d) && r.d == g.d && forall n :: Kid(Some(r), n) == Kid(Some(g), n)
    ensures r.kids == g.kids
  {
    forall n ensures n in r.kids <==> n in g.kids {
      assert Kid(Some(r), n) == Kid(Some(g), n);
    }
    forall n | n in r.kids ensures r.kids[n] == g.kids[n] {
      assert Kid(Some(r), n) == Kid(Some(g), n);
    }
  }

  /** The same, at the path of a change. */
  function BelowPath(path: Path, ms: seq<Item>): seq<Item>
  {
    if path == [] then ms else Below(path[0], BelowPath(path[1..], ms))
  }

  function WalkTree(t: Option<Tree>, path: Path): Option<Tree>
    decreases |path|
  {
    if path == [] then t else WalkTree(Kid(t, path[0]), path[1..])
  }

  lemma {:induction false} PutsAreAdd(t: Option<Tree>, c: Chg, src: Option<Tree>, f: File)
    requires c.ty == Add && !c.d.err && WalkTree(src, c.path).Some?
    requires Holds(f, WalkTree(src, c.path)) && WellMade(WalkTree(src, c.path).value)
    ensures PutAll(t, BelowPath(c.path, Items(f, WalkTree(src, c.path).value))) == Apply(t, c, src)
    decreases |c.path|
  {
    var s := WalkTree(src, c.path).value;
    if c.path == [] {
      ItemsAreGraft(f, s, t);
    } else {
      var name, rest := c.path[0], c.path[1..];
      var ms := BelowPath(rest, Items(f, s));
      if t.None? || !IsDir(t.value.d) {
        PutNowhere(t, name, ms);
      } else {
        PutBelow(t.value, name, ms);
        PutsAreAdd(Kid(t, name), c.(path := rest), Kid(src, name), f);
      }
    }
  }

  /** Put all that is found at the path of the change; a file that fails does not stop the others. */
  method AddAll(fs: Tree, c: Chg, src: Tree, f: File) returns (fs': Tree)
    requires c.ty == Add && !c.d.err && WalkTree(Some(src), c.path).Some?
    requires Holds(f, WalkTree(Some(src), c.path)) && WellMade(WalkTree(Some(src), c.path).value)
    ensures Some(fs') == Apply(Some(fs), c, Some(src))
  {
    var ms := BelowPath(c.path, Items(f, WalkTree(Some(src), c.path).value));
    PutsAreAdd(Some(fs), c, Some(src), f);
    fs' := fs;
    assert ms[0..] == ms;
    hide *;
    for i := 0 to |ms|
      invariant PutAll(Some(fs'), ms[i..]) == PutAll(Some(fs), ms)
    {
      PutStep(fs', ms, i);
      fs' := PutItem(Some(fs'), ms[i].path, ms[i].d, ms[i].data).value;
    }
    NothingToPut(fs', ms);
  }

  lemma PutStep(t: Tree, ms: seq<Item>, i: nat)
    requires i < |ms|
    ensures PutItem(Some(t), ms[i].path, ms[i].d, ms[i].data).Some?
    ensures PutAll(Some(t), ms[i..]) == PutAll(PutItem(Some(t), ms[i].path, ms[i].d, ms[i].data), ms[i + 1..])
  {
    assert ms[i..][0] == ms[i] && ms[i..][1..] == ms[i + 1..];
  }

  lemma NothingToPut(t: Tree, ms: seq<Item>)
    ensures PutAll(Some(t), ms[|ms|..]) == Some(t)
  {}
}
