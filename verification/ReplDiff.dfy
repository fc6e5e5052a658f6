/**
  Replica synchronisation: the changes that make an old tree like a new one, and what
  replaying them on a file system does.

  Metadata trees (File) are what is compared; file systems (Tree) are what changes are
  applied to. Paths of changes are relative to where the comparison starts.
 */
module ReplDiff {
  import opened Paths

  datatype Option<T> = None | Some(value: T)

  /**
    Attributes of a file. `more` has those that count as metadata, and `skip` the ones that
    are ignored besides size and mtime (uid, gid, wuid, Sum and addr).
   */
  datatype Attrs = Attrs(name: string, ty: string, size: nat, mtime: nat, more: map<string, string>,
                         skip: map<string, string>, rm: bool, err: bool)

  const SECOND: nat := 1_000_000_000

  datatype File = File(d: Attrs, child: seq<File>)

  datatype ChgType = Add | Data | Meta | Del | DirFile

  datatype Where = Nowhere | Local | Remote | Both

  datatype Chg = Chg(ty: ChgType, path: Path, d: Attrs, time: nat, at: Where)

  // ----- comparing entries -----

  predicate IsDir(d: Attrs)
  {
    d.ty == "d"
  }

  predicate DataChanged(d0: Attrs, d1: Attrs)
  {
    d0.ty != d1.ty || d0.size != d1.size || d0.mtime / SECOND != d1.mtime / SECOND
  }

  /** The same attributes; those that are not there read as empty. */
  predicate EqualDirs(m0: map<string, string>, m1: map<string, string>)
  {
    |m0| == |m1| && forall k | k in m0 :: (if k in m1 then m1[k] else "") == m0[k]
  }

  /** Does not look at what says that data changed. */
  predicate MetaChanged(d0: Attrs, d1: Attrs)
  {
    d0.ty != d1.ty || d0.name != d1.name || !EqualDirs(d0.more, d1.more)
  }

  // ----- metadata trees -----

  function Find(cs: seq<File>, name: string): (r: Option<File>)
    ensures r.Some? ==> r.value in cs && r.value.d.name == name
    ensures r.None? ==> forall c | c in cs :: c.d.name != name
  {
    if cs == [] then None
    else if cs[0].d.name == name then Some(cs[0])
    else Find(cs[1..], name)
  }

  function Walk1(f: File, name: string): (r: Option<File>)
    ensures r.Some? ==> r.value in f.child && r.value.d.name == name
  {
    Find(f.child, name)
  }

  function NamesOf(cs: seq<File>): seq<string>
  {
    if cs == [] then [] else [cs[0].d.name] + NamesOf(cs[1..])
  }

  function AddNames(names: seq<string>, cs: seq<File>): seq<string>
    decreases |cs|
  {
    if cs == [] then names
    else AddNames(if cs[0].d.name in names then names else names + [cs[0].d.name], cs[1..])
  }

  /** The names of the old children, and then those of the new ones. They are not sorted. */
  function Names(f0: File, f1: File): seq<string>
  {
    AddNames(NamesOf(f0.child), f1.child)
  }

  // ----- the changes -----

  function Came(f: File, w: Where): Chg
  {
    Chg(Add, [], f.d, f.d.mtime, w)
  }

  function Under(name: string, cs: seq<Chg>): seq<Chg>
  {
    if cs == [] then [] else [cs[0].(path := [name] + cs[0].path)] + Under(name, cs[1..])
  }

  /** The changes from f0 to f1. Entries with errors are left alone. */
  function Diff(f0: File, f1: File, root: bool, metat: nat, w: Where): seq<Chg>
    decreases f0, 2
  {
    var d0, d1 := f0.d, f1.d;
    if d0.rm && d1.rm then []
    else if d0.err || d1.err then []
    else if d0.rm then [Came(f1, w)]
    else if d1.rm then [Chg(Del, [], d0, d1.mtime, w)]
    else if d0.ty != d1.ty then [Chg(DirFile, [], d1, d1.mtime, w)]
    else if !IsDir(d0) then
      if DataChanged(d0, d1) then [Chg(Data, [], d1, d1.mtime, w)]
      else if MetaChanged(d0, d1) then [Chg(Meta, [], d1, metat, w)]
      else []
    else
      (if MetaChanged(d0, d1) && !root then [Chg(Meta, [], d1, metat, w)] else [])
      + DiffNames(f0, f1, Names(f0, f1), metat, w)
  }

  function DiffNames(f0: File, f1: File, names: seq<string>, metat: nat, w: Where): seq<Chg>
    decreases f0, 1, |names|
  {
    if names == [] then []
    else Under(names[0], DiffKid(f0, f1, names[0], metat, w)) + DiffNames(f0, f1, names[1..], metat, w)
  }

  function DiffKid(f0: File, f1: File, name: string, metat: nat, w: Where): seq<Chg>
    decreases f0, 0
  {
    match (Walk1(f0, name), Walk1(f1, name))
    case (None, None) => []
    case (None, Some(c1)) => if c1.d.err then [] else [Came(c1, w)]
    case (Some(c0), None) => if c0.d.err || c0.d.rm then [] else [Chg(Del, [], c0.d, metat, w)]
    case (Some(c0), Some(c1)) => Diff(c0, c1, false, f1.d.mtime, w)
  }

  // ----- file systems -----

  datatype Tree = Tree(d: Attrs, data: seq<int>, kids: map<string, Tree>)

  function Kid(t: Option<Tree>, name: string): Option<Tree>
  {
    if t.Some? && IsDir(t.value.d) && name in t.value.kids then Some(t.value.kids[name]) else None
  }

  function WithKid(t: Tree, name: string, k: Option<Tree>): Tree
  {
    t.(kids := if k.Some? then t.kids[name := k.value] else t.kids - {name})
  }

  /**
    Put s over t, as finding and putting every file of s does: directories are made and
    others written, unless there is something of another kind in the way.
   */
  function Graft(t: Option<Tree>, s: Tree): Tree
    decreases s
  {
    if t.Some? && IsDir(t.value.d) != IsDir(s.d) then t.value
    else if !IsDir(s.d) then s
    else
      var had := if t.Some? then t.value.kids else map[];
      Tree(s.d, s.data, map k | k in s.kids.Keys + had.Keys ::
        if k in s.kids then Graft(if k in had then Some(had[k]) else None, s.kids[k]) else had[k])
  }

  /** The file t once the change c to it is applied; s is the file at the source. A change that fails does nothing. */
  function ApplyHere(t: Option<Tree>, c: Chg, s: Option<Tree>): Option<Tree>
  {
    match c.ty
    case Add => if s.Some? then Some(Graft(t, s.value)) else t
    case Del => None
    case DirFile => if s.Some? then Some(Graft(None, s.value)) else None
    case Data =>
      if s.None? || IsDir(s.value.d) || (t.Some? && IsDir(t.value.d)) then t
      else Some(Tree(c.d, s.value.data, map[]))
    case Meta => if t.Some? then Some(t.value.(d := c.d)) else t
  }

  function Apply(t: Option<Tree>, c: Chg, s: Option<Tree>): Option<Tree>
    decreases |c.path|
  {
    if c.d.err then t
    else if c.path == [] then ApplyHere(t, c, s)
    else if t.None? || !IsDir(t.value.d) then t
    else
      var name := c.path[0];
      Some(WithKid(t.value, name, Apply(Kid(t, name), c.(path := c.path[1..]), Kid(s, name))))
  }

  function Replay(t: Option<Tree>, cs: seq<Chg>, s: Option<Tree>): Option<Tree>
    decreases |cs|
  {
    if cs == [] then t else Replay(Apply(t, cs[0], s), cs[1..], s)
  }

  // ----- metadata of a file system -----

  predicate Distinct(cs: seq<File>)
  {
    forall i, j | 0 <= i < j < |cs| :: cs[i].d.name != cs[j].d.name
  }

  /** f describes the file t; a tombstone describes a file that is not there. */
  ghost predicate Holds(f: File, t: Option<Tree>)
    decreases f
  {
    if f.d.rm then t.None?
    else
      && t.Some? && t.value.d == f.d
      && (IsDir(f.d) ==>
            && Distinct(f.child)
            && (forall c | c in f.child :: Holds(c, Kid(t, c.d.name)))
            && (forall n | n in t.value.kids :: Walk1(f, n).Some?))
  }

  predicate NoErr(f: File)
  {
    !f.d.err && forall c | c in f.child :: NoErr(c)
  }

  /** A tree just scanned has no tombstones. */
  predicate Scanned(f: File)
  {
    !f.d.rm && forall c | c in f.child :: Scanned(c)
  }

  /** The same, up to the attributes that are ignored. */
  ghost predicate Same(t: Tree, s: Tree)
    decreases t
  {
    && !MetaChanged(t.d, s.d)
    && (if IsDir(t.d) then SameKids(t, s) else !DataChanged(t.d, s.d) && t.data == s.data)
  }

  ghost predicate SameKids(t: Tree, s: Tree)
    decreases t, 0
  {
    t.kids.Keys == s.kids.Keys && forall n | n in t.kids :: Same(t.kids[n], s.kids[n])
  }

  ghost predicate SameOpt(t: Option<Tree>, s: Option<Tree>)
  {
    t.Some? == s.Some? && (t.Some? ==> Same(t.value, s.value))
  }

  /** Between the two trees, the data of a file is fixed by its size and the second it was written. */
  ghost predicate Fixed(o: Tree, n: Tree)
  {
    if IsDir(o.d) && IsDir(n.d) then forall k | k in o.kids && k in n.kids :: Fixed(o.kids[k], n.kids[k])
    else !IsDir(o.d) && !IsDir(n.d) && !DataChanged(o.d, n.d) ==> o.data == n.data
  }

  // ----- names -----

  lemma {:induction false} AddNamesOk(names: seq<string>, cs: seq<File>)
    requires forall i, j | 0 <= i < j < |names| :: names[i] != names[j]
    ensures var r := AddNames(names, cs);
            && names <= r
            && (forall i, j | 0 <= i < j < |r| :: r[i] != r[j])
            && (forall n :: n in r <==> n in names || exists c :: c in cs && c.d.name == n)
    decreases |cs|
  {
    if cs != [] {
      var next := if cs[0].d.name in names then names else names + [cs[0].d.name];
      AddNamesOk(next, cs[1..]);
      var r := AddNames(names, cs);
      forall n ensures n in r <==> n in names || exists c :: c in cs && c.d.name == n {
        if n in r && n !in names {
          if n == cs[0].d.name { assert cs[0] in cs; } else {
            var c :| c in cs[1..] && c.d.name == n;
            assert c in cs;
          }
        }
        if c :| c in cs && c.d.name == n {
          if c != cs[0] { assert c in cs[1..]; }
        }
      }
    }
  }

  lemma {:induction false} NamesOfOk(cs: seq<File>)
    ensures |NamesOf(cs)| == |cs| && forall i | 0 <= i < |cs| :: NamesOf(cs)[i] == cs[i].d.name
    decreases |cs|
  {
    if cs != [] { NamesOfOk(cs[1..]); }
  }

  /** Every name of a child, old or new, once. */
  lemma {:induction false} NamesOk(f0: File, f1: File)
    requires Distinct(f0.child)
    ensures var r := Names(f0, f1);
            && (forall i, j | 0 <= i < j < |r| :: r[i] != r[j])
            && (forall n :: n in r <==> Walk1(f0, n).Some? || Walk1(f1, n).Some?)
  {
    NamesOfOk(f0.child);
    AddNamesOk(NamesOf(f0.child), f1.child);
    var r := Names(f0, f1);
    forall n ensures n in r <==> Walk1(f0, n).Some? || Walk1(f1, n).Some? {
      assert n in NamesOf(f0.child) <==> Walk1(f0, n).Some?;
    }
  }

  lemma {:induction false} FindIn(cs: seq<File>, c: File)
    requires Distinct(cs) && c in cs
    ensures Find(cs, c.d.name) == Some(c)
    decreases |cs|
  {
    if cs[0] == c {
    } else {
      var i :| 0 < i < |cs| && cs[i] == c;
      assert cs[0].d.name != cs[i].d.name;
      assert Distinct(cs[1..]);
      FindIn(cs[1..], c);
    }
  }

  // ----- replaying -----

  lemma {:induction false} ReplayAppend(t: Option<Tree>, a: seq<Chg>, b: seq<Chg>, s: Option<Tree>)
    ensures Replay(t, a + b, s) == Replay(Replay(t, a, s), b, s)
    decreases |a|
  {
    if a == [] {
      assert a + b == b;
    } else {
      assert (a + b)[0] == a[0] && (a + b)[1..] == a[1..] + b;
      ReplayAppend(Apply(t, a[0], s), a[1..], b, s);
    }
  }

  lemma WithKidIs(t: Tree, name: string, k: Option<Tree>)
    requires IsDir(t.d)
    ensures Kid(Some(WithKid(t, name, k)), name) == k && WithKid(t, name, k).d == t.d
    ensures forall n | n != name :: Kid(Some(WithKid(t, name, k)), n) == Kid(Some(t), n)
    ensures forall k' :: WithKid(WithKid(t, name, k), name, k') == WithKid(t, name, k')
    ensures WithKid(t, name, Kid(Some(t), name)) == t
  {
    forall k' ensures WithKid(WithKid(t, name, k), name, k') == WithKid(t, name, k') {
      assert WithKid(WithKid(t, name, k), name, k').kids == WithKid(t, name, k').kids;
    }
    assert WithKid(t, name, Kid(Some(t), name)).kids == t.kids;
  }

  /** Changes under a name are changes to the child with that name, and to nothing else. */
  lemma {:induction false} ReplayUnder(t: Tree, name: string, cs: seq<Chg>, s: Option<Tree>)
    requires IsDir(t.d)
    ensures Replay(Some(t), Under(name, cs), s) == Some(WithKid(t, name, Replay(Kid(Some(t), name), cs, Kid(s, name))))
    decreases |cs|
  {
    WithKidIs(t, name, None);
    if cs != [] {
      var k := Kid(Some(t), name);
      var c := cs[0].(path := [name] + cs[0].path);
      var k' := Apply(k, cs[0], Kid(s, name));
      assert c.path[1..] == cs[0].path && c.(path := c.path[1..]) == cs[0];
      WithKidIs(t, name, k');
      assert Apply(Some(t), c, s) == Some(WithKid(t, name, k'));
      ReplayUnder(WithKid(t, name, k'), name, cs[1..], s);
      assert Under(name, cs)[1..] == Under(name, cs[1..]);
    }
  }

  // ----- sameness -----

  lemma {:induction false} SameItself(t: Tree)
    ensures Same(t, t)
    decreases t
  {
    assert EqualDirs(t.d.more, t.d.more);
    forall n | n in t.kids ensures Same(t.kids[n], t.kids[n]) {
      SameItself(t.kids[n]);
    }
  }

  /** Adding where nothing is copies. */
  lemma {:induction false} GraftCopies(s: Tree)
    ensures Graft(None, s) == s
    decreases s
  {
    if IsDir(s.d) {
      forall k | k in s.kids ensures Graft(None, s.kids[k]) == s.kids[k] {
        GraftCopies(s.kids[k]);
      }
      assert Graft(None, s).kids == s.kids;
    }
  }

  // ----- the main result -----

  /** What comparing needs to know of two trees: o and n are the files, f0 and f1 describe them. */
  ghost predicate Pair(f0: File, f1: File, o: Option<Tree>, n: Option<Tree>)
  {
    && Holds(f0, o) && Holds(f1, n) && NoErr(f0) && NoErr(f1) && Scanned(f1)
    && (o.Some? && n.Some? ==> Fixed(o.value, n.value))
  }

  lemma {:induction false} KidReplays(f0: File, f1: File, name: string, metat: nat, w: Where, o: Tree, n: Tree)
    requires !f0.d.rm && Pair(f0, f1, Some(o), Some(n)) && IsDir(f0.d) && IsDir(f1.d)
    ensures SameOpt(Replay(Kid(Some(o), name), DiffKid(f0, f1, name, metat, w), Kid(Some(n), name)), Kid(Some(n), name))
    decreases f0, 0
  {
    var cs := DiffKid(f0, f1, name, metat, w);
    var ok, nk := Kid(Some(o), name), Kid(Some(n), name);
    match (Walk1(f0, name), Walk1(f1, name)) {
      case (None, None) =>
      case (None, Some(c1)) =>
        assert Holds(c1, nk) && Scanned(c1) && NoErr(c1);
        ReplayOne(ok, cs[0], nk);
        GraftCopies(nk.value);
        SameItself(nk.value);
      case (Some(c0), None) =>
        assert Holds(c0, ok) && NoErr(c0);
        if !c0.d.rm { ReplayOne(ok, cs[0], nk); }
      case (Some(c0), Some(c1)) =>
        assert Holds(c0, ok) && NoErr(c0) && Holds(c1, nk) && Scanned(c1) && NoErr(c1);
        TreeReplays(c0, c1, false, f1.d.mtime, w, ok, nk);
    }
  }

  lemma ReplayOne(t: Option<Tree>, c: Chg, s: Option<Tree>)
    ensures Replay(t, [c], s) == Apply(t, c, s)
  {
    assert [c][1..] == [];
  }

  /** The names before and those that follow: once a name is done, its child is as in the new tree. */
  lemma {:induction false} NamesReplay(f0: File, f1: File, names: seq<string>, metat: nat, w: Where, o: Tree, n: Tree, t: Tree) returns (r: Tree)
    requires !f0.d.rm && Pair(f0, f1, Some(o), Some(n)) && IsDir(f0.d) && IsDir(f1.d) && IsDir(t.d)
    requires forall i, j | 0 <= i < j < |names| :: names[i] != names[j]
    requires forall k | k in names :: Kid(Some(t), k) == Kid(Some(o), k)
    ensures Replay(Some(t), DiffNames(f0, f1, names, metat, w), Some(n)) == Some(r) && r.d == t.d
    ensures forall k | k in names :: SameOpt(Kid(Some(r), k), Kid(Some(n), k))
    ensures forall k | k !in names :: Kid(Some(r), k) == Kid(Some(t), k)
    decreases f0, 1, |names|
  {
    if names == [] {
      r := t;
    } else {
      var name := names[0];
      var cs := DiffKid(f0, f1, name, metat, w);
      KidReplays(f0, f1, name, metat, w, o, n);
      var k := Replay(Kid(Some(t), name), cs, Kid(Some(n), name));
      ReplayUnder(t, name, cs, Some(n));
      WithKidIs(t, name, k);
      ReplayAppend(Some(t), Under(name, cs), DiffNames(f0, f1, names[1..], metat, w), Some(n));
      r := NamesReplay(f0, f1, names[1..], metat, w, o, n, WithKid(t, name, k));
      assert name !in names[1..];
    }
  }

  lemma NoOtherKids(f: File, t: Option<Tree>)
    requires Holds(f, t) && !f.d.rm && IsDir(f.d)
    ensures forall k | Walk1(f, k).None? :: Kid(t, k).None?
  {
    forall k | Walk1(f, k).None? ensures Kid(t, k).None? {
      hide Walk1;
    }
  }

  lemma {:induction false} KidsMeet(f0: File, f1: File, names: seq<string>, o: Tree, n: Tree, r: Tree)
    requires !f0.d.rm && Pair(f0, f1, Some(o), Some(n)) && IsDir(f0.d) && IsDir(f1.d) && IsDir(r.d)
    requires forall k :: k in names <==> Walk1(f0, k).Some? || Walk1(f1, k).Some?
    requires forall k | k in names :: SameOpt(Kid(Some(r), k), Kid(Some(n), k))
    requires forall k | k !in names :: Kid(Some(r), k) == Kid(Some(o), k)
    ensures SameKids(r, n)
  {
    assert IsDir(n.d) && Holds(f0, Some(o)) && Holds(f1, Some(n)) && !f1.d.rm;
    NoOtherKids(f0, Some(o));
    NoOtherKids(f1, Some(n));
    hide Pair, Holds, Walk1, Same;
    forall k ensures SameOpt(Kid(Some(r), k), Kid(Some(n), k)) {
      if k !in names {
        assert Kid(Some(o), k).None? && Kid(Some(n), k).None?;
      }
    }
    KidsSame(r, n);
  }

  /** Directories whose children are the same, name by name. */
  lemma KidsSame(r: Tree, n: Tree)
    requires IsDir(r.d) && IsDir(n.d) && forall k :: SameOpt(Kid(Some(r), k), Kid(Some(n), k))
    ensures SameKids(r, n)
  {
    hide Same;
    forall k ensures k in r.kids <==> k in n.kids {
      assert SameOpt(Kid(Some(r), k), Kid(Some(n), k));
    }
    forall k | k in r.kids ensures Same(r.kids[k], n.kids[k]) {
      assert SameOpt(Kid(Some(r), k), Kid(Some(n), k));
    }
  }

  /** What replaying is for: the same as the new tree; of the root itself, only what is below. */
  ghost predicate Synced(root: bool, r: Option<Tree>, n: Option<Tree>)
  {
    if root then r.Some? && n.Some? && IsDir(r.value.d) && IsDir(n.value.d) && SameKids(r.value, n.value) else SameOpt(r, n)
  }

  lemma {:induction false} DirReplays(f0: File, f1: File, root: bool, metat: nat, w: Where, o: Tree, n: Tree)
    requires !f0.d.rm && Pair(f0, f1, Some(o), Some(n)) && IsDir(f0.d) && IsDir(f1.d)
    ensures Synced(root, Replay(Some(o), Diff(f0, f1, root, metat, w), Some(n)), Some(n))
    decreases f0, 2
  {
    var meta := MetaChanged(f0.d, f1.d) && !root;
    var first := if meta then [Chg(Meta, [], f1.d, metat, w)] else [];
    var t := if meta then o.(d := f1.d) else o;
    if meta {
      ReplayOne(Some(o), first[0], Some(n));
      assert !MetaChanged(f1.d, f1.d);
    }
    assert Replay(Some(o), first, Some(n)) == Some(t);
    var names := Names(f0, f1);
    NamesOk(f0, f1);
    ReplayAppend(Some(o), first, DiffNames(f0, f1, names, metat, w), Some(n));
    forall k | k in names ensures Kid(Some(t), k) == Kid(Some(o), k) {}
    var r := NamesReplay(f0, f1, names, metat, w, o, n, t);
    KidsMeet(f0, f1, names, o, n, r);
  }

  /** Replaying the changes found between two trees over the old one, in the order found, makes the new one. */
  lemma {:induction false} TreeReplays(f0: File, f1: File, root: bool, metat: nat, w: Where, o: Option<Tree>, n: Option<Tree>)
    requires Pair(f0, f1, o, n) && (root ==> !f0.d.rm && IsDir(f0.d) && IsDir(f1.d))
    ensures Synced(root, Replay(o, Diff(f0, f1, root, metat, w), n), n)
    decreases f0, 3
  {
    var cs := Diff(f0, f1, root, metat, w);
    assert n.Some? && n.value.d == f1.d;
    GraftCopies(n.value);
    SameItself(n.value);
    if f0.d.rm || f0.d.ty != f1.d.ty {
      ReplayOne(o, cs[0], n);
    } else if IsDir(f0.d) {
      DirReplays(f0, f1, root, metat, w, o.value, n.value);
    } else if cs != [] {
      ReplayOne(o, cs[0], n);
    }
  }

  /** And then there is nothing else to do: comparing again finds no change. */
  lemma {:induction false} NothingLeft(fr: File, f1: File, root: bool, metat: nat, w: Where, r: Option<Tree>, n: Option<Tree>)
    requires Holds(fr, r) && Holds(f1, n) && Synced(root, r, n) && Scanned(f1)
    ensures Diff(fr, f1, root, metat, w) == []
    decreases fr, 1
  {
    if !fr.d.err && !f1.d.err && IsDir(fr.d) {
      assert !MetaChanged(fr.d, f1.d) || root;
      assert SameKids(r.value, n.value);
      NoNamesLeft(fr, f1, Names(fr, f1), metat, w, r.value, n.value);
    }
  }

  lemma {:induction false} NoNamesLeft(fr: File, f1: File, names: seq<string>, metat: nat, w: Where, r: Tree, n: Tree)
    requires Holds(fr, Some(r)) && Holds(f1, Some(n)) && SameKids(r, n) && Scanned(f1) && IsDir(fr.d) && IsDir(f1.d)
    ensures DiffNames(fr, f1, names, metat, w) == []
    decreases fr, 0, |names|
  {
    if names != [] {
      var name := names[0];
      var rk, nk := Kid(Some(r), name), Kid(Some(n), name);
      assert SameOpt(rk, nk);
      assert Walk1(fr, name).Some? ==> Holds(Walk1(fr, name).value, rk);
      assert Walk1(f1, name).Some? ==> Holds(Walk1(f1, name).value, nk) && Scanned(Walk1(f1, name).value);
      if Walk1(fr, name).Some? && Walk1(f1, name).Some? {
        NothingLeft(Walk1(fr, name).value, Walk1(f1, name).value, false, f1.d.mtime, w, rk, nk);
      }
      NoNamesLeft(fr, f1, names[1..], metat, w, r, n);
    }
  }

  // ----- errors -----

  /** There is an entry with an error at p, or above it. */
  predicate Failed(f: File, p: Path)
    decreases |p|
  {
    f.d.err || (p != [] && Walk1(f, p[0]).Some? && Failed(Walk1(f, p[0]).value, p[1..]))
  }

  lemma {:induction false} UnderPath(name: string, cs: seq<Chg>, c: Chg) returns (c0: Chg)
    requires c in Under(name, cs)
    ensures c0 in cs && c == c0.(path := [name] + c0.path)
    decreases |cs|
  {
    if c == cs[0].(path := [name] + cs[0].path) {
      c0 := cs[0];
    } else {
      c0 := UnderPath(name, cs[1..], c);
    }
  }

  lemma {:induction false} NamedPath(f0: File, f1: File, names: seq<string>, metat: nat, w: Where, c: Chg) returns (name: string, c0: Chg)
    requires c in DiffNames(f0, f1, names, metat, w)
    ensures name in names && c0 in DiffKid(f0, f1, name, metat, w) && c == c0.(path := [name] + c0.path)
    decreases |names|
  {
    if c in Under(names[0], DiffKid(f0, f1, names[0], metat, w)) {
      name := names[0];
      c0 := UnderPath(name, DiffKid(f0, f1, name, metat, w), c);
    } else {
      name, c0 := NamedPath(f0, f1, names[1..], metat, w, c);
    }
  }

  /** No change is ever reported at or below an entry with an error, so an error cannot wipe out a replicated tree. */
  lemma {:induction false} ErrorsAreLeftAlone(f0: File, f1: File, root: bool, metat: nat, w: Where, p: Path, c: Chg)
    requires Failed(f0, p) || Failed(f1, p)
    requires c in Diff(f0, f1, root, metat, w)
    ensures !(p <= c.path)
    decreases f0
  {
    if p != [] && c.path != [] && p[0] == c.path[0] {
      var name, c0 := NamedPath(f0, f1, Names(f0, f1), metat, w, c);
      assert c.path[1..] == c0.path;
      var k0, k1 := Walk1(f0, name), Walk1(f1, name);
      if k0.Some? && k1.Some? {
        ErrorsAreLeftAlone(k0.value, k1.value, false, f1.d.mtime, w, p[1..], c0);
      }
    }
  }

  // ----- noting removals in the new tree -----

  function Tombstone(d: Attrs, mtime: nat): File
  {
    File(d.(rm := true, mtime := mtime), [])
  }

  function InsertByName(cs: seq<File>, f: File): seq<File>
  {
    if cs == [] || StrCmp(f.d.name, cs[|cs| - 1].d.name) >= 0 then cs + [f]
    else InsertByName(cs[..|cs| - 1], f) + [cs[|cs| - 1]]
  }

  function SortByName(cs: seq<File>): seq<File>
  {
    if cs == [] then [] else InsertByName(SortByName(cs[..|cs| - 1]), cs[|cs| - 1])
  }

  predicate IsDeleted(f0: File, f1: File, name: string)
  {
    && Walk1(f0, name).Some? && Walk1(f1, name).None?
    && !Walk1(f0, name).value.d.err && !Walk1(f0, name).value.d.rm
  }

  function Tombs(f0: File, f1: File, names: seq<string>): seq<File>
  {
    if names == [] then []
    else
      Tombs(f0, f1, names[..|names| - 1])
      + if IsDeleted(f0, f1, names[|names| - 1]) then [Tombstone(Walk1(f0, names[|names| - 1]).value.d, f1.d.mtime)] else []
  }

  /** Do the changes to f0 reach the children of f1? */
  predicate Compared(f0: File, f1: File)
  {
    !f0.d.rm && !f1.d.rm && !f0.d.err && !f1.d.err && f0.d.ty == f1.d.ty && IsDir(f0.d)
  }

  /** f1 once compared with f0: what was removed is noted with the mtime of its directory. */
  function Marked(f0: File, f1: File): (r: File)
    ensures r.d == f1.d
    decreases f0, 2
  {
    if !Compared(f0, f1) then f1
    else
      var tombs := Tombs(f0, f1, Names(f0, f1));
      var kids := MarkedKids(f0, f1.child);
      File(f1.d, if tombs == [] then kids else SortByName(kids + tombs))
  }

  function MarkedKids(f0: File, cs: seq<File>): (r: seq<File>)
    ensures |r| == |cs| && forall i | 0 <= i < |cs| :: r[i] == MarkedKid(f0, cs[i])
    decreases f0, 1, |cs|
  {
    if cs == [] then [] else [MarkedKid(f0, cs[0])] + MarkedKids(f0, cs[1..])
  }

  function MarkedKid(f0: File, c: File): (r: File)
    ensures r.d == c.d
    decreases f0, 0
  {
    var c0 := Walk1(f0, c.d.name);
    if c0.Some? then Marked(c0.value, c) else c
  }

  /** No directory has two children with the same name. */
  predicate Unique(f: File)
  {
    Distinct(f.child) && forall c | c in f.child :: Unique(c)
  }

  lemma TombsStep(f0: File, f1: File, names: seq<string>, i: nat)
    requires i < |names|
    ensures Tombs(f0, f1, names[..i + 1]) ==
      Tombs(f0, f1, names[..i])
      + if IsDeleted(f0, f1, names[i]) then [Tombstone(Walk1(f0, names[i]).value.d, f1.d.mtime)] else []
  {
    assert names[..i + 1][..i] == names[..i];
  }

  lemma NamesStep(f0: File, f1: File, names: seq<string>, i: nat, metat: nat, w: Where, out: seq<Chg>, more: seq<Chg>)
    requires i < |names| && more == Under(names[i], DiffKid(f0, f1, names[i], metat, w))
    ensures (out + more) + DiffNames(f0, f1, names[i + 1..], metat, w) == out + DiffNames(f0, f1, names[i..], metat, w)
  {
    assert names[i..][0] == names[i] && names[i..][1..] == names[i + 1..];
    assert DiffNames(f0, f1, names[i..], metat, w) == more + DiffNames(f0, f1, names[i + 1..], metat, w);
    hide *;
    assert (out + more) + DiffNames(f0, f1, names[i + 1..], metat, w) == out + (more + DiffNames(f0, f1, names[i + 1..], metat, w));
  }

  /** Children whose names are done are marked, and the others are not yet. */
  predicate MarkedSoFar(f0: File, f1: File, names: seq<string>, kids: seq<File>)
  {
    && |kids| == |f1.child|
    && forall i | 0 <= i < |kids| ::
         kids[i] == if f1.child[i].d.name in names then MarkedKid(f0, f1.child[i]) else f1.child[i]
  }

  lemma MarkedStep(f0: File, f1: File, names: seq<string>, i: nat, kids: seq<File>, kids': seq<File>)
    requires i < |names| && Distinct(f1.child) && MarkedSoFar(f0, f1, names[..i], kids)
    requires Walk1(f1, names[i]).None? ==> kids' == kids
    requires Walk1(f1, names[i]).Some? ==>
      (exists k :: 0 <= k < |kids| && f1.child[k] == Walk1(f1, names[i]).value && kids' == kids[k := MarkedKid(f0, f1.child[k])])
    ensures MarkedSoFar(f0, f1, names[..i + 1], kids')
  {
    assert names[..i + 1] == names[..i] + [names[i]];
    if Walk1(f1, names[i]).Some? {
      var k :| 0 <= k < |kids| && f1.child[k] == Walk1(f1, names[i]).value && kids' == kids[k := MarkedKid(f0, f1.child[k])];
      forall m | 0 <= m < |kids|
        ensures kids'[m] == if f1.child[m].d.name in names[..i + 1] then MarkedKid(f0, f1.child[m]) else f1.child[m]
      {
        if m < k { assert f1.child[m].d.name != f1.child[k].d.name; }
        if k < m { assert f1.child[k].d.name != f1.child[m].d.name; }
      }
    } else {
      forall m | 0 <= m < |kids| ensures f1.child[m].d.name != names[i] {
        assert f1.child[m] in f1.child;
      }
    }
  }

  lemma AllMarked(f0: File, f1: File, kids: seq<File>)
    requires Distinct(f0.child) && MarkedSoFar(f0, f1, Names(f0, f1), kids)
    ensures kids == MarkedKids(f0, f1.child)
  {
    NamesOk(f0, f1);
    forall i | 0 <= i < |kids| ensures kids[i] == MarkedKid(f0, f1.child[i]) {
      assert f1.child[i] in f1.child;
      assert Walk1(f1, f1.child[i].d.name).Some?;
    }
  }

  /** Compare f0 with f1: the changes, in the order they are sent, and f1 with removals noted. */
  method Changes(f0: File, f1: File, root: bool, metat: nat, w: Where) returns (out: seq<Chg>, f1': File)
    requires Unique(f0) && Unique(f1)
    ensures out == Diff(f0, f1, root, metat, w) && f1' == Marked(f0, f1)
    decreases f0, 1
  {
    var d0, d1 := f0.d, f1.d;
    out, f1' := [], f1;
    if d0.rm && d1.rm {
      return;
    }
    if d0.err || d1.err {
      return;   // ignored, or an error might make us wipe out a replicated subtree
    }
    if d0.rm {
      out := [Came(f1, w)];
    } else if d1.rm {
      out := [Chg(Del, [], d0, d1.mtime, w)];
    } else if d0.ty != d1.ty {
      out := [Chg(DirFile, [], d1, d1.mtime, w)];
    } else if !IsDir(d0) {
      if DataChanged(d0, d1) {
        out := [Chg(Data, [], d1, d1.mtime, w)];
      } else if MetaChanged(d0, d1) {
        out := [Chg(Meta, [], d1, metat, w)];
      }
    } else {
      if MetaChanged(d0, d1) && !root {
        out := [Chg(Meta, [], d1, metat, w)];
      }
      var more, kids, dels := ChangesBelow(f0, f1, metat, w);
      out := out + more;
      f1' := File(d1, if dels == [] then kids else SortByName(kids + dels));
    }
  }

  method ChangesBelow(f0: File, f1: File, metat: nat, w: Where) returns (out: seq<Chg>, kids: seq<File>, dels: seq<File>)
    requires Unique(f0) && Unique(f1)
    ensures out == DiffNames(f0, f1, Names(f0, f1), metat, w)
    ensures kids == MarkedKids(f0, f1.child) && dels == Tombs(f0, f1, Names(f0, f1))
    decreases f0, 0
  {
    NoneMarked(f0, f1);
    hide *;
    var names := Names(f0, f1);
    out, kids, dels := [], f1.child, [];
    assert names[0..] == names && names[..0] == [];
    for i := 0 to |names|
      invariant |kids| == |f1.child|
      invariant out + DiffNames(f0, f1, names[i..], metat, w) == DiffNames(f0, f1, names, metat, w)
      invariant MarkedSoFar(f0, f1, names[..i], kids) && dels == Tombs(f0, f1, names[..i])
    {
      var name := names[i];
      var c0, c1 := Walk1(f0, name), Walk1(f1, name);
      var more, gone := [], [];
      ghost var was := kids;
      KidIs(f0, f1, name, metat, w);
      if c0.None? {
        if c1.Some? && !c1.value.d.err {
          more := [Came(c1.value, w)];
        }
        NotYet(f0, f1, names, i, kids);
      } else if c1.None? {
        if !c0.value.d.err && !c0.value.d.rm {
          gone := [Tombstone(c0.value.d, f1.d.mtime)];
          more := [Chg(Del, [], c0.value.d, metat, w)];
        }
      } else {
        var c1';
        more, c1' := Changes(c0.value, c1.value, false, f1.d.mtime, w);
        var k :| 0 <= k < |f1.child| && f1.child[k] == c1.value;
        kids := kids[k := c1'];
      }
      TombsStep(f0, f1, names, i);
      MarkedStep(f0, f1, names, i, was, kids);
      NamesStep(f0, f1, names, i, metat, w, out, Under(name, more));
      out, dels := out + Under(name, more), dels + gone;
    }
    assert names[..|names|] == names && names[|names|..] == [];
    NamesDone(f0, f1, metat, w);
    AllMarked(f0, f1, kids);
  }

  lemma NamesDone(f0: File, f1: File, metat: nat, w: Where)
    ensures DiffNames(f0, f1, [], metat, w) == []
  {}

  /** What the child with a name comes to, by where it is. */
  lemma KidIs(f0: File, f1: File, name: string, metat: nat, w: Where)
    requires Unique(f0) && Unique(f1)
    ensures var c0, c1 := Walk1(f0, name), Walk1(f1, name);
            && DiffKid(f0, f1, name, metat, w) ==
                 (if c0.None? then (if c1.Some? && !c1.value.d.err then [Came(c1.value, w)] else [])
                  else if c1.None? then (if c0.value.d.err || c0.value.d.rm then [] else [Chg(Del, [], c0.value.d, metat, w)])
                  else Diff(c0.value, c1.value, false, f1.d.mtime, w))
            && (IsDeleted(f0, f1, name) <==> c0.Some? && c1.None? && !c0.value.d.err && !c0.value.d.rm)
            && (c0.Some? ==> Unique(c0.value) && c0.value in f0.child)
            && (c1.Some? ==> Unique(c1.value) && c1.value in f1.child && c1.value.d.name == name)
            && (c0.Some? && c1.Some? ==> Marked(c0.value, c1.value) == MarkedKid(f0, c1.value))
  {}

  lemma NoneMarked(f0: File, f1: File)
    requires Unique(f0) && Unique(f1)
    ensures MarkedSoFar(f0, f1, [], f1.child) && Tombs(f0, f1, []) == [] && Distinct(f0.child) && Distinct(f1.child)
  {}

  /** A child with a new name is marked as it is. */
  lemma NotYet(f0: File, f1: File, names: seq<string>, i: nat, kids: seq<File>)
    requires i < |names| && MarkedSoFar(f0, f1, names[..i], kids) && Walk1(f0, names[i]).None?
    ensures Walk1(f1, names[i]).Some? ==>
              exists k :: 0 <= k < |kids| && f1.child[k] == Walk1(f1, names[i]).value && kids == kids[k := MarkedKid(f0, f1.child[k])]
  {
    if Walk1(f1, names[i]).Some? {
      var k :| 0 <= k < |f1.child| && f1.child[k] == Walk1(f1, names[i]).value;
      assert kids[k] == MarkedKid(f0, f1.child[k]);
    }
  }

  // ----- what the marked tree is -----

  lemma {:induction false} FindAppend(a: seq<File>, b: seq<File>, name: string)
    ensures Find(a + b, name) == if Find(a, name).Some? then Find(a, name) else Find(b, name)
    decreases |a|
  {
    if a == [] {
      assert a + b == b;
    } else {
      assert (a + b)[0] == a[0] && (a + b)[1..] == a[1..] + b;
      FindAppend(a[1..], b, name);
    }
  }

  lemma FindOne(f: File, name: string)
    ensures Find([f], name) == if f.d.name == name then Some(f) else None
  {
    assert [f][1..] == [];
  }

  lemma {:induction false} FindInsert(cs: seq<File>, f: File, name: string)
    requires Find(cs, f.d.name).None?
    ensures Find(InsertByName(cs, f), name) == if f.d.name == name then Some(f) else Find(cs, name)
    decreases |cs|
  {
    if cs == [] || StrCmp(f.d.name, cs[|cs| - 1].d.name) >= 0 {
      FindAppend(cs, [f], name);
      FindOne(f, name);
    } else {
      var init, last := cs[..|cs| - 1], cs[|cs| - 1];
      assert cs == init + [last];
      FindAppend(init, [last], f.d.name);
      FindAppend(init, [last], name);
      FindInsert(init, f, name);
      FindAppend(InsertByName(init, f), [last], name);
      FindOne(last, name);
      FindOne(last, f.d.name);
    }
  }

  lemma {:induction false} LastIsNew(cs: seq<File>)
    requires Distinct(cs) && cs != []
    ensures Find(cs[..|cs| - 1], cs[|cs| - 1].d.name).None? && Distinct(cs[..|cs| - 1])
  {
    forall c | c in cs[..|cs| - 1] ensures c.d.name != cs[|cs| - 1].d.name {
      var i :| 0 <= i < |cs| - 1 && cs[i] == c;
    }
  }

  lemma {:induction false} FindSorted(cs: seq<File>, name: string)
    requires Distinct(cs)
    ensures Find(SortByName(cs), name) == Find(cs, name)
    decreases |cs|
  {
    if cs != [] {
      var init, last := cs[..|cs| - 1], cs[|cs| - 1];
      assert cs == init + [last];
      FindSorted(init, name);
      FindSorted(init, last.d.name);
      FindAppend(init, [last], name);
      FindOne(last, name);
      LastIsNew(cs);
      FindInsert(SortByName(init), last, name);
    }
  }

  lemma {:induction false} FindMarked(f0: File, cs: seq<File>, name: string)
    ensures Find(MarkedKids(f0, cs), name) == if Find(cs, name).Some? then Some(MarkedKid(f0, Find(cs, name).value)) else None
    decreases |cs|
  {
    if cs != [] { FindMarked(f0, cs[1..], name); }
  }

  lemma {:induction false} FindTomb(f0: File, f1: File, names: seq<string>, name: string)
    ensures Find(Tombs(f0, f1, names), name) ==
      if name in names && IsDeleted(f0, f1, name) then Some(Tombstone(Walk1(f0, name).value.d, f1.d.mtime)) else None
    decreases |names|
  {
    if names != [] {
      var init, last := names[..|names| - 1], names[|names| - 1];
      FindTomb(f0, f1, init, name);
      assert names == init + [last];
      if IsDeleted(f0, f1, last) {
        var t := Tombstone(Walk1(f0, last).value.d, f1.d.mtime);
        FindAppend(Tombs(f0, f1, init), [t], name);
        FindOne(t, name);
      } else {
        FindAppend(Tombs(f0, f1, init), [], name);
      }
    }
  }

  lemma {:induction false} TombNames(f0: File, f1: File, names: seq<string>)
    requires forall i, j | 0 <= i < j < |names| :: names[i] != names[j]
    ensures Distinct(Tombs(f0, f1, names))
    ensures forall t | t in Tombs(f0, f1, names) :: t.d.name in names && IsDeleted(f0, f1, t.d.name)
    decreases |names|
  {
    if names != [] { TombNames(f0, f1, names[..|names| - 1]); }
  }

  lemma {:induction false} MarkedDistinct(f0: File, f1: File)
    requires Unique(f0) && Unique(f1)
    ensures Distinct(MarkedKids(f0, f1.child) + Tombs(f0, f1, Names(f0, f1)))
  {
    NamesOk(f0, f1);
    TombNames(f0, f1, Names(f0, f1));
    var kids, tombs := MarkedKids(f0, f1.child), Tombs(f0, f1, Names(f0, f1));
    forall i | 0 <= i < |kids| ensures kids[i].d.name == f1.child[i].d.name {}
    forall i, j | 0 <= i < |kids| && 0 <= j < |tombs| ensures kids[i].d.name != tombs[j].d.name {
      assert f1.child[i] in f1.child && tombs[j] in tombs;
    }
  }

  /** The children of the marked tree: tombstones for what was removed, and the new ones, marked. */
  lemma {:induction false} MarkedWalk(f0: File, f1: File, name: string)
    requires Compared(f0, f1) && Unique(f0) && Unique(f1)
    ensures Walk1(Marked(f0, f1), name) ==
      if IsDeleted(f0, f1, name) then Some(Tombstone(Walk1(f0, name).value.d, f1.d.mtime))
      else if Walk1(f1, name).Some? then Some(MarkedKid(f0, Walk1(f1, name).value)) else None
  {
    var kids, tombs := MarkedKids(f0, f1.child), Tombs(f0, f1, Names(f0, f1));
    NamesOk(f0, f1);
    MarkedDistinct(f0, f1);
    FindMarked(f0, f1.child, name);
    FindTomb(f0, f1, Names(f0, f1), name);
    FindAppend(kids, tombs, name);
    FindSorted(kids + tombs, name);
  }

  lemma {:induction false} DistinctInsert(cs: seq<File>, f: File)
    requires Distinct(cs) && Find(cs, f.d.name).None?
    ensures Distinct(InsertByName(cs, f)) && (forall c :: c in InsertByName(cs, f) <==> c in cs || c == f)
    decreases |cs|
  {
    if cs != [] && StrCmp(f.d.name, cs[|cs| - 1].d.name) < 0 {
      var init, last := cs[..|cs| - 1], cs[|cs| - 1];
      assert cs == init + [last];
      FindAppend(init, [last], f.d.name);
      FindOne(last, f.d.name);
      DistinctInsert(init, f);
      var r := InsertByName(init, f);
      forall i | 0 <= i < |r| ensures r[i].d.name != last.d.name {
        assert r[i] in r;
        if r[i] in init {
          var j :| 0 <= j < |init| && init[j] == r[i];
          assert cs[j].d.name != cs[|init|].d.name;
        }
      }
    } else {
      forall i | 0 <= i < |cs| ensures cs[i].d.name != f.d.name { assert cs[i] in cs; }
    }
  }

  lemma {:induction false} DistinctSorted(cs: seq<File>)
    requires Distinct(cs)
    ensures Distinct(SortByName(cs)) && (forall c :: c in SortByName(cs) <==> c in cs)
    decreases |cs|
  {
    if cs != [] {
      var init, last := cs[..|cs| - 1], cs[|cs| - 1];
      assert cs == init + [last];
      DistinctSorted(init);
      FindSorted(init, last.d.name);
      LastIsNew(cs);
      DistinctInsert(SortByName(init), last);
    }
  }

  /** The children of the marked tree are those it can be walked to. */
  lemma {:induction false} MarkedOnce(f0: File, f1: File)
    requires Compared(f0, f1) && Unique(f0) && Unique(f1)
    ensures Distinct(Marked(f0, f1).child)
  {
    MarkedDistinct(f0, f1);
    DistinctSorted(MarkedKids(f0, f1.child) + Tombs(f0, f1, Names(f0, f1)));
    assert forall i | 0 <= i < |f1.child| :: MarkedKids(f0, f1.child)[i].d.name == f1.child[i].d.name;
  }

  /** Noting removals does not change the files described. */
  lemma {:induction false} MarkedHolds(f0: File, f1: File, n: Option<Tree>)
    requires Unique(f0) && Unique(f1) && Holds(f1, n)
    ensures Holds(Marked(f0, f1), n)
    decreases f0, 1
  {
    if Compared(f0, f1) {
      var m := Marked(f0, f1);
      MarkedOnce(f0, f1);
      forall c | c in m.child ensures Holds(c, Kid(n, c.d.name)) {
        FindIn(m.child, c);
        MarkedKidHolds(f0, f1, n, c);
      }
      forall k | k in n.value.kids ensures Walk1(m, k).Some? {
        MarkedWalk(f0, f1, k);
        assert Walk1(f1, k).Some?;
      }
      hide Marked, Distinct, Walk1, Unique;
    }
  }

  lemma {:induction false} MarkedKidHolds(f0: File, f1: File, n: Option<Tree>, c: File)
    requires Compared(f0, f1) && Unique(f0) && Unique(f1) && Holds(f1, n) && Walk1(Marked(f0, f1), c.d.name) == Some(c)
    ensures Holds(c, Kid(n, c.d.name))
    decreases f0, 0
  {
    var name := c.d.name;
    MarkedWalk(f0, f1, name);
    var c0, c1 := Walk1(f0, name), Walk1(f1, name);
    if c1.Some? {
      assert Holds(c1.value, Kid(n, name));
      if c0.Some? { MarkedHolds(c0.value, c1.value, Kid(n, name)); }
    } else {
      assert Kid(n, name).None?;
    }
  }

  // ----- applying changes to a replica -----

  /** The files once a change is applied: unlike what is below it, the root is never removed. */
  function Applied(t: Tree, c: Chg, s: Tree): Tree
  {
    if c.path == [] && c.ty == Del then t
    else if c.path == [] && c.ty == DirFile then if c.d.err then t else Graft(Some(t), s)
    else match Apply(Some(t), c, Some(s)) case Some(r) => r case None => t
  }

  function AppliedAll(t: Tree, cs: seq<Chg>, s: Tree): Tree
    decreases |cs|
  {
    if cs == [] then t else AppliedAll(Applied(t, cs[0], s), cs[1..], s)
  }

  /** Changes that are not to the root are replayed one by one. */
  lemma {:induction false} AppliedIsReplay(t: Tree, cs: seq<Chg>, s: Tree)
    requires forall c | c in cs :: c.path != []
    ensures Replay(Some(t), cs, Some(s)) == Some(AppliedAll(t, cs, s))
    decreases |cs|
  {
    if cs != [] {
      assert cs[0] in cs;
      AppliedIsReplay(Applied(t, cs[0], s), cs[1..], s);
    }
  }

  class Replica {
    var fs: Tree

    constructor (t: Tree)
      ensures fs == t
    {
      fs := t;
    }

    /** Apply one change, from the replica with files src. A change with an error noted in it is ignored; the root stays. */
    method Apply1(c: Chg, src: Tree)
      modifies this
      ensures fs == Applied(old(fs), c, src)
    {
      if c.d.err {
        return;
      }
      if c.path == [] {
        match c.ty
        case Del =>   // won't del /
        case DirFile => fs := Graft(Some(fs), src);
        case _ => fs := ApplyHere(Some(fs), c, Some(src)).value;
      } else if IsDir(fs.d) {
        var name := c.path[0];
        fs := WithKid(fs, name, Apply(Kid(Some(fs), name), c.(path := c.path[1..]), Kid(Some(src), name)));
      }
    }

    /** Apply the changes found at one replica, or at both. */
    method ApplyAll(cs: seq<Chg>, from: Where, src: Tree)
      modifies this
      ensures fs == AppliedAll(old(fs), FoundAt(cs, from), src)
    {
      assert cs[0..] == cs;
      for i := 0 to |cs|
        invariant AppliedAll(fs, FoundAt(cs[i..], from), src) == AppliedAll(old(fs), FoundAt(cs, from), src)
      {
        assert cs[i..][0] == cs[i] && cs[i..][1..] == cs[i + 1..];
        if from == Both || cs[i].at == from {
          var rest := FoundAt(cs[i + 1..], from);
          var all := FoundAt(cs[i..], from);
          assert all == [cs[i]] + rest && all[1..] == rest;
          Apply1(cs[i], src);
        }
      }
    }

    /** Make the files like those of src, described by f1, when f0 describes them now. */
    method Sync(f0: File, f1: File, src: Tree, metat: nat) returns (cs: seq<Chg>)
      requires Unique(f0) && Unique(f1) && Pair(f0, f1, Some(fs), Some(src)) && IsDir(f0.d) && IsDir(f1.d)
      modifies this
      ensures cs == Diff(f0, f1, true, metat, Remote)
      ensures IsDir(fs.d) && SameKids(fs, src)
    {
      var marked;
      cs, marked := Changes(f0, f1, true, metat, Remote);
      forall c | c in cs ensures c.path != [] && c.at == Remote {
        BelowRoot(f0, f1, metat, Remote, c);
      }
      AllFoundAt(cs, Remote);
      TreeReplays(f0, f1, true, metat, Remote, Some(fs), Some(src));
      AppliedIsReplay(fs, cs, src);
      ApplyAll(cs, Remote, src);
    }
  }

  function FoundAt(cs: seq<Chg>, from: Where): seq<Chg>
  {
    if cs == [] then []
    else if from == Both || cs[0].at == from then [cs[0]] + FoundAt(cs[1..], from)
    else FoundAt(cs[1..], from)
  }

  lemma {:induction false} AllFoundAt(cs: seq<Chg>, from: Where)
    requires forall c | c in cs :: c.at == from
    ensures FoundAt(cs, from) == cs
    decreases |cs|
  {
    if cs != [] {
      assert cs[0] in cs;
      AllFoundAt(cs[1..], from);
    }
  }

  lemma {:induction false} MadeAt(f0: File, f1: File, root: bool, metat: nat, w: Where, c: Chg)
    requires c in Diff(f0, f1, root, metat, w)
    ensures c.at == w
    decreases f0
  {
    if c in DiffNames(f0, f1, Names(f0, f1), metat, w) && Compared(f0, f1) {
      var name, c0 := NamedPath(f0, f1, Names(f0, f1), metat, w, c);
      var k0, k1 := Walk1(f0, name), Walk1(f1, name);
      if k0.Some? && k1.Some? {
        MadeAt(k0.value, k1.value, false, f1.d.mtime, w, c0);
      }
    }
  }

  /** Nothing is reported of the root itself. */
  lemma {:induction false} BelowRoot(f0: File, f1: File, metat: nat, w: Where, c: Chg)
    requires c in Diff(f0, f1, true, metat, w) && !f0.d.rm && !f1.d.rm && IsDir(f0.d) && IsDir(f1.d)
    ensures c.path != [] && c.at == w
  {
    MadeAt(f0, f1, true, metat, w, c);
    var name, c0 := NamedPath(f0, f1, Names(f0, f1), metat, w, c);
  }
}
