/**
  Metadata databases: trees of files built by adding entries one at a time, with the parent of
  the last entry added kept at hand. Files are nodes that point to others; what they stand
  for is a tree, and the cached parent is always the node that walking the tree would find,
  unless the root is added again while it is the one cached.
 */
module ReplDb {
  import opened Paths
  import opened ReplDiff

  /** A file and the places of its children. */
  datatype Node = Node(d: Attrs, child: seq<nat>)

  /** A tree of nodes, with their places. */
  datatype Placed = Placed(id: nat, d: Attrs, kids: seq<Placed>)

  // ----- trees of metadata -----

  /** The index of the first child with a name, or the number of children. */
  function IndexOf(cs: seq<File>, name: string): (i: nat)
    ensures i <= |cs| && (i < |cs| ==> cs[i].d.name == name)
    ensures forall k | 0 <= k < i :: cs[k].d.name != name
  {
    if cs == [] || cs[0].d.name == name then 0 else 1 + IndexOf(cs[1..], name)
  }

  function Walk(f: File, path: Path): Option<File>
    decreases |path|
  {
    if path == [] then Some(f)
    else
      var i := IndexOf(f.child, path[0]);
      if i == |f.child| then None else Walk(f.child[i], path[1..])
  }

  /** f with the file at path replaced. */
  function SetAt(f: File, path: Path, g: File): File
    requires Walk(f, path).Some?
    decreases |path|
  {
    if path == [] then g
    else
      var i := IndexOf(f.child, path[0]);
      File(f.d, f.child[i := SetAt(f.child[i], path[1..], g)])
  }

  /** Files with errors, removed, or that are not directories lose their children. */
  predicate KeepsChildren(d: Attrs)
  {
    IsDir(d) && !d.err && !d.rm
  }

  /** f once a child is added, or updated. */
  function WithChild(f: File, d: Attrs): File
  {
    var i := IndexOf(f.child, d.name);
    if i < |f.child| then File(f.d, f.child[i := File(d, if KeepsChildren(d) then f.child[i].child else [])])
    else File(f.d, InsertByName(f.child, File(d, [])))
  }

  /** The tree once d is added at path; None if there is nowhere to add it. */
  function Added(root: Option<File>, path: Path, d: Attrs): Option<File>
  {
    if root.None? || path == [] then Some(File(d, if root.Some? then root.value.child else []))
    else
      var parent := path[..|path| - 1];
      match Walk(root.value, parent)
      case None => None
      case Some(f) => Some(SetAt(root.value, parent, WithChild(f, d)))
  }

  // ----- children are sorted -----

  predicate ByName(cs: seq<File>)
  {
    forall i, j | 0 <= i < j < |cs| :: StrCmp(cs[i].d.name, cs[j].d.name) < 0
  }

  predicate Sorted(f: File)
  {
    ByName(f.child) && forall c | c in f.child :: Sorted(c)
  }

  lemma {:induction false} LastOfAll(cs: seq<File>, f: File)
    requires ByName(cs) && cs != [] && StrCmp(cs[|cs| - 1].d.name, f.d.name) < 0
    ensures ByName(cs + [f]) && forall i | 0 <= i < |cs| :: StrCmp(cs[i].d.name, f.d.name) < 0
  {
    hide StrCmp;
    var n := |cs| - 1;
    forall i | 0 <= i < |cs| ensures StrCmp(cs[i].d.name, f.d.name) < 0 {
      if i < n { StrCmpTrans(cs[i].d.name, cs[n].d.name, f.d.name); }
    }
  }

  lemma {:induction false} InsertMembers(cs: seq<File>, f: File)
    ensures |InsertByName(cs, f)| == |cs| + 1 && forall c :: c in InsertByName(cs, f) <==> c in cs || c == f
    decreases |cs|
  {
    hide StrCmp;
    if cs != [] && StrCmp(f.d.name, cs[|cs| - 1].d.name) < 0 {
      var init, last := cs[..|cs| - 1], cs[|cs| - 1];
      assert cs == init + [last];
      InsertMembers(init, f);
    }
  }

  lemma {:induction false} InsertSorted(cs: seq<File>, f: File)
    requires ByName(cs) && forall i | 0 <= i < |cs| :: cs[i].d.name != f.d.name
    ensures ByName(InsertByName(cs, f))
    decreases |cs|
  {
    hide StrCmp;
    var n := |cs| - 1;
    if cs == [] {
      assert InsertByName(cs, f) == [f];
    } else if StrCmp(f.d.name, cs[n].d.name) >= 0 {
      StrCmpEq(cs[n].d.name, f.d.name);
      LastOfAll(cs, f);
    } else {
      var init, last := cs[..n], cs[n];
      InsertSorted(init, f);
      InsertMembers(init, f);
      AllBefore(cs, f, InsertByName(init, f));
    }
  }

  lemma AllBefore(cs: seq<File>, f: File, r: seq<File>)
    requires ByName(cs) && cs != [] && StrCmp(f.d.name, cs[|cs| - 1].d.name) < 0 && ByName(r)
    requires forall c | c in r :: c in cs[..|cs| - 1] || c == f
    ensures ByName(r + [cs[|cs| - 1]])
  {
    hide StrCmp;
    var n := |cs| - 1;
    forall i | 0 <= i < |r| ensures StrCmp(r[i].d.name, cs[n].d.name) < 0 {
      assert r[i] in r;
      if r[i] in cs[..n] {
        var k :| 0 <= k < n && cs[k] == r[i];
      }
    }
  }

  lemma {:induction false} WithChildSorted(f: File, d: Attrs)
    requires Sorted(f)
    ensures Sorted(WithChild(f, d)) && WithChild(f, d).d == f.d
  {
    var i := IndexOf(f.child, d.name);
    if i < |f.child| {
      var g := File(d, if KeepsChildren(d) then f.child[i].child else []);
      assert f.child[i] in f.child;
      assert Sorted(g);
      forall c | c in WithChild(f, d).child ensures Sorted(c) {
        if c != g { assert c in f.child; }
      }
    } else {
      InsertSorted(f.child, File(d, []));
      InsertMembers(f.child, File(d, []));
      assert Sorted(File(d, []));
    }
  }

  lemma {:induction false} SetAtSorted(f: File, path: Path, g: File)
    requires Sorted(f) && Walk(f, path).Some? && Sorted(g) && g.d.name == Walk(f, path).value.d.name
    ensures Sorted(SetAt(f, path, g)) && SetAt(f, path, g).d.name == f.d.name
    ensures Sorted(Walk(f, path).value)
    decreases |path|
  {
    if path != [] {
      var i := IndexOf(f.child, path[0]);
      assert f.child[i] in f.child;
      SetAtSorted(f.child[i], path[1..], g);
      var k := SetAt(f.child[i], path[1..], g);
      forall c | c in SetAt(f, path, g).child ensures Sorted(c) {
        if c != k { assert c in f.child; }
      }
    }
  }

  lemma {:induction false} WalkSorted(f: File, path: Path)
    requires Sorted(f) && Walk(f, path).Some?
    ensures Sorted(Walk(f, path).value)
    decreases |path|
  {
    if path != [] {
      var i := IndexOf(f.child, path[0]);
      assert f.child[i] in f.child;
      WalkSorted(f.child[i], path[1..]);
    }
  }

  /** Adding keeps children sorted by name, each name once. */
  lemma {:induction false} AddedSorted(root: Option<File>, path: Path, d: Attrs)
    requires (root.Some? ==> Sorted(root.value)) && Added(root, path, d).Some?
    ensures Sorted(Added(root, path, d).value)
  {
    if root.Some? && path != [] {
      var parent := path[..|path| - 1];
      WalkSorted(root.value, parent);
      WithChildSorted(Walk(root.value, parent).value, d);
      SetAtSorted(root.value, parent, WithChild(Walk(root.value, parent).value, d));
    }
  }

  // ----- saving and rebuilding -----

  datatype Entry = Entry(path: Path, d: Attrs)

  function EntriesUnder(name: string, es: seq<Entry>): seq<Entry>
  {
    if es == [] then [] else [Entry([name] + es[0].path, es[0].d)] + EntriesUnder(name, es[1..])
  }

  /** The entries below f, in preorder. */
  function Below(cs: seq<File>): seq<Entry>
  {
    if cs == [] then []
    else Below(cs[..|cs| - 1]) + EntriesUnder(cs[|cs| - 1].d.name, Files(cs[|cs| - 1]))
  }

  function Files(f: File): seq<Entry>
  {
    [Entry([], f.d)] + Below(f.child)
  }

  function AddAll(root: Option<File>, es: seq<Entry>): Option<File>
    decreases |es|
  {
    if es == [] then root
    else
      match Added(root, es[0].path, es[0].d)
      case None => None
      case Some(f) => AddAll(Some(f), es[1..])
  }

  lemma {:induction false} AddAllAppend(root: Option<File>, a: seq<Entry>, b: seq<Entry>)
    requires AddAll(root, a).Some? && root.Some?
    ensures AddAll(root, a + b) == AddAll(AddAll(root, a), b)
    decreases |a|
  {
    if a == [] {
      assert a + b == b;
    } else {
      assert (a + b)[0] == a[0] && (a + b)[1..] == a[1..] + b;
      AddAllAppend(Added(root, a[0].path, a[0].d), a[1..], b);
    }
  }

  /** Adding below the last child is adding to the last child. */
  lemma {:induction false} AddedUnder(d: Attrs, cs: seq<File>, k: File, path: Path, e: Attrs)
    requires path != [] && forall i | 0 <= i < |cs| :: cs[i].d.name != k.d.name
    ensures Added(Some(File(d, cs + [k])), [k.d.name] + path, e) ==
      match Added(Some(k), path, e) case None => None case Some(k') => Some(File(d, cs + [k']))
  {
    var f, p := File(d, cs + [k]), [k.d.name] + path;
    var parent := path[..|path| - 1];
    assert IndexOf(cs + [k], k.d.name) == |cs| by { LastIndex(cs, k); }
    assert p[..|p| - 1] == [k.d.name] + parent;
    assert ([k.d.name] + parent)[1..] == parent && ([k.d.name] + parent)[0] == k.d.name;
    assert forall k' :: (cs + [k])[|cs| := k'] == cs + [k'];
  }

  lemma {:induction false} LastIndex(cs: seq<File>, k: File)
    requires forall i | 0 <= i < |cs| :: cs[i].d.name != k.d.name
    ensures IndexOf(cs + [k], k.d.name) == |cs|
    decreases |cs|
  {
    assert (cs + [k])[|cs|] == k;
    assert forall i | 0 <= i < |cs| :: (cs + [k])[i] == cs[i];
  }

  lemma {:induction false} AddAllUnder(d: Attrs, cs: seq<File>, k: File, es: seq<Entry>)
    requires (forall e | e in es :: e.path != []) && forall i | 0 <= i < |cs| :: cs[i].d.name != k.d.name
    requires AddAll(Some(k), es).Some?
    ensures AddAll(Some(File(d, cs + [k])), EntriesUnder(k.d.name, es)) == Some(File(d, cs + [AddAll(Some(k), es).value]))
    decreases |es|
  {
    if es != [] {
      var e := es[0];
      assert e in es;
      AddedUnder(d, cs, k, e.path, e.d);
      var k' := Added(Some(k), e.path, e.d).value;
      assert k'.d.name == k.d.name by { AddedName(k, e.path, e.d); }
      AddAllUnder(d, cs, k', es[1..]);
      assert EntriesUnder(k.d.name, es)[1..] == EntriesUnder(k.d.name, es[1..]);
    }
  }

  lemma {:induction false} AddedName(f: File, path: Path, d: Attrs)
    requires path != [] && Added(Some(f), path, d).Some?
    ensures Added(Some(f), path, d).value.d == f.d
  {}

  lemma {:induction false} BelowPaths(cs: seq<File>)
    ensures forall e | e in Below(cs) :: e.path != []
    decreases cs
  {
    if cs != [] {
      BelowPaths(cs[..|cs| - 1]);
      UnderPaths(cs[|cs| - 1].d.name, Files(cs[|cs| - 1]));
    }
  }

  lemma {:induction false} UnderPaths(name: string, es: seq<Entry>)
    ensures forall e | e in EntriesUnder(name, es) :: e.path != []
    decreases |es|
  {
    if es != [] { UnderPaths(name, es[1..]); }
  }

  lemma {:induction false} ButLast(cs: seq<File>)
    requires ByName(cs) && cs != []
    ensures var n := |cs| - 1;
            && ByName(cs[..n]) && cs == cs[..n] + [cs[n]]
            && (forall i | 0 <= i < n :: cs[i].d.name != cs[n].d.name)
            && InsertByName(cs[..n], File(cs[n].d, [])) == cs[..n] + [File(cs[n].d, [])]
  {
    hide StrCmp;
    var n := |cs| - 1;
    forall i | 0 <= i < n ensures cs[i].d.name != cs[n].d.name {
      assert StrCmp(cs[i].d.name, cs[n].d.name) < 0;
      StrCmpEq(cs[i].d.name, cs[n].d.name);
    }
    if n > 0 {
      assert StrCmp(cs[n - 1].d.name, cs[n].d.name) < 0;
      StrCmpEq(cs[n - 1].d.name, cs[n].d.name);
    }
  }

  /** Adding the entries below a file, in preorder, makes its children. */
  lemma {:induction false} BelowBuilds(d: Attrs, cs: seq<File>)
    requires ByName(cs) && forall c | c in cs :: Sorted(c)
    ensures AddAll(Some(File(d, [])), Below(cs)) == Some(File(d, cs))
    decreases cs
  {
    if cs != [] {
      var n := |cs| - 1;
      var init, last := cs[..n], cs[n];
      ButLast(cs);
      assert last in cs && forall c | c in init :: c in cs;
      BelowBuilds(d, init);
      LastBuilds(d, init, last);
      AddAllAppend(Some(File(d, [])), Below(init), EntriesUnder(last.d.name, Files(last)));
    }
  }

  lemma {:induction false} LastBuilds(d: Attrs, init: seq<File>, last: File)
    requires Sorted(last) && forall i | 0 <= i < |init| :: init[i].d.name != last.d.name
    requires InsertByName(init, File(last.d, [])) == init + [File(last.d, [])]
    ensures AddAll(Some(File(d, init)), EntriesUnder(last.d.name, Files(last))) == Some(File(d, init + [last]))
    decreases last, 1
  {
    var k, name, es := File(last.d, []), last.d.name, Below(last.child);
    BelowBuilds(last.d, last.child);
    BelowPaths(last.child);
    AddAllUnder(d, init, k, es);
    assert Files(last)[1..] == es && [name] + [] == [name];
    var all := EntriesUnder(name, Files(last));
    assert all == [Entry([name], last.d)] + EntriesUnder(name, es);
    assert all[1..] == EntriesUnder(name, es);
    assert [name][..0] == [];
    assert IndexOf(init, name) == |init|;
    assert Added(Some(File(d, init)), [name], last.d) == Some(File(d, init + [k]));
  }

  /** Saving a tree as its entries in preorder, and adding them one by one, gives back the tree. */
  lemma {:induction false} SavedIsRebuilt(f: File)
    requires Sorted(f)
    ensures AddAll(None, Files(f)) == Some(f)
  {
    BelowBuilds(f.d, f.child);
    assert Files(f)[1..] == Below(f.child);
  }

  // ----- trees of nodes -----

  function Ids(ks: seq<Placed>): (ids: seq<nat>)
    ensures |ids| == |ks|
  {
    if ks == [] then [] else [ks[0].id] + Ids(ks[1..])
  }

  lemma {:induction false} IdsAre(ks: seq<Placed>)
    ensures forall i | 0 <= i < |ks| :: Ids(ks)[i] == ks[i].id
    decreases |ks|
  {
    if ks != [] { IdsAre(ks[1..]); }
  }

  lemma SameIdSeq(ks: seq<Placed>, ids: seq<nat>)
    requires |ids| == |ks| && forall i | 0 <= i < |ks| :: ids[i] == ks[i].id
    ensures Ids(ks) == ids
  {
    IdsAre(ks);
  }

  /** The nodes make the tree t. */
  predicate Sits(nodes: seq<Node>, t: Placed)
  {
    t.id < |nodes| && nodes[t.id] == Node(t.d, Ids(t.kids)) && forall k | k in t.kids :: Sits(nodes, k)
  }

  function AllIds(t: Placed): set<nat>
  {
    {t.id} + KidsIds(t.kids)
  }

  function KidsIds(ks: seq<Placed>): set<nat>
  {
    set k, i | k in ks && i in AllIds(k) :: i
  }

  /** No node is in two places. */
  predicate Apart(t: Placed)
  {
    && t.id !in KidsIds(t.kids)
    && (forall k | k in t.kids :: Apart(k))
    && (forall i, j | 0 <= i < j < |t.kids| :: AllIds(t.kids[i]) !! AllIds(t.kids[j]))
  }

  function Value(t: Placed): File
  {
    File(t.d, Values(t.kids))
  }

  function Values(ks: seq<Placed>): (cs: seq<File>)
    ensures |cs| == |ks|
  {
    if ks == [] then [] else [Value(ks[0])] + Values(ks[1..])
  }

  lemma {:induction false} ValuesAre(ks: seq<Placed>)
    ensures forall i | 0 <= i < |ks| :: Values(ks)[i] == Value(ks[i])
    decreases |ks|
  {
    if ks != [] { ValuesAre(ks[1..]); }
  }

  lemma SameValues(ks: seq<Placed>, cs: seq<File>)
    requires |cs| == |ks| && forall i | 0 <= i < |ks| :: cs[i] == Value(ks[i])
    ensures Values(ks) == cs
  {
    ValuesAre(ks);
  }

  function WalkP(t: Placed, path: Path): Option<Placed>
    decreases |path|
  {
    if path == [] then Some(t)
    else
      var i := IndexOf(Values(t.kids), path[0]);
      if i == |t.kids| then None else WalkP(t.kids[i], path[1..])
  }

  function SetP(t: Placed, path: Path, q: Placed): Placed
    requires WalkP(t, path).Some?
    decreases |path|
  {
    if path == [] then q
    else
      var i := IndexOf(Values(t.kids), path[0]);
      t.(kids := t.kids[i := SetP(t.kids[i], path[1..], q)])
  }

  lemma {:induction false} WalkValue(t: Placed, path: Path)
    ensures WalkP(t, path).Some? <==> Walk(Value(t), path).Some?
    ensures WalkP(t, path).Some? ==> Walk(Value(t), path).value == Value(WalkP(t, path).value)
    decreases |path|
  {
    if path != [] {
      var i := IndexOf(Values(t.kids), path[0]);
      ValuesAre(t.kids);
      if i < |t.kids| { WalkValue(t.kids[i], path[1..]); }
    }
  }

  lemma {:induction false} WalkSits(nodes: seq<Node>, t: Placed, path: Path)
    requires Sits(nodes, t) && Apart(t) && WalkP(t, path).Some?
    ensures Sits(nodes, WalkP(t, path).value) && Apart(WalkP(t, path).value) && AllIds(WalkP(t, path).value) <= AllIds(t)
    decreases |path|
  {
    if path != [] {
      var i := IndexOf(Values(t.kids), path[0]);
      assert t.kids[i] in t.kids;
      WalkSits(nodes, t.kids[i], path[1..]);
    }
  }

  lemma KidIn(t: Placed, k: Placed)
    requires k in t.kids
    ensures AllIds(k) <= KidsIds(t.kids) <= AllIds(t)
  {}

  lemma {:induction false} SitsBound(nodes: seq<Node>, t: Placed)
    requires Sits(nodes, t)
    ensures forall i | i in AllIds(t) :: i < |nodes|
  {
    forall i | i in AllIds(t) ensures i < |nodes| {
      if i != t.id {
        assert i in KidsIds(t.kids);
        var k :| k in t.kids && i in AllIds(k);
        SitsBound(nodes, k);
      }
    }
  }

  /** A tree whose nodes do not change still sits. */
  lemma {:induction false} SitsStill(nodes: seq<Node>, nodes': seq<Node>, t: Placed)
    requires Sits(nodes, t) && |nodes'| >= |nodes| && forall i | i in AllIds(t) && i < |nodes| :: nodes'[i] == nodes[i]
    ensures Sits(nodes', t)
  {
    forall k | k in t.kids ensures Sits(nodes', k) {
      KidIn(t, k);
      SitsStill(nodes, nodes', k);
    }
  }

  /** The nodes of a subtree changed to make q, perhaps with new nodes too. */
  ghost predicate Changed(nodes: seq<Node>, nodes': seq<Node>, was: Placed, q: Placed)
  {
    && |nodes'| >= |nodes| && (forall i | 0 <= i < |nodes| && i !in AllIds(was) :: nodes'[i] == nodes[i])
    && Sits(nodes', q) && Apart(q) && q.id == was.id && q.d.name == was.d.name
    && (forall i | i in AllIds(q) :: i in AllIds(was) || i >= |nodes|)
  }

  lemma {:induction false} SetSits(nodes: seq<Node>, nodes': seq<Node>, t: Placed, path: Path, q: Placed)
    requires Sits(nodes, t) && Apart(t) && WalkP(t, path).Some? && Changed(nodes, nodes', WalkP(t, path).value, q)
    ensures Changed(nodes, nodes', t, SetP(t, path, q))
    ensures Value(SetP(t, path, q)) == (WalkValue(t, path); SetAt(Value(t), path, Value(q)))
    ensures WalkP(SetP(t, path, q), path) == Some(q)
    decreases |path|
  {
    WalkValue(t, path);
    if path != [] {
      var i := IndexOf(Values(t.kids), path[0]);
      var k, r := t.kids[i], SetP(t, path, q);
      assert k in t.kids && Sits(nodes, k) && Apart(k);
      SetSits(nodes, nodes', k, path[1..], q);
      WalkValue(k, path[1..]);
      var k' := SetP(k, path[1..], q);
      ChangedFacts(nodes, nodes', k, k');
      assert r == t.(kids := t.kids[i := k']);
      hide Sits, Apart, AllIds, SetP, Changed, Ids, KidsIds;
      KidSits(nodes, nodes', t, i, k');
      ValuesAre(t.kids);
      SameValues(r.kids, Values(t.kids)[i := Value(k')]);
      SameIndex(Values(t.kids), i, Value(k'), path[0]);
    }
  }

  lemma {:induction false} SameIndex(cs: seq<File>, i: nat, c: File, name: string)
    requires i < |cs| && i == IndexOf(cs, name) && c.d.name == cs[i].d.name
    ensures IndexOf(cs[i := c], name) == i
  {
    var ds := cs[i := c];
    assert ds[i] == c && forall j | 0 <= j < i :: ds[j] == cs[j];
    var r := IndexOf(ds, name);
    assert r <= i;
  }

  /** The siblings of a child that changed did not, and have nothing in common with it. */
  lemma {:induction false} SiblingSits(nodes: seq<Node>, nodes': seq<Node>, t: Placed, i: nat, k: Placed, j: nat)
    requires Sits(nodes, t) && Apart(t) && i < |t.kids| && Changed(nodes, nodes', t.kids[i], k) && j < |t.kids| && j != i
    ensures Sits(nodes', t.kids[j]) && Apart(t.kids[j]) && AllIds(t.kids[j]) !! AllIds(k) && AllIds(t.kids[j]) <= KidsIds(t.kids)
  {
    assert t.kids[j] in t.kids && Sits(nodes, t.kids[j]) && Apart(t.kids[j]);
    KidIn(t, t.kids[j]);
    SitsBound(nodes, t.kids[j]);
    if i < j { assert AllIds(t.kids[i]) !! AllIds(t.kids[j]); } else { assert AllIds(t.kids[j]) !! AllIds(t.kids[i]); }
    hide Sits, Apart;
    SitsStill(nodes, nodes', t.kids[j]);
  }

  lemma MakeNode(nodes: seq<Node>, id: nat, d: Attrs, ks: seq<Placed>)
    requires id < |nodes| && nodes[id] == Node(d, Ids(ks)) && id !in KidsIds(ks)
    requires forall j | 0 <= j < |ks| :: Sits(nodes, ks[j]) && Apart(ks[j])
    requires forall i, j | 0 <= i < j < |ks| :: AllIds(ks[i]) !! AllIds(ks[j])
    ensures Sits(nodes, Placed(id, d, ks)) && Apart(Placed(id, d, ks))
  {}

  /** What is in the new children. */
  lemma NewIds(n: nat, t: Placed, i: nat, k: Placed)
    requires i < |t.kids| && forall x | x in AllIds(k) :: x in AllIds(t.kids[i]) || x >= n
    ensures forall x | x in KidsIds(t.kids[i := k]) :: x in KidsIds(t.kids) || x >= n
  {
    assert t.kids[i] in t.kids;
    KidIn(t, t.kids[i]);
    var ks := t.kids[i := k];
    forall x | x in KidsIds(ks) ensures x in KidsIds(t.kids) || x >= n {
      var c :| c in ks && x in AllIds(c);
      var j :| 0 <= j < |ks| && ks[j] == c;
      if j != i { assert c in t.kids; }
    }
  }

  lemma {:induction false} KidsSit(nodes: seq<Node>, nodes': seq<Node>, t: Placed, i: nat, k: Placed, ks: seq<Placed>)
    requires Sits(nodes, t) && Apart(t) && i < |t.kids| && Changed(nodes, nodes', t.kids[i], k) && ks == t.kids[i := k]
    ensures forall j | 0 <= j < |t.kids| && j != i :: AllIds(t.kids[j]) !! AllIds(k)
    ensures forall j | 0 <= j < |ks| :: Sits(nodes', ks[j]) && Apart(ks[j])
  {
    assert Sits(nodes', k) && Apart(k);
    hide *;
    forall j | 0 <= j < |t.kids| && j != i
      ensures Sits(nodes', ks[j]) && Apart(ks[j]) && AllIds(t.kids[j]) !! AllIds(k)
    {
      SiblingSits(nodes, nodes', t, i, k, j);
    }
  }

  lemma {:induction false} NodeStays(nodes: seq<Node>, nodes': seq<Node>, t: Placed, i: nat, k: Placed)
    requires Sits(nodes, t) && Apart(t) && i < |t.kids| && Changed(nodes, nodes', t.kids[i], k)
    ensures |nodes| <= |nodes'| && t.id < |nodes| && nodes'[t.id] == Node(t.d, Ids(t.kids[i := k])) && t.id !in KidsIds(t.kids)
    ensures forall x | x in AllIds(k) :: x in AllIds(t.kids[i]) || x >= |nodes|
    ensures forall x | 0 <= x < |nodes| && x !in AllIds(t) :: nodes'[x] == nodes[x]
  {
    NodeOf(nodes, t);
    ChangedFacts(nodes, nodes', t.kids[i], k);
    hide *;
    assert t.kids[i] in t.kids;
    KidIn(t, t.kids[i]);
    SameIds(t.kids, i, k);
  }

  lemma NodeOf(nodes: seq<Node>, t: Placed)
    requires Sits(nodes, t) && Apart(t)
    ensures t.id < |nodes| && nodes[t.id] == Node(t.d, Ids(t.kids)) && t.id !in KidsIds(t.kids) && t.id in AllIds(t)
  {}

  lemma ChangedFacts(nodes: seq<Node>, nodes': seq<Node>, was: Placed, q: Placed)
    requires Changed(nodes, nodes', was, q)
    ensures |nodes'| >= |nodes| && (forall i | 0 <= i < |nodes| && i !in AllIds(was) :: nodes'[i] == nodes[i])
    ensures Sits(nodes', q) && Apart(q) && q.id == was.id && q.d.name == was.d.name
    ensures forall i | i in AllIds(q) :: i in AllIds(was) || i >= |nodes|
  {}

  lemma SameIds(ks: seq<Placed>, i: nat, k: Placed)
    requires i < |ks| && k.id == ks[i].id
    ensures Ids(ks[i := k]) == Ids(ks)
  {
    IdsAre(ks);
    SameIdSeq(ks[i := k], Ids(ks));
  }

  lemma ChangedIs(nodes: seq<Node>, nodes': seq<Node>, t: Placed, ks: seq<Placed>)
    requires |nodes| <= |nodes'| && Sits(nodes', t.(kids := ks)) && Apart(t.(kids := ks))
    requires forall x | 0 <= x < |nodes| && x !in AllIds(t) :: nodes'[x] == nodes[x]
    requires forall x | x in KidsIds(ks) :: x in KidsIds(t.kids) || x >= |nodes|
    ensures Changed(nodes, nodes', t, t.(kids := ks))
  {
    var r := t.(kids := ks);
    assert AllIds(r) == {t.id} + KidsIds(ks) && AllIds(t) == {t.id} + KidsIds(t.kids);
    hide Sits, Apart, KidsIds, AllIds;
  }

  /** A child changed, and its siblings did not. */
  lemma {:induction false} KidSits(nodes: seq<Node>, nodes': seq<Node>, t: Placed, i: nat, k: Placed)
    requires Sits(nodes, t) && Apart(t) && i < |t.kids| && Changed(nodes, nodes', t.kids[i], k)
    ensures Changed(nodes, nodes', t, t.(kids := t.kids[i := k]))
  {
    hide *;
    var ks := t.kids[i := k];
    KidsSit(nodes, nodes', t, i, k, ks);
    NodeStays(nodes, nodes', t, i, k);
    KidsApart(t, i, k);
    NewIds(|nodes|, t, i, k);
    MakeNode(nodes', t.id, t.d, ks);
    ChangedIs(nodes, nodes', t, ks);
  }

  lemma KidsApart(t: Placed, i: nat, k: Placed)
    requires Apart(t) && i < |t.kids| && forall j | 0 <= j < |t.kids| && j != i :: AllIds(t.kids[j]) !! AllIds(k)
    ensures var ks := t.kids[i := k];
            forall j, m | 0 <= j < m < |ks| :: AllIds(ks[j]) !! AllIds(ks[m])
  {
    var ks := t.kids[i := k];
    forall j, m | 0 <= j < m < |ks| ensures AllIds(ks[j]) !! AllIds(ks[m]) {
      if j != i && m != i { assert AllIds(t.kids[j]) !! AllIds(t.kids[m]); }
    }
  }

  // ----- adding a node -----

  function NameAt(nodes: seq<Node>, id: nat): string
  {
    if id < |nodes| then nodes[id].d.name else ""
  }

  /** The children, with one more, sorted by name. */
  function InsertId(nodes: seq<Node>, ids: seq<nat>, id: nat): seq<nat>
  {
    if ids == [] || StrCmp(NameAt(nodes, id), NameAt(nodes, ids[|ids| - 1])) >= 0 then ids + [id]
    else InsertId(nodes, ids[..|ids| - 1], id) + [ids[|ids| - 1]]
  }

  function InsertP(ks: seq<Placed>, x: Placed): seq<Placed>
  {
    if ks == [] || StrCmp(x.d.name, ks[|ks| - 1].d.name) >= 0 then ks + [x]
    else InsertP(ks[..|ks| - 1], x) + [ks[|ks| - 1]]
  }

  lemma OneMore(ks: seq<Placed>, x: Placed)
    ensures Ids(ks + [x]) == Ids(ks) + [x.id] && Values(ks + [x]) == Values(ks) + [Value(x)]
  {
    ValuesAre(ks);
    IdsAre(ks);
    SameValues(ks + [x], Values(ks) + [Value(x)]);
    SameIdSeq(ks + [x], Ids(ks) + [x.id]);
  }

  lemma InsertIdStep(nodes: seq<Node>, ids: seq<nat>, last: nat, id: nat)
    ensures InsertId(nodes, ids + [last], id) ==
      if StrCmp(NameAt(nodes, id), NameAt(nodes, last)) >= 0 then ids + [last] + [id] else InsertId(nodes, ids, id) + [last]
  {
    assert (ids + [last])[..|ids|] == ids;
  }

  lemma InsertPStep(ks: seq<Placed>, last: Placed, x: Placed)
    ensures InsertP(ks + [last], x) == if StrCmp(x.d.name, last.d.name) >= 0 then ks + [last] + [x] else InsertP(ks, x) + [last]
  {
    assert (ks + [last])[..|ks|] == ks;
  }

  lemma InsertByNameStep(cs: seq<File>, last: File, f: File)
    ensures InsertByName(cs + [last], f) ==
      if StrCmp(f.d.name, last.d.name) >= 0 then cs + [last] + [f] else InsertByName(cs, f) + [last]
  {
    assert (cs + [last])[..|cs|] == cs;
  }

  lemma NoneYet(nodes: seq<Node>, x: Placed)
    ensures InsertId(nodes, Ids([]), x.id) == Ids(InsertP([], x)) && Values(InsertP([], x)) == InsertByName(Values([]), Value(x))
  {
    OneMore([], x);
    assert [] + [x] == [x];
  }

  lemma {:induction false} InsertSame(nodes: seq<Node>, ks: seq<Placed>, x: Placed)
    requires NameAt(nodes, x.id) == x.d.name && forall i | 0 <= i < |ks| :: NameAt(nodes, ks[i].id) == ks[i].d.name
    ensures InsertId(nodes, Ids(ks), x.id) == Ids(InsertP(ks, x))
    ensures Values(InsertP(ks, x)) == InsertByName(Values(ks), Value(x))
    decreases |ks|
  {
    if ks == [] {
      NoneYet(nodes, x);
    } else {
      var init, last := ks[..|ks| - 1], ks[|ks| - 1];
      assert ks == init + [last] && Value(x).d == x.d && Value(last).d == last.d;
      hide *;
      OneMore(init, last);
      OneMore(init + [last], x);
      InsertSame(nodes, init, x);
      OneMore(InsertP(init, x), last);
      InsertIdStep(nodes, Ids(init), last.id, x.id);
      InsertPStep(init, last, x);
      InsertByNameStep(Values(init), Value(last), Value(x));
    }
  }

  lemma {:induction false} InsertPMembers(ks: seq<Placed>, x: Placed)
    ensures |InsertP(ks, x)| == |ks| + 1
    ensures exists at :: 0 <= at <= |ks| && InsertP(ks, x) == ks[..at] + [x] + ks[at..]
    decreases |ks|
  {
    hide StrCmp;
    var n := |ks| - 1;
    if ks == [] || StrCmp(x.d.name, ks[n].d.name) >= 0 {
      assert ks[..|ks|] + [x] + ks[|ks|..] == ks + [x];
    } else {
      InsertPMembers(ks[..n], x);
      var at :| 0 <= at <= n && InsertP(ks[..n], x) == ks[..n][..at] + [x] + ks[..n][at..];
      assert ks[..n][..at] + [x] + ks[..n][at..] + [ks[n]] == ks[..at] + [x] + ks[at..];
    }
  }

  /** A child updated in place. */
  lemma {:induction false} KidUpdated(nodes: seq<Node>, q: Placed, i: nat, d: Attrs)
    requires Sits(nodes, q) && Apart(q) && i < |q.kids| && d.name == q.kids[i].d.name
    ensures q.kids[i].id < |nodes| && nodes[q.id].child[i] == q.kids[i].id
    ensures var c := q.kids[i];
            var k := Placed(c.id, d, if KeepsChildren(d) then c.kids else []);
            Changed(nodes, nodes[c.id := Node(d, if KeepsChildren(d) then nodes[c.id].child else [])], q, q.(kids := q.kids[i := k]))
  {
    var c := q.kids[i];
    assert c in q.kids;
    IdsAre(q.kids);
    NodeOf(nodes, c);
    var k := Placed(c.id, d, if KeepsChildren(d) then c.kids else []);
    var nodes' := nodes[c.id := Node(d, if KeepsChildren(d) then nodes[c.id].child else [])];
    KidPlaced(nodes, c, d);
    KidSits(nodes, nodes', q, i, k);
  }

  lemma LeafSits(nodes: seq<Node>, x: Placed)
    requires x.id < |nodes| && x.kids == [] && nodes[x.id] == Node(x.d, [])
    ensures Sits(nodes, x) && Apart(x) && AllIds(x) == {x.id}
  {
    assert Ids(x.kids) == [] && forall k :: k !in x.kids;
    assert KidsIds(x.kids) == {};
  }

  lemma {:induction false} KidPlaced(nodes: seq<Node>, c: Placed, d: Attrs)
    requires Sits(nodes, c) && Apart(c) && d.name == c.d.name
    ensures c.id < |nodes|
    ensures Changed(nodes, nodes[c.id := Node(d, if KeepsChildren(d) then nodes[c.id].child else [])], c,
                    Placed(c.id, d, if KeepsChildren(d) then c.kids else []))
  {
    NodeOf(nodes, c);
    KidsOf(nodes, c);
    if KeepsChildren(d) {
      KidRenewed(nodes, c, d);
    } else {
      LeafSits(nodes[c.id := Node(d, [])], Placed(c.id, d, []));
    }
  }

  lemma {:induction false} KidRenewed(nodes: seq<Node>, c: Placed, d: Attrs)
    requires Sits(nodes, c) && Apart(c) && d.name == c.d.name
    ensures c.id < |nodes| && Changed(nodes, nodes[c.id := Node(d, nodes[c.id].child)], c, c.(d := d))
  {
    hide *;
    NodeOf(nodes, c);
    KidsDisjoint(c);
    var nodes' := nodes[c.id := Node(d, Ids(c.kids))];
    KidsStill(nodes, nodes', c);
    MakeNode(nodes', c.id, d, c.kids);
    RenewedIs(nodes, nodes', c, d);
  }

  lemma {:induction false} KidsStill(nodes: seq<Node>, nodes': seq<Node>, c: Placed)
    requires Sits(nodes, c) && Apart(c) && |nodes'| == |nodes| && forall i | 0 <= i < |nodes| && i != c.id :: nodes'[i] == nodes[i]
    ensures forall j | 0 <= j < |c.kids| :: Sits(nodes', c.kids[j]) && Apart(c.kids[j])
  {
    hide *;
    NodeOf(nodes, c);
    KidsOf(nodes, c);
    forall j | 0 <= j < |c.kids| ensures Sits(nodes', c.kids[j]) && Apart(c.kids[j]) {
      assert c.kids[j] in c.kids;
      KidIn(c, c.kids[j]);
      SitsStill(nodes, nodes', c.kids[j]);
    }
  }

  lemma KidsDisjoint(c: Placed)
    requires Apart(c)
    ensures forall i, j | 0 <= i < j < |c.kids| :: AllIds(c.kids[i]) !! AllIds(c.kids[j])
  {}

  lemma RenewedIs(nodes: seq<Node>, nodes': seq<Node>, c: Placed, d: Attrs)
    requires |nodes| <= |nodes'| && Sits(nodes', c.(d := d)) && Apart(c.(d := d)) && c.id in AllIds(c) && d.name == c.d.name
    requires forall x | 0 <= x < |nodes| && x != c.id :: nodes'[x] == nodes[x]
    ensures Changed(nodes, nodes', c, c.(d := d))
  {
    assert AllIds(c.(d := d)) == AllIds(c);
    hide Sits, Apart, AllIds;
  }

  /** A new child, in its place. */
  lemma {:induction false} KidAdded(nodes: seq<Node>, q: Placed, d: Attrs, ids: seq<nat>)
    requires Sits(nodes, q) && Apart(q)
    requires ids == InsertId(nodes + [Node(d, [])], nodes[q.id].child, |nodes|)
    ensures var x := Placed(|nodes|, d, []);
            var q' := q.(kids := InsertP(q.kids, x));
            && Changed(nodes, (nodes + [Node(d, [])])[q.id := Node(q.d, ids)], q, q')
            && Value(q') == File(q.d, InsertByName(Values(q.kids), File(d, [])))
  {
    var x, mid := Placed(|nodes|, d, []), nodes + [Node(d, [])];
    var nodes', ks := mid[q.id := Node(q.d, ids)], InsertP(q.kids, x);
    forall i | 0 <= i < |q.kids| ensures NameAt(mid, q.kids[i].id) == q.kids[i].d.name {
      assert q.kids[i] in q.kids && Sits(nodes, q.kids[i]);
    }
    InsertSame(mid, q.kids, x);
    InsertPMembers(q.kids, x);
    SitsBound(nodes, q);
    NewSits(nodes, nodes', q, x, ks);
  }

  lemma {:induction false} NewSits(nodes: seq<Node>, nodes': seq<Node>, q: Placed, x: Placed, ks: seq<Placed>)
    requires Sits(nodes, q) && Apart(q) && x == Placed(|nodes|, x.d, []) && forall i | i in AllIds(q) :: i < |nodes|
    requires |nodes'| == |nodes| + 1 && nodes'[|nodes|] == Node(x.d, []) && nodes'[q.id] == Node(q.d, Ids(ks))
    requires forall i | 0 <= i < |nodes| && i != q.id :: nodes'[i] == nodes[i]
    requires exists at :: 0 <= at <= |q.kids| && ks == q.kids[..at] + [x] + q.kids[at..]
    ensures Changed(nodes, nodes', q, q.(kids := ks))
  {
    var at :| 0 <= at <= |q.kids| && ks == q.kids[..at] + [x] + q.kids[at..];
    LeafSits(nodes', x);
    NodeOf(nodes, q);
    OldKidsSit(nodes, nodes', q);
    assert Apart(q);
    hide *;
    assert x.id == |nodes|;
    InsertedApart(q, x, at, ks);
    InsertedIds(q, x, at, ks);
    MakeNode(nodes', q.id, q.d, ks);
    ChangedIs(nodes, nodes', q, ks);
  }

  lemma {:induction false} OldKidsSit(nodes: seq<Node>, nodes': seq<Node>, q: Placed)
    requires Sits(nodes, q) && Apart(q) && (forall i | i in AllIds(q) :: i < |nodes|) && |nodes'| >= |nodes|
    requires forall i | 0 <= i < |nodes| && i != q.id :: nodes'[i] == nodes[i]
    ensures forall k | k in q.kids :: Sits(nodes', k) && Apart(k) && |nodes| !in AllIds(k)
    ensures |nodes| !in KidsIds(q.kids)
  {
    NodeOf(nodes, q);
    assert KidsIds(q.kids) <= AllIds(q);
    assert |nodes| !in AllIds(q);
    KidsOf(nodes, q);
    hide *;
    forall k | k in q.kids ensures Sits(nodes', k) && |nodes| !in AllIds(k) {
      KidIn(q, k);
      SitsStill(nodes, nodes', k);
    }
  }

  lemma KidsOf(nodes: seq<Node>, q: Placed)
    requires Sits(nodes, q) && Apart(q)
    ensures forall k | k in q.kids :: Sits(nodes, k) && Apart(k)
  {}

  lemma InsertedAt(q: Placed, x: Placed, at: nat, ks: seq<Placed>, j: nat)
    requires at <= |q.kids| && ks == q.kids[..at] + [x] + q.kids[at..] && j < |ks|
    ensures |ks| == |q.kids| + 1 && ks[j] == (if j < at then q.kids[j] else if j == at then x else q.kids[j - 1])
  {}

  lemma InsertedApart(q: Placed, x: Placed, at: nat, ks: seq<Placed>)
    requires Apart(q) && at <= |q.kids| && ks == q.kids[..at] + [x] + q.kids[at..] && AllIds(x) == {x.id}
    requires forall j | 0 <= j < |q.kids| :: x.id !in AllIds(q.kids[j])
    ensures forall i, j | 0 <= i < j < |ks| :: AllIds(ks[i]) !! AllIds(ks[j])
    ensures forall j | 0 <= j < |ks| :: ks[j] == x || ks[j] in q.kids
  {
    forall j | 0 <= j < |ks| ensures ks[j] == x || ks[j] in q.kids { InsertedAt(q, x, at, ks, j); }
    forall i, j | 0 <= i < j < |ks| ensures AllIds(ks[i]) !! AllIds(ks[j]) {
      InsertedAt(q, x, at, ks, i);
      InsertedAt(q, x, at, ks, j);
      if i != at && j != at {
        assert AllIds(q.kids[if i < at then i else i - 1]) !! AllIds(q.kids[if j < at then j else j - 1]);
      }
    }
  }

  lemma InsertedIds(q: Placed, x: Placed, at: nat, ks: seq<Placed>)
    requires at <= |q.kids| && ks == q.kids[..at] + [x] + q.kids[at..] && AllIds(x) == {x.id}
    ensures forall y | y in KidsIds(ks) :: y in KidsIds(q.kids) || y == x.id
  {
    forall y | y in KidsIds(ks) ensures y in KidsIds(q.kids) || y == x.id {
      var c :| c in ks && y in AllIds(c);
      if c != x { assert c in q.kids; }
    }
  }

  // ----- slices -----

  /** A file as it is kept: its children are the first len of an array that others may share. */
  datatype Raw = Raw(d: Attrs, arr: nat, len: nat)

  /** The arrays are as long as their capacity; the first one is for slices that are nil. */
  predicate Wf(files: seq<Raw>, arrays: seq<seq<nat>>)
  {
    && arrays != [] && arrays[0] == []
    && forall i | 0 <= i < |files| :: files[i].arr < |arrays| && files[i].len <= |arrays[files[i].arr]|
  }

  /** The nodes that files and arrays stand for. */
  function Shown(files: seq<Raw>, arrays: seq<seq<nat>>): (nodes: seq<Node>)
    requires Wf(files, arrays)
    ensures |nodes| == |files|
    ensures forall i | 0 <= i < |files| :: nodes[i] == Node(files[i].d, arrays[files[i].arr][..files[i].len])
  {
    seq(|files|, i requires 0 <= i < |files| => Node(files[i].d, arrays[files[i].arr][..files[i].len]))
  }

  /** Only roots, the one of now and those before, share arrays. */
  predicate Own(files: seq<Raw>, roots: set<nat>)
  {
    forall i, j | 0 <= i < |files| && 0 <= j < |files| && i != j && files[i].arr == files[j].arr != 0 :: i in roots && j in roots
  }

  /** The room left in the array of a slice. */
  function Room(files: seq<Raw>, arrays: seq<seq<nat>>, i: nat): nat
    requires Wf(files, arrays) && i < |files|
  {
    |arrays[files[i].arr]| - files[i].len
  }

  /** The array of i has its first elements replaced, in place if there is room, and i one more child: a leaf. */
  predicate Appended(files: seq<Raw>, arrays: seq<seq<nat>>, files': seq<Raw>, arrays': seq<seq<nat>>, i: nat, d: Attrs, ids: seq<nat>)
    requires Wf(files, arrays) && i < |files|
  {
    && Wf(files', arrays') && |files'| == |files| + 1 && files'[|files|] == Raw(d, 0, 0)
    && (forall j | 0 <= j < |files| && j != i :: files'[j] == files[j])
    && files'[i].d == files[i].d && files'[i].len == |ids| == files[i].len + 1
    && arrays'[files'[i].arr][..|ids|] == ids
    && (if Room(files, arrays, i) > 0 then files'[i].arr == files[i].arr && |arrays'| == |arrays|
        else files'[i].arr == |arrays| && |arrays'| == |arrays| + 1)
    && (forall a | 0 <= a < |arrays| && a != files'[i].arr :: arrays'[a] == arrays[a])
  }

  lemma {:induction false} AppendedShown(files: seq<Raw>, arrays: seq<seq<nat>>, files': seq<Raw>, arrays': seq<seq<nat>>, i: nat, d: Attrs, ids: seq<nat>)
    requires Wf(files, arrays) && i < |files| && Appended(files, arrays, files', arrays', i, d, ids)
    ensures Shown(files', arrays')[|files|] == Node(d, []) && Shown(files', arrays')[i] == Node(files[i].d, ids)
    ensures forall j | 0 <= j < |files| && j != i && files[j].arr != files'[i].arr :: Shown(files', arrays')[j] == Shown(files, arrays)[j]
    ensures forall j | 0 <= j < |files| && j != i && files[j].arr == files'[i].arr && files[j].len <= |ids| ::
              Shown(files', arrays')[j] == Node(files[j].d, ids[..files[j].len])
  {
    forall j | 0 <= j < |files| && j != i && files[j].arr == files'[i].arr && files[j].len <= |ids|
      ensures Shown(files', arrays')[j] == Node(files[j].d, ids[..files[j].len])
    {
      assert arrays'[files'[i].arr][..|ids|][..files[j].len] == arrays'[files'[i].arr][..files[j].len];
    }
  }

  // ----- what a root added again leads to -----

  /** Each name once. */
  predicate NamesOnce(cs: seq<File>)
  {
    forall i, j | 0 <= i < j < |cs| :: cs[i].d.name != cs[j].d.name
  }

  predicate Has(f: File, name: string)
  {
    IndexOf(f.child, name) < |f.child|
  }

  /**
    The tree once d is added to the root by way of a root that was replaced, was. Children both
    have are updated. A new one goes to the old root; if there is room in the array that both
    still share, it is put in its place in there, and the tree has what is now in the array
    where its children were: as many as before, so that one of them is lost.
   */
  function StaleAdded(tree: File, was: File, room: bool, d: Attrs): File
  {
    if Has(was, d.name) then (if Has(tree, d.name) then WithChild(tree, d) else tree)
    else if room && |tree.child| <= |was.child| then
      (InsertMembers(was.child, File(d, [])); File(tree.d, InsertByName(was.child, File(d, []))[..|tree.child|]))
    else tree
  }

  /** The room in an array for more children of f once d is added; a new one leaves extra. */
  function SpareAfter(f: File, spare: nat, extra: nat, d: Attrs): nat
  {
    if Has(f, d.name) then spare else if spare > 0 then spare - 1 else extra
  }

  function StaleRun(tree: File, was: File, room: nat, ds: seq<Attrs>): File
    decreases |ds|
  {
    if ds == [] then tree
    else
      StaleRun(StaleAdded(tree, was, room > 0, ds[0]), WithChild(was, ds[0]), SpareAfter(was, room, 0, ds[0]), ds[1..])
  }

  function AllAdded(f: File, ds: seq<Attrs>): File
    decreases |ds|
  {
    if ds == [] then f else AllAdded(WithChild(f, ds[0]), ds[1..])
  }

  predicate NewNames(f: File, ds: seq<Attrs>)
  {
    && (forall i | 0 <= i < |ds| :: !Has(f, ds[i].name))
    && forall i, j | 0 <= i < j < |ds| :: ds[i].name != ds[j].name
  }

  lemma {:induction false} NewNamesNext(f: File, ds: seq<Attrs>)
    requires NewNames(f, ds) && ds != []
    ensures NewNames(WithChild(f, ds[0]), ds[1..]) && |WithChild(f, ds[0]).child| == |f.child| + 1
  {
    var x, g := File(ds[0], []), WithChild(f, ds[0]);
    InsertMembers(f.child, x);
    forall i | 0 <= i < |ds[1..]| ensures !Has(g, ds[1..][i].name) {
      var name := ds[i + 1].name;
      assert ds[0].name != name && !Has(f, name);
      forall j | 0 <= j < |g.child| ensures g.child[j].d.name != name {
        assert g.child[j] in g.child;
      }
    }
  }

  /**
    The root was added again while there was room for some more children where it has them.
    Of the new files that are then added to it, the first ones, as many as there was room
    for, are put in their places by name; the tree has the first n of all these, if it had n,
    and the others, new or old, are not in it.
   */
  lemma {:induction false} FirstNamesStay(tree: File, was: File, room: nat, ds: seq<Attrs>)
    requires |tree.child| <= |was.child| && tree.child == was.child[..|tree.child|] && NewNames(was, ds)
    ensures var k := if |ds| < room then |ds| else room;
            var all, n := AllAdded(was, ds[..k]).child, |tree.child|;
            n <= |all| && StaleRun(tree, was, room, ds) == File(tree.d, all[..n])
    decreases |ds|
  {
    hide *;
    AllAddedNone(was, ds);
    if ds == [] {
      StaleRunNone(tree, was, room, ds);
    } else {
      var was', rest := WithChild(was, ds[0]), ds[1..];
      NewNamesNext(was, ds);
      StaleOne(tree, was, ds);
      StaleRunNext(tree, was, room, ds);
      if room > 0 {
        AllAddedNext(was, ds, if |ds| < room then |ds| else room);
        FirstNamesStay(StaleAdded(tree, was, true, ds[0]), was', room - 1, rest);
      } else {
        NoRoom(tree, was', rest);
      }
    }
  }

  lemma StaleRunNone(tree: File, was: File, room: nat, ds: seq<Attrs>)
    requires ds == []
    ensures StaleRun(tree, was, room, ds) == tree
  {}

  lemma StaleRunNext(tree: File, was: File, room: nat, ds: seq<Attrs>)
    requires ds != []
    ensures StaleRun(tree, was, room, ds)
         == StaleRun(StaleAdded(tree, was, room > 0, ds[0]), WithChild(was, ds[0]), SpareAfter(was, room, 0, ds[0]), ds[1..])
  {}

  lemma AllAddedNext(f: File, ds: seq<Attrs>, k: nat)
    requires 0 < k <= |ds|
    ensures AllAdded(f, ds[..k]) == AllAdded(WithChild(f, ds[0]), ds[1..][..k - 1])
  {
    assert ds[..k][0] == ds[0] && ds[..k][1..] == ds[1..][..k - 1];
  }

  lemma AllAddedNone(f: File, ds: seq<Attrs>)
    ensures AllAdded(f, ds[..0]) == f
  {}

  /** A new child, with room or without. */
  lemma StaleOne(tree: File, was: File, ds: seq<Attrs>)
    requires |tree.child| <= |was.child| && ds != [] && NewNames(was, ds)
    ensures !Has(was, ds[0].name) && StaleAdded(tree, was, false, ds[0]) == tree
    ensures |tree.child| <= |WithChild(was, ds[0]).child|
    ensures StaleAdded(tree, was, true, ds[0]) == File(tree.d, WithChild(was, ds[0]).child[..|tree.child|])
    ensures forall room: nat :: SpareAfter(was, room, 0, ds[0]) == if room > 0 then room - 1 else 0
  {
    assert !Has(was, ds[0].name);
    InsertMembers(was.child, File(ds[0], []));
    hide InsertByName, IndexOf;
  }

  lemma {:induction false} NoRoom(tree: File, was: File, ds: seq<Attrs>)
    requires |tree.child| <= |was.child| && NewNames(was, ds)
    ensures StaleRun(tree, was, 0, ds) == tree
    decreases |ds|
  {
    if ds != [] {
      NewNamesNext(was, ds);
      StaleOne(tree, was, ds);
      hide NewNames, Has, WithChild, StaleAdded;
      NoRoom(tree, WithChild(was, ds[0]), ds[1..]);
    }
  }

  // ----- what adding a child does to trees -----

  /** The nodes make the tree t; the only root in it is its own. */
  ghost predicate Stands(nodes: seq<Node>, roots: set<nat>, t: Placed)
  {
    Sits(nodes, t) && Apart(t) && t.id in roots && KidsIds(t.kids) !! roots && NamesOnce(Values(t.kids))
  }

  /** What the files and arrays are once a child is added to, or updated in, the node of q; cap is what a new array holds. */
  ghost predicate ChildAdded(files: seq<Raw>, arrays: seq<seq<nat>>, files': seq<Raw>, arrays': seq<seq<nat>>,
                             q: Placed, d: Attrs, cap: nat)
    requires Wf(files, arrays) && q.id < |files|
  {
    var nodes, i := Shown(files, arrays), IndexOf(Values(q.kids), d.name);
    if i < |q.kids| then
      var c := q.kids[i].id;
      && c < |files| && Wf(files', arrays) && arrays' == arrays && |files'| == |files|
      && files' == files[c := files'[c]] && (files'[c].arr == files[c].arr || files'[c].arr == 0)
      && Shown(files', arrays) == nodes[c := Node(d, if KeepsChildren(d) then nodes[c].child else [])]
    else
      && Appended(files, arrays, files', arrays', q.id, d, InsertId(nodes + [Node(d, [])], nodes[q.id].child, |nodes|))
      && (Room(files, arrays, q.id) == 0 ==> |arrays'[|arrays|]| == cap)
      && (Room(files, arrays, q.id) > 0 ==> |arrays'[files[q.id].arr]| == |arrays[files[q.id].arr]|)
  }

  lemma AddedOwn(files: seq<Raw>, arrays: seq<seq<nat>>, files': seq<Raw>, arrays': seq<seq<nat>>, roots: set<nat>,
                 q: Placed, d: Attrs, cap: nat)
    requires Wf(files, arrays) && q.id < |files| && ChildAdded(files, arrays, files', arrays', q, d, cap) && Own(files, roots)
    ensures Wf(files', arrays') && |files'| >= |files| && Own(files', roots)
  {
    hide Shown, InsertId, IndexOf, Values;
  }

  /** Whoever shares an array with another is a root, so that no other node changes. */
  lemma {:induction false} OthersStay(files: seq<Raw>, arrays: seq<seq<nat>>, files': seq<Raw>, arrays': seq<seq<nat>>,
                                      roots: set<nat>, i: nat, d: Attrs, ids: seq<nat>)
    requires Wf(files, arrays) && i < |files| && Appended(files, arrays, files', arrays', i, d, ids) && Own(files, roots)
    ensures var n1 := (Shown(files, arrays) + [Node(d, [])])[i := Node(files[i].d, ids)];
            forall j | 0 <= j < |n1| && (j == i || j !in roots || i !in roots) :: Shown(files', arrays')[j] == n1[j]
  {
    AppendedShown(files, arrays, files', arrays', i, d, ids);
    hide Shown;
    assert Room(files, arrays, i) > 0 ==> files[i].arr != 0;
  }

  /** The tree at q once the child is there, and nodes that make it, which are those there are but for other roots. */
  lemma {:induction false} AddedPlaced(files: seq<Raw>, arrays: seq<seq<nat>>, files': seq<Raw>, arrays': seq<seq<nat>>,
                                       roots: set<nat>, q: Placed, d: Attrs, cap: nat)
    returns (n1: seq<Node>, q': Placed)
    requires Wf(files, arrays) && Own(files, roots) && Sits(Shown(files, arrays), q) && Apart(q) && q.id < |files|
    requires ChildAdded(files, arrays, files', arrays', q, d, cap)
    ensures Wf(files', arrays') && Changed(Shown(files, arrays), n1, q, q') && Value(q') == WithChild(Value(q), d)
    ensures |n1| == |files'| && q'.d == q.d
    ensures forall j | 0 <= j < |n1| && (j == q.id || j !in roots || q.id !in roots) :: Shown(files', arrays')[j] == n1[j]
    ensures var i := IndexOf(Values(q.kids), d.name);
            if i < |q.kids| then
              n1 == Shown(files', arrays') &&
              q'.kids == q.kids[i := Placed(q.kids[i].id, d, if KeepsChildren(d) then q.kids[i].kids else [])]
            else q'.kids == InsertP(q.kids, Placed(|files|, d, []))
  {
    var nodes, i := Shown(files, arrays), IndexOf(Values(q.kids), d.name);
    ChildrenAre(nodes, q);
    if i < |q.kids| {
      KidUpdated(nodes, q, i, d);
      var c := q.kids[i].id;
      UpdatedValue(q, i, c, d);
      n1 := Shown(files', arrays');
      q' := q.(kids := q.kids[i := Placed(c, d, if KeepsChildren(d) then q.kids[i].kids else [])]);
    } else {
      var ids := InsertId(nodes + [Node(d, [])], nodes[q.id].child, |nodes|);
      OthersStay(files, arrays, files', arrays', roots, q.id, d, ids);
      hide *;
      KidAdded(nodes, q, d, ids);
      AddedValue(q, d);
      n1 := (nodes + [Node(d, [])])[q.id := Node(q.d, ids)];
      q' := q.(kids := InsertP(q.kids, Placed(|nodes|, d, [])));
    }
  }

  lemma {:induction false} InsertOnce(cs: seq<File>, f: File)
    requires NamesOnce(cs) && forall i | 0 <= i < |cs| :: cs[i].d.name != f.d.name
    ensures NamesOnce(InsertByName(cs, f))
    decreases |cs|
  {
    hide StrCmp;
    if cs != [] && StrCmp(f.d.name, cs[|cs| - 1].d.name) < 0 {
      var init := cs[..|cs| - 1];
      InsertOnce(init, f);
      InsertMembers(init, f);
      var r := InsertByName(init, f);
      forall i | 0 <= i < |r| ensures r[i].d.name != cs[|cs| - 1].d.name {
        assert r[i] in r;
      }
    }
  }

  lemma {:induction false} WithChildOnce(f: File, d: Attrs)
    requires NamesOnce(f.child)
    ensures NamesOnce(WithChild(f, d).child)
  {
    if !Has(f, d.name) { InsertOnce(f.child, File(d, [])); }
  }

  lemma {:induction false} SetAtOnce(f: File, path: Path, g: File)
    requires NamesOnce(f.child) && Walk(f, path).Some? && g.d == Walk(f, path).value.d && (path == [] ==> NamesOnce(g.child))
    ensures NamesOnce(SetAt(f, path, g).child)
  {
    if path != [] {
      var i := IndexOf(f.child, path[0]);
      assert SetAt(f.child[i], path[1..], g).d == f.child[i].d by { SetAtName(f.child[i], path[1..], g); }
    }
  }

  lemma SetAtName(f: File, path: Path, g: File)
    requires Walk(f, path).Some? && g.d == Walk(f, path).value.d
    ensures SetAt(f, path, g).d == f.d
  {}

  /** The tree once a child was added to one of its nodes, at path. */
  lemma {:induction false} TreeAdded(files: seq<Raw>, arrays: seq<seq<nat>>, files': seq<Raw>, arrays': seq<seq<nat>>,
                                     roots: set<nat>, t: Placed, path: Path, d: Attrs, cap: nat)
    returns (t': Placed)
    requires Wf(files, arrays) && Own(files, roots) && Stands(Shown(files, arrays), roots, t) && forall r | r in roots :: r < |files|
    requires WalkP(t, path).Some? && WalkP(t, path).value.id < |files|
    requires ChildAdded(files, arrays, files', arrays', WalkP(t, path).value, d, cap)
    ensures Wf(files', arrays') && Stands(Shown(files', arrays'), roots, t') && t'.id == t.id
    ensures WalkP(t', path).Some? && WalkP(t', path).value.id == WalkP(t, path).value.id
    ensures Walk(Value(t), path).Some? && Value(t') == SetAt(Value(t), path, WithChild(Walk(Value(t), path).value, d))
  {
    var nodes, q := Shown(files, arrays), WalkP(t, path).value;
    NodeIsIn(nodes, roots, t, path);
    hide *;
    WalkValue(t, path);
    var n1, q' := AddedPlaced(files, arrays, files', arrays', roots, q, d, cap);
    SetSits(nodes, n1, t, path, q');
    t' := SetP(t, path, q');
    TreeOnce(t, path, d, q', t');
    ChangedFacts(nodes, n1, t, t');
    RootsApart(nodes, n1, roots, t, t');
    StandsStill(n1, Shown(files', arrays'), roots, t', q.id);
    ChangedFacts(nodes, n1, q, q');
  }

  lemma {:induction false} NodeIsIn(nodes: seq<Node>, roots: set<nat>, t: Placed, path: Path)
    requires Stands(nodes, roots, t) && WalkP(t, path).Some?
    ensures Sits(nodes, t) && Apart(t)
    ensures var q := WalkP(t, path).value; Sits(nodes, q) && Apart(q) && (q.id == t.id || q.id !in roots)
  {
    WalkSits(nodes, t, path);
    assert WalkP(t, path).value.id in AllIds(WalkP(t, path).value);
    assert AllIds(t) == {t.id} + KidsIds(t.kids);
  }

  lemma {:induction false} TreeOnce(t: Placed, path: Path, d: Attrs, q': Placed, t': Placed)
    requires WalkP(t, path).Some? && NamesOnce(Values(t.kids))
    requires Value(q') == WithChild(Value(WalkP(t, path).value), d)
    requires Walk(Value(t), path).Some? && Value(t') == SetAt(Value(t), path, Value(q'))
    ensures NamesOnce(Values(t'.kids))
  {
    WalkValue(t, path);
    if path == [] { WithChildOnce(Value(t), d); }
    SetAtOnce(Value(t), path, Value(q'));
  }

  lemma {:induction false} RootsApart(nodes: seq<Node>, n1: seq<Node>, roots: set<nat>, t: Placed, t': Placed)
    requires Stands(nodes, roots, t) && Changed(nodes, n1, t, t') && (forall r | r in roots :: r < |nodes|)
    requires NamesOnce(Values(t'.kids))
    ensures Stands(n1, roots, t')
  {
    ChangedFacts(nodes, n1, t, t');
    assert AllIds(t') == {t'.id} + KidsIds(t'.kids) && AllIds(t) == {t.id} + KidsIds(t.kids);
    NodeOf(n1, t');
    forall x | x in KidsIds(t'.kids) ensures x !in roots {
      assert x in AllIds(t');
    }
  }

  /** Nodes that are not in the tree may differ. */
  lemma {:induction false} StandsStill(n1: seq<Node>, n2: seq<Node>, roots: set<nat>, t: Placed, at: nat)
    requires Stands(n1, roots, t) && |n2| == |n1| && (at == t.id || at !in roots)
    requires forall j | 0 <= j < |n1| && (j == at || j !in roots || at !in roots) :: n2[j] == n1[j]
    ensures Stands(n2, roots, t)
  {
    SitsBound(n1, t);
    assert AllIds(t) == {t.id} + KidsIds(t.kids);
    SitsStill(n1, n2, t);
  }

  // ----- what it does by way of a root that was replaced -----

  /** The tree t has only children of the root o that was replaced: the first ones, if they still share an array. */
  ghost predicate Shared(t: Placed, o: Placed, same: bool)
  {
    && t.id != o.id && (forall k | k in t.kids :: k in o.kids)
    && (same ==> |t.kids| <= |o.kids| && t.kids == o.kids[..|t.kids|])
  }

  lemma {:induction false} OldAdded(files: seq<Raw>, arrays: seq<seq<nat>>, files': seq<Raw>, arrays': seq<seq<nat>>,
                                    roots: set<nat>, o: Placed, d: Attrs, cap: nat)
    returns (n1: seq<Node>, o': Placed)
    requires Wf(files, arrays) && Own(files, roots) && Stands(Shown(files, arrays), roots, o) && forall r | r in roots :: r < |files|
    requires o.id < |files| && ChildAdded(files, arrays, files', arrays', o, d, cap)
    ensures Wf(files', arrays') && Stands(Shown(files', arrays'), roots, o') && o'.id == o.id && o'.d == o.d
    ensures Value(o') == WithChild(Value(o), d)
    ensures var i := IndexOf(Values(o.kids), d.name);
            if i < |o.kids| then o'.kids == o.kids[i := Placed(o.kids[i].id, d, if KeepsChildren(d) then o.kids[i].kids else [])]
            else o'.kids == InsertP(o.kids, Placed(|files|, d, []))
  {
    var nodes := Shown(files, arrays);
    NodeIsIn(nodes, roots, o, []);
    n1, o' := AddedPlaced(files, arrays, files', arrays', roots, o, d, cap);
    hide *;
    OldOnce(o, d, o');
    ChangedFacts(nodes, n1, o, o');
    RootsApart(nodes, n1, roots, o, o');
    StandsStill(n1, Shown(files', arrays'), roots, o', o.id);
  }

  lemma OldOnce(o: Placed, d: Attrs, o': Placed)
    requires NamesOnce(Values(o.kids)) && Value(o') == WithChild(Value(o), d)
    ensures NamesOnce(Values(o'.kids))
  {
    WithChildOnce(Value(o), d);
  }

  lemma {:induction false} IndexIs(ks: seq<Placed>, name: string)
    requires NamesOnce(Values(ks))
    ensures var i := IndexOf(Values(ks), name);
            (i < |ks| ==> ks[i].d.name == name) && forall m | 0 <= m < |ks| && m != i :: ks[m].d.name != name
  {
    ValuesAre(ks);
    assert forall m | 0 <= m < |ks| :: Values(ks)[m].d == ks[m].d;
    hide Values, Value, IndexOf;
  }

  /** What may be said of a name that two roots have, or one of them. */
  lemma {:induction false} SameKid(t: Placed, o: Placed, same: bool, name: string)
    requires Shared(t, o, same) && NamesOnce(Values(t.kids)) && NamesOnce(Values(o.kids))
    ensures var i, j := IndexOf(Values(o.kids), name), IndexOf(Values(t.kids), name);
            && (j < |t.kids| ==> i < |o.kids| && t.kids[j] == o.kids[i] && (same ==> j == i))
            && (j == |t.kids| && same && i < |o.kids| ==> i >= j)
  {
    var i, j := IndexOf(Values(o.kids), name), IndexOf(Values(t.kids), name);
    IndexIs(t.kids, name);
    IndexIs(o.kids, name);
    hide IndexOf, Values, NamesOnce;
    assert same ==> forall m | 0 <= m < |t.kids| :: t.kids[m] == o.kids[m];
    if j < |t.kids| {
      assert t.kids[j] in t.kids;
      var m :| 0 <= m < |o.kids| && o.kids[m] == t.kids[j];
      assert m == i;
    }
  }

  /** A child is updated by way of the old root. */
  lemma {:induction false} StaleUpdated(nodes: seq<Node>, roots: set<nat>, t: Placed, o: Placed, same: bool, d: Attrs)
    returns (t': Placed)
    requires Stands(nodes, roots, t) && Stands(nodes, roots, o) && Shared(t, o, same)
    requires IndexOf(Values(o.kids), d.name) < |o.kids|
    ensures var i := IndexOf(Values(o.kids), d.name);
            var c := o.kids[i];
            var k := Placed(c.id, d, if KeepsChildren(d) then c.kids else []);
            && c.id < |nodes| && t'.id == t.id
            && Stands(nodes[c.id := Node(d, if KeepsChildren(d) then nodes[c.id].child else [])], roots, t')
            && Shared(t', o.(kids := o.kids[i := k]), same)
            && Value(t') == if Has(Value(t), d.name) then WithChild(Value(t), d) else Value(t)
  {
    hide *;
    var i, j := IndexOf(Values(o.kids), d.name), IndexOf(Values(t.kids), d.name);
    StaleFacts(nodes, roots, t, o, same, d.name);
    var c := o.kids[i];
    var k := Placed(c.id, d, if KeepsChildren(d) then c.kids else []);
    var nodes' := nodes[c.id := Node(d, if KeepsChildren(d) then nodes[c.id].child else [])];
    SharedUpdated(t, o, same, d.name, k, if j < |t.kids| then t.(kids := t.kids[j := k]) else t);
    if j < |t.kids| {
      t' := t.(kids := t.kids[j := k]);
      KidUpdated(nodes, t, j, d);
      UpdatedValue(t, j, c.id, d);
      OldOnce(t, d, t');
      RootsBound(nodes, roots, nodes', t, t');
    } else {
      t' := t;
      NotIn(nodes, roots, t, o, i);
      StandsBut(nodes, nodes', roots, t, c.id);
    }
  }

  lemma {:induction false} StaleFacts(nodes: seq<Node>, roots: set<nat>, t: Placed, o: Placed, same: bool, name: string)
    requires Stands(nodes, roots, t) && Stands(nodes, roots, o) && Shared(t, o, same) && IndexOf(Values(o.kids), name) < |o.kids|
    ensures var i, j := IndexOf(Values(o.kids), name), IndexOf(Values(t.kids), name);
            && o.kids[i].id < |nodes| && j <= |t.kids| && (Has(Value(t), name) <==> j < |t.kids|)
            && (if j < |t.kids| then t.kids[j] == o.kids[i] && t.kids[j].d.name == name else o.kids[i] !in t.kids)
    ensures Sits(nodes, t) && Apart(t) && NamesOnce(Values(t.kids)) && NamesOnce(Values(o.kids))
    ensures forall k | k in t.kids :: k in o.kids
  {
    var i, j := IndexOf(Values(o.kids), name), IndexOf(Values(t.kids), name);
    SameKid(t, o, same, name);
    UpdatedNode(nodes, roots, o, i);
    if j < |t.kids| { IndexIs(t.kids, name); } else { NotNamed(t, o, name); }
    hide Sits, Apart, IndexOf, AllIds, KidsIds, NamesOnce;
  }

  lemma NotNamed(t: Placed, o: Placed, name: string)
    requires NamesOnce(Values(t.kids)) && NamesOnce(Values(o.kids))
    requires IndexOf(Values(t.kids), name) == |t.kids| && IndexOf(Values(o.kids), name) < |o.kids|
    ensures o.kids[IndexOf(Values(o.kids), name)] !in t.kids
  {
    IndexIs(t.kids, name);
    IndexIs(o.kids, name);
  }

  lemma UpdatedNode(nodes: seq<Node>, roots: set<nat>, o: Placed, i: nat)
    requires Stands(nodes, roots, o) && i < |o.kids|
    ensures o.kids[i].id < |nodes| && o.kids[i].id !in roots
  {
    assert o.kids[i] in o.kids && Sits(nodes, o.kids[i]);
    assert o.kids[i].id in AllIds(o.kids[i]);
    KidIn(o, o.kids[i]);
  }

  lemma {:induction false} RootsBound(nodes: seq<Node>, roots: set<nat>, n1: seq<Node>, t: Placed, t': Placed)
    requires Stands(nodes, roots, t) && Changed(nodes, n1, t, t') && NamesOnce(Values(t'.kids)) && |n1| == |nodes|
    ensures Stands(n1, roots, t')
  {
    ChangedFacts(nodes, n1, t, t');
    SitsBound(n1, t');
    assert AllIds(t') == {t'.id} + KidsIds(t'.kids) && AllIds(t) == {t.id} + KidsIds(t.kids);
    NodeOf(n1, t');
    forall x | x in KidsIds(t'.kids) ensures x !in roots {
      assert x in AllIds(t');
    }
  }

  /** A child of the old root that the tree does not have is nowhere in it. */
  lemma {:induction false} NotIn(nodes: seq<Node>, roots: set<nat>, t: Placed, o: Placed, i: nat)
    requires Stands(nodes, roots, t) && Stands(nodes, roots, o) && i < |o.kids| && o.kids[i] !in t.kids
    requires forall k | k in t.kids :: k in o.kids
    ensures o.kids[i].id !in AllIds(t)
  {
    var c := o.kids[i];
    UpdatedNode(nodes, roots, o, i);
    assert c.id in AllIds(c) && c.id != t.id;
    forall k | k in t.kids ensures c.id !in AllIds(k) {
      var m :| 0 <= m < |o.kids| && o.kids[m] == k;
      if m < i { assert AllIds(o.kids[m]) !! AllIds(o.kids[i]); } else { assert AllIds(o.kids[i]) !! AllIds(o.kids[m]); }
    }
  }

  lemma {:induction false} StandsBut(nodes: seq<Node>, nodes': seq<Node>, roots: set<nat>, t: Placed, c: nat)
    requires Stands(nodes, roots, t) && c !in AllIds(t) && |nodes'| >= |nodes|
    requires forall j | 0 <= j < |nodes| && j != c :: nodes'[j] == nodes[j]
    ensures Stands(nodes', roots, t)
  {
    SitsStill(nodes, nodes', t);
  }

  lemma {:induction false} SharedUpdated(t: Placed, o: Placed, same: bool, name: string, k: Placed, t': Placed)
    requires Shared(t, o, same) && NamesOnce(Values(t.kids)) && NamesOnce(Values(o.kids)) && k.d.name == name
    requires IndexOf(Values(o.kids), name) < |o.kids|
    requires var j := IndexOf(Values(t.kids), name); t' == if j < |t.kids| then t.(kids := t.kids[j := k]) else t
    ensures Shared(t', o.(kids := o.kids[IndexOf(Values(o.kids), name) := k]), same)
  {
    var i, j := IndexOf(Values(o.kids), name), IndexOf(Values(t.kids), name);
    hide Values, IndexOf, NamesOnce;
    SameKid(t, o, same, name);
    IndexIs(o.kids, name);
    IndexIs(t.kids, name);
    var ks := o.kids[i := k];
    assert ks[i] == k;
    forall x | x in t'.kids ensures x in ks {
      var m :| 0 <= m < |t'.kids| && t'.kids[m] == x;
      if m != j || j == |t.kids| {
        assert t.kids[m] in o.kids;
        var n :| 0 <= n < |o.kids| && o.kids[n] == t.kids[m];
        assert n != i;
        assert ks[n] == x;
      }
    }
  }

  /** A child is added to the old root. */
  lemma {:induction false} StaleAppended(files: seq<Raw>, arrays: seq<seq<nat>>, files': seq<Raw>, arrays': seq<seq<nat>>,
                                         roots: set<nat>, t: Placed, o: Placed, o': Placed, d: Attrs, ids: seq<nat>)
    returns (t': Placed)
    requires Wf(files, arrays) && Own(files, roots) && (forall r | r in roots :: r < |files|) && o.id < |files|
    requires Stands(Shown(files, arrays), roots, t) && Shared(t, o, files[t.id].arr == files[o.id].arr) && o.id in roots
    requires Appended(files, arrays, files', arrays', o.id, d, ids)
    requires Stands(Shown(files', arrays'), roots, o') && o'.id == o.id && o'.kids == InsertP(o.kids, Placed(|files|, d, []))
    ensures var room := files[t.id].arr == files[o.id].arr && Room(files, arrays, o.id) > 0;
            && Stands(Shown(files', arrays'), roots, t') && t'.id == t.id
            && Shared(t', o', files'[t.id].arr == files'[o.id].arr)
            && (files'[t.id].arr == files'[o.id].arr <==> room)
            && (room ==> |t.kids| <= |o'.kids|)
            && t' == t.(kids := if room then o'.kids[..|t.kids|] else t.kids)
  {
    var nodes, nodes' := Shown(files, arrays), Shown(files', arrays');
    var room := files[t.id].arr == files[o.id].arr && Room(files, arrays, o.id) > 0;
    AppendedShown(files, arrays, files', arrays', o.id, d, ids);
    InsertPMembers(o.kids, Placed(|files|, d, []));
    OldKidsIn(o.kids, Placed(|files|, d, []));
    ChildrenAre(nodes', o');
    NodeOf(nodes, t);
    t' := t.(kids := if room then o'.kids[..|t.kids|] else t.kids);
    assert files[t.id].len == |t.kids| by { ChildrenAre(nodes, t); }
    if room {
      assert nodes'[t.id] == Node(files[t.id].d, ids[..|t.kids|]);
      FirstStand(nodes', roots, o', t', ids);
    } else {
      OthersSame(files, arrays, files', arrays', roots, o.id, t, d, ids);
    }
  }

  lemma {:induction false} OldKidsIn(ks: seq<Placed>, x: Placed)
    ensures forall k | k in ks :: k in InsertP(ks, x)
  {
    InsertPMembers(ks, x);
    var at :| 0 <= at <= |ks| && InsertP(ks, x) == ks[..at] + [x] + ks[at..];
    assert forall k | k in ks :: k in ks[..at] || k in ks[at..];
  }

  lemma FirstOnce(ks: seq<Placed>, os: seq<Placed>)
    requires |ks| <= |os| && ks == os[..|ks|] && NamesOnce(Values(os))
    ensures NamesOnce(Values(ks))
  {
    ValuesAre(os);
    ValuesAre(ks);
  }

  /** The first children of the old root make a tree too. */
  lemma {:induction false} FirstStand(nodes: seq<Node>, roots: set<nat>, o: Placed, t: Placed, ids: seq<nat>)
    requires Stands(nodes, roots, o) && t.id in roots && |t.kids| <= |o.kids| && t.kids == o.kids[..|t.kids|]
    requires t.id < |nodes| && nodes[o.id].child == ids && |ids| == |o.kids| && nodes[t.id] == Node(t.d, ids[..|t.kids|])
    ensures Stands(nodes, roots, t)
  {
    var n := |t.kids|;
    NodeIsIn(nodes, roots, o, []);
    NodeOf(nodes, o);
    IdsAre(o.kids);
    SameIdSeq(t.kids, ids[..n]);
    assert forall k | k in t.kids :: k in o.kids;
    assert KidsIds(t.kids) <= KidsIds(o.kids);
    KidsOf(nodes, o);
    KidsDisjoint(o);
    FirstOnce(t.kids, o.kids);
    hide Sits, Apart, AllIds, Values, Ids, NamesOnce;
    assert forall j | 0 <= j < n :: t.kids[j] == o.kids[j];
    MakeNode(nodes, t.id, t.d, t.kids);
  }

  /** Without room in an array that both share, the tree stays as it is. */
  lemma {:induction false} OthersSame(files: seq<Raw>, arrays: seq<seq<nat>>, files': seq<Raw>, arrays': seq<seq<nat>>,
                                      roots: set<nat>, i: nat, t: Placed, d: Attrs, ids: seq<nat>)
    requires Wf(files, arrays) && Own(files, roots) && i < |files| && i in roots && t.id != i
    requires Stands(Shown(files, arrays), roots, t) && t.id < |files|
    requires Appended(files, arrays, files', arrays', i, d, ids)
    requires !(files[t.id].arr == files[i].arr && Room(files, arrays, i) > 0)
    ensures Stands(Shown(files', arrays'), roots, t)
  {
    var nodes, nodes' := Shown(files, arrays), Shown(files', arrays');
    AppendedShown(files, arrays, files', arrays', i, d, ids);
    assert Room(files, arrays, i) > 0 ==> files[i].arr != 0;
    SitsBound(nodes, t);
    assert AllIds(t) == {t.id} + KidsIds(t.kids);
    forall j | j in AllIds(t) && j < |nodes| ensures nodes'[j] == nodes[j] {
      assert j == t.id || j !in roots;
    }
    SitsStill(nodes, nodes', t);
  }

  /** The tree and the old root once a child is added, or updated, by way of the old root. */
  lemma {:induction false} StaleTree(files: seq<Raw>, arrays: seq<seq<nat>>, files': seq<Raw>, arrays': seq<seq<nat>>,
                                     roots: set<nat>, t: Placed, o: Placed, d: Attrs, cap: nat)
    returns (t': Placed, o': Placed)
    requires Wf(files, arrays) && Own(files, roots) && (forall r | r in roots :: r < |files|) && o.id < |files|
    requires Stands(Shown(files, arrays), roots, t) && Stands(Shown(files, arrays), roots, o) && t.id < |files|
    requires Shared(t, o, files[t.id].arr == files[o.id].arr)
    requires ChildAdded(files, arrays, files', arrays', o, d, cap)
    ensures Wf(files', arrays') && |files'| >= |files| && t'.id == t.id && o'.id == o.id
    ensures Stands(Shown(files', arrays'), roots, t') && Stands(Shown(files', arrays'), roots, o')
    ensures Shared(t', o', files'[t.id].arr == files'[o.id].arr)
    ensures Value(o') == WithChild(Value(o), d)
    ensures var room := if files[t.id].arr == files[o.id].arr then Room(files, arrays, o.id) else 0;
            && Value(t') == StaleAdded(Value(t), Value(o), room > 0, d)
            && (if files'[t.id].arr == files'[o.id].arr then Room(files', arrays', o.id) else 0)
               == SpareAfter(Value(o), room, 0, d)
  {
    var nodes, i := Shown(files, arrays), IndexOf(Values(o.kids), d.name);
    var n1, o1 := OldAdded(files, arrays, files', arrays', roots, o, d, cap);
    o' := o1;
    var same := files[t.id].arr == files[o.id].arr;
    OldFacts(files, arrays, files', arrays', roots, t, o, d, cap);
    if i < |o.kids| {
      hide *;
      t' := StaleUpdated(nodes, roots, t, o, same, d);
      UpdatedIs(t, o, t', d, same && Room(files, arrays, o.id) > 0);
      assert o' == o.(kids := o'.kids);
    } else {
      var ids := InsertId(nodes + [Node(d, [])], nodes[o.id].child, |nodes|);
      hide *;
      t' := StaleAppended(files, arrays, files', arrays', roots, t, o, o', d, ids);
      AppendedIs(t, o, o', t', d, same && Room(files, arrays, o.id) > 0);
      RoomAfter(files, arrays, files', arrays', o.id, d, ids, |arrays'[files'[o.id].arr]|);
    }
  }

  lemma OldFacts(files: seq<Raw>, arrays: seq<seq<nat>>, files': seq<Raw>, arrays': seq<seq<nat>>,
                 roots: set<nat>, t: Placed, o: Placed, d: Attrs, cap: nat)
    requires Wf(files, arrays) && o.id < |files| && o.id in roots && t.id in roots && t.id < |files|
    requires Stands(Shown(files, arrays), roots, o) && ChildAdded(files, arrays, files', arrays', o, d, cap)
    ensures Wf(files', arrays') && |files'| >= |files| && (Has(Value(o), d.name) <==> IndexOf(Values(o.kids), d.name) < |o.kids|)
    ensures IndexOf(Values(o.kids), d.name) < |o.kids| ==>
              files'[t.id] == files[t.id] && files'[o.id] == files[o.id] && arrays' == arrays
  {
    var i := IndexOf(Values(o.kids), d.name);
    if i < |o.kids| { UpdatedNode(Shown(files, arrays), roots, o, i); }
    hide Sits, Apart, KidsIds, IndexOf, Shown;
  }

  lemma UpdatedIs(t: Placed, o: Placed, t': Placed, d: Attrs, room: bool)
    requires Has(Value(o), d.name) && Value(t') == if Has(Value(t), d.name) then WithChild(Value(t), d) else Value(t)
    ensures Value(t') == StaleAdded(Value(t), Value(o), room, d)
  {}

  lemma {:induction false} AppendedIs(t: Placed, o: Placed, o': Placed, t': Placed, d: Attrs, room: bool)
    requires !Has(Value(o), d.name) && Value(o') == WithChild(Value(o), d) && (room ==> |t.kids| <= |o.kids|)
    requires room ==> |t.kids| <= |o'.kids|
    requires t' == t.(kids := if room then o'.kids[..|t.kids|] else t.kids)
    ensures Value(t') == StaleAdded(Value(t), Value(o), room, d)
  {
    if room {
      var n := |t.kids|;
      ValuesAre(o'.kids);
      SameValues(o'.kids[..n], Values(o'.kids)[..n]);
    }
  }

  lemma RoomAfter(files: seq<Raw>, arrays: seq<seq<nat>>, files': seq<Raw>, arrays': seq<seq<nat>>, i: nat, d: Attrs, ids: seq<nat>, cap: nat)
    requires Wf(files, arrays) && i < |files| && Appended(files, arrays, files', arrays', i, d, ids)
    requires Room(files, arrays, i) > 0 ==> cap == |arrays[files[i].arr]|
    requires cap == |arrays'[files'[i].arr]|
    ensures Room(files', arrays', i) == if Room(files, arrays, i) > 0 then Room(files, arrays, i) - 1 else cap - |ids|
  {}

  lemma {:induction false} InsertIs(nodes: seq<Node>, ids: seq<nat>, id: nat)
    requires id < |nodes| && forall k | 0 <= k < |ids| :: ids[k] < |nodes|
    ensures |InsertId(nodes, ids, id)| == |ids| + 1
    ensures ids == [] || StrCmp(nodes[id].d.name, nodes[ids[|ids| - 1]].d.name) >= 0 ==> InsertId(nodes, ids, id) == ids + [id]
    decreases |ids|
  {
    hide StrCmp;
    if ids != [] && StrCmp(NameAt(nodes, id), NameAt(nodes, ids[|ids| - 1])) < 0 { InsertIs(nodes, ids[..|ids| - 1], id); }
  }

  lemma UpdatedValue(q: Placed, i: nat, c: nat, d: Attrs)
    requires i < |q.kids| && i == IndexOf(Values(q.kids), d.name)
    ensures var k := Placed(c, d, if KeepsChildren(d) then q.kids[i].kids else []);
            Value(q.(kids := q.kids[i := k])) == WithChild(Value(q), d)
  {
    var k := Placed(c, d, if KeepsChildren(d) then q.kids[i].kids else []);
    ValuesAre(q.kids);
    SameValues(q.kids[i := k], Values(q.kids)[i := Value(k)]);
  }

  lemma AddedValue(q: Placed, d: Attrs)
    requires IndexOf(Values(q.kids), d.name) == |q.kids|
    ensures WithChild(Value(q), d) == File(q.d, InsertByName(Values(q.kids), File(d, [])))
  {}

  lemma AddedIs(t: Placed, path: Path, d: Attrs, t': Placed)
    requires path != [] && Walk(Value(t), path[..|path| - 1]).Some?
    requires Value(t') == SetAt(Value(t), path[..|path| - 1], WithChild(Walk(Value(t), path[..|path| - 1]).value, d))
    ensures Added(Some(Value(t)), path, d) == Some(Value(t'))
  {}

  lemma ChildrenAre(nodes: seq<Node>, q: Placed)
    requires Sits(nodes, q)
    ensures q.id < |nodes| && |nodes[q.id].child| == |q.kids| == |Values(q.kids)| && nodes[q.id].d == q.d
    ensures forall k | 0 <= k < |q.kids| ::
      && nodes[q.id].child[k] == q.kids[k].id && q.kids[k].id < |nodes| && nodes[q.kids[k].id].d == q.kids[k].d
      && Values(q.kids)[k].d == q.kids[k].d
  {
    IdsAre(q.kids);
    ValuesAre(q.kids);
    forall k | 0 <= k < |q.kids| ensures q.kids[k].id < |nodes| && nodes[q.kids[k].id].d == q.kids[k].d {
      assert q.kids[k] in q.kids;
    }
  }

  lemma KidsAre(files: seq<Raw>, arrays: seq<seq<nat>>, q: Placed)
    requires Wf(files, arrays) && Sits(Shown(files, arrays), q)
    ensures q.id < |files| && files[q.id].arr < |arrays| && files[q.id].len == |q.kids| == |Values(q.kids)| <= |arrays[files[q.id].arr]|
    ensures forall k | 0 <= k < |q.kids| ::
      && arrays[files[q.id].arr][..|q.kids|][k] == q.kids[k].id < |files|
      && files[q.kids[k].id].d == q.kids[k].d == Values(q.kids)[k].d
  {
    ChildrenAre(Shown(files, arrays), q);
    hide Sits;
  }

  lemma FirstIndex(cs: seq<File>, name: string, i: nat)
    requires i <= |cs| && (i < |cs| ==> cs[i].d.name == name) && forall k | 0 <= k < i :: cs[k].d.name != name
    ensures i == IndexOf(cs, name)
  {
    var r := IndexOf(cs, name);
    assert i < |cs| ==> r <= i;
  }

  /** One more root leaves another as it was. */
  lemma {:induction false} RootStays(files: seq<Raw>, arrays: seq<seq<nat>>, roots: set<nat>, o: Placed, raw: Raw)
    requires Wf(files, arrays) && Wf(files + [raw], arrays) && Stands(Shown(files, arrays), roots, o)
    ensures Stands(Shown(files + [raw], arrays), roots + {|files|}, o)
  {
    var nodes, nodes' := Shown(files, arrays), Shown(files + [raw], arrays);
    SitsBound(nodes, o);
    assert forall j | 0 <= j < |nodes| :: nodes'[j] == nodes[j];
    assert AllIds(o) == {o.id} + KidsIds(o.kids);
    SitsStill(nodes, nodes', o);
  }

  /** One more root, with the slice of the tree. */
  lemma {:induction false} RootAgain(files: seq<Raw>, arrays: seq<seq<nat>>, roots: set<nat>, t: Placed, raw: Raw)
    requires Wf(files, arrays) && Own(files, roots) && Stands(Shown(files, arrays), roots, t) && t.id < |files|
    requires raw == files[t.id].(d := raw.d) && forall r | r in roots :: r < |files|
    ensures Wf(files + [raw], arrays) && Own(files + [raw], roots + {|files|})
    ensures Stands(Shown(files + [raw], arrays), roots + {|files|}, Placed(|files|, raw.d, t.kids))
    ensures Stands(Shown(files + [raw], arrays), roots + {|files|}, t)
    ensures |files| !in AllIds(t)
  {
    var nodes, nodes' := Shown(files, arrays), Shown(files + [raw], arrays);
    SitsBound(nodes, t);
    NodeOf(nodes, t);
    assert AllIds(t) == {t.id} + KidsIds(t.kids);
    assert nodes'[|files|] == Node(raw.d, nodes[t.id].child);
    RootStays(files, arrays, roots, t, raw);
    KidsOf(nodes', t);
    KidsDisjoint(t);
    hide Sits, Apart, Shown, KidsIds, AllIds, Values;
    MakeNode(nodes', |files|, raw.d, t.kids);
  }

  lemma FirstRoot(files: seq<Raw>, arrays: seq<seq<nat>>, roots: set<nat>, raw: Raw)
    requires Wf(files, arrays) && Own(files, roots) && raw == Raw(raw.d, 0, 0)
    ensures Wf(files + [raw], arrays) && Own(files + [raw], roots + {|files|})
    ensures Stands(Shown(files + [raw], arrays), roots + {|files|}, Placed(|files|, raw.d, []))
  {
    LeafSits(Shown(files + [raw], arrays), Placed(|files|, raw.d, []));
  }

  /** The room there is for children of the root, after a child is added at path. */
  lemma {:induction false} RootRoom(files: seq<Raw>, arrays: seq<seq<nat>>, files': seq<Raw>, arrays': seq<seq<nat>>,
                                    roots: set<nat>, t: Placed, path: Path, d: Attrs, cap: nat)
    requires Wf(files, arrays) && Own(files, roots) && Stands(Shown(files, arrays), roots, t) && t.id < |files|
    requires WalkP(t, path).Some? && WalkP(t, path).value.id < |files|
    requires ChildAdded(files, arrays, files', arrays', WalkP(t, path).value, d, cap)
    requires path == [] ==> cap >= |t.kids| + 1
    ensures Wf(files', arrays') && t.id < |files'|
    ensures path == [] ==>
              Room(files', arrays', t.id) == SpareAfter(Value(t), Room(files, arrays, t.id), cap - (|t.kids| + 1), d)
    ensures path != [] ==> Room(files', arrays', t.id) == Room(files, arrays, t.id)
  {
    var q := WalkP(t, path).value;
    NodeIsIn(Shown(files, arrays), roots, t, path);
    ChildrenAre(Shown(files, arrays), t);
    assert path == [] ==> q == t;
    if path == [] {
      assert files[t.id].len == |t.kids|;
      hide *;
      OwnRoom(files, arrays, files', arrays', roots, t, d, cap);
    } else {
      NotRoot(Shown(files, arrays), roots, t, path);
      assert t.id in roots;
      hide *;
      OtherRoom(files, arrays, files', arrays', roots, t, q, d, cap);
    }
  }

  lemma {:induction false} OwnRoom(files: seq<Raw>, arrays: seq<seq<nat>>, files': seq<Raw>, arrays': seq<seq<nat>>,
                                   roots: set<nat>, t: Placed, d: Attrs, cap: nat)
    requires Wf(files, arrays) && Stands(Shown(files, arrays), roots, t) && t.id < |files| && files[t.id].len == |t.kids|
    requires ChildAdded(files, arrays, files', arrays', t, d, cap) && cap >= |t.kids| + 1
    ensures Wf(files', arrays') && t.id < |files'|
    ensures Room(files', arrays', t.id) == SpareAfter(Value(t), Room(files, arrays, t.id), cap - (|t.kids| + 1), d)
  {
    assert t.id in roots;
    OldFacts(files, arrays, files', arrays', roots, t, t, d, cap);
    hide Stands, Shown, InsertId, IndexOf, Values;
  }

  lemma RootValue(was: Option<Placed>, t: Placed)
    requires t.kids == if was.Some? then was.value.kids else []
    ensures Added(if was.None? then None else Some(Value(was.value)), [], t.d) == Some(Value(t))
  {}

  lemma AgainShared(t: Placed, o: Placed, same: bool, id: nat, d: Attrs)
    requires id != o.id && (Shared(t, o, same) || o == t)
    ensures Shared(Placed(id, d, t.kids), o, same)
  {}

  /** What is found below a root is not one. */
  lemma {:induction false} NotRoot(nodes: seq<Node>, roots: set<nat>, t: Placed, path: Path)
    requires Stands(nodes, roots, t) && path != [] && WalkP(t, path).Some?
    ensures var q := WalkP(t, path).value; q.id !in roots && forall k | k in q.kids :: k.id !in roots
  {
    var k := t.kids[IndexOf(Values(t.kids), path[0])];
    assert k in t.kids;
    WalkSits(nodes, k, path[1..]);
    KidIn(t, k);
    var q := WalkP(t, path).value;
    assert q.id in AllIds(q);
    forall c | c in q.kids ensures c.id !in roots {
      KidIn(q, c);
      assert c.id in AllIds(c);
    }
  }

  lemma {:induction false} OtherRoom(files: seq<Raw>, arrays: seq<seq<nat>>, files': seq<Raw>, arrays': seq<seq<nat>>,
                                     roots: set<nat>, t: Placed, q: Placed, d: Attrs, cap: nat)
    requires Wf(files, arrays) && Own(files, roots) && t.id < |files| && t.id in roots && q.id < |files| && q.id !in roots
    requires Sits(Shown(files, arrays), q) && Apart(q) && forall k | k in q.kids :: k.id !in roots
    requires ChildAdded(files, arrays, files', arrays', q, d, cap)
    ensures Wf(files', arrays') && t.id < |files'| && Room(files', arrays', t.id) == Room(files, arrays, t.id)
  {
    hide Sits, Apart, Shown, InsertId, IndexOf, Values;
    if IndexOf(Values(q.kids), d.name) < |q.kids| {
      assert q.kids[IndexOf(Values(q.kids), d.name)] in q.kids;
    }
  }

  lemma {:induction false} WalkAgain(t: Placed, t': Placed, path: Path)
    requires t'.kids == t.kids && t'.id !in AllIds(t)
    ensures path != [] ==> WalkP(t', path) == WalkP(t, path)
  {}

  /** All of what adding a child at hand does, but to roots that were replaced. */
  lemma {:induction false} BelowAdded(files: seq<Raw>, arrays: seq<seq<nat>>, files': seq<Raw>, arrays': seq<seq<nat>>,
                                      roots: set<nat>, t: Placed, path: Path, d: Attrs, cap: nat)
    returns (t': Placed)
    requires Wf(files, arrays) && Own(files, roots) && Stands(Shown(files, arrays), roots, t) && t.id < |files|
    requires path != [] && forall r | r in roots :: r < |files|
    requires var q := WalkP(t, path[..|path| - 1]);
             q.Some? && q.value.id < |files| && ChildAdded(files, arrays, files', arrays', q.value, d, cap) && cap >= |q.value.kids| + 1
    ensures Wf(files', arrays') && Own(files', roots) && |files'| >= |files|
    ensures Stands(Shown(files', arrays'), roots, t') && t'.id == t.id
    ensures var parent := path[..|path| - 1]; WalkP(t', parent).Some? && WalkP(t', parent).value.id == WalkP(t, parent).value.id
    ensures Added(Some(Value(t)), path, d) == Some(Value(t'))
    ensures |Value(t).child| == |t.kids| && WalkP(t, []) == Some(t)
    ensures Room(files', arrays', t.id) ==
              if |path| == 1 then SpareAfter(Value(t), Room(files, arrays, t.id), cap - (|WalkP(t, path[..|path| - 1]).value.kids| + 1), d)
              else Room(files, arrays, t.id)
  {
    var parent := path[..|path| - 1];
    assert |Value(t).child| == |t.kids| && WalkP(t, []) == Some(t);
    assert |path| == 1 <==> parent == [];
    hide *;
    t' := TreeAdded(files, arrays, files', arrays', roots, t, parent, d, cap);
    AddedOwn(files, arrays, files', arrays', roots, WalkP(t, parent).value, d, cap);
    AddedIs(t, path, d, t');
    RootRoom(files, arrays, files', arrays', roots, t, parent, d, cap);
  }

  lemma AppendedNow(files: seq<Raw>, arrays: seq<seq<nat>>, files': seq<Raw>, arrays': seq<seq<nat>>, i: nat, arr: nat, d: Attrs, ids: seq<nat>)
    requires Wf(files, arrays) && i < |files| && |ids| == files[i].len + 1 && arr < |arrays'| && arrays' != [] && arrays'[0] == []
    requires files' == (files + [Raw(d, 0, 0)])[i := Raw(files[i].d, arr, |ids|)]
    requires |arrays'[arr]| >= |ids| && arrays'[arr][..|ids|] == ids
    requires if Room(files, arrays, i) > 0 then arr == files[i].arr && |arrays'| == |arrays| && |arrays'[arr]| == |arrays[arr]|
             else arr == |arrays| && |arrays'| == |arrays| + 1
    requires forall a | 0 <= a < |arrays| && a != arr :: arrays'[a] == arrays[a]
    ensures Appended(files, arrays, files', arrays', i, d, ids)
  {}

  lemma TreeIs(db: DB, t: Placed)
    requires db.Valid() && db.tree == Some(t)
    ensures Wf(db.files, db.arrays) && Own(db.files, db.roots) && forall r | r in db.roots :: r < |db.files|
    ensures db.root == Some(t.id) && t.id < |db.files| && Stands(db.Nodes(), db.roots, t)
    ensures db.lastpf.Some? && !db.Stale() ==>
              WalkP(t, db.lastpdir).Some? && WalkP(t, db.lastpdir).value.id == db.lastpf.value && db.Spare() == Room(db.files, db.arrays, t.id)
  {}

  lemma ValidNow(db: DB, t: Placed)
    requires Wf(db.files, db.arrays) && Own(db.files, db.roots) && forall r | r in db.roots :: r < |db.files|
    requires db.tree == Some(t) && db.root == Some(t.id) && t.id < |db.files| && Stands(db.Nodes(), db.roots, t)
    requires !db.Stale() && db.lastpf.Some? && WalkP(t, db.lastpdir).Some? && WalkP(t, db.lastpdir).value.id == db.lastpf.value
    ensures db.Valid() && db.Spare() == Room(db.files, db.arrays, t.id)
  {}

  lemma ExtraIs(db: DB, t: Placed, path: Path)
    requires path != [] && WalkP(t, path[..|path| - 1]).Some?
    ensures |path| == 1 ==>
              db.Extra(Value(t)) == db.Cap(|WalkP(t, path[..|path| - 1]).value.kids| + 1) - (|WalkP(t, path[..|path| - 1]).value.kids| + 1)
  {}

  /** A child is added or updated as it should be, by way of a root that was replaced, exactly when the tree has one with its name. */
  lemma StaleIsRight(db: DB, t: Placed, o: Placed, room: bool, d: Attrs)
    requires db.Valid() && db.Stale() && db.tree == Some(t) && db.was == Some(o)
    ensures StaleAdded(Value(t), Value(o), room, d) == WithChild(Value(t), d) <==> Has(Value(t), d.name)
  {
    NamesInOld(t, o, db.files[t.id].arr == db.files[o.id].arr, d.name);
    StaleCount(Value(t), Value(o), room, d);
  }

  lemma NamesInOld(t: Placed, o: Placed, same: bool, name: string)
    requires Shared(t, o, same) && NamesOnce(Values(t.kids)) && NamesOnce(Values(o.kids))
    ensures Has(Value(t), name) ==> Has(Value(o), name)
  {
    SameKid(t, o, same, name);
  }

  lemma StaleCount(t: File, o: File, room: bool, d: Attrs)
    requires Has(t, d.name) ==> Has(o, d.name)
    ensures StaleAdded(t, o, room, d) == WithChild(t, d) <==> Has(t, d.name)
  {
    InsertMembers(t.child, File(d, []));
    InsertMembers(o.child, File(d, []));
    hide InsertByName, IndexOf;
    if !Has(t, d.name) {
      assert |WithChild(t, d).child| == |t.child| + 1;
    }
  }

  lemma StaleIs(db: DB, t: Placed, o: Placed)
    requires db.Valid() && db.Stale() && db.tree == Some(t) && db.was == Some(o)
    ensures Wf(db.files, db.arrays) && Own(db.files, db.roots) && forall r | r in db.roots :: r < |db.files|
    ensures db.root == Some(t.id) && db.lastpf == Some(o.id) && t.id < |db.files| && o.id < |db.files|
    ensures Stands(db.Nodes(), db.roots, t) && Stands(db.Nodes(), db.roots, o)
    ensures Shared(t, o, db.files[t.id].arr == db.files[o.id].arr) && db.Tree() == Some(Value(t)) && db.Was() == Value(o)
    ensures db.Spare() == if db.files[t.id].arr == db.files[o.id].arr then Room(db.files, db.arrays, o.id) else 0
  {}

  // ----- the database -----

  class DB {
    var files: seq<Raw>
    var arrays: seq<seq<nat>>
    var root: Option<nat>
    var lastpf: Option<nat>
    var lastpdir: Path
    const grow: nat -> nat   // how many children an array made for n of them may hold

    ghost var tree: Option<Placed>
    ghost var was: Option<Placed>   // the root that was replaced, while it is the one cached
    ghost var roots: set<nat>

    function Nodes(): seq<Node>
      reads this`files, this`arrays
      requires Wf(files, arrays)
    {
      Shown(files, arrays)
    }

    /** The cached parent is a root that was replaced. */
    predicate Stale()
      reads this`lastpf, this`root, this`lastpdir
    {
      lastpf.Some? && root.Some? && lastpdir == [] && lastpf != root
    }

    ghost predicate TreeOk()
      reads this`files, this`arrays, this`root, this`tree, this`roots
    {
      && Wf(files, arrays) && Own(files, roots) && (forall r | r in roots :: r < |files|)
      && root.Some? == tree.Some?
      && (tree.Some? ==> root.value == tree.value.id < |files| && Stands(Nodes(), roots, tree.value))
    }

    /** The cached parent is the one that walking finds, unless the root was added again while it was the one cached. */
    ghost predicate Valid()
      reads this
    {
      && TreeOk() && (lastpf.Some? ==> tree.Some?)
      && (Stale() ==>
            && was.Some? && was.value.id == lastpf.value < |files| && Stands(Nodes(), roots, was.value)
            && Shared(tree.value, was.value, files[root.value].arr == files[lastpf.value].arr))
      && (lastpf.Some? && !Stale() ==>
            WalkP(tree.value, lastpdir).Some? && WalkP(tree.value, lastpdir).value.id == lastpf.value)
    }

    ghost function Tree(): Option<File>
      reads this`tree
    {
      if tree.None? then None else Some(Value(tree.value))
    }

    /** The root that was replaced. */
    ghost function Was(): File
      requires Valid() && Stale()
      reads this
    {
      Value(was.value)
    }

    /** How many more children go where the tree has its own without another array being made. */
    ghost function Spare(): nat
      requires Valid()
      reads this
    {
      if root.None? then 0
      else if !Stale() then Room(files, arrays, root.value)
      else if files[root.value].arr == files[lastpf.value].arr then Room(files, arrays, lastpf.value)
      else 0
    }

    constructor (grow: nat -> nat)
      ensures Valid() && !Stale() && Tree() == None && lastpf == None && this.grow == grow
    {
      files, arrays, root, lastpf, lastpdir := [], [[]], None, None, [];
      this.grow := grow;
      tree, was, roots := None, None, {};
    }

    /** The children of a file. */
    function Kids(id: nat): seq<nat>
      reads this`files, this`arrays
      requires Wf(files, arrays) && id < |files|
    {
      arrays[files[id].arr][..files[id].len]
    }

    /** The index of the first child of the node at id with a name, or the number of children. */
    method FindChild(id: nat, name: string, ghost q: Placed) returns (i: nat)
      requires Wf(files, arrays) && id == q.id && Sits(Nodes(), q)
      ensures i == IndexOf(Values(q.kids), name) && id < |files| && files[id].len == |q.kids|
      ensures forall k | 0 <= k < |q.kids| :: Kids(id)[k] == q.kids[k].id && q.kids[k].id < |files|
    {
      KidsAre(files, arrays, q);
      hide Wf, Sits, Shown, Values, IndexOf;
      i := 0;
      while i < files[id].len
        invariant i <= |q.kids| && forall k | 0 <= k < i :: q.kids[k].d.name != name
      {
        var c := Kids(id)[i];
        assert c == q.kids[i].id;
        if files[c].d.name == name {
          break;
        }
        i := i + 1;
      }
      FirstIndex(Values(q.kids), name, i);
    }

    method Walk(elems: Path) returns (at: Option<nat>)
      requires TreeOk() && root.Some?
      ensures at.Some? <==> WalkP(tree.value, elems).Some?
      ensures at.Some? ==> at.value == WalkP(tree.value, elems).value.id
    {
      var f := root.value;
      ghost var q := tree.value;
      assert elems[0..] == elems;
      for k := 0 to |elems|
        invariant q.id == f && Sits(Nodes(), q) && WalkP(tree.value, elems) == WalkP(q, elems[k..])
      {
        assert elems[k..][0] == elems[k] && elems[k..][1..] == elems[k + 1..];
        var i := FindChild(f, elems[k], q);
        if i == files[f].len {
          return None;
        }
        f := Kids(f)[i];
        assert q.kids[i] in q.kids;
        q := q.kids[i];
      }
      return Some(f);
    }

    /**
      Add the entry of a file, or update it. It works as if the parent were always walked to,
      but for children of the root when the one cached was replaced.
     */
    method Add(path: Path, d: Attrs) returns (ok: bool)
      requires Valid() && (path != [] ==> d.name == path[|path| - 1])
      modifies this
      ensures Valid()
      ensures !(old(Stale()) && |path| == 1) ==>
        (ok <==> Added(old(Tree()), path, d).Some?) && Tree() == if ok then Added(old(Tree()), path, d) else old(Tree())
      ensures old(Stale()) && |path| == 1 ==>
        ok && Tree() == Some(StaleAdded(old(Tree()).value, old(Was()), old(Spare()) > 0, d))
      ensures old(Stale()) && |path| == 1 ==> (Tree() == Added(old(Tree()), path, d) <==> Has(old(Tree()).value, d.name))
      ensures Stale() <==> if path == [] then old(root.Some? && lastpf.Some? && lastpdir == []) else old(Stale()) && (|path| == 1 || !ok)
      ensures Stale() ==>
        && old(Tree()).Some?
        && Was() == (if !old(Stale()) then old(Tree()).value else if |path| == 1 then WithChild(old(Was()), d) else old(Was()))
        && Spare() == if |path| == 1 then SpareAfter(old(Was()), old(Spare()), 0, d) else old(Spare())
      ensures !old(Stale()) ==>
        Spare() == if |path| == 1 && old(Tree()).Some? then SpareAfter(old(Tree()).value, old(Spare()), Extra(old(Tree()).value), d)
                   else old(Spare())
      ensures path != [] && old(root.Some?) && ok ==> lastpf.Some? && lastpdir == path[..|path| - 1]
    {
      if root.None? || path == [] {
        AddRoot(d);
        return true;
      }
      ok := CacheParent(path[..|path| - 1]);
      WalkValue(tree.value, path[..|path| - 1]);
      if ok {
        if Stale() {
          AddStale(d);
        } else {
          AddBelow(path, d, tree.value);
        }
      }
    }

    /** How many children an array made for n of them holds. */
    function Cap(n: nat): nat
    {
      if grow(n) > n then grow(n) else n
    }

    /** The room in an array made for one child more than f has. */
    ghost function Extra(f: File): nat
    {
      Cap(|f.child| + 1) - (|f.child| + 1)
    }

    /** Find the parent of the next entry, unless it is at hand. */
    method CacheParent(parent: Path) returns (ok: bool)
      requires Valid() && tree.Some?
      modifies this`lastpf, this`lastpdir
      ensures Valid() && (ok <==> WalkP(tree.value, parent).Some?)
      ensures if ok then lastpf.Some? && lastpdir == parent else lastpf == old(lastpf) && lastpdir == old(lastpdir)
      ensures Stale() <==> old(Stale()) && (parent == [] || !ok)
      ensures Stale() ==> lastpf == old(lastpf)
    {
      ok := true;
      if parent != lastpdir || lastpf.None? {
        var at := Walk(parent);
        if at.None? {
          return false;
        }
        lastpdir, lastpf := parent, at;
      }
    }

    /** A new root has the slice of the one it replaces. */
    method AddRoot(d: Attrs)
      requires Valid()
      modifies this`files, this`root, this`tree, this`was, this`roots
      ensures Valid() && Tree() == Added(old(Tree()), [], d) && Spare() == old(Spare())
      ensures Stale() <==> old(root.Some? && lastpf.Some? && lastpdir == [])
      ensures Stale() ==> Was() == if old(Stale()) then old(Was()) else old(Tree()).value
    {
      hide Stands, Sits, Apart, KidsIds, AllIds, Value, Values, WalkP, Own, Wf, Shared, Shown, Added;
      var raw := if root.Some? then files[root.value].(d := d) else Raw(d, 0, 0);
      ghost var id, kids := |files|, if root.Some? then tree.value.kids else [];
      if root.Some? {
        RootAgain(files, arrays, roots, tree.value, raw);
        WalkAgain(tree.value, Placed(id, d, kids), lastpdir);
        RootValue(tree, Placed(id, d, kids));
        AgainShared(tree.value, tree.value, true, id, d);
        if Stale() {
          RootStays(files, arrays, roots, was.value, raw);
          AgainShared(tree.value, was.value, files[root.value].arr == files[lastpf.value].arr, id, d);
        } else {
          was := tree;
        }
      } else {
        FirstRoot(files, arrays, roots, raw);
        RootValue(None, Placed(id, d, kids));
      }
      files := files + [raw];
      root := Some(|files| - 1);
      roots := roots + {id};
      tree := Some(Placed(id, d, kids));
    }

    method AddBelow(path: Path, d: Attrs, ghost t: Placed)
      requires Valid() && !Stale() && lastpf.Some? && path != [] && lastpdir == path[..|path| - 1] && tree == Some(t)
      modifies this`files, this`arrays, this`tree
      ensures Valid() && Added(Some(Value(t)), path, d).Some? && Tree() == Added(Some(Value(t)), path, d)
      ensures Spare() == if |path| == 1 then SpareAfter(Value(t), old(Spare()), Extra(Value(t)), d) else old(Spare())
    {
      TreeIs(this, t);
      ghost var files0, arrays0, q := files, arrays, WalkP(t, lastpdir).value;
      NodeIsIn(Nodes(), roots, t, lastpdir);
      hide *;
      AddChild(lastpf.value, d, q);
      Below(files0, arrays0, t, path, d, Cap(|q.kids| + 1));
      ExtraIs(this, t, path);
    }

    /** The tree once its nodes have a child more. */
    ghost method Below(files0: seq<Raw>, arrays0: seq<seq<nat>>, t: Placed, path: Path, d: Attrs, cap: nat)
      requires Wf(files0, arrays0) && Own(files0, roots) && Stands(Shown(files0, arrays0), roots, t) && t.id < |files0|
      requires (forall r | r in roots :: r < |files0|) && path != [] && lastpdir == path[..|path| - 1]
      requires tree == Some(t) && root == Some(t.id) && lastpf.Some? && !Stale()
      requires var q := WalkP(t, lastpdir);
               && q.Some? && q.value.id == lastpf.value < |files0|
               && ChildAdded(files0, arrays0, files, arrays, q.value, d, cap) && cap >= |q.value.kids| + 1
      modifies this`tree
      ensures Valid() && Added(Some(Value(t)), path, d).Some? && Tree() == Added(Some(Value(t)), path, d)
      ensures Spare() == if |path| == 1 then SpareAfter(Value(t), Room(files0, arrays0, t.id), cap - (|WalkP(t, lastpdir).value.kids| + 1), d)
                         else Room(files0, arrays0, t.id)
    {
      hide Sits, Apart, AllIds, KidsIds, Value, Values, WalkP, Stands, ChildAdded, Own, Wf, Shared, Added, Shown, SpareAfter, Room, IndexOf, NamesOnce;
      var t' := BelowAdded(files0, arrays0, files, arrays, roots, t, path, d, cap);
      tree := Some(t');
      ValidNow(this, t');
    }

    method AddStale(d: Attrs)
      requires Valid() && Stale()
      modifies this`files, this`arrays, this`tree, this`was
      ensures Valid() && Stale() && old(Tree()).Some?
      ensures Tree() == Some(StaleAdded(old(Tree()).value, old(Was()), old(Spare()) > 0, d))
      ensures Tree() == Some(WithChild(old(Tree()).value, d)) <==> Has(old(Tree()).value, d.name)
      ensures Was() == WithChild(old(Was()), d) && Spare() == SpareAfter(old(Was()), old(Spare()), 0, d)
    {
      ghost var t, o, files0, arrays0 := tree.value, was.value, files, arrays;
      StaleIs(this, t, o);
      StaleIsRight(this, t, o, Spare() > 0, d);
      NodeIsIn(Nodes(), roots, o, []);
      hide *;
      AddChild(lastpf.value, d, o);
      StaleBelow(files0, arrays0, t, o, d, Cap(|o.kids| + 1));
    }

    /** The tree and the root that was replaced, once the latter has a child more. */
    ghost method StaleBelow(files0: seq<Raw>, arrays0: seq<seq<nat>>, t: Placed, o: Placed, d: Attrs, cap: nat)
      requires Wf(files0, arrays0) && Own(files0, roots) && (forall r | r in roots :: r < |files0|) && Stale()
      requires Stands(Shown(files0, arrays0), roots, t) && Stands(Shown(files0, arrays0), roots, o)
      requires t.id < |files0| && o.id < |files0| && Shared(t, o, files0[t.id].arr == files0[o.id].arr)
      requires tree == Some(t) && root == Some(t.id) && was == Some(o) && lastpf == Some(o.id)
      requires ChildAdded(files0, arrays0, files, arrays, o, d, cap)
      modifies this`tree, this`was
      ensures Valid() && Stale()
      ensures var room := if files0[t.id].arr == files0[o.id].arr then Room(files0, arrays0, o.id) else 0;
              && Tree() == Some(StaleAdded(Value(t), Value(o), room > 0, d))
              && Was() == WithChild(Value(o), d) && Spare() == SpareAfter(Value(o), room, 0, d)
    {
      hide Sits, Apart, AllIds, KidsIds, Value, Values, WalkP, WithChild, StaleAdded, Stands, ChildAdded, Own, Wf, Shared, Has, Shown, Room;
      var t', o' := StaleTree(files0, arrays0, files, arrays, roots, t, o, d, cap);
      AddedOwn(files0, arrays0, files, arrays, roots, o, d, cap);
      tree, was := Some(t'), Some(o');
    }

    method AddChild(pf: nat, d: Attrs, ghost q: Placed)
      requires Wf(files, arrays) && pf == q.id && Sits(Nodes(), q)
      modifies this`files, this`arrays
      ensures ChildAdded(old(files), old(arrays), files, arrays, q, d, Cap(|q.kids| + 1))
    {
      ChildrenAre(Nodes(), q);
      var i := FindChild(pf, d.name, q);
      if i < files[pf].len {
        UpdateChild(Kids(pf)[i], d);
      } else {
        NewChild(pf, d);
      }
    }

    method UpdateChild(c: nat, d: Attrs)
      requires Wf(files, arrays) && c < |files|
      modifies this`files
      ensures Wf(files, arrays) && |files| == old(|files|) && files == old(files)[c := files[c]]
      ensures files[c].arr == old(files)[c].arr || files[c].arr == 0
      ensures Nodes() == old(Nodes())[c := Node(d, if KeepsChildren(d) then old(Nodes())[c].child else [])]
    {
      files := files[c := files[c].(d := d)];
      if !KeepsChildren(d) {
        files := files[c := Raw(d, 0, 0)];
      }
    }

    /** One more after the first n of an array, in place if there is room. */
    method Append(arr: nat, n: nat, id: nat) returns (to: nat)
      requires arrays != [] && arrays[0] == [] && arr < |arrays| && n <= |arrays[arr]|
      modifies this`arrays
      ensures to < |arrays| && arrays[0] == [] && n < |arrays[to]| && arrays[to][..n + 1] == old(arrays[arr][..n]) + [id]
      ensures if n < old(|arrays[arr]|) then to == arr && |arrays| == old(|arrays|) && |arrays[to]| == old(|arrays[arr]|)
              else to == old(|arrays|) && |arrays| == to + 1 && |arrays[to]| == Cap(n + 1)
      ensures forall a | 0 <= a < old(|arrays|) && a != to :: arrays[a] == old(arrays)[a]
    {
      to := arr;
      if n < |arrays[arr]| {
        var a: seq<nat> := arrays[arr][n := id];
        arrays := arrays[arr := a];
      } else {
        to := |arrays|;
        arrays := arrays + [arrays[arr][..n] + [id] + seq(Cap(n + 1) - n - 1, _ => 0)];
      }
    }

    method NewChild(pf: nat, d: Attrs)
      requires Wf(files, arrays) && pf < |files| && forall k | 0 <= k < files[pf].len :: Kids(pf)[k] < |files|
      modifies this`files, this`arrays
      ensures Appended(old(files), old(arrays), files, arrays, pf, d,
                       InsertId(old(Nodes()) + [Node(d, [])], old(Kids(pf)), old(|files|)))
      ensures old(Room(files, arrays, pf)) == 0 ==> |arrays[old(|arrays|)]| == Cap(old(files[pf].len) + 1)
      ensures old(Room(files, arrays, pf)) > 0 ==> |arrays[old(files[pf].arr)]| == old(|arrays[files[pf].arr]|)
    {
      var id, n, arr, child, nodes := |files|, files[pf].len, files[pf].arr, Kids(pf), Nodes() + [Node(d, [])];
      InsertIs(nodes, child, id);
      hide InsertId, Shown, StrCmp, Cap, Appended;
      files := files + [Raw(d, 0, 0)];
      arr := Append(arr, n, id);
      if n > 0 && StrCmp(d.name, files[child[n - 1]].d.name) < 0 {
        arrays := arrays[arr := InsertId(nodes, child, id) + arrays[arr][n + 1..]];   // sort by name
      }
      assert arrays[arr][..n + 1] == InsertId(nodes, child, id);
      files := files[pf := Raw(files[pf].d, arr, n + 1)];
      AppendedNow(old(files), old(arrays), files, arrays, pf, arr, d, InsertId(nodes, child, id));
    }
  }

  // ----- adding the root again -----

  /** Add files to a root that was replaced while it was the one cached. */
  method AddStaleAll(db: DB, ds: seq<Attrs>)
    requires db.Valid() && db.Stale()
    modifies db
    ensures db.Valid() && old(db.Tree()).Some?
    ensures db.Tree() == Some(StaleRun(old(db.Tree()).value, old(db.Was()), old(db.Spare()), ds))
  {
    ghost var t, o, room := db.Tree().value, db.Was(), db.Spare();
    assert ds[0..] == ds;
    for i := 0 to |ds|
      invariant db.Valid() && db.Stale() && db.Tree().Some?
      invariant StaleRun(db.Tree().value, db.Was(), db.Spare(), ds[i..]) == StaleRun(t, o, room, ds)
    {
      hide StaleAdded, WithChild, SpareAfter, Added;
      assert ds[i..][0] == ds[i] && ds[i..][1..] == ds[i + 1..];
      var ok := db.Add([ds[i].name], ds[i]);
    }
  }

  /**
    Add the root again, after one of its children was the last file added, and then new
    children: the tree has as many children as before. What there was room for is among them,
    at the cost of the last ones by name; the rest, of the old and of the new ones, is lost.
   */
  method AddAfterRoot(db: DB, d: Attrs, ds: seq<Attrs>)
    requires db.Valid() && !db.Stale() && db.root.Some? && db.lastpf.Some? && db.lastpdir == []
    requires db.Tree().Some? ==> NewNames(db.Tree().value, ds)
    modifies db
    ensures db.Valid() && old(db.Tree()).Some?
    ensures var f, k := old(db.Tree()).value, if |ds| < old(db.Spare()) then |ds| else old(db.Spare());
            && |f.child| <= |AllAdded(f, ds[..k]).child|
            && db.Tree() == Some(File(d, AllAdded(f, ds[..k]).child[..|f.child|]))
  {
    ghost var f, room := db.Tree().value, db.Spare();
    var ok := db.Add([], d);
    assert db.Tree() == Some(File(d, f.child)) && db.Was() == f && db.Spare() == room;
    assert f.child == f.child[..|f.child|];
    hide *;
    FirstNamesStay(File(d, f.child), f, room, ds);
    AddStaleAll(db, ds);
  }

  /** A directory with a name and nothing else. */
  function Dir(name: string): Attrs
  {
    Attrs(name, "d", 0, 0, map[], map[], false, false)
  }

  function Leaf(name: string): File
  {
    File(Dir(name), [])
  }

  function Children(names: seq<string>): File
  {
    File(Dir("/"), seq(|names|, i requires 0 <= i < |names| => Leaf(names[i])))
  }

  /** The trees of the runs below. */
  lemma ExampleTrees()
    ensures File(Dir("/"), []) == Children([])
    ensures !Has(Children([]), "a") && WithChild(Children([]), Dir("a")) == Children(["a"])
    ensures !Has(Children(["a"]), "b") && WithChild(Children(["a"]), Dir("b")) == Children(["a", "b"])
    ensures !Has(Children(["a", "b"]), "c")
    ensures !Has(Children(["a"]), "c") && WithChild(Children(["a"]), Dir("c")) == Children(["a", "c"])
    ensures !Has(Children(["a", "c"]), "d") && WithChild(Children(["a", "c"]), Dir("d")) == Children(["a", "c", "d"])
  {}

  lemma FirstChildren(names: seq<string>, n: nat)
    requires n <= |names|
    ensures |Children(names).child| == |names|
    ensures File(Dir("/"), Children(names).child[..n]) == Children(names[..n])
  {}

  lemma ExampleInsert()
    ensures var f, ds := Children(["a", "c", "d"]), [Dir("b")];
            && NewNames(f, ds) && |f.child| == 3 && ds[..1] == ds && |AllAdded(f, ds).child| >= 3
            && File(Dir("/"), AllAdded(f, ds).child[..3]) == Children(["a", "b", "c"])
  {
    var f := Children(["a", "c", "d"]);
    var c := f.child;
    assert !Has(f, "b");
    assert c[..2][..1] == [Leaf("a")] && c[..2] == [Leaf("a"), Leaf("c")];
    assert InsertByName([Leaf("a")], Leaf("b")) == [Leaf("a"), Leaf("b")];
    assert InsertByName(c[..2], Leaf("b")) == [Leaf("a"), Leaf("b"), Leaf("c")];
    assert WithChild(f, Dir("b")) == Children(["a", "b", "c", "d"]);
    AllAddedOne(f, Dir("b"));
    FirstChildren(["a", "b", "c", "d"], 3);
    assert ["a", "b", "c", "d"][..3] == ["a", "b", "c"];
  }

  lemma AllAddedOne(f: File, d: Attrs)
    requires !Has(f, d.name)
    ensures AllAdded(f, []) == f && AllAdded(f, [d]) == WithChild(f, d) && NewNames(f, [d])
    ensures [d][..0] == [] && [d][..1] == [d]
  {
    assert [d][1..] == [];
  }

  lemma ExampleFull()
    ensures var f, ds := Children(["a", "b"]), [Dir("c")];
            && NewNames(f, ds) && |f.child| == 2 && AllAdded(f, ds[..0]) == f
            && File(Dir("/"), f.child[..2]) == f
  {
    ExampleTrees();
    AllAddedOne(Children(["a", "b"]), Dir("c"));
    FirstChildren(["a", "b"], 2);
    assert ["a", "b"][..2] == ["a", "b"];
  }

  /** A database with a root. */
  method Rooted(grow: nat -> nat) returns (db: DB)
    ensures fresh(db) && db.Valid() && !db.Stale() && db.grow == grow && db.root.Some?
    ensures db.Tree() == Some(Children([])) && db.Spare() == 0
  {
    db := new DB(grow);
    var ok := db.Add([], Dir("/"));
    assert Children([]) == File(Dir("/"), []);
  }

  /** Add a directory at the root. */
  method AddNamed(db: DB, name: string, ghost before: seq<string>, ghost after: seq<string>)
    requires db.Valid() && !db.Stale() && db.root.Some? && db.Tree() == Some(Children(before))
    requires !Has(Children(before), name) && WithChild(Children(before), Dir(name)) == Children(after)
    modifies db
    ensures db.Valid() && !db.Stale() && db.root.Some? && db.lastpf.Some? && db.lastpdir == []
    ensures db.Tree() == Some(Children(after))
    ensures db.Spare() == if old(db.Spare()) > 0 then old(db.Spare()) - 1 else db.Cap(|before| + 1) - (|before| + 1)
  {
    assert [name][..0] == [] && |Children(before).child| == |before|;
    hide WithChild, Has, Leaf;
    var ok := db.Add([name], Dir(name));
  }

  lemma CapAt(db: DB, n: nat)
    requires db.grow(n) >= n
    ensures db.Cap(n) == db.grow(n)
  {}

  /** A database with a root and one child. */
  method OneChild(grow: nat -> nat) returns (db: DB)
    requires grow(1) == 1
    ensures fresh(db) && db.Valid() && !db.Stale() && db.grow == grow && db.root.Some? && db.lastpf.Some? && db.lastpdir == []
    ensures db.Tree() == Some(Children(["a"])) && db.Spare() == 0
  {
    hide *;
    ExampleTrees();
    db := Rooted(grow);
    CapAt(db, 1);
    AddNamed(db, "a", [], ["a"]);
  }

  /** Arrays are made for 1, 2 and 4 children: with three there is room for one more. */
  method ThreeChildren(grow: nat -> nat) returns (db: DB)
    requires grow(1) == 1 && grow(2) == 2 && grow(3) == 4
    ensures fresh(db) && db.Valid() && !db.Stale() && db.root.Some? && db.lastpf.Some? && db.lastpdir == []
    ensures db.Tree() == Some(Children(["a", "c", "d"])) && db.Spare() == 1
  {
    hide *;
    ExampleTrees();
    db := OneChild(grow);
    CapAt(db, 2);
    CapAt(db, 3);
    AddNamed(db, "c", ["a"], ["a", "c"]);
    AddNamed(db, "d", ["a", "c"], ["a", "c", "d"]);
  }

  /** The root is added again after a, c and d: then b is added, and d is lost. */
  method OldChildLost(grow: nat -> nat) returns (db: DB)
    requires grow(1) == 1 && grow(2) == 2 && grow(3) == 4
    ensures fresh(db) && db.Valid() && db.Tree() == Some(Children(["a", "b", "c"]))
  {
    ExampleInsert();
    hide *;
    db := ThreeChildren(grow);
    AddAfterRoot(db, Dir("/"), [Dir("b")]);
  }

  /** After a and b there is no room: then c is added, and it is lost. */
  method NewChildLost(grow: nat -> nat) returns (db: DB)
    requires grow(1) == 1 && grow(2) == 2
    ensures fresh(db) && db.Valid() && db.Tree() == Some(Children(["a", "b"]))
  {
    hide *;
    ExampleTrees();
    ExampleFull();
    db := OneChild(grow);
    CapAt(db, 2);
    AddNamed(db, "b", ["a"], ["a", "b"]);
    AddAfterRoot(db, Dir("/"), [Dir("c")]);
  }

  // ----- saving and loading -----

  predicate Named(e: Entry)
  {
    e.path != [] ==> e.d.name == e.path[|e.path| - 1]
  }

  lemma {:induction false} UnderNamed(name: string, es: seq<Entry>)
    requires forall e | e in es :: if e.path == [] then e.d.name == name else Named(e)
    ensures forall e | e in EntriesUnder(name, es) :: Named(e)
    decreases |es|
  {
    if es != [] {
      assert es[0] in es;
      UnderNamed(name, es[1..]);
    }
  }

  lemma {:induction false} BelowNamed(cs: seq<File>)
    ensures forall e | e in Below(cs) :: Named(e)
    decreases cs
  {
    if cs != [] {
      var last := cs[|cs| - 1];
      BelowNamed(cs[..|cs| - 1]);
      BelowNamed(last.child);
      BelowPaths(last.child);
      UnderNamed(last.d.name, Files(last));
    }
  }

  /** Load a database from the entries of a saved one, in the order they were sent. */
  method Load(es: seq<Entry>, grow: nat -> nat, ghost f: File) returns (db: DB)
    requires Sorted(f) && es == Files(f)
    ensures fresh(db) && db.Valid() && !db.Stale() && db.Tree() == Some(f)
  {
    SavedIsRebuilt(f);
    hide *;
    db := new DB(grow);
    assert es[0..] == es;
    for i := 0 to |es|
      invariant fresh(db) && db.Valid() && !db.Stale() && AddAll(db.Tree(), es[i..]) == Some(f)
      invariant i == 0 ==> db.Tree().None? && db.lastpf.None?
    {
      EntryIs(f, es, i);
      AddAllStep(db.Tree(), es, i);
      var ok := db.Add(es[i].path, es[i].d);
    }
    assert es[|es|..] == [];
    AddAllDone(db.Tree());
  }

  lemma AddAllStep(root: Option<File>, es: seq<Entry>, i: nat)
    requires i < |es| && AddAll(root, es[i..]).Some?
    ensures var r := Added(root, es[i].path, es[i].d); r.Some? && AddAll(root, es[i..]) == AddAll(r, es[i + 1..])
  {
    assert es[i..][0] == es[i] && es[i..][1..] == es[i + 1..];
  }

  lemma AddAllDone(root: Option<File>)
    ensures AddAll(root, []) == root
  {}

  lemma EntryIs(f: File, es: seq<Entry>, i: nat)
    requires Sorted(f) && es == Files(f) && i < |es|
    ensures (es[i].path == [] <==> i == 0) && (es[i].path != [] ==> es[i].d.name == es[i].path[|es[i].path| - 1])
  {
    BelowNamed(f.child);
    BelowPaths(f.child);
    if i > 0 {
      assert es[i] == Below(f.child)[i - 1] && es[i] in Below(f.child);
      assert Named(es[i]);
    }
  }
}
