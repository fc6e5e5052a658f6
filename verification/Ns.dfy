/**
  Name spaces: a table of path prefixes with the entries mounted at each. Mounts and unmounts
  keep the table sorted, and that is what makes a scan that keeps the last match find the
  longest prefix.
 */
module Ns {
  import opened Paths

  /** A directory entry: attributes and their values. An attribute that is not there reads as empty. */
  type Dir = map<string, string>

  function Attr(d: Dir, k: string): string
  {
    if k in d then d[k] else ""
  }

  /** The attributes of m are in d, with those values; "*" stands for any value set. */
  predicate Matches(d: Dir, m: Dir)
  {
    forall k | k in m :: if m[k] == "*" then Attr(d, k) != "" else Attr(d, k) == m[k]
  }

  function Proto(d: Dir): string
  {
    var a := Attr(d, "addr");
    var n := ToBang(a);
    if n == |a| then "" else a[..n]
  }

  function ToBang(s: string): (n: nat)
    ensures n <= |s|
  {
    if s == "" || s[0] == '!' then 0 else 1 + ToBang(s[1..])
  }

  predicate IsFinder(d: Dir)
  {
    Proto(d) in ["lfs", "zxc", "zx", "finder"]
  }

  datatype Flag = Repl | Before | After

  datatype Prefix = Prefix(name: string, mnt: seq<Dir>)

  type Table = map<string, seq<Dir>>

  /** What is mounted for d: its path is cleaned, and gives its name. */
  function MountPoint(d: Dir): Dir
    requires IsAbs(Attr(d, "path"))
  {
    var name := UseAbsPath(Attr(d, "path"));
    d["path" := name]["name" := Base(name)]
  }

  // ----- the table as a map -----

  function TableOf(pref: seq<Prefix>): Table
  {
    if pref == [] then map[] else TableOf(pref[..|pref| - 1])[pref[|pref| - 1].name := pref[|pref| - 1].mnt]
  }

  predicate Precedes(a: string, b: string)
  {
    Cmp(Elems(a), Elems(b)) < 0
  }

  predicate Sorted(pref: seq<Prefix>)
  {
    && (forall i | 0 <= i < |pref| :: Cleaned(pref[i].name))
    && (forall i, j | 0 <= i < j < |pref| :: Precedes(pref[i].name, pref[j].name))
  }

  /** Sorted, with the root first, and entries for all others. */
  predicate Good(pref: seq<Prefix>)
  {
    && Sorted(pref)
    && pref != [] && pref[0].name == "/"
    && (forall i | 0 < i < |pref| :: pref[i].mnt != [])
  }

  lemma NotBeforeItself(a: string, b: string)
    requires Precedes(a, b)
    ensures a != b && !Precedes(b, a)
  {
    CmpEq(Elems(a), Elems(b));
  }

  lemma PrecedesTrans(a: string, b: string, c: string)
    requires Precedes(a, b) && Precedes(b, c)
    ensures Precedes(a, c)
  {
    CmpTrans(Elems(a), Elems(b), Elems(c));
  }

  lemma PrecedesTotal(a: string, b: string)
    requires Cleaned(a) && Cleaned(b) && a != b
    ensures Precedes(a, b) || Precedes(b, a)
  {
    CmpEq(Elems(a), Elems(b));
  }

  /** A sorted table but for its last prefix. */
  lemma {:induction false} ButLast(pref: seq<Prefix>)
    requires Sorted(pref) && pref != []
    ensures var n := |pref| - 1;
            && Sorted(pref[..n]) && TableOf(pref) == TableOf(pref[..n])[pref[n].name := pref[n].mnt]
            && pref[n].name !in TableOf(pref[..n]) && pref == pref[..n] + [pref[n]] && Cleaned(pref[n].name)
            && forall k | 0 <= k < n :: pref[k].name != pref[n].name && Precedes(pref[k].name, pref[n].name)
  {
    hide Precedes, Cleaned;
    var n := |pref| - 1;
    forall k | 0 <= k < n ensures pref[k].name != pref[n].name && Precedes(pref[k].name, pref[n].name) {
      assert Precedes(pref[k].name, pref[n].name);
      NotBeforeItself(pref[k].name, pref[n].name);
    }
    if pref[n].name in TableOf(pref[..n]) {
      var i := OnlyInTable(pref[..n], pref[n].name);
    }
  }

  lemma {:induction false} InTable(pref: seq<Prefix>, i: nat)
    requires Sorted(pref) && i < |pref|
    ensures pref[i].name in TableOf(pref) && TableOf(pref)[pref[i].name] == pref[i].mnt
    decreases |pref|
  {
    ButLast(pref);
    hide *;
    if i < |pref| - 1 {
      InTable(pref[..|pref| - 1], i);
    }
  }

  lemma {:induction false} OnlyInTable(pref: seq<Prefix>, name: string) returns (i: nat)
    requires Sorted(pref) && name in TableOf(pref)
    ensures i < |pref| && pref[i].name == name
    decreases |pref|
  {
    hide Precedes, Cleaned;
    var n := |pref| - 1;
    if pref[n].name == name {
      i := n;
    } else {
      i := OnlyInTable(pref[..n], name);
    }
  }

  lemma SwapUpdates(t: Table, a: string, x: seq<Dir>, b: string, y: seq<Dir>)
    requires a != b
    ensures t[a := x][b := y] == t[b := y][a := x]
  {}

  lemma UpdateTwice(t: Table, a: string, x: seq<Dir>, y: seq<Dir>)
    ensures t[a := x][a := y] == t[a := y]
  {}

  lemma {:induction false} TableUpdate(pref: seq<Prefix>, i: nat, mnt: seq<Dir>)
    requires Sorted(pref) && i < |pref|
    ensures Sorted(pref[i := Prefix(pref[i].name, mnt)])
    ensures TableOf(pref[i := Prefix(pref[i].name, mnt)]) == TableOf(pref)[pref[i].name := mnt]
  {
    assert Sorted(pref[i := Prefix(pref[i].name, mnt)]) by { hide Precedes, Cleaned; }
    forall k | i < k < |pref| ensures pref[k].name != pref[i].name {
      NotBeforeItself(pref[i].name, pref[k].name);
    }
    UpdateAt(pref, i, mnt);
  }

  lemma {:induction false} UpdateAt(pref: seq<Prefix>, i: nat, mnt: seq<Dir>)
    requires i < |pref| && forall k | i < k < |pref| :: pref[k].name != pref[i].name
    ensures TableOf(pref[i := Prefix(pref[i].name, mnt)]) == TableOf(pref)[pref[i].name := mnt]
    decreases |pref|
  {
    var n, p := |pref| - 1, Prefix(pref[i].name, mnt);
    var t := TableOf(pref[..n]);
    if i < n {
      UpdateAt(pref[..n], i, mnt);
      assert pref[i := p][..n] == pref[..n][i := p];
      SwapUpdates(t, pref[i].name, mnt, pref[n].name, pref[n].mnt);
    } else {
      assert pref[i := p][..n] == pref[..n];
      UpdateTwice(t, p.name, pref[n].mnt, mnt);
    }
  }

  /** A table with a new prefix, sorted: only the new one was out of place. */
  function Insert(pref: seq<Prefix>, p: Prefix): seq<Prefix>
  {
    if pref == [] || Precedes(pref[|pref| - 1].name, p.name) then pref + [p]
    else Insert(pref[..|pref| - 1], p) + [pref[|pref| - 1]]
  }

  /** All of pref precede name. */
  predicate AllBefore(pref: seq<Prefix>, name: string)
  {
    forall i | 0 <= i < |pref| :: Precedes(pref[i].name, name)
  }

  lemma {:induction false} AppendLast(pref: seq<Prefix>, p: Prefix)
    requires Sorted(pref) && Cleaned(p.name) && AllBefore(pref, p.name)
    ensures Sorted(pref + [p]) && TableOf(pref + [p]) == TableOf(pref)[p.name := p.mnt]
  {
    hide Precedes, Cleaned;
    assert (pref + [p])[..|pref|] == pref;
  }

  lemma {:induction false} LastBefore(pref: seq<Prefix>, name: string)
    requires Sorted(pref) && (pref != [] ==> Precedes(pref[|pref| - 1].name, name))
    ensures AllBefore(pref, name)
  {
    hide Precedes, Cleaned;
    var n := |pref| - 1;
    forall i | 0 <= i < |pref| ensures Precedes(pref[i].name, name) {
      if i < n {
        PrecedesTrans(pref[i].name, pref[n].name, name);
      }
    }
  }

  lemma {:induction false} InsertNames(pref: seq<Prefix>, p: Prefix)
    ensures |Insert(pref, p)| == |pref| + 1
    ensures pref != [] && pref[0].name == "/" && !Precedes(p.name, "/") && p.name != "/" && Cleaned(p.name) ==> Insert(pref, p)[0] == pref[0]
    ensures forall i | 0 <= i <= |pref| :: Insert(pref, p)[i] == p || Insert(pref, p)[i] in pref
    decreases |pref|
  {
    hide Precedes, Cleaned;
    if pref != [] && !Precedes(pref[|pref| - 1].name, p.name) {
      InsertNames(pref[..|pref| - 1], p);
      if |pref| == 1 && pref[0].name == "/" && Cleaned(p.name) && p.name != "/" {
        CleanedRoot();
        PrecedesTotal("/", p.name);
      }
    }
  }

  lemma CleanedRoot()
    ensures Cleaned("/")
  {}

  lemma {:induction false} InsertOk(pref: seq<Prefix>, p: Prefix)
    requires Sorted(pref) && Cleaned(p.name) && forall i | 0 <= i < |pref| :: pref[i].name != p.name
    ensures Sorted(Insert(pref, p)) && TableOf(Insert(pref, p)) == TableOf(pref)[p.name := p.mnt]
    decreases |pref|
  {
    hide Precedes, Cleaned, Sorted, TableOf;
    if pref == [] || Precedes(pref[|pref| - 1].name, p.name) {
      LastBefore(pref, p.name);
      AppendLast(pref, p);
    } else {
      var n := |pref| - 1;
      var init, last := pref[..n], pref[n];
      ButLast(pref);
      InsertOk(init, p);
      PrecedesTotal(last.name, p.name);
      InsertNames(init, p);
      assert AllBefore(Insert(init, p), last.name);
      AppendLast(Insert(init, p), last);
    }
  }

  // ----- mounting -----

  function Mounted(mnt: seq<Dir>, d: Dir, flag: Flag): seq<Dir>
  {
    match flag
    case Repl => [d]
    case Before => [d] + mnt
    case After => mnt + [d]
  }

  /** The table with d mounted at its path. */
  function MountedAt(t: Table, d: Dir, flag: Flag): Table
  {
    var name := Attr(d, "path");
    t[name := if name in t then Mounted(t[name], d, flag) else [d]]
  }

  lemma AtName(t: Table, d: Dir, flag: Flag)
    ensures Attr(d, "path") in t ==> MountedAt(t, d, flag) == t[Attr(d, "path") := Mounted(t[Attr(d, "path")], d, flag)]
    ensures Attr(d, "path") !in t ==> MountedAt(t, d, flag) == t[Attr(d, "path") := [d]]
  {}

  lemma MountedSome(mnt: seq<Dir>, d: Dir, flag: Flag)
    ensures Mounted(mnt, d, flag) != []
  {}

  /** The entries that stay when those matching m go; all go if there is no m. */
  function Without(mnt: seq<Dir>, m: Option<Dir>): seq<Dir>
  {
    if mnt == [] then []
    else
      Without(mnt[..|mnt| - 1], m)
      + if m.None? || Matches(mnt[|mnt| - 1], m.value) then [] else [mnt[|mnt| - 1]]
  }

  datatype Option<T> = None | Some(value: T)

  lemma WithoutNone(m: Option<Dir>)
    ensures Without([], m) == []
  {}

  lemma WithoutStep(mnt: seq<Dir>, i: nat, m: Option<Dir>)
    requires i < |mnt|
    ensures mnt[..i + 1] == mnt[..i] + [mnt[i]]
    ensures Without(mnt[..i + 1], m) == Without(mnt[..i], m) + if m.None? || Matches(mnt[i], m.value) then [] else [mnt[i]]
  {
    hide Matches;
    assert mnt[..i + 1][..i] == mnt[..i];
  }

  function Left(name: string, m: Option<Dir>, n: string, mnt: seq<Dir>): seq<Dir>
  {
    if name == "" || name == n then Without(mnt, m) else mnt
  }

  /** The table once entries matching m are unmounted from name, or from everywhere; only the root may stay empty. */
  function Unmounted(t: Table, name: string, m: Option<Dir>): Table
  {
    map n | n in t && (n == "/" || Left(name, m, n, t[n]) != []) :: Left(name, m, n, t[n])
  }

  function Kept(pref: seq<Prefix>, name: string, m: Option<Dir>): seq<Prefix>
  {
    if pref == [] then []
    else Kept(pref[..|pref| - 1], name, m) + KeptOne(pref[|pref| - 1], name, m)
  }

  function KeptOne(p: Prefix, name: string, m: Option<Dir>): seq<Prefix>
  {
    var left := Left(name, m, p.name, p.mnt);
    if left == [] && p.name != "/" then [] else [Prefix(p.name, left)]
  }

  lemma {:induction false} WithoutFewer(mnt: seq<Dir>, m: Option<Dir>)
    ensures |Without(mnt, m)| <= |mnt|
    decreases |mnt|
  {
    if mnt != [] { WithoutFewer(mnt[..|mnt| - 1], m); }
  }

  /** What is kept was there, and has entries left. */
  lemma {:induction false} KeptNames(pref: seq<Prefix>, name: string, m: Option<Dir>)
    ensures forall p | p in Kept(pref, name, m) :: (p.name == "/" || p.mnt != []) && exists i :: 0 <= i < |pref| && pref[i].name == p.name
    decreases |pref|
  {
    if pref != [] {
      var n := |pref| - 1;
      KeptNames(pref[..n], name, m);
      forall p | p in Kept(pref, name, m)
        ensures (p.name == "/" || p.mnt != []) && exists i :: 0 <= i < |pref| && pref[i].name == p.name
      {
        if p in Kept(pref[..n], name, m) {
          var i :| 0 <= i < n && pref[..n][i].name == p.name;
          assert pref[i].name == p.name;
        } else {
          assert pref[n].name == p.name;
        }
      }
    }
  }

  lemma UnmountedMore(t: Table, name: string, m: Option<Dir>, n: string, mnt: seq<Dir>)
    requires n !in t
    ensures var u := Unmounted(t, name, m);
            var left := Left(name, m, n, mnt);
            && n !in u
            && Unmounted(t[n := mnt], name, m) == if left == [] && n != "/" then u else u[n := left]
  {
    hide Left;
    var u := Unmounted(t, name, m);
    var left := Left(name, m, n, mnt);
    var v := Unmounted(t[n := mnt], name, m);
    var w := if left == [] && n != "/" then u else u[n := left];
    forall k ensures k in v <==> k in w {}
    forall k | k in w ensures v[k] == w[k] {}
    assert v == w;
  }

  lemma {:induction false} KeptOk(pref: seq<Prefix>, name: string, m: Option<Dir>)
    requires Sorted(pref)
    ensures Sorted(Kept(pref, name, m)) && TableOf(Kept(pref, name, m)) == Unmounted(TableOf(pref), name, m)
    decreases |pref|
  {
    if pref == [] {
      assert Unmounted(map[], name, m) == map[];
    } else {
      hide Precedes, Cleaned, Sorted, TableOf, Unmounted;
      var n := |pref| - 1;
      var init, last := pref[..n], pref[n];
      ButLast(pref);
      KeptOk(init, name, m);
      UnmountedMore(TableOf(init), name, m, last.name, last.mnt);
      var k, one := Kept(init, name, m), KeptOne(last, name, m);
      if one == [] {
        assert Kept(pref, name, m) == k;
      } else {
        KeptNames(init, name, m);
        forall i | 0 <= i < |k| ensures Precedes(k[i].name, last.name) {
          assert k[i] in k;
          var j :| 0 <= j < |init| && init[j].name == k[i].name;
          assert Precedes(pref[j].name, last.name);
        }
        AppendLast(k, one[0]);
        assert Kept(pref, name, m) == k + [one[0]];
      }
    }
  }

  lemma {:induction false} KeptRoot(pref: seq<Prefix>, name: string, m: Option<Dir>)
    requires pref != [] && pref[0].name == "/"
    ensures Kept(pref, name, m) != [] && Kept(pref, name, m)[0].name == "/"
    decreases |pref|
  {
    if |pref| > 1 {
      KeptRoot(pref[..|pref| - 1], name, m);
    }
  }

  // ----- resolving -----

  predicate Reaches(d: Dir, suff: string)
  {
    IsFinder(d) || suff == "" || suff == "/"
  }

  /** The entry with its address moved down to suff. */
  function Moved(d: Dir, suff: string): Dir
  {
    if suff == "/" || suff == "" then d
    else
      var a := Attr(d, "addr");
      if |a| > 0 && a[|a| - 1] == '/' then d["addr" := a + suff[1..]] else d["addr" := a + suff]
  }

  /** The entries that lead to suff. */
  function Reached(mnt: seq<Dir>, suff: string): seq<Dir>
  {
    if mnt == [] then []
    else
      Reached(mnt[..|mnt| - 1], suff)
      + if Reaches(mnt[|mnt| - 1], suff) then [Moved(mnt[|mnt| - 1], suff)] else []
  }

  /** name is mounted, has the path, and no longer prefix does. */
  predicate IsLongest(t: Table, path: string, name: string)
  {
    name in t && HasPrefix(path, name) && forall n | n in t && HasPrefix(path, n) :: n <= name
  }

  /** There is one longest prefix at most. */
  lemma OneLongest(t: Table, path: string, a: string, b: string)
    requires IsLongest(t, path, a) && IsLongest(t, path, b)
    ensures a == b
  {
    assert a <= b && b <= a;
  }

  /** In a sorted table the prefixes of a path come from the shortest to the longest. */
  lemma {:induction false} LaterIsLonger(a: string, b: string, path: string)
    requires Precedes(a, b) && Cleaned(a) && Cleaned(b) && Cleaned(path)
    requires HasPrefix(path, a) && HasPrefix(path, b)
    ensures a <= b
  {
    hide *;
    var x, y, p := Elems(a), Elems(b), Elems(path);
    CleanedIs(a);
    CleanedIs(b);
    CleanedIs(path);
    PrefixIsElems(p, x);
    PrefixIsElems(p, y);
    assert x == p[..|x|] && y == p[..|y|];
    if |y| <= |x| {
      assert y <= x;
      PrecedesIs(a, b);
      CmpEq(x, y);
      BelowIsAfter(y, y, x);
      assert false;
    }
    PrefixIsElems(y, x);
    PrefixStarts(b, a);
  }

  lemma CleanedIs(s: string)
    requires Cleaned(s)
    ensures IsPath(Elems(s)) && Join(Elems(s)) == s
  {}

  lemma PrecedesIs(a: string, b: string)
    ensures Precedes(a, b) <==> Cmp(Elems(a), Elems(b)) < 0
  {}

  lemma PrefixStarts(p: string, pref: string)
    requires HasPrefix(p, pref)
    ensures pref <= p
  {}

  lemma TableIs(ns: NS)
    ensures ns.Mounts() == TableOf(ns.pref) && (ns.Valid() <==> Good(ns.pref))
  {}

  /** More entries where there are some. */
  lemma {:induction false} MountMore(pref: seq<Prefix>, i: nat, mnt: seq<Dir>)
    requires Good(pref) && i < |pref| && mnt != []
    ensures Good(pref[i := Prefix(pref[i].name, mnt)])
    ensures TableOf(pref[i := Prefix(pref[i].name, mnt)]) == TableOf(pref)[pref[i].name := mnt]
    ensures pref[i].name in TableOf(pref) && TableOf(pref)[pref[i].name] == pref[i].mnt
  {
    hide Precedes, Cleaned, Sorted, TableOf;
    InTable(pref, i);
    TableUpdate(pref, i, mnt);
  }

  lemma {:induction false} NewPrefix(pref: seq<Prefix>, p: Prefix)
    requires Good(pref) && Cleaned(p.name) && p.mnt != [] && forall k | 0 <= k < |pref| :: pref[k].name != p.name
    ensures Good(Insert(pref, p)) && TableOf(Insert(pref, p)) == TableOf(pref)[p.name := p.mnt]
    ensures p.name !in TableOf(pref)
  {
    hide Precedes, Cleaned, Sorted, TableOf, Insert;
    if p.name in TableOf(pref) {
      var i := OnlyInTable(pref, p.name);
    }
    InsertOk(pref, p);
    InsertNames(pref, p);
    RootIsFirst(p.name);
    forall k | 0 <= k < |Insert(pref, p)|
      ensures Insert(pref, p)[k].name == "/" || Insert(pref, p)[k].mnt != []
    {
      if Insert(pref, p)[k] in pref {
        var j :| 0 <= j < |pref| && pref[j] == Insert(pref, p)[k];
      }
    }
    OthersMounted(Insert(pref, p));
  }

  lemma RootIsFirst(name: string)
    ensures !Precedes(name, "/")
  {}

  class NS {
    var pref: seq<Prefix>

    ghost predicate Valid()
      reads this
    {
      Good(pref)
    }

    ghost function Mounts(): Table
      reads this
    {
      TableOf(pref)
    }

    constructor ()
      ensures Valid() && Mounts() == map["/" := []]
    {
      pref := [Prefix("/", [])];
      new;
      assert pref[..0] == [];
    }

    /** Mount d at its path, with or instead of what is there. */
    method Mount(d0: Dir, flag: Flag) returns (ok: bool)
      requires Valid()
      modifies this
      ensures Valid() && (ok <==> IsAbs(Attr(d0, "path")))
      ensures Mounts() == if ok then MountedAt(old(Mounts()), MountPoint(d0), flag) else old(Mounts())
    {
      if !IsAbs(Attr(d0, "path")) {
        return false;
      }
      CleanedOnce(Attr(d0, "path"));
      var d := MountPoint(d0);
      MountAt(d, flag);
      return true;
    }

    method MountAt(d: Dir, flag: Flag)
      requires Valid() && Cleaned(Attr(d, "path"))
      modifies this
      ensures Valid() && Mounts() == MountedAt(old(Mounts()), d, flag)
    {
      var name := Attr(d, "path");
      hide *;
      for i := 0 to |pref|
        invariant pref == old(pref)
        invariant forall k | 0 <= k < i :: pref[k].name != name
      {
        if pref[i].name == name {
          var mnt := Mounted(pref[i].mnt, d, flag);
          TableIs(this);
          MountedSome(pref[i].mnt, d, flag);
          MountMore(pref, i, mnt);
          pref := pref[i := Prefix(name, mnt)];
          TableIs(this);
          AtName(old(Mounts()), d, flag);
          return;
        }
      }
      TableIs(this);
      NewPrefix(pref, Prefix(name, [d]));
      pref := Insert(pref, Prefix(name, [d]));
      TableIs(this);
      AtName(old(Mounts()), d, flag);
    }

    /** Unmount the entries matching m, or all, from fname, or from everywhere if it is empty; fails if there are none. */
    method Unmount(fname: string, m: Option<Dir>) returns (ok: bool)
      requires Valid()
      modifies this
      ensures Valid()
      ensures Mounts() == if fname == "" then Unmounted(old(Mounts()), "", m)
                          else if IsAbs(fname) then Unmounted(old(Mounts()), UseAbsPath(fname), m) else old(Mounts())
      ensures ok <==> Mounts() != old(Mounts())
    {
      if fname != "" && !IsAbs(fname) {
        return false;
      }
      ok := UnmountAt(if fname == "" then "" else UseAbsPath(fname), m);
    }

    method UnmountAt(name: string, m: Option<Dir>) returns (ok: bool)
      requires Valid()
      modifies this
      ensures Valid() && Mounts() == Unmounted(old(Mounts()), name, m)
      ensures ok <==> Mounts() != old(Mounts())
    {
      hide *;
      ghost var was := pref;
      StartKeeping(this, name, m);
      ok := false;
      var i := 0;
      ghost var n := 0;
      while i < |pref|
        invariant i <= |pref| && Keeping(pref, i, was, n, name, m, ok)
        decreases |pref| - i
      {
        KeepStep(pref, i, was, n, name, m, ok);
        var p := pref[i];
        var left, some := UnmountPrefix(p, name, m);
        ok := ok || some;
        if left == [] && p.name != "/" {
          pref := pref[..i] + pref[i + 1..];
        } else {
          pref := pref[i := Prefix(p.name, left)];
          i := i + 1;
        }
        n := n + 1;
      }
      EndKeeping(this, i, was, n, name, m, ok);
    }

    /** The entries left at a prefix, and whether some were not. */
    method UnmountPrefix(p: Prefix, name: string, m: Option<Dir>) returns (left: seq<Dir>, some: bool)
      ensures left == Left(name, m, p.name, p.mnt) && (some <==> left != p.mnt)
    {
      hide Without, Matches;
      left, some := p.mnt, false;
      WithoutNone(m);
      assert p.mnt[..0] == [];
      if name == "" || name == p.name {
        left := [];
        for i := 0 to |p.mnt|
          invariant left == Without(p.mnt[..i], m) && (some <==> left != p.mnt[..i]) && |left| <= i
        {
          WithoutStep(p.mnt, i, m);
          if m.None? || Matches(p.mnt[i], m.value) {
            some := true;
          } else {
            left := left + [p.mnt[i]];
          }
        }
        assert p.mnt[..|p.mnt|] == p.mnt;
      }
    }

    /** The entries that lead to suff, with their addresses moved down. */
    method MoveAll(mnt: seq<Dir>, suff: string) returns (mnts: seq<Dir>)
      ensures mnts == Reached(mnt, suff)
    {
      mnts := [];
      for k := 0 to |mnt|
        invariant mnts == Reached(mnt[..k], suff)
      {
        assert mnt[..k + 1][..k] == mnt[..k];
        if Reaches(mnt[k], suff) {
          mnts := mnts + [Moved(mnt[k], suff)];
        }
      }
      assert mnt[..|mnt|] == mnt;
    }

    /**
      The longest prefix mounted for a path and the entries there that lead to it; fails if none do.
     */
    method Resolve(fname: string) returns (ok: bool, name: string, mnts: seq<Dir>)
      requires Valid()
      ensures ok ==> IsAbs(fname) && var path := UseAbsPath(fname);
                IsLongest(Mounts(), path, name) && mnts == Reached(Mounts()[name], Suffix(path, name)) != []
      ensures !ok && IsAbs(fname) ==> var path := UseAbsPath(fname);
                forall n | IsLongest(Mounts(), path, n) :: Reached(Mounts()[n], Suffix(path, n)) == []
    {
      name, mnts := "", [];
      if !IsAbs(fname) {
        return false, name, mnts;
      }
      var path := UseAbsPath(fname);
      CleanedOnce(fname);
      hide *;
      var at := FindPrefix(path);
      var p := pref[at];
      mnts := MoveAll(p.mnt, Suffix(path, p.name));
      OnlyLongest(Mounts(), path, p.name);
      ok := |mnts| > 0;
      if ok {
        name := p.name;
      }
    }

    /** The last prefix that the path has. */
    method FindPrefix(path: string) returns (at: nat)
      requires Valid() && IsAbs(path) && Cleaned(path)
      ensures at < |pref| && IsLongest(Mounts(), path, pref[at].name) && Mounts()[pref[at].name] == pref[at].mnt
    {
      hide *;
      RootHas(this, path);
      at := 0;
      for i := 1 to |pref|
        invariant LastWith(pref, path, at, i)
      {
        LastStep(pref, path, at, i);
        if HasPrefix(path, pref[i].name) {
          at := i;
        }
      }
      FoundPrefix(this, path, at);
    }
  }

  /** Of the first n prefixes, the one at `at` is the last that the path has. */
  predicate LastWith(pref: seq<Prefix>, path: string, at: nat, n: nat)
  {
    && at < n <= |pref| && HasPrefix(path, pref[at].name)
    && forall k | 0 <= k < n && HasPrefix(path, pref[k].name) :: k <= at
  }

  lemma LastStep(pref: seq<Prefix>, path: string, at: nat, i: nat)
    requires LastWith(pref, path, at, i) && i < |pref|
    ensures LastWith(pref, path, if HasPrefix(path, pref[i].name) then i else at, i + 1)
  {}

  lemma RootHas(ns: NS, path: string)
    requires ns.Valid() && IsAbs(path) && Cleaned(path)
    ensures |ns.pref| > 0 && LastWith(ns.pref, path, 0, 1)
  {
    PrefixIsElems(Elems(path), []);
  }

  lemma FoundPrefix(ns: NS, path: string, at: nat)
    requires ns.Valid() && Cleaned(path) && LastWith(ns.pref, path, at, |ns.pref|)
    ensures at < |ns.pref| && IsLongest(ns.Mounts(), path, ns.pref[at].name)
    ensures ns.pref[at].name in ns.Mounts() && ns.Mounts()[ns.pref[at].name] == ns.pref[at].mnt
  {
    LastIsLongest(ns.pref, path, at);
    InTable(ns.pref, at);
  }

  lemma OnlyLongest(t: Table, path: string, a: string)
    requires IsLongest(t, path, a)
    ensures a in t && forall n | IsLongest(t, path, n) :: n == a
  {
    forall n | IsLongest(t, path, n) ensures n == a {
      OneLongest(t, path, n, a);
    }
  }

  /** Some entry of the first n prefixes has to go. */
  ghost predicate SomeLeave(pref: seq<Prefix>, name: string, m: Option<Dir>, n: nat)
    requires n <= |pref|
  {
    exists k :: 0 <= k < n && Left(name, m, pref[k].name, pref[k].mnt) != pref[k].mnt
  }

  /** The first n prefixes have been handled, and those kept come before i. */
  ghost predicate Keeping(pref: seq<Prefix>, i: nat, was: seq<Prefix>, n: nat, name: string, m: Option<Dir>, ok: bool)
  {
    && n <= |was| && i <= |pref| && pref[..i] == Kept(was[..n], name, m) && pref[i..] == was[n..]
    && (ok <==> SomeLeave(was, name, m, n))
  }

  lemma StartKeeping(ns: NS, name: string, m: Option<Dir>)
    requires ns.Valid()
    ensures Keeping(ns.pref, 0, ns.pref, 0, name, m, false) && Good(ns.pref) && TableOf(ns.pref) == ns.Mounts()
  {}

  /** One more prefix handled, in place. */
  lemma {:induction false} KeepStep(pref: seq<Prefix>, i: nat, was: seq<Prefix>, n: nat, name: string, m: Option<Dir>, ok: bool)
    requires Keeping(pref, i, was, n, name, m, ok) && i < |pref|
    ensures var p := pref[i];
            var left := Left(name, m, p.name, p.mnt);
            if left == [] && p.name != "/" then
              Keeping(pref[..i] + pref[i + 1..], i, was, n + 1, name, m, ok || left != p.mnt)
            else
              Keeping(pref[i := Prefix(p.name, left)], i + 1, was, n + 1, name, m, ok || left != p.mnt)
  {
    assert pref[i] == pref[i..][0] == was[n..][0];
    assert pref[i + 1..] == pref[i..][1..] && was[n + 1..] == was[n..][1..];
    assert was[..n + 1][..n] == was[..n] && was[..n + 1][n] == was[n];
    hide Left;
    var k := Kept(was[..n], name, m);
    assert Kept(was[..n + 1], name, m) == k + KeptOne(was[n], name, m);
    assert k + [] == k;
  }

  lemma {:induction false} EndKeeping(ns: NS, i: nat, was: seq<Prefix>, n: nat, name: string, m: Option<Dir>, ok: bool)
    requires Good(was) && Keeping(ns.pref, i, was, n, name, m, ok) && i == |ns.pref|
    ensures ns.Valid() && ns.Mounts() == Unmounted(TableOf(was), name, m)
    ensures ok <==> ns.Mounts() != TableOf(was)
  {
    hide Good, SomeLeave, Kept, Unmounted, TableOf;
    assert was[..n] == was && ns.pref[..i] == ns.pref;
    KeptGood(was, name, m);
    SomeUnmounted(was, name, m);
  }

  lemma {:induction false} KeptGood(pref: seq<Prefix>, name: string, m: Option<Dir>)
    requires Good(pref)
    ensures Good(Kept(pref, name, m)) && TableOf(Kept(pref, name, m)) == Unmounted(TableOf(pref), name, m)
  {
    KeptOk(pref, name, m);
    KeptRoot(pref, name, m);
    KeptNames(pref, name, m);
    OthersMounted(Kept(pref, name, m));
  }

  lemma {:induction false} OthersMounted(pref: seq<Prefix>)
    requires Sorted(pref) && pref != [] && pref[0].name == "/" && forall p | p in pref :: p.name == "/" || p.mnt != []
    ensures Good(pref)
  {
    forall i | 0 < i < |pref| ensures pref[i].mnt != [] {
      NotBeforeItself(pref[0].name, pref[i].name);
      assert pref[i] in pref;
    }
  }

  /** The table changes when some entry goes. */
  lemma {:induction false} SomeUnmounted(pref: seq<Prefix>, name: string, m: Option<Dir>)
    requires Good(pref)
    ensures Unmounted(TableOf(pref), name, m) != TableOf(pref) <==> SomeLeave(pref, name, m, |pref|)
  {
    var t, u := TableOf(pref), Unmounted(TableOf(pref), name, m);
    hide Precedes, Cleaned, Sorted, TableOf, Left;
    if k :| 0 <= k < |pref| && Left(name, m, pref[k].name, pref[k].mnt) != pref[k].mnt {
      InTable(pref, k);
      var n := pref[k].name;
      assert n in t && (n !in u || u[n] != t[n]);
    } else {
      forall n | n in t ensures Left(name, m, n, t[n]) == t[n] && (n == "/" || t[n] != []) {
        var i := OnlyInTable(pref, n);
        InTable(pref, i);
      }
      assert u == t;
    }
  }

  lemma {:induction false} LastIsLongest(pref: seq<Prefix>, path: string, at: nat)
    requires Good(pref) && Cleaned(path) && at < |pref| && HasPrefix(path, pref[at].name)
    requires forall k | 0 <= k < |pref| && HasPrefix(path, pref[k].name) :: k <= at
    ensures IsLongest(TableOf(pref), path, pref[at].name)
  {
    InTable(pref, at);
    var t := TableOf(pref);
    forall n | n in t && HasPrefix(path, n) ensures n <= pref[at].name {
      var i := OnlyInTable(pref, n);
      if i < at {
        LaterIsLonger(pref[i].name, pref[at].name, path);
      }
    }
  }

  /** What is mounted, alone or before the others, is the first that is found by its own name. */
  lemma {:induction false} MountedIsFound(t: Table, d0: Dir, flag: Flag)
    requires IsAbs(Attr(d0, "path")) && flag != After
    ensures var d, name := MountPoint(d0), UseAbsPath(Attr(d0, "path"));
            var u := MountedAt(t, d, flag);
            && IsLongest(u, name, name) && UseAbsPath(name) == name
            && Reached(u[name], Suffix(name, name)) != [] && Reached(u[name], Suffix(name, name))[0] == d
  {
    var d, name := MountPoint(d0), UseAbsPath(Attr(d0, "path"));
    CleanedOnce(Attr(d0, "path"));
    PrefixIsElems(Elems(name), Elems(name));
    SuffixIsElems(Elems(name), Elems(name));
    var mnt := MountedAt(t, d, flag)[name];
    ReachedFirst(mnt, Suffix(name, name));
  }

  lemma {:induction false} ReachedFirst(mnt: seq<Dir>, suff: string)
    requires mnt != [] && (suff == "" || suff == "/")
    ensures Reached(mnt, suff) != [] && Reached(mnt, suff)[0] == mnt[0]
    decreases |mnt|
  {
    if |mnt| == 1 {
      assert mnt[..0] == [];
      assert Reached(mnt[..0], suff) == [];
    } else {
      ReachedFirst(mnt[..|mnt| - 1], suff);
    }
  }
}
