/**
  Two-way synchronisation: the changes to pull and those to push are merged by path and
  conflicts are resolved. Changes are expected in path order; the comparison sends them so
  only when no new name comes before an old one.
 */
module ReplMerge {
  import opened Paths
  import opened ReplDiff

  /** In strict path order. */
  predicate Ordered(cs: seq<Chg>)
  {
    forall i, j | 0 <= i < j < |cs| :: Cmp(cs[i].path, cs[j].path) < 0
  }

  /** In path order, so that changes to a path are together. */
  predicate InOrder(cs: seq<Chg>)
  {
    forall i, j | 0 <= i < j < |cs| :: Cmp(cs[i].path, cs[j].path) <= 0
  }

  // ----- merging -----

  function Merged(a: seq<Chg>, b: seq<Chg>): seq<Chg>
    decreases |a| + |b|
  {
    if a == [] then b
    else if b == [] then a
    else
      var cmp := Cmp(a[0].path, b[0].path);
      if cmp < 0 then [a[0]] + Merged(a[1..], b)
      else if cmp > 0 then [b[0]] + Merged(a, b[1..])
      else [a[0], b[0]] + Merged(a[1..], b[1..])
  }

  method Merge(pullc: seq<Chg>, pushc: seq<Chg>) returns (syncc: seq<Chg>)
    ensures syncc == Merged(pullc, pushc)
  {
    var c1: Option<Chg>, c2: Option<Chg> := None, None;
    var p, q := pullc, pushc;
    syncc := [];
    MergeStart(pullc, pushc);
    hide *;
    while true
      invariant c1.None? || c2.None?
      invariant ToMerge(syncc, c1, p, c2, q) == Merged(pullc, pushc)
      decreases |p| + |q|
    {
      if c1.None? {
        if p == [] {
          PullEnds(syncc, p, c2, q);
          if c2.Some? {
            syncc := syncc + [c2.value];
          }
          syncc := syncc + q;   // forward the rest
          return;
        }
        PullMore(syncc, p, c2, q);
        c1, p := Some(p[0]), p[1..];
      }
      if c2.None? {
        if q == [] {
          PushEnds(syncc, c1.value, p, q);
          syncc := syncc + [c1.value];
          syncc := syncc + p;
          return;
        }
        PushMore(syncc, c1.value, p, q);
        c2, q := Some(q[0]), q[1..];
      }
      var cmp := Cmp(c1.value.path, c2.value.path);
      MergeStep(syncc, c1.value, p, c2.value, q);
      if cmp <= 0 {
        syncc, c1 := syncc + [c1.value], None;
      }
      if cmp >= 0 {
        syncc, c2 := syncc + [c2.value], None;
      }
    }
  }

  function Held(c: Option<Chg>, cs: seq<Chg>): seq<Chg>
  {
    if c.Some? then [c.value] + cs else cs
  }

  /** What has been sent and what will be, when c1 and c2 have been taken. */
  function ToMerge(syncc: seq<Chg>, c1: Option<Chg>, p: seq<Chg>, c2: Option<Chg>, q: seq<Chg>): seq<Chg>
  {
    syncc + Merged(Held(c1, p), Held(c2, q))
  }

  lemma MergeStart(p: seq<Chg>, q: seq<Chg>)
    ensures ToMerge([], None, p, None, q) == Merged(p, q)
  {}

  lemma PullEnds(s: seq<Chg>, p: seq<Chg>, c2: Option<Chg>, q: seq<Chg>)
    requires p == []
    ensures ToMerge(s, None, p, c2, q) == (if c2.Some? then s + [c2.value] else s) + q
  {}

  lemma PullMore(s: seq<Chg>, p: seq<Chg>, c2: Option<Chg>, q: seq<Chg>)
    requires p != []
    ensures ToMerge(s, None, p, c2, q) == ToMerge(s, Some(p[0]), p[1..], c2, q)
  {
    assert [p[0]] + p[1..] == p;
  }

  lemma PushEnds(s: seq<Chg>, c1: Chg, p: seq<Chg>, q: seq<Chg>)
    requires q == []
    ensures ToMerge(s, Some(c1), p, None, q) == (s + [c1]) + p
  {}

  lemma PushMore(s: seq<Chg>, c1: Chg, p: seq<Chg>, q: seq<Chg>)
    requires q != []
    ensures ToMerge(s, Some(c1), p, None, q) == ToMerge(s, Some(c1), p, Some(q[0]), q[1..])
  {
    assert [q[0]] + q[1..] == q;
  }

  /** How a merge goes on: with the head of one stream, or with both. */
  lemma MergeHeads(a: seq<Chg>, b: seq<Chg>)
    requires a != [] && b != []
    ensures var cmp := Cmp(a[0].path, b[0].path);
            Merged(a, b) == if cmp < 0 then [a[0]] + Merged(a[1..], b)
                            else if cmp > 0 then [b[0]] + Merged(a, b[1..])
                            else [a[0]] + ([b[0]] + Merged(a[1..], b[1..]))
  {}

  lemma MergeStep(s: seq<Chg>, c1: Chg, p: seq<Chg>, c2: Chg, q: seq<Chg>)
    ensures var cmp := Cmp(c1.path, c2.path);
            ToMerge(s, Some(c1), p, Some(c2), q) ==
            if cmp < 0 then ToMerge(s + [c1], None, p, Some(c2), q)
            else if cmp > 0 then ToMerge(s + [c2], Some(c1), p, None, q)
            else ToMerge(s + [c1] + [c2], None, p, None, q)
    ensures -1 <= Cmp(c1.path, c2.path) <= 1
  {
    var a, b := [c1] + p, [c2] + q;
    assert a[0] == c1 && b[0] == c2 && a[1..] == p && b[1..] == q;
    MergeHeads(a, b);
    hide Merged, Cmp;
    Associate(s, c1, Merged(p, b));
    Associate(s, c2, Merged(a, q));
    Associate(s, c1, [c2] + Merged(p, q));
    Associate(s + [c1], c2, Merged(p, q));
  }

  lemma Associate(s: seq<Chg>, c: Chg, m: seq<Chg>)
    ensures s + ([c] + m) == (s + [c]) + m
  {}

  lemma FoundCons(c: Chg, cs: seq<Chg>, from: Where)
    ensures FoundAt([c] + cs, from) == if from == Both || c.at == from then [c] + FoundAt(cs, from) else FoundAt(cs, from)
  {
    assert ([c] + cs)[1..] == cs;
  }

  /** The changes of each stream are forwarded in their order. */
  lemma {:induction false} MergeForwards(a: seq<Chg>, b: seq<Chg>)
    requires (forall c | c in a :: c.at == Remote) && (forall c | c in b :: c.at == Local)
    ensures FoundAt(Merged(a, b), Remote) == a && FoundAt(Merged(a, b), Local) == b
    decreases |a| + |b|
  {
    if a == [] {
      AllFoundAt(b, Local);
      NoneFoundAt(b, Local, Remote);
    } else if b == [] {
      AllFoundAt(a, Remote);
      NoneFoundAt(a, Remote, Local);
    } else {
      var x, y, a', b' := a[0], b[0], a[1..], b[1..];
      assert x in a && y in b && a == [x] + a' && b == [y] + b';
      MergeHeads(a, b);
      hide *;
      var cmp := Cmp(x.path, y.path);
      if cmp < 0 {
        MergeForwards(a', b);
        FoundCons(x, Merged(a', b), Remote);
        FoundCons(x, Merged(a', b), Local);
      } else if cmp > 0 {
        MergeForwards(a, b');
        FoundCons(y, Merged(a, b'), Remote);
        FoundCons(y, Merged(a, b'), Local);
      } else {
        MergeForwards(a', b');
        FoundCons(y, Merged(a', b'), Remote);
        FoundCons(y, Merged(a', b'), Local);
        FoundCons(x, [y] + Merged(a', b'), Remote);
        FoundCons(x, [y] + Merged(a', b'), Local);
      }
    }
  }

  /** Every change of both streams is forwarded, exactly once. */
  lemma {:induction false} MergeOnce(a: seq<Chg>, b: seq<Chg>)
    ensures multiset(Merged(a, b)) == multiset(a) + multiset(b)
    decreases |a| + |b|
  {
    if a != [] && b != [] {
      var x, y, a', b' := a[0], b[0], a[1..], b[1..];
      assert a == [x] + a' && b == [y] + b';
      MergeHeads(a, b);
      hide *;
      var cmp := Cmp(x.path, y.path);
      if cmp < 0 { MergeOnce(a', b); } else if cmp > 0 { MergeOnce(a, b'); } else { MergeOnce(a', b'); }
    }
  }

  lemma {:induction false} NoneFoundAt(cs: seq<Chg>, at: Where, other: Where)
    requires at != other && other != Both && forall c | c in cs :: c.at == at
    ensures FoundAt(cs, other) == []
    decreases |cs|
  {
    if cs != [] {
      assert cs[0] in cs;
      NoneFoundAt(cs[1..], at, other);
    }
  }

  // ----- order -----

  /** p comes before all of cs. */
  predicate Leads(p: Path, cs: seq<Chg>)
  {
    forall i | 0 <= i < |cs| :: Cmp(p, cs[i].path) < 0
  }

  lemma LeadsOrdered(c: Chg, cs: seq<Chg>)
    requires Ordered([c] + cs)
    ensures Leads(c.path, cs) && Ordered(cs)
  {
    var all := [c] + cs;
    forall i | 0 <= i < |cs| ensures Cmp(c.path, cs[i].path) < 0 {
      assert all[0] == c && all[i + 1] == cs[i];
    }
    forall i, j | 0 <= i < j < |cs| ensures Cmp(cs[i].path, cs[j].path) < 0 {
      assert all[i + 1] == cs[i] && all[j + 1] == cs[j];
    }
  }

  lemma {:induction false} LeadsMerged(p: Path, a: seq<Chg>, b: seq<Chg>)
    requires Leads(p, a) && Leads(p, b)
    ensures Leads(p, Merged(a, b))
    decreases |a| + |b|
  {
    if a != [] && b != [] {
      if Cmp(a[0].path, b[0].path) < 0 { LeadsMerged(p, a[1..], b); }
      else if Cmp(a[0].path, b[0].path) > 0 { LeadsMerged(p, a, b[1..]); }
      else { LeadsMerged(p, a[1..], b[1..]); }
    }
  }

  lemma LeadsTrans(p: Path, c: Chg, cs: seq<Chg>)
    requires Cmp(p, c.path) <= 0 && Leads(c.path, cs)
    ensures Leads(p, cs)
  {
    forall i | 0 <= i < |cs| ensures Cmp(p, cs[i].path) < 0 {
      CmpEq(p, c.path);
      if p != c.path { CmpTrans(p, c.path, cs[i].path); }
    }
  }

  /** Streams in strict order merge in order, with changes to the same path together. */
  lemma {:induction false} MergeInOrder(a: seq<Chg>, b: seq<Chg>)
    requires Ordered(a) && Ordered(b)
    ensures InOrder(Merged(a, b))
    decreases |a| + |b|
  {
    if a != [] && b != [] {
      assert a == [a[0]] + a[1..] && b == [b[0]] + b[1..];
      LeadsOrdered(a[0], a[1..]);
      LeadsOrdered(b[0], b[1..]);
      var cmp := Cmp(a[0].path, b[0].path);
      CmpEq(a[0].path, b[0].path);
      if cmp < 0 {
        MergeInOrder(a[1..], b);
        LeadsTrans(a[0].path, b[0], b[1..]);
        LeadsMerged(a[0].path, a[1..], b);
      } else if cmp > 0 {
        MergeInOrder(a, b[1..]);
        LeadsTrans(b[0].path, a[0], a[1..]);
        LeadsMerged(b[0].path, a, b[1..]);
      } else {
        MergeInOrder(a[1..], b[1..]);
        LeadsMerged(a[0].path, a[1..], b[1..]);
      }
    }
  }

  // ----- resolving -----

  /** The later of two changes; the second one if they were made at the same time. */
  function Later(c: Chg, d: Chg): Chg
  {
    if d.time < c.time then c else d
  }

  function Settle(last: Chg, mc: seq<Chg>): seq<Chg>
    decreases |mc|
  {
    if mc == [] then [last]
    else if mc[0].path == last.path then Settle(Later(last, mc[0]), mc[1..])
    else [last] + Settle(mc[0], mc[1..])
  }

  function Resolved(mc: seq<Chg>): seq<Chg>
  {
    if mc == [] then [] else Settle(mc[0], mc[1..])
  }

  /** Send one change for each path that changes, when all are known. */
  method Resolve(mc: seq<Chg>) returns (rc: seq<Chg>)
    ensures rc == Resolved(mc)
  {
    rc := [];
    var last: Option<Chg> := None;
    assert mc[0..] == mc;
    for i := 0 to |mc|
      invariant last.None? <==> i == 0
      invariant last.None? ==> rc == []
      invariant last.Some? ==> rc + Settle(last.value, mc[i..]) == Resolved(mc)
    {
      var c := mc[i];
      assert mc[i..][0] == c && mc[i..][1..] == mc[i + 1..];
      if last.None? {
        last := Some(c);
      } else if last.value.path == c.path {
        if !(c.time < last.value.time) {
          last := Some(c);
        }
      } else {
        assert Settle(last.value, mc[i..]) == [last.value] + Settle(c, mc[i + 1..]);
        rc := rc + [last.value];
        last := Some(c);
      }
    }
    if last.Some? {
      rc := rc + [last.value];
    }
  }

  /** The maximal runs of changes to one path. */
  function Runs(mc: seq<Chg>): seq<seq<Chg>>
  {
    if mc == [] then [] else AddTo(mc[0], Runs(mc[1..]))
  }

  function AddTo(c: Chg, rs: seq<seq<Chg>>): seq<seq<Chg>>
  {
    if rs != [] && rs[0] != [] && rs[0][0].path == c.path then [[c] + rs[0]] + rs[1..] else [[c]] + rs
  }

  predicate SamePath(run: seq<Chg>)
  {
    run != [] && forall i | 0 <= i < |run| :: run[i].path == run[0].path
  }

  /** c is the latest of the run, and the last one of those as late. */
  predicate Wins(run: seq<Chg>, c: Chg)
  {
    exists i :: 0 <= i < |run| && run[i] == c
      && (forall j | 0 <= j < i :: run[j].time <= c.time) && (forall j | i < j < |run| :: run[j].time < c.time)
  }

  predicate Differ(r1: seq<Chg>, r2: seq<Chg>)
  {
    r1 != [] && r2 != [] && r1[0].path != r2[0].path
  }

  /** Runs of changes to one path each, and each to another path than the one before. */
  predicate AreRuns(rs: seq<seq<Chg>>)
  {
    rs != [] ==> SamePath(rs[0]) && (|rs| > 1 ==> Differ(rs[0], rs[1])) && AreRuns(rs[1..])
  }

  function Joined(rs: seq<seq<Chg>>): seq<Chg>
  {
    if rs == [] then [] else rs[0] + Joined(rs[1..])
  }

  lemma {:induction false} AddToRuns(c: Chg, rs: seq<seq<Chg>>)
    requires AreRuns(rs)
    ensures AreRuns(AddTo(c, rs)) && Joined(AddTo(c, rs)) == [c] + Joined(rs)
    ensures AddTo(c, rs) != [] && AddTo(c, rs)[0] != [] && AddTo(c, rs)[0][0] == c
  {
    var r := AddTo(c, rs);
    if rs != [] && rs[0] != [] && rs[0][0].path == c.path {
      assert r[1..] == rs[1..] && |r| == |rs| && (|rs| > 1 ==> r[1] == rs[1]);
      assert SamePath([c] + rs[0]);
      hide Joined;
      assert Joined(r) == ([c] + rs[0]) + Joined(rs[1..]) && Joined(rs) == rs[0] + Joined(rs[1..]) by { JoinedIs(r); JoinedIs(rs); }
    } else {
      assert r[1..] == rs;
    }
  }

  lemma JoinedIs(rs: seq<seq<Chg>>)
    requires rs != []
    ensures Joined(rs) == rs[0] + Joined(rs[1..])
  {}

  lemma {:induction false} RunsOk(mc: seq<Chg>)
    ensures mc != [] ==> Runs(mc) != [] && Runs(mc)[0] != [] && Runs(mc)[0][0] == mc[0]
    ensures AreRuns(Runs(mc)) && Joined(Runs(mc)) == mc
    decreases |mc|
  {
    if mc != [] {
      RunsOk(mc[1..]);
      AddToRuns(mc[0], Runs(mc[1..]));
    }
  }

  lemma AddToSame(c: Chg, run: seq<Chg>, rs: seq<seq<Chg>>)
    requires run != [] && run[0].path == c.path
    ensures AddTo(c, [run] + rs) == [[c] + run] + rs
  {
    assert ([run] + rs)[1..] == rs;
  }

  lemma {:induction false} RunThenOther(run: seq<Chg>, mc: seq<Chg>)
    requires SamePath(run) && (mc != [] ==> mc[0].path != run[0].path)
    ensures Runs(run + mc) == [run] + Runs(mc)
    decreases |run|
  {
    RunsOk(mc);
    assert (run + mc)[0] == run[0] && (run + mc)[1..] == run[1..] + mc;
    assert Runs(run + mc) == AddTo(run[0], Runs(run[1..] + mc));
    if |run| == 1 {
      assert run[1..] + mc == mc && run == [run[0]];
    } else {
      var tail := run[1..];
      assert forall i | 0 <= i < |tail| :: tail[i] == run[i + 1];
      RunThenOther(tail, mc);
      hide Runs, AddTo;
      AddToSame(run[0], tail, Runs(mc));
      assert [run[0]] + tail == run;
    }
  }

  lemma {:induction false} SettleWins(run: seq<Chg>, last: Chg, mc: seq<Chg>)
    requires SamePath(run) && Wins(run, last)
    ensures |Settle(last, mc)| == |Runs(run + mc)|
    ensures forall k | 0 <= k < |Runs(run + mc)| :: Wins(Runs(run + mc)[k], Settle(last, mc)[k])
    decreases |mc|
  {
    if mc == [] {
      RunThenOther(run, mc);
    } else if mc[0].path == last.path {
      var run' := run + [mc[0]];
      assert run' + mc[1..] == run + mc;
      LaterWins(run, last, mc[0]);
      SettleWins(run', Later(last, mc[0]), mc[1..]);
    } else {
      RunThenOther(run, mc);
      assert [mc[0]] + mc[1..] == mc;
      SettleWins([mc[0]], mc[0], mc[1..]);
    }
  }

  lemma LaterWins(run: seq<Chg>, last: Chg, c: Chg)
    requires SamePath(run) && Wins(run, last) && c.path == last.path
    ensures SamePath(run + [c]) && Wins(run + [c], Later(last, c))
  {
    var i :| 0 <= i < |run| && run[i] == last
      && (forall j | 0 <= j < i :: run[j].time <= last.time) && (forall j | i < j < |run| :: run[j].time < last.time);
    var r := run + [c];
    if c.time < last.time { assert r[i] == last; } else { assert r[|run|] == c; }
  }

  /** One change is sent for each maximal run of changes to a path: the latest, and of those as late, the last to arrive. */
  lemma {:induction false} ResolvedWins(mc: seq<Chg>)
    ensures |Resolved(mc)| == |Runs(mc)|
    ensures forall k | 0 <= k < |Runs(mc)| :: Wins(Runs(mc)[k], Resolved(mc)[k])
  {
    if mc != [] {
      assert [mc[0]] + mc[1..] == mc;
      SettleWins([mc[0]], mc[0], mc[1..]);
    }
  }

  // ----- both together -----

  /** c is the only change to its path, or the later one; the pushed one if they were made at the same time. */
  predicate Chosen(pull: seq<Chg>, push: seq<Chg>, c: Chg)
  {
    || (c in pull && forall d | d in push && d.path == c.path :: d.time < c.time)
    || (c in push && forall d | d in pull && d.path == c.path :: d.time <= c.time)
  }

  lemma {:induction false} SettleLeads(c: Chg, mc: seq<Chg>)
    requires Leads(c.path, mc)
    ensures Settle(c, mc) == [c] + Resolved(mc)
  {
    if mc != [] { CmpEq(c.path, mc[0].path); }
  }

  lemma {:induction false} OrderedSettles(cs: seq<Chg>)
    requires Ordered(cs)
    ensures Resolved(cs) == cs
    decreases |cs|
  {
    if cs != [] {
      assert cs == [cs[0]] + cs[1..];
      LeadsOrdered(cs[0], cs[1..]);
      SettleLeads(cs[0], cs[1..]);
      OrderedSettles(cs[1..]);
    }
  }

  lemma {:induction false} LeadsSettled(p: Path, mc: seq<Chg>)
    requires Leads(p, mc)
    ensures Leads(p, Resolved(mc))
  {
    if mc != [] { LeadsLast(p, mc[0], mc[1..]); }
  }

  lemma {:induction false} LeadsLast(p: Path, last: Chg, mc: seq<Chg>)
    requires Cmp(p, last.path) < 0 && Leads(p, mc)
    ensures Leads(p, Settle(last, mc))
    decreases |mc|
  {
    if mc != [] {
      LeadsLast(p, if mc[0].path == last.path then Later(last, mc[0]) else mc[0], mc[1..]);
    }
  }

  lemma PutFirst(c: Chg, cs: seq<Chg>)
    requires Leads(c.path, cs) && Ordered(cs)
    ensures Ordered([c] + cs)
  {
    var r := [c] + cs;
    forall i, j | 0 <= i < j < |r| ensures Cmp(r[i].path, r[j].path) < 0 {
      if i > 0 { assert r[i] == cs[i - 1]; }
      assert r[j] == cs[j - 1];
    }
  }

  lemma NotAmong(p: Path, cs: seq<Chg>, c: Chg)
    requires Leads(p, cs) && c in cs
    ensures c.path != p
  {
    CmpEq(p, c.path);
  }

  /** What is chosen when one stream has the first change alone. */
  lemma ChosenFirst(x: Chg, a: seq<Chg>, b: seq<Chg>, c: Chg)
    requires Leads(x.path, a) && Leads(x.path, b)
    ensures Chosen([x] + a, b, c) <==> c == x || Chosen(a, b, c)
    ensures Chosen(b, [x] + a, c) <==> c == x || Chosen(b, a, c)
  {
    assert forall d | d in a :: d.path != x.path by { forall d | d in a ensures d.path != x.path { NotAmong(x.path, a, d); } }
    assert forall d | d in b :: d.path != x.path by { forall d | d in b ensures d.path != x.path { NotAmong(x.path, b, d); } }
    assert forall d :: d in [x] + a <==> d == x || d in a;
  }

  lemma ChosenBoth(x: Chg, a: seq<Chg>, y: Chg, b: seq<Chg>, c: Chg)
    requires x.path == y.path && Leads(x.path, a) && Leads(x.path, b)
    ensures Chosen([x] + a, [y] + b, c) <==> c == Later(x, y) || Chosen(a, b, c)
  {
    assert forall d | d in a :: d.path != x.path by { forall d | d in a ensures d.path != x.path { NotAmong(x.path, a, d); } }
    assert forall d | d in b :: d.path != x.path by { forall d | d in b ensures d.path != x.path { NotAmong(x.path, b, d); } }
    assert forall d :: d in [x] + a <==> d == x || d in a;
    assert forall d :: d in [y] + b <==> d == y || d in b;
  }

  /** The changes of both replicas, in order: each path changes once, and the latest change wins. */
  lemma {:induction false} SyncChoice(pull: seq<Chg>, push: seq<Chg>)
    requires Ordered(pull) && Ordered(push)
    ensures Ordered(Resolved(Merged(pull, push)))
    ensures forall c :: c in Resolved(Merged(pull, push)) <==> Chosen(pull, push, c)
    decreases |pull| + |push|, 0
  {
    if pull == [] || push == [] {
      OrderedSettles(pull);
      OrderedSettles(push);
    } else {
      var x, y, a, b := pull[0], push[0], pull[1..], push[1..];
      assert pull == [x] + a && push == [y] + b;
      LeadsOrdered(x, a);
      LeadsOrdered(y, b);
      CmpEq(x.path, y.path);
      MergeHeads(pull, push);
      hide Merged, Settle, Chosen, Cmp, Ordered, Leads;
      var cmp := Cmp(x.path, y.path);
      if cmp < 0 {
        LeadsTrans(x.path, y, b);
        LeadsPut(x.path, y, b);
        FirstAlone(x, a, push, Merged(a, push));
        forall c ensures c in Resolved(Merged(pull, push)) <==> Chosen(pull, push, c) { ChosenFirst(x, a, push, c); }
      } else if cmp > 0 {
        LeadsTrans(y.path, x, a);
        LeadsPut(y.path, x, a);
        FirstAlone(y, pull, b, Merged(pull, b));
        forall c ensures c in Resolved(Merged(pull, push)) <==> Chosen(pull, push, c) { ChosenFirst(y, b, pull, c); }
      } else {
        FirstAlone(Later(x, y), a, b, Merged(a, b));
        SettleTwo(x, y, Merged(a, b));
        forall c ensures c in Resolved(Merged(pull, push)) <==> Chosen(pull, push, c) { ChosenBoth(x, a, y, b, c); }
      }
    }
  }

  lemma SettleTwo(x: Chg, y: Chg, m: seq<Chg>)
    requires x.path == y.path
    ensures Resolved([x] + ([y] + m)) == Settle(Later(x, y), m)
  {
    assert ([x] + ([y] + m))[1..] == [y] + m && ([y] + m)[1..] == m;
  }

  lemma LeadsPut(p: Path, c: Chg, cs: seq<Chg>)
    requires Cmp(p, c.path) < 0 && Leads(p, cs)
    ensures Leads(p, [c] + cs)
  {}

  /** A change before all others is sent first, and the rest as without it. */
  lemma {:induction false} FirstAlone(x: Chg, a: seq<Chg>, b: seq<Chg>, m: seq<Chg>)
    requires Ordered(a) && Ordered(b) && Leads(x.path, a) && Leads(x.path, b) && m == Merged(a, b)
    ensures Settle(x, m) == [x] + Resolved(m) && Resolved([x] + m) == [x] + Resolved(m)
    ensures Ordered([x] + Resolved(m))
    ensures forall c :: c in [x] + Resolved(m) <==> c == x || Chosen(a, b, c)
    decreases |a| + |b|, 1
  {
    LeadsMerged(x.path, a, b);
    SettleLeads(x, m);
    assert ([x] + m)[1..] == m;
    LeadsSettled(x.path, m);
    SyncChoice(a, b);
    PutFirst(x, Resolved(m));
  }

  // ----- the order in which changes are found -----

  /** In every directory compared, the names come in order. */
  predicate NamesInOrder(f0: File, f1: File)
    decreases f0
  {
    && (forall i, j | 0 <= i < j < |Names(f0, f1)| :: StrCmp(Names(f0, f1)[i], Names(f0, f1)[j]) < 0)
    && forall c0 | c0 in f0.child && Walk1(f1, c0.d.name).Some? :: NamesInOrder(c0, Walk1(f1, c0.d.name).value)
  }

  /** Changes come in order below a name exactly when they do by themselves. */
  lemma {:induction false} UnderOrdered(name: string, cs: seq<Chg>)
    ensures Ordered(Under(name, cs)) <==> Ordered(cs)
    ensures |Under(name, cs)| == |cs| && forall i | 0 <= i < |cs| :: Under(name, cs)[i].path == [name] + cs[i].path
  {
    UnderIs(name, cs);
    var u := Under(name, cs);
    forall i, j | 0 <= i < j < |cs| ensures Cmp(u[i].path, u[j].path) == Cmp(cs[i].path, cs[j].path) {
      assert u[i].path[1..] == cs[i].path && u[j].path[1..] == cs[j].path;
    }
  }

  lemma {:induction false} UnderIs(name: string, cs: seq<Chg>)
    ensures |Under(name, cs)| == |cs| && forall i | 0 <= i < |cs| :: Under(name, cs)[i] == cs[i].(path := [name] + cs[i].path)
    decreases |cs|
  {
    if cs != [] { UnderIs(name, cs[1..]); }
  }

  /** All of a comes before all of b. */
  predicate Before(a: seq<Chg>, b: seq<Chg>)
  {
    forall i, j | 0 <= i < |a| && 0 <= j < |b| :: Cmp(a[i].path, b[j].path) < 0
  }

  lemma {:induction false} AppendOrdered(a: seq<Chg>, b: seq<Chg>)
    ensures Ordered(a + b) <==> Ordered(a) && Ordered(b) && Before(a, b)
  {
    var r := a + b;
    if Ordered(a) && Ordered(b) && Before(a, b) {
      forall i, j | 0 <= i < j < |r| ensures Cmp(r[i].path, r[j].path) < 0 {
        if j < |a| {
          assert r[i] == a[i] && r[j] == a[j];
        } else if i >= |a| {
          assert r[i] == b[i - |a|] && r[j] == b[j - |a|];
        } else {
          assert r[i] == a[i] && r[j] == b[j - |a|];
        }
      }
    }
    if Ordered(r) {
      forall i, j | 0 <= i < j < |a| ensures Cmp(a[i].path, a[j].path) < 0 {
        assert a[i] == r[i] && a[j] == r[j];
      }
      forall i, j | 0 <= i < j < |b| ensures Cmp(b[i].path, b[j].path) < 0 {
        assert b[i] == r[|a| + i] && b[j] == r[|a| + j];
      }
      forall i, j | 0 <= i < |a| && 0 <= j < |b| ensures Cmp(a[i].path, b[j].path) < 0 {
        assert a[i] == r[i] && b[j] == r[|a| + j];
      }
    }
  }

  /** Of the names with something to change, each comes before those that follow. */
  predicate ChangedRise(f0: File, f1: File, names: seq<string>, metat: nat, w: Where)
  {
    forall i, j | 0 <= i < j < |names| && DiffKid(f0, f1, names[i], metat, w) != [] && DiffKid(f0, f1, names[j], metat, w) != [] ::
      StrCmp(names[i], names[j]) < 0
  }

  /** In every directory compared, the names with something to change come in order. */
  predicate ChangesInOrder(f0: File, f1: File, metat: nat, w: Where)
    decreases f0, 1
  {
    Compared(f0, f1) ==>
      var names := Names(f0, f1);
      && ChangedRise(f0, f1, names, metat, w)
      && forall k | k in names :: KidInOrder(f0, f1, k, w)
  }

  predicate KidInOrder(f0: File, f1: File, name: string, w: Where)
    decreases f0, 0
  {
    Walk1(f0, name).Some? && Walk1(f1, name).Some? ==>
      ChangesInOrder(Walk1(f0, name).value, Walk1(f1, name).value, f1.d.mtime, w)
  }

  /** Where the changes to the children with some names come from, and that every child changed is there. */
  lemma {:induction false} NamesAre(f0: File, f1: File, names: seq<string>, metat: nat, w: Where)
    ensures forall c | c in DiffNames(f0, f1, names, metat, w) :: c.path != [] &&
              exists k :: 0 <= k < |names| && names[k] == c.path[0] && DiffKid(f0, f1, names[k], metat, w) != []
    ensures forall k | 0 <= k < |names| && DiffKid(f0, f1, names[k], metat, w) != [] ::
              Under(names[k], DiffKid(f0, f1, names[k], metat, w)) != []
              && Under(names[k], DiffKid(f0, f1, names[k], metat, w))[0] in DiffNames(f0, f1, names, metat, w)
    decreases |names|
  {
    if names != [] {
      hide DiffKid, Under;
      var rest := names[1..];
      NamesAre(f0, f1, rest, metat, w);
      var kid := DiffKid(f0, f1, names[0], metat, w);
      UnderIs(names[0], kid);
      var a, b := Under(names[0], kid), DiffNames(f0, f1, rest, metat, w);
      forall c: Chg | c in a + b ensures c.path != [] &&
        exists k :: 0 <= k < |names| && names[k] == c.path[0] && DiffKid(f0, f1, names[k], metat, w) != []
      {
        if c in a {
          var i :| 0 <= i < |a| && a[i] == c;
          assert names[0] == c.path[0];
        } else {
          var k :| 0 <= k < |rest| && rest[k] == c.path[0] && DiffKid(f0, f1, rest[k], metat, w) != [];
          assert names[k + 1] == c.path[0];
        }
      }
      forall k | 0 <= k < |names| && DiffKid(f0, f1, names[k], metat, w) != []
        ensures Under(names[k], DiffKid(f0, f1, names[k], metat, w)) != []
             && Under(names[k], DiffKid(f0, f1, names[k], metat, w))[0] in a + b
      {
        if k > 0 { assert rest[k - 1] == names[k]; }
      }
    }
  }

  /** If something changes at the first name, it comes before the others with something to change. */
  predicate FirstRises(f0: File, f1: File, names: seq<string>, metat: nat, w: Where)
    requires names != []
  {
    DiffKid(f0, f1, names[0], metat, w) != [] ==>
      forall j | 0 < j < |names| && DiffKid(f0, f1, names[j], metat, w) != [] :: StrCmp(names[0], names[j]) < 0
  }

  /** The first name against the others: all its changes come before theirs exactly when its name does. */
  lemma {:induction false} FirstBefore(f0: File, f1: File, names: seq<string>, metat: nat, w: Where)
    requires names != []
    ensures Before(Under(names[0], DiffKid(f0, f1, names[0], metat, w)), DiffNames(f0, f1, names[1..], metat, w))
       <==> FirstRises(f0, f1, names, metat, w)
  {
    hide DiffKid, DiffNames, Under, StrCmp, Cmp, Before;
    var kid := DiffKid(f0, f1, names[0], metat, w);
    var a, b := Under(names[0], kid), DiffNames(f0, f1, names[1..], metat, w);
    if Before(a, b) && kid != [] {
      forall j | 0 < j < |names| && DiffKid(f0, f1, names[j], metat, w) != [] ensures StrCmp(names[0], names[j]) < 0 {
        ChangesThenName(f0, f1, names, metat, w, j);
      }
    }
    if FirstRises(f0, f1, names, metat, w) { NameThenChanges(f0, f1, names, metat, w); }
  }

  lemma {:induction false} ChangesThenName(f0: File, f1: File, names: seq<string>, metat: nat, w: Where, j: nat)
    requires 0 < j < |names| && DiffKid(f0, f1, names[0], metat, w) != [] && DiffKid(f0, f1, names[j], metat, w) != []
    requires Before(Under(names[0], DiffKid(f0, f1, names[0], metat, w)), DiffNames(f0, f1, names[1..], metat, w))
    ensures StrCmp(names[0], names[j]) < 0
  {
    var rest := names[1..];
    var kid, other := DiffKid(f0, f1, names[0], metat, w), DiffKid(f0, f1, names[j], metat, w);
    var a, b := Under(names[0], kid), DiffNames(f0, f1, rest, metat, w);
    assert rest[j - 1] == names[j];
    NamesAre(f0, f1, rest, metat, w);
    hide DiffKid, DiffNames, Under, StrCmp, Cmp;
    UnderIs(names[0], kid);
    UnderIs(names[j], other);
    var c := Under(names[j], other)[0];
    var i :| 0 <= i < |b| && b[i] == c;
    assert Cmp(a[0].path, b[i].path) < 0;
    if names[0] == names[j] { CmpEq(a[0].path, c.path); }
    CmpFirst(a[0].path, c.path);
  }

  lemma {:induction false} NameThenChanges(f0: File, f1: File, names: seq<string>, metat: nat, w: Where)
    requires names != [] && FirstRises(f0, f1, names, metat, w)
    ensures Before(Under(names[0], DiffKid(f0, f1, names[0], metat, w)), DiffNames(f0, f1, names[1..], metat, w))
  {
    var rest := names[1..];
    var kid := DiffKid(f0, f1, names[0], metat, w);
    var a, b := Under(names[0], kid), DiffNames(f0, f1, rest, metat, w);
    NamesAre(f0, f1, rest, metat, w);
    hide DiffKid, DiffNames, Under, StrCmp, Cmp;
    UnderIs(names[0], kid);
    forall i, j | 0 <= i < |a| && 0 <= j < |b| ensures Cmp(a[i].path, b[j].path) < 0 {
      assert b[j] in b;
      var k :| 0 <= k < |rest| && rest[k] == b[j].path[0] && DiffKid(f0, f1, rest[k], metat, w) != [];
      assert names[k + 1] == rest[k];
      CmpFirst(a[i].path, b[j].path);
    }
  }

  /** Paths whose first elements differ compare as those do. */
  lemma CmpFirst(p: Path, q: Path)
    requires p != [] && q != []
    ensures p[0] != q[0] ==> Cmp(p, q) == StrCmp(p[0], q[0])
    ensures StrCmp(p[0], q[0]) < 0 ==> Cmp(p, q) < 0
  {
    StrCmpEq(p[0], q[0]);
  }

  lemma {:induction false} NamesOrdered(f0: File, f1: File, names: seq<string>, metat: nat, w: Where)
    ensures Ordered(DiffNames(f0, f1, names, metat, w)) <==>
      ChangedRise(f0, f1, names, metat, w) && forall k | k in names :: Ordered(DiffKid(f0, f1, k, metat, w))
    decreases |names|
  {
    if names != [] {
      hide DiffKid, Under, StrCmp, Cmp, Ordered, Before, ChangedRise, FirstRises;
      var rest := names[1..];
      var kid := DiffKid(f0, f1, names[0], metat, w);
      NamesOrdered(f0, f1, rest, metat, w);
      UnderOrdered(names[0], kid);
      AppendOrdered(Under(names[0], kid), DiffNames(f0, f1, rest, metat, w));
      FirstBefore(f0, f1, names, metat, w);
      RiseStep(f0, f1, names, metat, w);
      assert forall k :: k in names <==> k == names[0] || k in rest;
    } else {
      assert Ordered([]);
    }
  }

  lemma RiseStep(f0: File, f1: File, names: seq<string>, metat: nat, w: Where)
    requires names != []
    ensures ChangedRise(f0, f1, names, metat, w) <==>
      && ChangedRise(f0, f1, names[1..], metat, w)
      && FirstRises(f0, f1, names, metat, w)
  {
    hide DiffKid, StrCmp;
    var rest := names[1..];
    forall i | 0 <= i < |rest| ensures rest[i] == names[i + 1] {}
    if ChangedRise(f0, f1, rest, metat, w) {
      forall i, j | 0 < i < j < |names| && DiffKid(f0, f1, names[i], metat, w) != [] && DiffKid(f0, f1, names[j], metat, w) != []
        ensures StrCmp(names[i], names[j]) < 0
      {
        assert rest[i - 1] == names[i] && rest[j - 1] == names[j];
      }
    }
  }

  /** Changes are found in strict path order exactly when, in each directory, the names of what changes are. */
  lemma {:induction false} DiffOrdered(f0: File, f1: File, root: bool, metat: nat, w: Where)
    ensures Ordered(Diff(f0, f1, root, metat, w)) <==> ChangesInOrder(f0, f1, metat, w)
    decreases f0
  {
    if Compared(f0, f1) {
      var names := Names(f0, f1);
      forall k | k in names ensures Ordered(DiffKid(f0, f1, k, metat, w)) <==> KidInOrder(f0, f1, k, w) {
        var c0, c1 := Walk1(f0, k), Walk1(f1, k);
        if c0.Some? && c1.Some? { DiffOrdered(c0.value, c1.value, false, f1.d.mtime, w); }
      }
      DiffIs(f0, f1, root, metat, w);
      hide Ordered, Diff, DiffNames, DiffKid, Names, ChangedRise, KidInOrder, Before;
      NamesOrdered(f0, f1, names, metat, w);
      OwnFirst(f0, f1, root, metat, w);
      AppendOrdered(OwnChange(f0, f1, root, metat, w), DiffNames(f0, f1, names, metat, w));
    }
  }

  /** The change to the attributes of a directory compared, if any. */
  function OwnChange(f0: File, f1: File, root: bool, metat: nat, w: Where): seq<Chg>
  {
    if MetaChanged(f0.d, f1.d) && !root then [Chg(Meta, [], f1.d, metat, w)] else []
  }

  lemma DiffIs(f0: File, f1: File, root: bool, metat: nat, w: Where)
    requires Compared(f0, f1)
    ensures Diff(f0, f1, root, metat, w) == OwnChange(f0, f1, root, metat, w) + DiffNames(f0, f1, Names(f0, f1), metat, w)
  {}

  lemma {:induction false} OwnFirst(f0: File, f1: File, root: bool, metat: nat, w: Where)
    ensures Ordered(OwnChange(f0, f1, root, metat, w))
    ensures Before(OwnChange(f0, f1, root, metat, w), DiffNames(f0, f1, Names(f0, f1), metat, w))
  {
    NamesAre(f0, f1, Names(f0, f1), metat, w);
    hide DiffNames, Names;
    var a, b := OwnChange(f0, f1, root, metat, w), DiffNames(f0, f1, Names(f0, f1), metat, w);
    forall i, j | 0 <= i < |a| && 0 <= j < |b| ensures Cmp(a[i].path, b[j].path) < 0 {
      assert b[j] in b;
    }
  }

  /** It is enough that all names are in order. */
  lemma {:induction false} SortedNamesDo(f0: File, f1: File, root: bool, metat: nat, w: Where)
    requires NamesInOrder(f0, f1)
    ensures Ordered(Diff(f0, f1, root, metat, w))
  {
    NamesInOrderDo(f0, f1, metat, w);
    DiffOrdered(f0, f1, root, metat, w);
  }

  lemma {:induction false} NamesInOrderDo(f0: File, f1: File, metat: nat, w: Where)
    requires NamesInOrder(f0, f1)
    ensures ChangesInOrder(f0, f1, metat, w)
    decreases f0
  {
    var names := Names(f0, f1);
    forall k | k in names ensures KidInOrder(f0, f1, k, w) {
      if Walk1(f0, k).Some? && Walk1(f1, k).Some? {
        NamesInOrderDo(Walk1(f0, k).value, Walk1(f1, k).value, f1.d.mtime, w);
      }
    }
  }

  // ----- do removals take precedence? -----

  /** A change that makes or removes a whole tree. */
  predicate OfTree(c: Chg)
  {
    c.ty == Add || c.ty == Del || c.ty == DirFile
  }

  function PathsOf(cs: seq<Chg>): set<Path>
  {
    if cs == [] then {} else {cs[0].path} + PathsOf(cs[1..])
  }

  lemma {:induction false} PathsAre(cs: seq<Chg>)
    ensures forall p :: p in PathsOf(cs) <==> exists c | c in cs :: c.path == p
    decreases |cs|
  {
    if cs != [] {
      PathsAre(cs[1..]);
      assert forall c | c in cs :: c == cs[0] || c in cs[1..];
      assert cs[0] in cs && forall c | c in cs[1..] :: c in cs;
    }
  }

  lemma {:induction false} SettlePaths(last: Chg, mc: seq<Chg>)
    ensures PathsOf(Settle(last, mc)) == {last.path} + PathsOf(mc)
    decreases |mc|
  {
    if mc == [] {
      assert [last][1..] == [];
    } else if mc[0].path == last.path {
      SettlePaths(Later(last, mc[0]), mc[1..]);
    } else {
      SettlePaths(mc[0], mc[1..]);
      assert ([last] + Settle(mc[0], mc[1..]))[1..] == Settle(mc[0], mc[1..]);
    }
  }

  /** Every path with a change has one that is sent. */
  lemma EveryPathSent(mc: seq<Chg>)
    ensures PathsOf(Resolved(mc)) == PathsOf(mc)
  {
    if mc != [] { SettlePaths(mc[0], mc[1..]); }
  }

  /** No change is below one that makes or removes a whole tree. */
  predicate TreesWin(cs: seq<Chg>)
  {
    forall c | c in cs && OfTree(c) :: NoneBelow(c.path, cs)
  }

  predicate NotUnder(p: Path, q: Path)
  {
    !(p < q)
  }

  predicate NoneBelow(p: Path, cs: seq<Chg>)
  {
    forall d | d in cs :: NotUnder(p, d.path)
  }

  lemma NoneBelowIs(p: Path, cs: seq<Chg>)
    ensures NoneBelow(p, cs) <==> forall q | q in PathsOf(cs) :: NotUnder(p, q)
  {
    PathsAre(cs);
    hide PathsOf, NotUnder;
    if NoneBelow(p, cs) {
      forall q | q in PathsOf(cs) ensures NotUnder(p, q) {
        var d :| d in cs && d.path == q;
      }
    }
    if forall q | q in PathsOf(cs) :: NotUnder(p, q) {
      forall d | d in cs ensures NotUnder(p, d.path) {
        assert d.path in PathsOf(cs);
      }
    }
  }

  /** A removed or added tree wins over the changes below it exactly when there were none: resolving never drops one. */
  lemma {:induction false} TreesWinIff(mc: seq<Chg>)
    ensures TreesWin(Resolved(mc)) <==> forall c | c in Resolved(mc) && OfTree(c) :: NoneBelow(c.path, mc)
  {
    hide Resolved, OfTree, NoneBelow;
    EveryPathSent(mc);
    forall c | c in Resolved(mc) ensures NoneBelow(c.path, Resolved(mc)) <==> NoneBelow(c.path, mc) {
      NoneBelowIs(c.path, Resolved(mc));
      NoneBelowIs(c.path, mc);
    }
  }

  /** Directory a is removed at the other replica, and b in it changes here: both changes are sent. */
  lemma {:induction false} RemovalDoesNotWin(was: nat, now: nat)
    requires was / SECOND != now / SECOND
    ensures var a0, a1 := Sub("a", [Plain("b", was)]), Sub("a", [Plain("b", now)]);
            var pull, push := Diff(Folder([a0]), Folder([]), true, 0, Remote), Diff(Folder([a0]), Folder([a1]), true, 0, Local);
            var del, data := Chg(Del, ["a"], a0.d, 0, Remote), Chg(Data, ["a", "b"], Plain("b", now).d, now, Local);
            && pull == [del] && push == [data]
            && Resolved(Merged(pull, push)) == [del, data] && !TreesWin([del, data])
  {
    var b0, b1 := Plain("b", was), Plain("b", now);
    var a0, a1 := Sub("a", [b0]), Sub("a", [b1]);
    var del, data := Chg(Del, ["a"], a0.d, 0, Remote), Chg(Data, ["a", "b"], b1.d, now, Local);
    DiffGone(a0);
    DiffOnly(b0, b1, a0.d, a1.d, false);
    DiffPlain("b", was, now, Local);
    DiffOnly(a0, a1, Folder([]).d, Folder([]).d, true);
    assert Under("a", [Chg(Data, ["b"], b1.d, now, Local)]) == [data] by {
      assert [Chg(Data, ["b"], b1.d, now, Local)][1..] == [] && ["a"] + ["b"] == ["a", "b"];
    }
    BothSent(del, data);
    hide Diff, Merged, Resolved, Cmp;
    assert !NoneBelow(del.path, [del, data]) by { assert ["a"] < ["a", "b"] && data in [del, data]; }
    assert del in [del, data];
  }

  function Sub(name: string, cs: seq<File>): File
  {
    File(Attrs(name, "d", 0, 0, map[], map[], false, false), cs)
  }

  lemma DiffGone(a: File)
    requires !a.d.err && !a.d.rm
    ensures Diff(Folder([a]), Folder([]), true, 0, Remote) == [Chg(Del, [a.d.name], a.d, 0, Remote)]
  {
    var f0, f1 := Folder([a]), Folder([]);
    var name, del := a.d.name, [Chg(Del, [], a.d, 0, Remote)];
    assert [a][1..] == [] && Walk1(f0, name) == Some(a) && Walk1(f1, name) == None;
    assert NamesOf([a]) == [name] && Names(f0, f1) == [name] && [name][1..] == [];
    assert DiffKid(f0, f1, name, 0, Remote) == del;
    assert Under(name, del) == [Chg(Del, [name], a.d, 0, Remote)] by { assert del[1..] == [] && [name] + [] == [name]; }
    assert DiffNames(f0, f1, [name], 0, Remote) == Under(name, del) + DiffNames(f0, f1, [], 0, Remote);
  }

  /** Comparing two directories with one child each, of the same name. */
  lemma DiffOnly(c0: File, c1: File, d0: Attrs, d1: Attrs, root: bool)
    requires c0.d.name == c1.d.name && d0 == d1 && IsDir(d0) && !d0.rm && !d0.err && d0.mtime == 0
    ensures Diff(File(d0, [c0]), File(d1, [c1]), root, 0, Local) == Under(c0.d.name, Diff(c0, c1, false, 0, Local))
  {
    var f0, f1, name := File(d0, [c0]), File(d1, [c1]), c0.d.name;
    assert [c0][1..] == [] && [c1][1..] == [];
    assert Walk1(f0, name) == Some(c0) && Walk1(f1, name) == Some(c1);
    assert NamesOf([c0]) == [name] && AddNames([name], [c1]) == AddNames([name], []) && Names(f0, f1) == [name] && [name][1..] == [];
    assert DiffNames(f0, f1, [name], 0, Local) == Under(name, Diff(c0, c1, false, 0, Local)) + DiffNames(f0, f1, [], 0, Local);
    assert !MetaChanged(d0, d1);
  }

  lemma {:induction false} BothSent(del: Chg, data: Chg)
    requires del.path == ["a"] && data.path == ["a", "b"]
    ensures Resolved(Merged([del], [data])) == [del, data]
  {
    assert Cmp(["a"], ["a", "b"]) < 0 by { assert ["a", "b"][1..] == ["b"] && ["a"][1..] == []; }
    MergeHeads([del], [data]);
    assert [del][1..] == [] && Merged([], [data]) == [data];
    assert [del] + [data] == [del, data] && [del, data][1..] == [data] && [data][1..] == [];
    assert Settle(del, [data]) == [del] + Settle(data, []);
  }

  // ----- changes out of order -----

  function Plain(name: string, mtime: nat): File
  {
    File(Attrs(name, "-", 1, mtime, map[], map[], false, false), [])
  }

  function Folder(cs: seq<File>): File
  {
    File(Attrs("/", "d", 0, 0, map[], map[], false, false), cs)
  }

  /** Comparing a folder that has b with one that has a as well. */
  lemma {:induction false} DiffAdded(a: File, b0: File, b: File, w: Where)
    requires a.d.name != b0.d.name && b.d.name == b0.d.name && !a.d.err && !b0.d.rm && !b.d.rm
    ensures Diff(Folder([b0]), Folder([a, b]), true, 0, w)
         == Under(b.d.name, Diff(b0, b, false, 0, w)) + [Came(a, w).(path := [a.d.name])]
  {
    var f0, f1 := Folder([b0]), Folder([a, b]);
    assert [b0][1..] == [] && [a, b][1..] == [b] && [b][1..] == [];
    assert Walk1(f0, a.d.name) == None && Walk1(f1, a.d.name) == Some(a);
    assert Walk1(f0, b.d.name) == Some(b0) && Walk1(f1, b.d.name) == Some(b);
    var names := [b0.d.name, a.d.name];
    assert NamesOf([b0]) == [b0.d.name];
    assert [b0.d.name] + [a.d.name] == names && b.d.name == names[0];
    assert AddNames(names, []) == names && AddNames(names, [b]) == names;
    assert AddNames([b0.d.name], [a, b]) == AddNames(names, [b]);
    assert names[1..] == [a.d.name] && [a.d.name][1..] == [];
    var last := [Came(a, w)];
    assert Under(a.d.name, last) == [Came(a, w).(path := [a.d.name])] by {
      assert last[1..] == [] && [a.d.name] + [] == [a.d.name];
    }
    assert DiffKid(f0, f1, a.d.name, 0, w) == last;
    assert DiffNames(f0, f1, [a.d.name], 0, w) == Under(a.d.name, last) + DiffNames(f0, f1, [], 0, w);
    assert DiffNames(f0, f1, names, 0, w) == Under(b.d.name, Diff(b0, b, false, 0, w)) + DiffNames(f0, f1, [a.d.name], 0, w);
  }

  lemma DiffPlain(name: string, was: nat, now: nat, w: Where)
    ensures Under(name, Diff(Plain(name, was), Plain(name, now), false, 0, w)) ==
      if was / SECOND != now / SECOND then [Chg(Data, [name], Plain(name, now).d, now, w)] else []
  {
    var cs := Diff(Plain(name, was), Plain(name, now), false, 0, w);
    if cs != [] {
      assert cs[1..] == [] && [name] + [] == [name];
    }
  }

  /**
    A name added is found after those that were there, although both trees are sorted. So
    when both replicas add a, and one of them changes b too, the changes to a do not meet,
    and the conflict is missed: both are sent, one each way.
   */
  lemma {:induction false} ConflictMissed(was: nat, t1: nat, t2: nat)
    requires was / SECOND != t1 / SECOND
    ensures var b0, b1, a1, a2 := Plain("b", was), Plain("b", t1), Plain("a", t1), Plain("a", t2);
            var pull := Diff(Folder([b0]), Folder([a1, b1]), true, 0, Remote);
            var push := Diff(Folder([b0]), Folder([a2, b0]), true, 0, Local);
            var b, ra, la := Chg(Data, ["b"], b1.d, t1, Remote), Chg(Add, ["a"], a1.d, t1, Remote), Chg(Add, ["a"], a2.d, t2, Local);
            && pull == [b, ra] && push == [la] && !Ordered(pull)
            && Resolved(Merged(pull, push)) == [la, b, ra]
  {
    var b0, b1, a1, a2 := Plain("b", was), Plain("b", t1), Plain("a", t1), Plain("a", t2);
    DiffAdded(a1, b0, b1, Remote);
    DiffAdded(a2, b0, b0, Local);
    DiffPlain("b", was, t1, Remote);
    DiffPlain("b", was, was, Local);
    var b, ra, la := Chg(Data, ["b"], b1.d, t1, Remote), Chg(Add, ["a"], a1.d, t1, Remote), Chg(Add, ["a"], a2.d, t2, Local);
    MissedConflict(b, ra, la);
    assert [b] + [ra] == [b, ra] && [] + [la] == [la];
    hide Merged, Resolved, Diff, Cmp;
    assert !Ordered([b, ra]) by { assert [b, ra][0] == b && [b, ra][1] == ra; }
  }

  lemma {:induction false} MissedConflict(b: Chg, ra: Chg, la: Chg)
    requires b.path == ["b"] && ra.path == ["a"] && la.path == ["a"]
    ensures Cmp(b.path, ra.path) > 0 && Resolved(Merged([b, ra], [la])) == [la, b, ra]
  {
    assert Cmp(["b"], ["a"]) == 1 && ["b"] != ["a"] by { assert StrCmp("b", "a") == 1; assert ["b"][0] != ["a"][0]; }
    MergeHeads([b, ra], [la]);
    assert [la][1..] == [] && Merged([b, ra], []) == [b, ra];
    var m := [la] + [b, ra];
    assert m[1..] == [b, ra] && [b, ra][1..] == [ra] && [ra][1..] == [];
    assert Settle(b, [ra]) == [b] + Settle(ra, []);
    assert Settle(la, [b, ra]) == [la] + Settle(b, [ra]);
  }
}
