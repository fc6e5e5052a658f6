/**
  Finding files: a walk of a tree that does not go below the entries that a predicate prunes.
  For tests on attributes ended by a bound on the depth, it finds what a walk of the whole
  tree would.
 */
module Finder {
  import opened Predicates

  /** An entry with its children, and the error met when reading them, if any. */
  datatype Tree = Tree(d: Dir, kids: seq<Tree>, fail: string)

  /** Why an entry is sent: it matches, or just to say that it is pruned, or that it could not be read. */
  datatype Why = Matched | Pruned | Failed

  datatype Sent = Sent(d: Dir, why: Why)

  datatype Found = Found(out: seq<Sent>, err: string)

  function Attr(d: Dir, k: string): string
  {
    if k in d then d[k] else ""
  }

  predicate Removed(t: Tree)
  {
    Attr(t.d, "rm") != ""
  }

  predicate Reads(t: Tree)
  {
    Attr(t.d, "type") == "d" && t.fail == ""
  }

  function Walk(t: Tree, p: Pred, lvl: int, env: Env): Found
  {
    var r := Eval(p, t.d, lvl, env);
    if r.pruned then
      Found([Sent(if r.v then t.d else t.d["proto" := "lfs"]["err" := "pruned"], if r.v then Matched else Pruned)], "")
    else if r.err != "" then Found([], r.err)
    else if Removed(t) then Found([], "")
    else
      var failed := Attr(t.d, "type") == "d" && t.fail != "";
      var d := if failed then t.d["err" := t.fail] else t.d;
      var rest := if Reads(t) then WalkAll(t.kids, p, lvl + 1, env) else Found([], "");
      Found((if r.v || failed then [Sent(d, if r.v then Matched else Failed)] else []) + rest.out, rest.err)
  }

  function WalkAll(ts: seq<Tree>, p: Pred, lvl: int, env: Env): Found
  {
    if ts == [] then Found([], "")
    else if Removed(ts[0]) then WalkAll(ts[1..], p, lvl, env)
    else
      var one := Walk(ts[0], p, lvl, env);
      if one.err != "" then one
      else
        var more := WalkAll(ts[1..], p, lvl, env);
        Found(one.out + more.out, more.err)
  }

  /** Find the entries at t and below, sending them in out. */
  method Findr(t: Tree, p: Pred, lvl: int, env: Env) returns (out: seq<Sent>, err: string)
    ensures Found(out, err) == Walk(t, p, lvl, env)
    decreases t
  {
    hide Eval, WalkAll;
    var r := Eval(p, t.d, lvl, env);
    var d := t.d;
    out, err := [], "";
    if r.pruned {
      if !r.v {
        d := d["proto" := "lfs"]["err" := "pruned"];
      }
      return [Sent(d, if r.v then Matched else Pruned)], "";
    }
    if r.err != "" {
      return [], r.err;
    }
    if Removed(t) {
      return;
    }
    var ds := [];
    var failed := false;
    NoneToWalk(p, lvl + 1, env);
    if Attr(t.d, "type") == "d" {
      if t.fail != "" {
        failed, d := true, d["err" := t.fail];
      } else {
        ds := t.kids;
      }
    }
    if r.v || failed {
      out := [Sent(d, if r.v then Matched else Failed)];
    }
    if |ds| > 0 {
      var more;
      more, err := FindrAll(ds, p, lvl + 1, env);
      out := out + more;
    }
  }

  /** Find the entries of a directory, unless they are removed; the first error is the last thing sent. */
  method FindrAll(ts: seq<Tree>, p: Pred, lvl: int, env: Env) returns (out: seq<Sent>, err: string)
    ensures Found(out, err) == WalkAll(ts, p, lvl, env)
    decreases ts
  {
    out, err := [], "";
    assert ts[0..] == ts;
    hide Walk, Eval;
    for i := 0 to |ts|
      invariant err == "" && After(out, WalkAll(ts[i..], p, lvl, env)) == WalkAll(ts, p, lvl, env)
    {
      WalkStep(ts, i, p, lvl, env);
      if Removed(ts[i]) {
        continue;
      }
      var more;
      more, err := Findr(ts[i], p, lvl, env);
      Regroup(out, more, WalkAll(ts[i + 1..], p, lvl, env).out);
      out := out + more;
      if err != "" {
        return;
      }
    }
  }

  lemma NoneToWalk(p: Pred, lvl: int, env: Env)
    ensures WalkAll([], p, lvl, env) == Found([], "")
  {}

  /** What is found when out has been sent already. */
  function After(out: seq<Sent>, f: Found): Found
  {
    Found(out + f.out, f.err)
  }

  lemma WalkStep(ts: seq<Tree>, i: nat, p: Pred, lvl: int, env: Env)
    requires i < |ts|
    ensures WalkAll(ts[i..], p, lvl, env) ==
      if Removed(ts[i]) then WalkAll(ts[i + 1..], p, lvl, env)
      else if Walk(ts[i], p, lvl, env).err != "" then Walk(ts[i], p, lvl, env)
      else After(Walk(ts[i], p, lvl, env).out, WalkAll(ts[i + 1..], p, lvl, env))
  {
    assert ts[i..][0] == ts[i] && ts[i..][1..] == ts[i + 1..];
  }

  lemma Regroup(a: seq<Sent>, b: seq<Sent>, c: seq<Sent>)
    ensures (a + b) + c == a + (b + c)
  {}

  // ----- walking everything -----

  /** The entry as it is sent when it matches: with the error, if it had to be read and could not be. */
  function Shown(t: Tree, p: Pred, lvl: int, env: Env): Dir
  {
    if Attr(t.d, "type") == "d" && t.fail != "" && !Eval(p, t.d, lvl, env).pruned then t.d["err" := t.fail] else t.d
  }

  /** The entries that match, in preorder, wherever they are in what can be read. */
  function All(t: Tree, p: Pred, lvl: int, env: Env): seq<Dir>
  {
    (if Eval(p, t.d, lvl, env).v then [Shown(t, p, lvl, env)] else [])
    + if Reads(t) then AllOf(t.kids, p, lvl + 1, env) else []
  }

  function AllOf(ts: seq<Tree>, p: Pred, lvl: int, env: Env): seq<Dir>
  {
    if ts == [] then []
    else (if Removed(ts[0]) then [] else All(ts[0], p, lvl, env)) + AllOf(ts[1..], p, lvl, env)
  }

  function Matches(out: seq<Sent>): seq<Dir>
  {
    if out == [] then [] else (if out[0].why == Matched then [out[0].d] else []) + Matches(out[1..])
  }

  lemma {:induction false} MatchesAppend(a: seq<Sent>, b: seq<Sent>)
    ensures Matches(a + b) == Matches(a) + Matches(b)
    decreases |a|
  {
    if a == [] {
      assert a + b == b;
    } else {
      assert (a + b)[0] == a[0] && (a + b)[1..] == a[1..] + b;
      MatchesAppend(a[1..], b);
    }
  }

  // ----- the predicates -----

  /** A test that neither prunes nor fails. */
  ghost predicate Quiet(p: Pred, env: Env)
  {
    forall e: Dir, lvl: int :: !Eval(p, e, lvl, env).pruned && Eval(p, e, lvl, env).err == ""
  }

  /** Tests of the value of an attribute are quiet, but for those that a name or a path is not something. */
  lemma ValuesAreQuiet(op: Op, name: string, value: string, env: Env)
    requires op == Eqs || (op == Neqs && name != "name" && name != "path")
    ensures Quiet(Cmp(op, name, value), env)
  {}

  /** The opposite of a quiet test is quiet, unless it is that a name or a path is not something: that prunes. */
  lemma NotIsQuiet(a: Pred, env: Env)
    requires Quiet(a, env) && !ByName(a)
    ensures Quiet(Not(a), env)
  {
    forall e: Dir, lvl: int ensures !Eval(Not(a), e, lvl, env).pruned && Eval(Not(a), e, lvl, env).err == "" {
      assert !Eval(a, e, lvl, env).pruned && Eval(a, e, lvl, env).err == "";
    }
  }

  /** And so are combinations of quiet tests. */
  lemma ManyAreQuiet(args: seq<Pred>, env: Env)
    requires forall a | a in args :: Quiet(a, env)
    ensures Quiet(And(args), env) && Quiet(Or(args), env)
  {
    forall e: Dir, lvl: int
      ensures !Eval(And(args), e, lvl, env).pruned && Eval(And(args), e, lvl, env).err == ""
      ensures !Eval(Or(args), e, lvl, env).pruned && Eval(Or(args), e, lvl, env).err == ""
    {
      QuietHere(args, e, lvl, env);
    }
  }

  lemma {:induction false} QuietHere(args: seq<Pred>, e: Dir, lvl: int, env: Env)
    requires forall a | a in args :: Quiet(a, env)
    ensures var x, o := EvalAnd(args, e, lvl, env), EvalOr(args, e, lvl, env);
            !x.pruned && x.err == "" && !o.pruned && o.err == ""
    decreases |args|
  {
    if args != [] {
      assert args[0] in args && !Eval(args[0], e, lvl, env).pruned && Eval(args[0], e, lvl, env).err == "";
      QuietHere(args[1..], e, lvl, env);
    }
  }

  /** Tests and then a bound on the depth. */
  ghost predicate Bounded(p: Pred, tests: seq<Pred>, bound: Pred, n: int, env: Env)
  {
    && p == And(tests + [bound])
    && (forall t | t in tests :: Quiet(t, env))
    && bound.Cmp? && (bound.op == Lt || bound.op == Le || bound.op == Eq) && bound.name == "depth"
    && env.num(bound.value) == Some(n)
  }

  lemma {:induction false} TestsThenBound(tests: seq<Pred>, bound: Pred, e: Dir, lvl: int, env: Env)
    requires forall t | t in tests :: Quiet(t, env)
    ensures var r, b := EvalAnd(tests + [bound], e, lvl, env), Eval(bound, e, lvl, env);
            r == Res(false, false, "") || r == if AndStops(b) then b else Res(true, false, "")
    decreases |tests|
  {
    var all := tests + [bound];
    if tests == [] {
      assert all[0] == bound && all[1..] == [];
    } else {
      assert all[0] == tests[0] && all[1..] == tests[1..] + [bound] && tests[0] in tests;
      assert Eval(tests[0], e, lvl, env).err == "" && !Eval(tests[0], e, lvl, env).pruned;
      TestsThenBound(tests[1..], bound, e, lvl, env);
    }
  }

  /** Nothing at this depth or below is within the bound. */
  predicate Over(op: Op, lvl: int, n: int)
  {
    if op == Lt then lvl >= n else lvl > n
  }

  /** What a bounded predicate says: no error; pruned only where all that is below is over; and no match when over. */
  lemma {:induction false} BoundedSays(p: Pred, tests: seq<Pred>, bound: Pred, n: int, env: Env, e: Dir, lvl: int)
    requires Bounded(p, tests, bound, n, env)
    ensures Eval(p, e, lvl, env).err == ""
    ensures Eval(p, e, lvl, env).pruned ==> Over(bound.op, lvl + 1, n)
    ensures Over(bound.op, lvl, n) ==> !Eval(p, e, lvl, env).v
  {
    TestsThenBound(tests, bound, e, lvl, env);
  }

  lemma {:induction false} NoneOver(t: Tree, p: Pred, tests: seq<Pred>, bound: Pred, n: int, lvl: int, env: Env)
    requires Bounded(p, tests, bound, n, env) && Over(bound.op, lvl, n)
    ensures All(t, p, lvl, env) == []
    decreases t
  {
    BoundedSays(p, tests, bound, n, env, t.d, lvl);
    NoneOverAll(t.kids, p, tests, bound, n, lvl + 1, env);
  }

  lemma {:induction false} NoneOverAll(ts: seq<Tree>, p: Pred, tests: seq<Pred>, bound: Pred, n: int, lvl: int, env: Env)
    requires Bounded(p, tests, bound, n, env) && Over(bound.op, lvl, n)
    ensures AllOf(ts, p, lvl, env) == []
    decreases ts
  {
    if ts != [] {
      NoneOver(ts[0], p, tests, bound, n, lvl, env);
      NoneOverAll(ts[1..], p, tests, bound, n, lvl, env);
    }
  }

  /** The walk that prunes finds what a walk of everything would, in the same order, and sends nothing else but marks and failures. */
  lemma {:induction false} PrunedWalkFindsAll(t: Tree, p: Pred, tests: seq<Pred>, bound: Pred, n: int, lvl: int, env: Env)
    requires Bounded(p, tests, bound, n, env) && !Removed(t)
    ensures Walk(t, p, lvl, env).err == "" && Matches(Walk(t, p, lvl, env).out) == All(t, p, lvl, env)
    decreases t
  {
    var r := Eval(p, t.d, lvl, env);
    BoundedSays(p, tests, bound, n, env, t.d, lvl);
    if r.pruned {
      NoneOverAll(t.kids, p, tests, bound, n, lvl + 1, env);
    } else {
      var failed := Attr(t.d, "type") == "d" && t.fail != "";
      var head := if r.v || failed then [Sent(Shown(t, p, lvl, env), if r.v then Matched else Failed)] else [];
      PrunedWalkFindsAllOf(t.kids, p, tests, bound, n, lvl + 1, env);
      MatchesAppend(head, if Reads(t) then WalkAll(t.kids, p, lvl + 1, env).out else []);
    }
  }

  lemma {:induction false} PrunedWalkFindsAllOf(ts: seq<Tree>, p: Pred, tests: seq<Pred>, bound: Pred, n: int, lvl: int, env: Env)
    requires Bounded(p, tests, bound, n, env)
    ensures WalkAll(ts, p, lvl, env).err == "" && Matches(WalkAll(ts, p, lvl, env).out) == AllOf(ts, p, lvl, env)
    decreases ts
  {
    if ts != [] {
      PrunedWalkFindsAllOf(ts[1..], p, tests, bound, n, lvl, env);
      if !Removed(ts[0]) {
        PrunedWalkFindsAll(ts[0], p, tests, bound, n, lvl, env);
        MatchesAppend(Walk(ts[0], p, lvl, env).out, WalkAll(ts[1..], p, lvl, env).out);
      }
    }
  }
}
