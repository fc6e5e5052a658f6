/**
  The forward matching machine: it steps a list of states over the text, one rune at a time.
  It returns nothing exactly when no part of the searched text is accepted, and any range it
  returns is accepted.
 */
module SreMachine {
  import opened SreRegex
  import opened SreProgram
  import opened SreCompiler
  import G = SreGrammar

  /** A selection; P0 is negative while there is none. */
  datatype Range = Range(p0: int, p1: int)

  /** A state reached: the instruction to start with, and its selections. */
  datatype Thread = Thread(i: Pc, sel: seq<Range>)

  // ----- which runes a class holds -----

  method ClassMatch(cls: seq<Rune>, cx: Ctx, c: Rune) returns (yes: bool)
    requires ClassOk(cls)
    ensures yes <==> InClass(cls, cx, c)
  {
    var i := 0;
    while i < |cls|
      invariant 0 <= i <= |cls| && ClassOk(cls[i..])
      invariant InClass(cls, cx, c) <==> InClass(cls[i..], cx, c)
    {
      var r := cls[i];
      assert cls[i..][1..] == cls[i + 1..];
      if r == WORD_CLASS && c in cx.wordRunes {
        return true;
      }
      if r == BLANK_CLASS && c in cx.spaceRunes {
        return true;
      }
      if r == RANGE_MARK {
        assert cls[i..][3..] == cls[i + 3..];
        if cls[i + 1] <= c <= cls[i + 2] {
          return true;
        }
        i := i + 2;
      } else if r == c {
        return true;
      }
      i := i + 1;
    }
    return false;
  }

  // ----- lists of states -----

  function PcsOf(lst: seq<Thread>): set<Pc>
  {
    set k | 0 <= k < |lst| :: lst[k].i
  }

  predicate Distinct(lst: seq<Thread>)
  {
    forall a, b | 0 <= a < b < |lst| :: lst[a].i != lst[b].i
  }

  /** The states of a are in b, in the same places. */
  predicate Extends(a: seq<Thread>, b: seq<Thread>)
  {
    |a| <= |b| && forall k | 0 <= k < |a| :: b[k].i == a[k].i
  }

  lemma {:induction false} DistinctBound(lst: seq<Thread>, n: nat)
    requires Distinct(lst) && forall k | 0 <= k < |lst| :: lst[k].i < n
    ensures |lst| <= n
  {
    DistinctCount(lst);
    SubsetCount(PcsOf(lst), Below(n));
  }

  lemma {:induction false} DistinctCount(lst: seq<Thread>)
    requires Distinct(lst)
    ensures |PcsOf(lst)| == |lst|
    decreases |lst|
  {
    if lst != [] {
      var n := |lst| - 1;
      DistinctCount(lst[..n]);
      assert PcsOf(lst) == PcsOf(lst[..n]) + {lst[n].i};
      assert lst[n].i !in PcsOf(lst[..n]);
    }
  }

  function Below(n: nat): (s: set<Pc>)
    ensures |s| == n && forall pc: Pc :: pc in s <==> pc < n
  {
    if n == 0 then {} else Below(n - 1) + {n - 1}
  }

  lemma {:induction false} SubsetCount(a: set<Pc>, b: set<Pc>)
    requires forall x | x in a :: x in b
    ensures |a| <= |b|
    decreases a
  {
    if a != {} {
      var x :| x in a;
      SubsetCount(a - {x}, b - {x});
    }
  }

  // ----- what a step must have done -----

  /** What is there to run: the program, the text, and where the search started. */
  datatype Job = Job(code: seq<Inst>, ghost rank: seq<nat>, ghost live: set<Pc>, entry: Pc, nsub: nat, cx: Ctx, start: nat)
  {
    ghost predicate Ok() {
      && cx.Valid() && Ranked(code, rank) && Sane(code, nsub) && Closed(code, live) && entry in live
      && 0 < entry < |code| && code[entry].op != Nop
      && forall pc | 0 <= pc < |code| :: code[pc].left == 0 || code[code[pc].left].op != Nop
    }

    ghost predicate Real(pc: Pc) {
      pc in live && pc < |code| && code[pc].op != Nop
    }

    ghost predicate Acc(pc: Pc, i: nat, j: nat)
      requires cx.Valid()
    {
      Accepts(code, cx, pc, i, j)
    }

    /** Whatever is accepted from pc at p is accepted from the entry at p0. */
    ghost predicate Leads(p0: nat, pc: Pc, p: nat)
      requires cx.Valid()
    {
      forall j: nat | Acc(pc, p, j) :: Acc(entry, p0, j)
    }

    ghost predicate Sound(t: Thread, p: nat)
      requires cx.Valid()
    {
      |t.sel| == nsub + 1 && Real(t.i) && start <= t.sel[0].p0 <= p && Leads(t.sel[0].p0, t.i, p)
    }

    ghost predicate AllSound(lst: seq<Thread>, p: nat)
      requires cx.Valid()
    {
      forall k | 0 <= k < |lst| :: Sound(lst[k], p)
    }

    /** The best match so far, if any, is one. */
    ghost predicate Best(sel: seq<Range>)
      requires cx.Valid()
    {
      && |sel| == nsub + 1
      && (sel[0].p0 >= 0 ==> start <= sel[0].p0 <= sel[0].p1 <= cx.end && Acc(entry, sel[0].p0, sel[0].p1))
    }

    /**
      Running from pc over the rune at p needs nothing that is not in the lists: forks are in
      the current one, what takes the rune is in the next one, and an END has been noted.
     */
    ghost predicate Done(p: nat, now: set<Pc>, next: set<Pc>, found: bool, pc: Pc)
      requires Ok() && p <= cx.end && pc < |code|
      decreases rank[pc]
    {
      pc == 0
      || match code[pc].op
         case Oper(x) =>
           if x == End then found
           else if x.IsTest() then TestHolds(x, cx, p) ==> Done(p, now, next, found, code[pc].left)
           else p < cx.end && Takes(x, cx, cx.txt[p]) ==> code[pc].left in next
         case Fork => code[pc].right in now && Done(p, now, next, found, code[pc].left)
         case Nop => false
         case _ => Done(p, now, next, found, code[pc].left)
    }

    lemma {:induction false} DoneMore(p: nat, now: set<Pc>, next: set<Pc>, found: bool, now': set<Pc>, next': set<Pc>, found': bool, pc: Pc)
      requires Ok() && p <= cx.end && pc < |code|
      requires now <= now' && next <= next' && (found ==> found') && Done(p, now, next, found, pc)
      ensures Done(p, now', next', found', pc)
      decreases rank[pc]
    {
      if pc != 0 && !(code[pc].op.Oper? && !code[pc].op.x.IsTest()) && code[pc].op != Nop {
        if Done(p, now, next, found, code[pc].left) {
          DoneMore(p, now, next, found, now', next', found', code[pc].left);
        }
      }
    }

    /** The instruction at pc passes control to its left at p, its fork being in the list. */
    ghost predicate Passes(p: nat, now: set<Pc>, pc: Pc)
      requires Ok() && p <= cx.end && pc < |code|
    {
      && pc != 0
      && match code[pc].op
         case Oper(x) => x.IsTest() && TestHolds(x, cx, p)
         case Fork => code[pc].right in now
         case Nop => false
         case _ => true
    }

    /** Control passes from pc along left edges to the instruction at to. */
    ghost predicate PassesTo(p: nat, now: set<Pc>, pc: Pc, to: Pc)
      requires Ok() && p <= cx.end && pc < |code|
      decreases rank[pc]
    {
      pc == to || (Passes(p, now, pc) && PassesTo(p, now, code[pc].left, to))
    }

    lemma {:induction false} PassOn(p: nat, now: set<Pc>, now': set<Pc>, pc: Pc, to: Pc)
      requires Ok() && p <= cx.end && pc < |code| && to < |code| && now <= now'
      requires PassesTo(p, now, pc, to) && Passes(p, now', to)
      ensures PassesTo(p, now', pc, code[to].left)
      decreases rank[pc]
    {
      if pc != to { PassOn(p, now, now', code[pc].left, to); }
    }

    lemma {:induction false} PassDone(p: nat, now: set<Pc>, next: set<Pc>, found: bool, pc: Pc, to: Pc)
      requires Ok() && p <= cx.end && pc < |code| && to < |code|
      requires PassesTo(p, now, pc, to) && Done(p, now, next, found, to)
      ensures Done(p, now, next, found, pc)
      decreases rank[pc]
    {
      if pc != to { PassDone(p, now, next, found, code[pc].left, to); }
    }

    /** An accepting path goes right at a fork, left at anything that passes, or takes the rune. */
    lemma {:induction false} PathStep(pc: Pc, p: nat, j: nat, n: nat)
      requires Ok() && p <= cx.end && pc < |code| && AcceptsIn(code, cx, pc, p, j, n)
      ensures n > 0 && pc != 0
      ensures match code[pc].op
              case Oper(x) =>
                if x == End then j == p
                else if x.IsTest() then TestHolds(x, cx, p) && AcceptsIn(code, cx, code[pc].left, p, j, n - 1)
                else p < cx.end && Takes(x, cx, cx.txt[p]) && Acc(code[pc].left, p + 1, j)
              case Fork =>
                AcceptsIn(code, cx, code[pc].right, p, j, n - 1) || AcceptsIn(code, cx, code[pc].left, p, j, n - 1)
              case _ => AcceptsIn(code, cx, code[pc].left, p, j, n - 1)
    {}

    /** Once all is done without finding END, what was accepted at p is accepted at p + 1 from the next list. */
    lemma {:induction false} DoneCarries(p: nat, now: set<Pc>, next: set<Pc>, pc: Pc, j: nat, n: nat) returns (q: Pc)
      requires Ok() && p <= cx.end && pc < |code|
      requires forall s | s in now :: s < |code| && Done(p, now, next, false, s)
      requires Done(p, now, next, false, pc) && AcceptsIn(code, cx, pc, p, j, n)
      ensures q in next && Acc(q, p + 1, j)
      decreases n
    {
      PathStep(pc, p, j, n);
      var op := code[pc].op;
      if op.Oper? && !op.x.IsTest() {
        q := code[pc].left;
      } else if op == Fork && AcceptsIn(code, cx, code[pc].right, p, j, n - 1) {
        q := DoneCarries(p, now, next, code[pc].right, j, n - 1);
      } else {
        q := DoneCarries(p, now, next, code[pc].left, j, n - 1);
      }
    }

    // acceptance goes backwards along the edges

    lemma LeadsOn(p0: nat, pc: Pc, p: nat)
      requires Ok() && pc < |code| && p <= cx.end && Leads(p0, pc, p)
      ensures Passes(p, {code[pc].right}, pc) ==> Leads(p0, code[pc].left, p)
      ensures pc != 0 && code[pc].op == Fork ==> Leads(p0, code[pc].right, p)
    {
      if Passes(p, {code[pc].right}, pc) {
        forall j: nat | Acc(code[pc].left, p, j) ensures Acc(pc, p, j) {
          var n: nat :| AcceptsIn(code, cx, code[pc].left, p, j, n);
          assert AcceptsIn(code, cx, pc, p, j, n + 1);
        }
      }
      if pc != 0 && code[pc].op == Fork {
        forall j: nat | Acc(code[pc].right, p, j) ensures Acc(pc, p, j) {
          var n: nat :| AcceptsIn(code, cx, code[pc].right, p, j, n);
          assert AcceptsIn(code, cx, pc, p, j, n + 1);
        }
      }
    }

    lemma LeadsTake(p0: nat, pc: Pc, p: nat)
      requires Ok() && 0 < pc < |code| && p <= cx.end && Leads(p0, pc, p)
      requires code[pc].op.Oper? && code[pc].op.x != End && !code[pc].op.x.IsTest()
      requires p < cx.end ==> Takes(code[pc].op.x, cx, cx.txt[p])
      ensures Leads(p0, code[pc].left, p + 1)
    {
      forall j: nat | Acc(code[pc].left, p + 1, j) ensures Acc(pc, p, j) {
        var n: nat :| AcceptsIn(code, cx, code[pc].left, p + 1, j, n);
        assert AcceptsIn(code, cx, pc, p, j, n + 1);
      }
    }

    lemma LeadsEnd(p0: nat, pc: Pc, p: nat)
      requires Ok() && 0 < pc < |code| && p <= cx.end && Leads(p0, pc, p) && code[pc].op == Oper(End)
      ensures Acc(entry, p0, p)
    {
      assert AcceptsIn(code, cx, pc, p, p, 1);
      assert Acc(pc, p, p);
    }
  }

  // ----- the machine -----

  /** Add a state to the list, unless it is there, in which case an earlier start is kept. */
  method Add(job: Job, p: nat, lst: seq<Thread>, pc: Pc, sel: seq<Range>) returns (r: seq<Thread>)
    requires job.cx.Valid() && job.AllSound(lst, p) && job.Sound(Thread(pc, sel), p) && Distinct(lst)
    ensures job.AllSound(r, p) && Distinct(r) && Extends(lst, r)
    ensures PcsOf(r) == PcsOf(lst) + {pc}
    ensures pc !in PcsOf(lst) ==> r == lst + [Thread(pc, sel)]
    ensures pc in PcsOf(lst) ==> |r| == |lst| && forall k | 0 <= k < |lst| ::
              r[k] == if lst[k].i == pc && sel[0].p0 < lst[k].sel[0].p0 then Thread(pc, sel) else lst[k]
  {
    for si := 0 to |lst|
      invariant forall k | 0 <= k < si :: lst[k].i != pc
    {
      if lst[si].i == pc {
        r := lst;
        if sel[0].p0 < lst[si].sel[0].p0 {
          r := lst[si := Thread(pc, sel)];
        }
        SamePcs(lst, r);
        assert pc in PcsOf(lst);
        return;
      }
    }
    r := lst + [Thread(pc, sel)];
    OneMorePc(lst, Thread(pc, sel));
  }

  lemma SamePcs(a: seq<Thread>, b: seq<Thread>)
    requires |a| == |b| && forall k | 0 <= k < |a| :: b[k].i == a[k].i
    ensures PcsOf(a) == PcsOf(b)
  {
    forall q ensures q in PcsOf(a) <==> q in PcsOf(b) {
      if k :| 0 <= k < |a| && a[k].i == q { assert b[k].i == q; }
      if k :| 0 <= k < |b| && b[k].i == q { assert a[k].i == q; }
    }
  }

  lemma OneMorePc(lst: seq<Thread>, t: Thread)
    ensures PcsOf(lst + [t]) == PcsOf(lst) + {t.i}
  {
    var r := lst + [t];
    assert r[|lst|].i == t.i;
    forall q | q in PcsOf(lst) ensures q in PcsOf(r) {
      var k :| 0 <= k < |lst| && lst[k].i == q;
      assert r[k].i == q;
    }
  }

  /** A match is preferred if there was none, or it is further left, or as far left and longer. */
  predicate Preferred(best: Range, g: Range)
  {
    best.p0 < 0 || g.p0 < best.p0 || (g.p0 == best.p0 && g.p1 > best.p1)
  }

  method NewMatch(best: seq<Range>, sel: seq<Range>) returns (r: seq<Range>)
    requires |best| == |sel| > 0
    ensures r == if Preferred(best[0], sel[0]) then sel else best
  {
    r := best;
    if best[0].p0 < 0 || sel[0].p0 < best[0].p0 || (sel[0].p0 == best[0].p0 && sel[0].p1 > best[0].p1) {
      r := sel;
    }
  }

  method OperandTakes(x: Operand, cx: Ctx, c: Rune) returns (yes: bool)
    requires OperandOk(x)
    ensures yes <==> Takes(x, cx, c)
  {
    match x
    case Lit(r) => yes := r == c;
    case Any => yes := c != NEWLINE && c != 0;
    case Word => yes := c in cx.wordRunes;
    case Blank => yes := c in cx.spaceRunes && c != NEWLINE;
    case CClass(cls) => yes := ClassMatch(cls, cx, c);
    case NCClass(cls) =>
      yes := ClassMatch(cls, cx, c);
      yes := !yes;
    case _ => yes := false;
  }

  /** Following the state at from has come to i, with selections s. */
  ghost predicate Here(job: Job, p: nat, st: seq<Thread>, from: Pc, i: Pc, s: seq<Range>)
  {
    && job.Ok() && p <= job.cx.end && from < |job.code| && i < |job.code|
    && job.Sound(Thread(i, s), p) && job.PassesTo(p, PcsOf(st), from, i)
  }

  lemma InstHere(job: Job, p: nat, st: seq<Thread>, from: Pc, i: Pc, s: seq<Range>)
    requires Here(job, p, st, from, i, s)
    ensures job.cx.Valid() && 0 < i < |job.code| && p <= job.cx.end && |s| == job.nsub + 1
    ensures match job.code[i].op
            case Open => 0 < job.code[i].subid < |s|
            case Shut => 0 < job.code[i].subid < |s|
            case Oper(x) => OperandOk(x)
            case Fork => true
            case Nop => false
  {
    assert SaneAt(job.code, job.nsub, i);
  }

  lemma ForkHere(job: Job, p: nat, st: seq<Thread>, from: Pc, i: Pc, s: seq<Range>)
    requires Here(job, p, st, from, i, s) && job.code[i].op == Fork
    ensures job.Sound(Thread(job.code[i].right, s), p)
  {
    assert SaneAt(job.code, job.nsub, i);
    job.LeadsOn(s[0].p0, i, p);
  }

  lemma TakeHere(job: Job, p: nat, st: seq<Thread>, from: Pc, i: Pc, s: seq<Range>)
    requires Here(job, p, st, from, i, s)
    requires job.code[i].op.Oper? && job.code[i].op.x != End && !job.code[i].op.x.IsTest()
    requires Takes(job.code[i].op.x, job.cx, job.cx.At(p))
    ensures job.Sound(Thread(job.code[i].left, s), p + 1)
  {
    job.LeadsTake(s[0].p0, i, p);
  }

  lemma EndHere(job: Job, p: nat, st: seq<Thread>, from: Pc, i: Pc, s: seq<Range>)
    requires Here(job, p, st, from, i, s) && job.code[i].op == Oper(End)
    ensures |s| > 0 && s[0].p0 >= 0 && job.Best(s[0 := s[0].(p1 := p)])
  {
    job.LeadsEnd(s[0].p0, i, p);
  }

  /** What passes goes on to its left, with the selections noted at a parenthesis. */
  lemma PassHere(job: Job, p: nat, st: seq<Thread>, st': seq<Thread>, from: Pc, i: Pc, s: seq<Range>, s': seq<Range>)
    requires Here(job, p, st, from, i, s) && PcsOf(st) <= PcsOf(st')
    requires job.Passes(p, PcsOf(st'), i) && |s'| == |s| > 0 && s'[0] == s[0]
    ensures Here(job, p, st', from, job.code[i].left, s')
    ensures i < |job.rank| && job.code[i].left < |job.rank| && job.rank[job.code[i].left] < job.rank[i]
  {
    job.LeadsOn(s[0].p0, i, p);
    job.PassOn(p, PcsOf(st), PcsOf(st'), from, i);
  }

  lemma StopsHere(job: Job, p: nat, st: seq<Thread>, nx: seq<Thread>, found: bool, from: Pc, i: Pc, s: seq<Range>)
    requires Here(job, p, st, from, i, s) && job.Done(p, PcsOf(st), PcsOf(nx), found, i)
    ensures job.Done(p, PcsOf(st), PcsOf(nx), found, from)
  {
    job.PassDone(p, PcsOf(st), PcsOf(nx), found, from, i);
  }

  lemma StartHere(job: Job, p: nat, st: seq<Thread>, si: nat)
    requires job.Ok() && p <= job.cx.end && job.AllSound(st, p) && si < |st|
    ensures job.cx.Valid() && Here(job, p, st, st[si].i, st[si].i, st[si].sel) && st[si].i < |job.rank|
    ensures Extends(st, st)
  {}

  /** An operand at i over the rune at p: END is noted, and what takes the rune goes to the next list. */
  method FollowOperand(job: Job, p: nat, c: Rune, i: Pc, s: seq<Range>, nextl: seq<Thread>, best: seq<Range>,
        ghost st: seq<Thread>, ghost from: Pc)
      returns (go: bool, nx: seq<Thread>, sel: seq<Range>)
    requires Here(job, p, st, from, i, s) && job.code[i].op.Oper? && c == job.cx.At(p)
    requires job.AllSound(nextl, p + 1) && Distinct(nextl) && job.Best(best)
    ensures job.AllSound(nx, p + 1) && Distinct(nx) && PcsOf(nextl) <= PcsOf(nx)
    ensures job.Best(sel) && (best[0].p0 >= 0 ==> sel[0].p0 >= 0)
    ensures go ==> nx == nextl && sel == best && job.Passes(p, PcsOf(st), i)
    ensures !go ==> job.Done(p, PcsOf(st), PcsOf(nx), sel[0].p0 >= 0, i)
  {
    InstHere(job, p, st, from, i, s);
    go, nx, sel := false, nextl, best;
    var o := job.code[i].op.x;
    if o == End {
      EndHere(job, p, st, from, i, s);
      sel := NewMatch(best, s[0 := s[0].(p1 := p)]);
    } else if !o.IsTest() {
      var takes := OperandTakes(o, job.cx, c);
      if takes {
        TakeHere(job, p, st, from, i, s);
        nx := Add(job, p + 1, nx, job.code[i].left, s);
      }
    } else {
      go := TestHolds(o, job.cx, p);
    }
  }

  /** Run the state at si of the current list over the rune at p. */
  method Follow(job: Job, p: nat, c: Rune, si: nat, statel: seq<Thread>, nextl: seq<Thread>, best: seq<Range>)
      returns (st: seq<Thread>, nx: seq<Thread>, sel: seq<Range>)
    requires job.Ok() && p <= job.cx.end && c == job.cx.At(p)
    requires job.AllSound(statel, p) && Distinct(statel) && si < |statel|
    requires job.AllSound(nextl, p + 1) && Distinct(nextl)
    requires job.Best(best)
    ensures job.AllSound(st, p) && Distinct(st) && Extends(statel, st) && PcsOf(statel) <= PcsOf(st)
    ensures job.AllSound(nx, p + 1) && Distinct(nx) && PcsOf(nextl) <= PcsOf(nx)
    ensures job.Best(sel) && (best[0].p0 >= 0 ==> sel[0].p0 >= 0)
    ensures job.Done(p, PcsOf(st), PcsOf(nx), sel[0].p0 >= 0, statel[si].i)
  {
    assert |best| > 0;
    hide *;
    st, nx, sel := statel, nextl, best;
    var i: Pc, s := statel[si].i, statel[si].sel;
    ghost var from: Pc := i;
    StartHere(job, p, statel, si);
    while true   // i is never 0, which would end the round here
      invariant Here(job, p, st, from, i, s) && i < |job.rank|
      invariant job.cx.Valid() && job.AllSound(st, p) && Distinct(st) && Extends(statel, st) && PcsOf(statel) <= PcsOf(st)
      invariant nx == nextl && sel == best
      decreases job.rank[i]
    {
      InstHere(job, p, st, from, i, s);
      var x := job.code[i];
      ghost var was, s0 := st, s;
      match x.op {
        case Open =>
          s := s[x.subid := s[x.subid].(p0 := p)];
        case Shut =>
          s := s[x.subid := s[x.subid].(p1 := p)];
        case Fork =>
          ForkHere(job, p, st, from, i, s);
          st := Add(job, p, st, x.right, s);
        case Nop =>
          assert false;
        case Oper(o) =>
          var go;
          go, nx, sel := FollowOperand(job, p, c, i, s, nx, sel, st, from);
          if !go {
            StopsHere(job, p, st, nx, sel[0].p0 >= 0, from, i, s);
            return;
          }
      }
      PassHere(job, p, was, st, from, i, s0, s);
      ExtendsTwice(statel, was, st);
      i := x.left;
    }
  }

  /** Nothing that starts before p is accepted unless a listed state accepts it. */
  ghost predicate Pending(job: Job, p: nat, lst: seq<Thread>)
    requires job.cx.Valid()
  {
    forall i: nat, j: nat | job.start <= i < p && job.Acc(job.entry, i, j) ::
      exists k :: 0 <= k < |lst| && job.Acc(lst[k].i, p, j)
  }

  lemma {:induction false} AddKeepsPending(job: Job, p: nat, lst: seq<Thread>, lst': seq<Thread>)
    requires job.cx.Valid() && Pending(job, p, lst) && Extends(lst, lst') && job.entry in PcsOf(lst')
    ensures forall i: nat, j: nat | job.start <= i <= p && job.Acc(job.entry, i, j) ::
              exists k :: 0 <= k < |lst'| && job.Acc(lst'[k].i, p, j)
  {
    forall i: nat, j: nat | job.start <= i <= p && job.Acc(job.entry, i, j)
      ensures exists k :: 0 <= k < |lst'| && job.Acc(lst'[k].i, p, j)
    {
      if i == p {
        var k :| 0 <= k < |lst'| && lst'[k].i == job.entry;
        assert job.Acc(lst'[k].i, p, j);
      } else {
        var k :| 0 <= k < |lst| && job.Acc(lst[k].i, p, j);
        assert job.Acc(lst'[k].i, p, j);
      }
    }
  }

  /** After a round without a match, the next list takes over. */
  lemma {:induction false} RoundKeepsPending(job: Job, p: nat, now: seq<Thread>, next: seq<Thread>)
    requires job.Ok() && p <= job.cx.end && job.AllSound(now, p)
    requires DoneUpTo(job, p, |now|, now, next, false)
    requires forall i: nat, j: nat | job.start <= i <= p && job.Acc(job.entry, i, j) ::
               exists k :: 0 <= k < |now| && job.Acc(now[k].i, p, j)
    ensures Pending(job, p + 1, next)
  {
    forall i: nat, j: nat | job.start <= i < p + 1 && job.Acc(job.entry, i, j)
      ensures exists k :: 0 <= k < |next| && job.Acc(next[k].i, p + 1, j)
    {
      var k :| 0 <= k < |now| && job.Acc(now[k].i, p, j);
      var n: nat :| AcceptsIn(job.code, job.cx, now[k].i, p, j, n);
      var q := job.DoneCarries(p, PcsOf(now), PcsOf(next), now[k].i, j, n);
      var m :| 0 <= m < |next| && next[m].i == q;
      assert job.Acc(next[m].i, p + 1, j);
    }
  }

  /** The first n states of the list are done. */
  ghost predicate DoneUpTo(job: Job, p: nat, n: nat, now: seq<Thread>, next: seq<Thread>, found: bool)
    requires job.Ok() && p <= job.cx.end && job.AllSound(now, p) && n <= |now|
  {
    forall k | 0 <= k < n :: job.Done(p, PcsOf(now), PcsOf(next), found, now[k].i)
  }

  lemma {:induction false} DoneUpToMore(job: Job, p: nat, n: nat, now: seq<Thread>, next: seq<Thread>, found: bool,
                     now': seq<Thread>, next': seq<Thread>, found': bool)
    requires job.Ok() && p <= job.cx.end && job.AllSound(now, p) && job.AllSound(now', p) && n < |now|
    requires DoneUpTo(job, p, n, now, next, found) && Extends(now, now') && PcsOf(now) <= PcsOf(now')
    requires PcsOf(next) <= PcsOf(next') && (found ==> found')
    requires job.Done(p, PcsOf(now'), PcsOf(next'), found', now[n].i)
    ensures DoneUpTo(job, p, n + 1, now', next', found')
  {
    forall k | 0 <= k < n ensures job.Done(p, PcsOf(now'), PcsOf(next'), found', now'[k].i) {
      job.DoneMore(p, PcsOf(now), PcsOf(next), found, PcsOf(now'), PcsOf(next'), found', now[k].i);
    }
  }

  lemma ExtendsTwice(a: seq<Thread>, b: seq<Thread>, c: seq<Thread>)
    requires Extends(a, b) && Extends(b, c)
    ensures Extends(a, c)
  {}

  /** Run every state of the list over the rune at p, also those added on the way. */
  method Round(job: Job, p: nat, c: Rune, statel: seq<Thread>, best: seq<Range>)
      returns (st: seq<Thread>, nextl: seq<Thread>, sel: seq<Range>)
    requires job.Ok() && p <= job.cx.end && c == job.cx.At(p)
    requires job.AllSound(statel, p) && Distinct(statel) && job.Best(best)
    ensures job.AllSound(st, p) && Extends(statel, st)
    ensures job.AllSound(nextl, p + 1) && Distinct(nextl)
    ensures job.Best(sel) && (best[0].p0 >= 0 ==> sel[0].p0 >= 0)
    ensures DoneUpTo(job, p, |st|, st, nextl, sel[0].p0 >= 0)
  {
    st, nextl, sel := statel, [], best;
    var si := 0;
    DistinctBound(st, |job.code|);
    while si < |st|
      invariant 0 <= si <= |st| <= |job.code|
      invariant job.cx.Valid() && job.AllSound(st, p) && Distinct(st) && Extends(statel, st)
      invariant job.AllSound(nextl, p + 1) && Distinct(nextl)
      invariant job.Best(sel) && (best[0].p0 >= 0 ==> sel[0].p0 >= 0)
      invariant DoneUpTo(job, p, si, st, nextl, sel[0].p0 >= 0)
      decreases |job.code| - si
    {
      var st1, nextl1, sel1 := Follow(job, p, c, si, st, nextl, sel);
      DoneUpToMore(job, p, si, st, nextl, sel[0].p0 >= 0, st1, nextl1, sel1[0].p0 >= 0);
      DistinctBound(st1, |job.code|);
      ExtendsTwice(statel, st, st1);
      st, nextl, sel := st1, nextl1, sel1;
      si := si + 1;
    }
  }

  /** The literal the program starts with, 0 if it starts otherwise. */
  function StartRune(code: seq<Inst>, entry: Pc): Rune
    requires entry < |code|
  {
    match code[entry].op
    case Oper(Lit(r)) => r
    case _ => 0
  }

  lemma {:induction false} SkipRune(job: Job, p: nat)
    requires job.Ok() && p <= job.cx.end && Pending(job, p, [])
    requires StartRune(job.code, job.entry) != 0 && job.cx.At(p) != StartRune(job.code, job.entry)
    ensures Pending(job, p + 1, [])
  {
    forall i: nat, j: nat | job.start <= i < p + 1 ensures !job.Acc(job.entry, i, j) {
      if i == p && job.Acc(job.entry, p, j) {
        var n: nat :| AcceptsIn(job.code, job.cx, job.entry, p, j, n);
        job.PathStep(job.entry, p, j, n);
      }
    }
  }

  function Clip(end: int, n: nat): nat
  {
    if end < 0 || end > n then n else end
  }

  /** One turn of the machine: at p, with the list and the best match so far. */
  method Turn(job: Job, p: nat, statel: seq<Thread>, best: seq<Range>) returns (next: seq<Thread>, sel: seq<Range>)
    requires job.Ok() && job.start <= p <= job.cx.end
    requires job.AllSound(statel, p) && Distinct(statel) && job.Best(best)
    requires best[0].p0 < 0 ==> Pending(job, p, statel)
    ensures job.AllSound(next, p + 1) && Distinct(next) && job.Best(sel) && |sel| > 0
    ensures sel[0].p0 < 0 ==> Pending(job, p + 1, next)
  {
    var c, startc := job.cx.At(p), StartRune(job.code, job.entry);
    if startc != 0 && |statel| == 0 && c != startc {
      if best[0].p0 < 0 { SkipRune(job, p); }
      return [], best;   // skip first rune fast
    }
    var lst := statel;
    if best[0].p0 < 0 {
      var empty := seq(job.nsub + 1, _ => Range(0, 0));
      lst := Add(job, p, lst, job.entry, empty[0 := Range(p, 0)]);
      AddKeepsPending(job, p, statel, lst);
    }
    var st;
    st, next, sel := Round(job, p, c, lst, best);
    if sel[0].p0 < 0 {
      SamePrefix(job, p, lst, st);
      RoundKeepsPending(job, p, st, next);
    }
  }

  /** The whole search. */
  method Drive(job: Job) returns (r: Option<seq<Range>>)
    requires job.Ok()
    ensures r.None? <==> NoneAccepted(job.code, job.cx, job.entry, job.start)
    ensures r.Some? ==> job.Best(r.value) && r.value[0].p0 >= 0
  {
    hide *;
    var statel: seq<Thread> := [];
    var empty := seq(job.nsub + 1, _ => Range(0, 0));
    var sel := empty[0 := Range(-1, 0)];
    var p := job.start;
    StartsDriving(job, sel);
    while p <= job.cx.end && (sel[0].p0 < 0 || |statel| > 0)
      invariant job.start <= p && |sel| > 0
      invariant job.AllSound(statel, p) && Distinct(statel) && job.Best(sel)
      invariant sel[0].p0 < 0 ==> Pending(job, p, statel)
      decreases job.cx.end + 1 - p
    {
      statel, sel := Turn(job, p, statel, sel);
      p := p + 1;
    }
    if sel[0].p0 < 0 {
      NoneLeft(job, p, statel);
      return None;
    }
    BestIsAccepted(job, sel);
    return Some(sel);
  }

  lemma {:induction false} StartsDriving(job: Job, sel: seq<Range>)
    requires job.Ok() && |sel| == job.nsub + 1 && sel[0] == Range(-1, 0)
    ensures job.cx.Valid() && job.AllSound([], job.start) && Distinct([]) && job.Best(sel) && Pending(job, job.start, [])
  {}

  lemma {:induction false} BestIsAccepted(job: Job, sel: seq<Range>)
    requires job.Ok() && job.Best(sel) && |sel| > 0 && sel[0].p0 >= 0
    ensures !NoneAccepted(job.code, job.cx, job.entry, job.start)
  {
    assert job.Acc(job.entry, sel[0].p0, sel[0].p1);
  }

  lemma {:induction false} NoneLeft(job: Job, p: nat, lst: seq<Thread>)
    requires job.cx.Valid() && p > job.cx.end && Pending(job, p, lst)
    ensures NoneAccepted(job.code, job.cx, job.entry, job.start)
  {
    forall i: nat, j: nat | job.start <= i ensures !Accepts(job.code, job.cx, job.entry, i, j) {
      if job.Acc(job.entry, i, j) {
        StartsIn(job, job.entry, i, j);
      }
    }
  }

  /**
    Search txt from start, not going past end (the end of the text if it is negative).
    Element 0 of the result is the range matched.
   */
  method Exec(prg: ReProg, txt: seq<Rune>, start: nat, end: int, words: set<Rune>, spaces: set<Rune>)
      returns (r: Option<seq<Range>>)
    requires prg.Runnable()
    ensures r.None? <==> NoneAccepted(prg.code, Ctx(txt, Clip(end, |txt|), words, spaces), prg.entry, start)
    ensures r.Some? ==>
      && |r.value| == prg.cursubid + 1 && start <= r.value[0].p0 <= r.value[0].p1 <= Clip(end, |txt|)
      && Accepts(prg.code, Ctx(txt, Clip(end, |txt|), words, spaces), prg.entry, r.value[0].p0, r.value[0].p1)
  {
    var cx := Ctx(txt, Clip(end, |txt|), words, spaces);
    var job := Job(prg.code, prg.rank, prg.live, prg.entry, prg.cursubid, cx, start);
    r := Drive(job);
  }

  /** No part of the text that starts at start or later is accepted. */
  ghost predicate NoneAccepted(code: seq<Inst>, cx: Ctx, entry: Pc, start: nat)
    requires cx.Valid()
  {
    forall i: nat, j: nat | start <= i :: !Accepts(code, cx, entry, i, j)
  }

  lemma {:induction false} AcceptedIsMatched(code: seq<Inst>, cx: Ctx, entry: Pc, re: Re)
    requires cx.Valid()
    requires forall i: nat, j: nat :: Accepts(code, cx, entry, i, j) <==> Matches(re, cx, i, j)
    ensures NoneAccepted(code, cx, entry, 0) <==> NoMatch(re, cx)
    ensures forall i: nat, j: nat | Accepts(code, cx, entry, i, j) :: Matches(re, cx, i, j)
  {
    if NoneAccepted(code, cx, entry, 0) {
      forall i: nat, j: nat ensures !Matches(re, cx, i, j) {
        assert !Accepts(code, cx, entry, i, j);
      }
    }
    if NoMatch(re, cx) {
      forall i: nat, j: nat ensures !Accepts(code, cx, entry, i, j) {
        assert !Matches(re, cx, i, j);
      }
    }
  }

  lemma SamePrefix(job: Job, p: nat, a: seq<Thread>, b: seq<Thread>)
    requires job.cx.Valid() && Extends(a, b)
    requires forall i: nat, j: nat | job.start <= i <= p && job.Acc(job.entry, i, j) ::
               exists k :: 0 <= k < |a| && job.Acc(a[k].i, p, j)
    ensures forall i: nat, j: nat | job.start <= i <= p && job.Acc(job.entry, i, j) ::
              exists k :: 0 <= k < |b| && job.Acc(b[k].i, p, j)
  {
    forall i: nat, j: nat | job.start <= i <= p && job.Acc(job.entry, i, j)
      ensures exists k :: 0 <= k < |b| && job.Acc(b[k].i, p, j)
    {
      var k :| 0 <= k < |a| && job.Acc(a[k].i, p, j);
      assert job.Acc(b[k].i, p, j);
    }
  }

  lemma StartsIn(job: Job, pc: Pc, i: nat, j: nat)
    requires job.cx.Valid() && job.Acc(pc, i, j)
    ensures i <= job.cx.end
  {
    var n: nat :| AcceptsIn(job.code, job.cx, pc, i, j, n);
  }

  /** Search a text with a program for re. */
  method Search(prg: ReProg, ghost re: Re, txt: seq<Rune>, words: set<Rune>, spaces: set<Rune>) returns (r: Option<seq<Range>>)
    requires prg.Runnable() && prg.Implements(re)
    ensures r.None? <==> NoMatch(re, Ctx(txt, |txt|, words, spaces))
    ensures r.Some? ==> |r.value| > 0 && IsMatch(re, Ctx(txt, |txt|, words, spaces), r.value[0])
  {
    AcceptedIsMatched(prg.code, Ctx(txt, |txt|, words, spaces), prg.entry, re);
    r := Exec(prg, txt, 0, |txt|, words, spaces);
  }

  ghost predicate NoMatch(re: Re, cx: Ctx)
    requires cx.Valid()
  {
    forall i: nat, j: nat :: !Matches(re, cx, i, j)
  }

  ghost predicate IsMatch(re: Re, cx: Ctx, g: Range)
    requires cx.Valid()
  {
    0 <= g.p0 <= g.p1 <= cx.end && Matches(re, cx, g.p0, g.p1)
  }

  /**
    Compile an expression and search a text with it: an error exactly when it is malformed,
    nothing exactly when no part of the text matches, and otherwise a part that matches.
   */
  method Match(toks: seq<Tok>, txt: seq<Rune>, words: set<Rune>, spaces: set<Rune>)
      returns (ok: bool, r: Option<seq<Range>>)
    requires G.Lexed(toks)
    ensures ok <==> G.Parse(toks).Some?
    ensures ok ==> (r.None? <==> NoMatch(G.Parse(toks).value, Ctx(txt, |txt|, words, spaces)))
    ensures ok && r.Some? ==> |r.value| > 0 && IsMatch(G.Parse(toks).value, Ctx(txt, |txt|, words, spaces), r.value[0])
  {
    var prg;
    ok, prg := Compile(toks);
    r := None;
    if ok {
      r := Search(prg, G.Parse(toks).value, txt, words, spaces);
    }
  }
}
