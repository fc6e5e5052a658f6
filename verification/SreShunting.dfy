/**
  What the operator and node stacks of the compiler compute, on trees instead of code: an
  operator-precedence machine that applies the operators by precedence. It accepts exactly
  the token strings of the grammar. Its tree may differ from the grammar's, since in `a*+`
  it applies `+` first, but means the same.
 */
module SreShunting {
  import opened SreRegex
  import opened SreGrammar

  /** The operators that may be on the stack, `Start` being the mark at its bottom. */
  datatype Op = Start | LParen | OrOp | CatOp | PostOp(o: Postfix)

  // the operator codes of the source, counted from tOPERATOR: the code is the precedence
  const START_PRI := 1
  const RPAREN_PRI := 2

  function Prec(op: Op): nat
  {
    match op
    case Start => 0
    case LParen => 3
    case OrOp => 4
    case CatOp => 5
    case PostOp(StarOp) => 6
    case PostOp(PlusOp) => 7
    case PostOp(QuestOp) => 8
  }

  /** A stack, the top first. */
  datatype Stack<T> = Nil | Push(top: T, rest: Stack<T>)

  // ----- evaluation -----

  /** The node stack after applying op to its top; None if an operand is missing. */
  function Reduce(op: Op, nds: Stack<Re>): Option<Stack<Re>>
  {
    match (op, nds)
    case (LParen, Push(a, rest)) => Some(Push(Group(a), rest))
    case (OrOp, Push(b, Push(a, rest))) => Some(Push(Or(a, b), rest))
    case (CatOp, Push(b, Push(a, rest))) => Some(Push(Cat(a, b), rest))
    case (PostOp(o), Push(a, rest)) => Some(Push(Post(o, a), rest))
    case _ => None
  }

  datatype Stacks = Failed | Stacks(ops: Stack<Op>, nds: Stack<Re>)

  /** Apply operators until one below pri, or until the '(' just closed. */
  function EvalUntil(ops: Stack<Op>, nds: Stack<Re>, pri: nat): Stacks
    decreases ops
  {
    if ops.Nil? then Failed
    else if pri == RPAREN_PRI || Prec(ops.top) >= pri then
      match Reduce(ops.top, nds)
      case None => Failed
      case Some(nds') => if ops.top == LParen then Stacks(ops.rest, nds') else EvalUntil(ops.rest, nds', pri)
    else Stacks(ops, nds)
  }

  datatype State = Bad | State(ops: Stack<Op>, nds: Stack<Re>, lastWasAnd: bool, nparen: nat)

  const INITIAL := State(Push(Start, Nil), Nil, false, 0)

  /** An operator that is not a parenthesis. */
  function Operator(st: State, op: Op): State
  {
    if st.Bad? then Bad
    else
      match EvalUntil(st.ops, st.nds, Prec(op))
      case Failed => Bad
      case Stacks(ops, nds) => State(Push(op, ops), nds, op.PostOp?, st.nparen)
  }

  function ImplicitCat(st: State): State
  {
    if st.State? && st.lastWasAnd then Operator(st, CatOp) else st
  }

  function Step(st: State, tok: Tok): State
  {
    if st.Bad? then Bad
    else
      match tok
      case TOperand(x) =>
        var s := ImplicitCat(st);
        if s.Bad? then Bad else s.(nds := Push(Atom(x), s.nds), lastWasAnd := true)
      case TLParen =>
        var s := ImplicitCat(st);
        if s.Bad? then Bad else s.(ops := Push(LParen, s.ops), lastWasAnd := false, nparen := s.nparen + 1)
      case TRParen =>
        if st.nparen == 0 then Bad
        else (
          match EvalUntil(st.ops, st.nds, RPAREN_PRI)
          case Failed => Bad
          case Stacks(ops, nds) => State(ops, nds, true, st.nparen - 1)
        )
      case TOr => Operator(st, OrOp)
      case TPostfix(o) => Operator(st, PostOp(o))
  }

  function Run(st: State, toks: seq<Tok>): State
    decreases toks
  {
    if toks == [] then st else Run(Step(st, toks[0]), toks[1..])
  }

  function EvalAll(st: State): State
  {
    if st.Bad? then Bad
    else
      match EvalUntil(st.ops, st.nds, START_PRI)
      case Failed => Bad
      case Stacks(ops, nds) => st.(ops := ops, nds := nds)
  }

  function Close(st: State): Option<Re>
  {
    var s := EvalAll(Step(EvalAll(st), TOperand(End)));
    if s.Bad? || s.nparen != 0 || s.nds.Nil? then None else Some(s.nds.top)
  }

  function Shunt(toks: seq<Tok>): Option<Re>
  {
    Close(Run(INITIAL, toks))
  }

  // ----- the stacks as frames -----

  /** Like a frame of the reader, but the postfix operators of the last piece are still pending. */
  datatype Pending = Pending(alt: Option<Re>, chain: Option<Re>, base: Option<Re>, run: Stack<Postfix>)

  datatype Pendings = Outer(p: Pending) | Nested(out: Pendings, p: Pending)
  {
    function Put(q: Pending): Pendings {
      this.(p := q)
    }

    function Depth(): nat {
      if Outer? then 0 else 1 + out.Depth()
    }
  }

  const NOTHING := Pending(None, None, None, Nil)

  function Applied(run: Stack<Postfix>, b: Re): Re
    decreases run
  {
    if run.Nil? then b else Applied(run.rest, Post(run.top, b))
  }

  function RunOps(run: Stack<Postfix>, under: Stack<Op>): Stack<Op>
  {
    if run.Nil? then under else Push(PostOp(run.top), RunOps(run.rest, under))
  }

  function PushSome<T>(t: Option<T>, under: Stack<T>): Stack<T>
  {
    if t.None? then under else Push(t.value, under)
  }

  function AltOps(p: Pending, under: Stack<Op>): Stack<Op>
  {
    if p.alt.Some? then Push(OrOp, under) else under
  }

  function ChainOps(p: Pending, under: Stack<Op>): Stack<Op>
  {
    if p.chain.Some? then Push(CatOp, AltOps(p, under)) else AltOps(p, under)
  }

  function FrameOps(p: Pending, under: Stack<Op>): Stack<Op>
  {
    RunOps(p.run, ChainOps(p, under))
  }

  function FrameNds(p: Pending, under: Stack<Re>): Stack<Re>
  {
    PushSome(p.base, PushSome(p.chain, PushSome(p.alt, under)))
  }

  function Ops(ps: Pendings): Stack<Op>
  {
    FrameOps(ps.p, if ps.Outer? then Push(Start, Nil) else Push(LParen, Ops(ps.out)))
  }

  function Nds(ps: Pendings): Stack<Re>
  {
    FrameNds(ps.p, if ps.Outer? then Nil else Nds(ps.out))
  }

  /** The machine state the frames stand for. */
  function Concrete(ps: Pendings): State
  {
    State(Ops(ps), Nds(ps), ps.p.base.Some?, ps.Depth())
  }

  predicate GoodPending(p: Pending)
  {
    p.base.None? ==> p.run == Nil
  }

  predicate GoodPendings(ps: Pendings)
  {
    GoodPending(ps.p) && (ps.p.base.None? ==> ps.p.chain.None?) && (ps.Nested? ==> Held(ps.out))
  }

  predicate Held(ps: Pendings)
  {
    GoodPending(ps.p) && ps.p.base.None? && (ps.Nested? ==> Held(ps.out))
  }

  function PendingChain(p: Pending): Re
    requires p.base.Some?
  {
    Chained(p.chain, Applied(p.run, p.base.value))
  }

  function PendingWhole(p: Pending): Re
    requires p.base.Some?
  {
    if p.alt.None? then PendingChain(p) else Or(p.alt.value, PendingChain(p))
  }

  function Settle(p: Pending): Pending
  {
    if p.base.None? then p else Pending(p.alt, Some(PendingChain(p)), None, Nil)
  }

  /** Apply the pending operators that bind tighter than o, then leave o pending. */
  function PushPostfix(run: Stack<Postfix>, b: Re, o: Postfix): (Re, Stack<Postfix>)
    decreases run
  {
    if run.Push? && Prec(PostOp(run.top)) >= Prec(PostOp(o)) then
      PushPostfix(run.rest, Post(run.top, b), o)
    else (b, Push(o, run))
  }

  /** The reader's step on pending frames. */
  function ReadPending(ps: Pendings, tok: Tok): Option<Pendings>
  {
    var p := ps.p;
    match tok
    case TOperand(x) => Some(ps.Put(Settle(p).(base := Some(Atom(x)))))
    case TLParen => Some(Nested(ps.Put(Settle(p)), NOTHING))
    case TRParen =>
      if ps.Outer? || p.base.None? then None
      else Some(ps.out.Put(ps.out.p.(base := Some(Group(PendingWhole(p))), run := Nil)))
    case TOr =>
      if p.base.None? then None else Some(ps.Put(Pending(Some(PendingWhole(p)), None, None, Nil)))
    case TPostfix(o) =>
      if p.base.None? then None
      else
        var (b, run) := PushPostfix(p.run, p.base.value, o);
        Some(ps.Put(p.(base := Some(b), run := run)))
  }

  // ----- the machine follows the frames -----

  lemma {:induction false} EvalRun(run: Stack<Postfix>, ops: Stack<Op>, nds: Stack<Re>, b: Re, pri: nat)
    requires pri <= 6
    ensures EvalUntil(RunOps(run, ops), Push(b, nds), pri) == EvalUntil(ops, Push(Applied(run, b), nds), pri)
    decreases run
  {
    if run.Push? {
      EvalRun(run.rest, ops, nds, Post(run.top, b), pri);
    }
  }

  /** Down to the precedence of catenation, the chain becomes one node. */
  lemma {:induction false} EvalChain(ops: Stack<Op>, nds: Stack<Re>, p: Pending, pri: nat)
    requires p.base.Some? && pri <= 5
    ensures EvalUntil(FrameOps(p, ops), FrameNds(p, nds), pri)
         == EvalUntil(AltOps(p, ops), Push(PendingChain(p), PushSome(p.alt, nds)), pri)
  {
    EvalRun(p.run, ChainOps(p, ops), PushSome(p.chain, PushSome(p.alt, nds)), p.base.value, pri);
  }

  /** Down to the precedence of alternation, the whole frame becomes one node. */
  lemma {:induction false} EvalFrame(ops: Stack<Op>, nds: Stack<Re>, p: Pending, pri: nat)
    requires p.base.Some? && pri <= 4
    ensures EvalUntil(FrameOps(p, ops), FrameNds(p, nds), pri) == EvalUntil(ops, Push(PendingWhole(p), nds), pri)
  {
    EvalChain(ops, nds, p, pri);
  }

  lemma {:induction false} EvalPostfix(run: Stack<Postfix>, ops: Stack<Op>, nds: Stack<Re>, b: Re, o: Postfix)
    requires ops.Push? && Prec(ops.top) <= 5
    ensures var (b', run') := PushPostfix(run, b, o);
            && run'.Push? && run'.top == o
            && EvalUntil(RunOps(run, ops), Push(b, nds), Prec(PostOp(o)))
            == Stacks(RunOps(run'.rest, ops), Push(b', nds))
    decreases run
  {
    if run.Push? && Prec(PostOp(run.top)) >= Prec(PostOp(o)) {
      EvalPostfix(run.rest, ops, nds, Post(run.top, b), o);
    }
  }

  lemma {:induction false} ImplicitCatFollows(ps: Pendings)
    requires GoodPendings(ps)
    ensures ImplicitCat(Concrete(ps)) == Concrete(ps.Put(Settle(ps.p)))
  {
    if ps.p.base.Some? {
      EvalChain(if ps.Outer? then Push(Start, Nil) else Push(LParen, Ops(ps.out)),
                if ps.Outer? then Nil else Nds(ps.out), ps.p, 5);
    }
  }

  lemma {:induction false} StepFollows(ps: Pendings, tok: Tok)
    requires GoodPendings(ps) && ReadPending(ps, tok).Some?
    ensures GoodPendings(ReadPending(ps, tok).value)
    ensures Step(Concrete(ps), tok) == Concrete(ReadPending(ps, tok).value)
  {
    var p := ps.p;
    var ops := if ps.Outer? then Push(Start, Nil) else Push(LParen, Ops(ps.out));
    var nds := if ps.Outer? then Nil else Nds(ps.out);
    match tok
    case TOperand(x) => ImplicitCatFollows(ps);
    case TLParen => ImplicitCatFollows(ps);
    case TRParen =>
      EvalFrame(ops, nds, p, RPAREN_PRI);
      var q := ps.out.Put(ps.out.p.(base := Some(Group(PendingWhole(p))), run := Nil));
      assert Ops(q) == Ops(ps.out) && Nds(q) == Push(Group(PendingWhole(p)), Nds(ps.out));
      assert q.Depth() == ps.Depth() - 1;
    case TOr => EvalFrame(ops, nds, p, 4);
    case TPostfix(o) =>
      EvalPostfix(p.run, ChainOps(p, ops), PushSome(p.chain, PushSome(p.alt, nds)), p.base.value, o);
  }

  // ----- the frames mean what the reader reads -----

  ghost predicate SameOption(a: Option<Re>, b: Option<Re>)
  {
    a.Some? == b.Some? && (a.Some? ==> Equivalent(a.value, b.value) && NoEnd(a.value))
  }

  ghost predicate SameFrame(p: Pending, f: Frame)
  {
    && SameOption(p.alt, f.alt)
    && SameOption(p.chain, f.chain)
    && p.base.Some? == f.piece.Some?
    && (p.base.Some? ==> NoEnd(p.base.value))
    && (p.base.Some? ==> f.piece.value != Eps && Equivalent(Applied(p.run, p.base.value), f.piece.value))
  }

  ghost predicate SameFrames(ps: Pendings, fs: Frames)
  {
    && ps.Nested? == fs.Inner?
    && SameFrame(ps.p, fs.f)
    && (ps.Nested? ==> SameFrames(ps.out, fs.out))
  }

  lemma {:induction false} AppliedNoEnd(run: Stack<Postfix>, b: Re)
    requires NoEnd(b)
    ensures NoEnd(Applied(run, b))
    decreases run
  {
    if run.Push? { AppliedNoEnd(run.rest, Post(run.top, b)); }
  }

  lemma {:induction false} PushPostfixNoEnd(run: Stack<Postfix>, b: Re, o: Postfix)
    requires NoEnd(b)
    ensures NoEnd(PushPostfix(run, b, o).0)
    decreases run
  {
    if run.Push? { PushPostfixNoEnd(run.rest, Post(run.top, b), o); }
  }

  lemma ChainSame(p: Pending, f: Frame)
    requires SameFrame(p, f) && p.base.Some?
    ensures Equivalent(PendingChain(p), Chained(f.chain, f.piece.value)) && NoEnd(PendingChain(p))
  {
    AppliedNoEnd(p.run, p.base.value);
    if p.chain.Some? {
      CatCongruent(p.chain.value, Applied(p.run, p.base.value), f.chain.value, f.piece.value);
    }
  }

  lemma WholeSame(p: Pending, f: Frame)
    requires SameFrame(p, f) && p.base.Some?
    ensures Equivalent(PendingWhole(p), Whole(f)) && NoEnd(PendingWhole(p))
  {
    ChainSame(p, f);
  }

  lemma {:induction false} AppliedCongruent(run: Stack<Postfix>, a: Re, b: Re)
    requires Equivalent(a, b)
    ensures Equivalent(Applied(run, a), Applied(run, b))
    decreases run
  {
    if run.Push? {
      PostCongruent(run.top, a, b);
      AppliedCongruent(run.rest, Post(run.top, a), Post(run.top, b));
    }
  }

  /** An operator applied first or last, below the pending ones, gives the same language. */
  lemma {:induction false} AppliedCommutes(run: Stack<Postfix>, b: Re, o: Postfix)
    ensures Equivalent(Applied(run, Post(o, b)), Post(o, Applied(run, b)))
    decreases run
  {
    if run.Push? {
      var b' := Post(run.top, b);
      PostfixCommute(run.top, o, b);
      AppliedCongruent(run.rest, Post(run.top, Post(o, b)), Post(o, b'));
      AppliedCommutes(run.rest, b', o);
      EquivalentTransitive(
        Applied(run.rest, Post(run.top, Post(o, b))), Applied(run.rest, Post(o, b')), Post(o, Applied(run.rest, b')));
    }
  }

  /** Leaving o pending after the tighter operators means applying o to all that is pending. */
  lemma {:induction false} PushPostfixMeans(run: Stack<Postfix>, b: Re, o: Postfix)
    ensures var (b', run') := PushPostfix(run, b, o);
            Equivalent(Applied(run', b'), Post(o, Applied(run, b)))
    decreases run
  {
    if run.Push? && Prec(PostOp(run.top)) >= Prec(PostOp(o)) {
      PushPostfixMeans(run.rest, Post(run.top, b), o);
    } else {
      AppliedCommutes(run, b, o);
    }
  }

  lemma {:induction false} PostfixSame(p: Pending, f: Frame, o: Postfix)
    requires SameFrame(p, f) && p.base.Some?
    ensures var (b, run) := PushPostfix(p.run, p.base.value, o);
            SameFrame(p.(base := Some(b), run := run), f.(piece := Some(Post(o, f.piece.value))))
  {
    var (b, run) := PushPostfix(p.run, p.base.value, o);
    PushPostfixMeans(p.run, p.base.value, o);
    PushPostfixNoEnd(p.run, p.base.value, o);
    PostCongruent(o, Applied(p.run, p.base.value), f.piece.value);
    EquivalentTransitive(Applied(run, b), Post(o, Applied(p.run, p.base.value)), Post(o, f.piece.value));
  }

  lemma {:induction false} GroupSame(a: Re, b: Re)
    requires Equivalent(a, b)
    ensures Equivalent(Group(a), Group(b))
  {
    forall cx: Ctx, i: nat, j: nat | cx.Valid()
      ensures Matches(Group(a), cx, i, j) <==> Matches(Group(b), cx, i, j)
    {
      assert Matches(a, cx, i, j) <==> Matches(b, cx, i, j);
    }
  }

  lemma {:induction false} ReadSame(ps: Pendings, fs: Frames, tok: Tok)
    requires GoodPendings(ps) && SameFrames(ps, fs) && tok != TOperand(End)
    ensures ReadPending(ps, tok).Some? == Read(fs, tok).Some?
    ensures Read(fs, tok).Some? ==> SameFrames(ReadPending(ps, tok).value, Read(fs, tok).value)
  {
    var p, f := ps.p, fs.f;
    if p.base.Some? {
      ChainSame(p, f);
      WholeSame(p, f);
    }
    match tok
    case TOperand(x) =>
    case TLParen =>
    case TRParen =>
      if p.base.Some? { GroupSame(PendingWhole(p), Whole(f)); }
    case TOr =>
    case TPostfix(o) =>
      if p.base.Some? { PostfixSame(p, f, o); }
  }

  // ----- malformed input is always rejected -----

  function Height<T>(s: Stack<T>): nat
  {
    if s.Nil? then 0 else 1 + Height(s.rest)
  }

  function Binaries(ops: Stack<Op>): nat
  {
    if ops.Nil? then 0 else Binaries(ops.rest) + if ops.top == OrOp || ops.top == CatOp then 1 else 0
  }

  function Parens(ops: Stack<Op>): nat
  {
    if ops.Nil? then 0 else Parens(ops.rest) + if ops.top == LParen then 1 else 0
  }

  predicate StartAtBottom(ops: Stack<Op>)
  {
    ops.Push? && (if ops.rest.Nil? then ops.top == Start else ops.top != Start && StartAtBottom(ops.rest))
  }

  /** Nodes not yet claimed by a binary operator, less the one the last token leaves open. */
  function Excess(st: State): int
    requires st.State?
  {
    Height(st.nds) - Binaries(st.ops) - if st.lastWasAnd then 1 else 0
  }

  predicate Counted(st: State)
  {
    st.State? ==> StartAtBottom(st.ops) && Parens(st.ops) == st.nparen
  }

  /** Evaluation spends one node for each binary operator, and closes at most one '('. */
  lemma {:induction false} EvalBalance(ops: Stack<Op>, nds: Stack<Re>, pri: nat)
    requires StartAtBottom(ops) && pri > 0
    ensures var r := EvalUntil(ops, nds, pri);
            r.Stacks? ==>
              && StartAtBottom(r.ops)
              && Height(r.nds) - Binaries(r.ops) == Height(nds) - Binaries(ops)
              && (pri > 3 ==> Parens(r.ops) == Parens(ops))
              && (pri == RPAREN_PRI ==> Parens(r.ops) == Parens(ops) - 1)
              && (pri == START_PRI && Parens(ops) == 0 ==> r.ops == Push(Start, Nil))
    decreases ops
  {
    var r := EvalUntil(ops, nds, pri);
    if r.Stacks? && (pri == RPAREN_PRI || Prec(ops.top) >= pri) && ops.top != LParen {
      assert ops.top != Start;
      EvalBalance(ops.rest, Reduce(ops.top, nds).value, pri);
    }
  }

  lemma {:induction false} OperatorBalance(st: State, op: Op)
    requires Counted(st) && st.State? && op != Start && op != LParen
    ensures Counted(Operator(st, op))
    ensures var s := Operator(st, op);
            s.State? ==> s.nparen == st.nparen && s.lastWasAnd == op.PostOp?
                         && Excess(s) == Excess(st) - if st.lastWasAnd then 0 else 1
  {
    EvalBalance(st.ops, st.nds, Prec(op));
  }

  predicate NeedsOperand(tok: Tok)
  {
    tok == TRParen || tok == TOr || tok.TPostfix?
  }

  lemma {:induction false} StepBalance(st: State, tok: Tok)
    requires Counted(st) && st.State?
    ensures Counted(Step(st, tok))
    ensures var s := Step(st, tok);
            s.State? ==> Excess(s) == Excess(st) - if NeedsOperand(tok) && !st.lastWasAnd then 1 else 0
  {
    match tok
    case TOperand(x) =>
      if st.lastWasAnd { OperatorBalance(st, CatOp); }
    case TLParen =>
      if st.lastWasAnd { OperatorBalance(st, CatOp); }
    case TRParen =>
      EvalBalance(st.ops, st.nds, RPAREN_PRI);
    case TOr =>
      OperatorBalance(st, OrOp);
    case TPostfix(o) =>
      OperatorBalance(st, PostOp(o));
  }

  lemma {:induction false} RunBalance(st: State, toks: seq<Tok>)
    requires Counted(st) && st.State?
    ensures Counted(Run(st, toks))
    ensures Run(st, toks).State? ==> Excess(Run(st, toks)) <= Excess(st)
    decreases toks
  {
    if toks != [] {
      StepBalance(st, toks[0]);
      if Step(st, toks[0]).State? {
        RunBalance(Step(st, toks[0]), toks[1..]);
      } else {
        RunBad(toks[1..]);
      }
    }
  }

  lemma {:induction false} RunBad(toks: seq<Tok>)
    ensures Run(Bad, toks) == Bad
    decreases toks
  {
    if toks != [] { RunBad(toks[1..]); }
  }

  lemma {:induction false} CloseBalance(st: State)
    requires Counted(st) && st.State? && Close(st).Some?
    ensures Excess(st) >= 0 && st.nparen == 0
  {
    EvalBalance(st.ops, st.nds, START_PRI);
    var s1 := EvalAll(st);
    var s2 := Step(s1, TOperand(End));
    assert s2.nparen == s1.nparen == st.nparen == 0;
    StepBalance(s1, TOperand(End));
    EvalBalance(s2.ops, s2.nds, START_PRI);
  }

  // ----- the theorem -----

  /** Shunting a whole well-formed frame gives its tree followed by END. */
  ghost predicate ClosedForm(r: Re, t: Re)
  {
    if t == Eps then r == Atom(End)
    else r.Cat? && r.r == Atom(End) && NoEnd(r.l) && Equivalent(r.l, t)
  }

  lemma {:induction false} EvalAllFrame(p: Pending)
    requires GoodPendings(Outer(p))
    ensures p.base.Some? ==>
      EvalAll(Concrete(Outer(p))) == State(Push(Start, Nil), Push(PendingWhole(p), Nil), true, 0)
    ensures p == NOTHING ==> EvalAll(Concrete(Outer(p))) == INITIAL
    ensures p.base.None? && p.alt.Some? ==> EvalAll(Concrete(Outer(p))) == Bad
  {
    if p.base.Some? {
      EvalFrame(Push(Start, Nil), Nil, p, START_PRI);
    }
  }

  lemma {:induction false} CloseForm(p: Pending)
    requires GoodPendings(Outer(p))
    ensures p.base.Some? ==> Close(Concrete(Outer(p))) == Some(Cat(PendingWhole(p), Atom(End)))
    ensures p == NOTHING ==> Close(Concrete(Outer(p))) == Some(Atom(End))
    ensures p.base.None? && p.alt.Some? ==> Close(Concrete(Outer(p))) == None
  {
    EvalAllFrame(p);
  }

  lemma {:induction false} EndSame(ps: Pendings, fs: Frames)
    requires GoodPendings(ps) && SameFrames(ps, fs) && Counted(Concrete(ps))
    ensures var r := Close(Concrete(ps));
            r.Some? == Finish(fs).Some? && (r.Some? ==> ClosedForm(r.value, Finish(fs).value))
  {
    if fs.Base? {
      CloseForm(ps.p);
      if ps.p.base.Some? {
        WholeSame(ps.p, fs.f);
        WholeIsNotEps(fs.f);
      }
    } else if Close(Concrete(ps)).Some? {
      CloseBalance(Concrete(ps));
    }
  }

  /** Once the reader has refused a token the machine can no longer end well. */
  lemma {:induction false} Doomed(st: State, toks: seq<Tok>)
    requires st.Bad? || (Counted(st) && Excess(st) < 0)
    ensures Close(Run(st, toks)) == None
  {
    if st.Bad? {
      RunBad(toks);
    } else {
      RunBalance(st, toks);
      if Close(Run(st, toks)).Some? {
        CloseBalance(Run(st, toks));
      }
    }
  }

  lemma {:induction false} RefusedIsDoomed(ps: Pendings, tok: Tok)
    requires GoodPendings(ps) && Counted(Concrete(ps)) && Excess(Concrete(ps)) == 0
    requires ReadPending(ps, tok).None?
    ensures var s := Step(Concrete(ps), tok); s.Bad? || (Counted(s) && Excess(s) < 0)
  {
    StepBalance(Concrete(ps), tok);
  }

  lemma {:induction false} AcceptedStaysBalanced(ps: Pendings, tok: Tok)
    requires GoodPendings(ps) && Counted(Concrete(ps)) && Excess(Concrete(ps)) == 0
    requires ReadPending(ps, tok).Some?
    ensures var qs := ReadPending(ps, tok).value; Counted(Concrete(qs)) && Excess(Concrete(qs)) == 0
  {
    StepFollows(ps, tok);
    StepBalance(Concrete(ps), tok);
  }

  lemma {:induction false} RunSame(ps: Pendings, fs: Frames, toks: seq<Tok>)
    requires GoodPendings(ps) && SameFrames(ps, fs) && Counted(Concrete(ps)) && Excess(Concrete(ps)) == 0
    requires Lexed(toks)
    ensures var t := (match ReadAll(fs, toks) case None => None case Some(g) => Finish(g));
            var r := Close(Run(Concrete(ps), toks));
            r.Some? == t.Some? && (t.Some? ==> ClosedForm(r.value, t.value))
    decreases toks
  {
    if toks == [] {
      EndSame(ps, fs);
    } else {
      ReadSame(ps, fs, toks[0]);
      if Read(fs, toks[0]).Some? {
        StepFollows(ps, toks[0]);
        AcceptedStaysBalanced(ps, toks[0]);
        RunSame(ReadPending(ps, toks[0]).value, Read(fs, toks[0]).value, toks[1..]);
      } else {
        RefusedIsDoomed(ps, toks[0]);
        Doomed(Step(Concrete(ps), toks[0]), toks[1..]);
      }
    }
  }

  lemma WholeIsNotEps(f: Frame)
    requires f.piece.Some? && f.piece.value != Eps
    ensures Whole(f) != Eps
  {}

  /**
    The stack machine accepts exactly the well-formed expressions, and what it builds
    matches what their grammar tree matches.
   */
  lemma {:induction false} ShuntIsParse(toks: seq<Tok>)
    requires Lexed(toks)
    ensures Shunt(toks).Some? <==> Parse(toks).Some?
    ensures Shunt(toks).Some? ==> ClosedForm(Shunt(toks).value, Parse(toks).value)
  {
    var ps := Outer(NOTHING);
    assert Concrete(ps) == INITIAL;
    RunSame(ps, Base(EMPTY), toks);
  }
}
