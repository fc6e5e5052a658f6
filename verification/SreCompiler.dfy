/**
  The compiler of structural regular expressions: two stacks and a program that grows and is
  patched while the tokens are read. It is proved against the grammar: it succeeds exactly
  on well-formed expressions, and then the program accepts what the expression matches.
 */
module SreCompiler {
  import opened SreRegex
  import opened SreProgram
  import G = SreGrammar
  import S = SreShunting

  /** An entry of the operator stack: the operator and its sub-expression. */
  datatype OpRec = OpRec(op: S.Op, subid: nat)

  /** A parsing node: the ends of the code of an operand. */
  datatype Node = Node(first: Pc, last: Pc)

  // ----- what the stacks hold -----

  function OpStack(ops: seq<OpRec>): S.Stack<S.Op>
  {
    if ops == [] then S.Nil else S.Push(ops[|ops| - 1].op, OpStack(ops[..|ops| - 1]))
  }

  function TreeStack(lays: S.Stack<Layout>): S.Stack<Re>
  {
    if lays.Nil? then S.Nil else S.Push(Tree(lays.top), TreeStack(lays.rest))
  }

  function AllPcs(lays: S.Stack<Layout>): set<Pc>
  {
    if lays.Nil? then {} else AllPcs(lays.rest) + Pcs(lays.top)
  }

  /** Each layout is in place with its exit still open, and they share no instruction. */
  predicate Stacked(code: seq<Inst>, lays: S.Stack<Layout>)
  {
    lays.Push? ==> Stacked(code, lays.rest) && OnTop(code, lays.rest, lays.top) && Exits(code, lays.top, 0)
  }

  /** t is in place, apart from the layouts of the stack. */
  predicate OnTop(code: seq<Inst>, lays: S.Stack<Layout>, t: Layout)
  {
    Laid(code, t) && Separate(t) && Pcs(t) !! AllPcs(lays)
  }

  predicate Covered(code: seq<Inst>, lays: S.Stack<Layout>)
  {
    forall pc | 0 < pc < |code| :: pc in AllPcs(lays)
  }

  predicate SameNodes(nds: seq<Node>, lays: S.Stack<Layout>)
  {
    if nds == [] then lays.Nil?
    else
      && lays.Push? && SameNodes(nds[..|nds| - 1], lays.rest)
      && nds[|nds| - 1] == Node(First(lays.top), Last(lays.top))
  }

  /** Forks go right to real instructions, and parentheses name known sub-expressions. */
  predicate Sane(code: seq<Inst>, nsub: nat)
  {
    forall pc | 0 <= pc < |code| :: SaneAt(code, nsub, pc)
  }

  predicate SaneAt(code: seq<Inst>, nsub: nat, pc: Pc)
    requires pc < |code|
  {
    && (code[pc].op == Fork ==> 0 < code[pc].right < |code| && code[code[pc].right].op != Nop)
    && (code[pc].op == Open || code[pc].op == Shut ==> 1 <= code[pc].subid <= nsub)
    && (code[pc].op.Oper? ==> OperandOk(code[pc].op.x))
  }

  // ----- stacking layouts -----

  lemma {:induction false} StackedRange(code: seq<Inst>, lays: S.Stack<Layout>)
    requires Stacked(code, lays)
    ensures forall pc | pc in AllPcs(lays) :: 0 < pc < |code|
    decreases lays
  {
    if lays.Push? {
      LaidPcs(code, lays.top);
      StackedRange(code, lays.rest);
    }
  }

  lemma {:induction false} StackedEmit(code: seq<Inst>, lays: S.Stack<Layout>, inst: Inst)
    requires Stacked(code, lays)
    ensures Stacked(code + [inst], lays) && |code| !in AllPcs(lays)
    decreases lays
  {
    if lays.Push? {
      LaidPcs(code, lays.top);
      LaidEmit(code, lays.top, inst);
      StackedEmit(code, lays.rest, inst);
    }
  }

  lemma {:induction false} StackedPatch(code: seq<Inst>, lays: S.Stack<Layout>, pc: Pc, to: Pc)
    requires Stacked(code, lays) && pc < |code| && pc !in AllPcs(lays)
    ensures Stacked(SetLeft(code, pc, to), lays)
    decreases lays
  {
    if lays.Push? {
      LaidPcs(code, lays.top);
      LaidPatch(code, lays.top, pc, to);
      StackedPatch(code, lays.rest, pc, to);
    }
  }

  lemma {:induction false} TopEmit(code: seq<Inst>, lays: S.Stack<Layout>, t: Layout, inst: Inst)
    requires OnTop(code, lays, t)
    ensures OnTop(code + [inst], lays, t) && |code| !in Pcs(t) && 0 < Last(t) < |code|
    ensures 0 < First(t) < |code| && code[First(t)].op != Nop
  {
    LaidEmit(code, t, inst);
    LaidPcs(code, t);
  }

  lemma {:induction false} TopPatch(code: seq<Inst>, lays: S.Stack<Layout>, t: Layout, pc: Pc, to: Pc)
    requires OnTop(code, lays, t) && pc < |code| && (pc in Pcs(t) ==> pc == Last(t))
    ensures OnTop(SetLeft(code, pc, to), lays, t)
    ensures pc == Last(t) ==> Exits(SetLeft(code, pc, to), t, to) && pc !in AllPcs(lays)
  {
    LaidPcs(code, t);
    LaidPatch(code, t, pc, to);
  }

  // ----- the code after each kind of node is built -----

  function SetRight(code: seq<Inst>, pc: Pc, to: Pc): seq<Inst>
    requires pc < |code|
  {
    code[pc := code[pc].(right := to)]
  }

  function Fresh(op: Code): Inst
  {
    Inst(op, 0, 0, 0)
  }

  function CodeStar(code: seq<Inst>, e: Layout): seq<Inst>
    requires Last(e) < |code|
  {
    SetRight(SetLeft(code + [Fresh(Fork)], Last(e), |code|), |code|, First(e))
  }

  function CodeQuest(code: seq<Inst>, e: Layout): seq<Inst>
    requires Last(e) < |code|
  {
    var c := code + [Fresh(Fork)] + [Fresh(Nop)];
    SetLeft(SetRight(SetLeft(c, |code|, |code| + 1), |code|, First(e)), Last(e), |code| + 1)
  }

  function CodeGroup(code: seq<Inst>, e: Layout, subid: nat): seq<Inst>
    requires Last(e) < |code|
  {
    SetLeft(code + [Fresh(Shut).(subid := subid)], Last(e), |code|) + [Fresh(Open).(subid := subid, left := First(e))]
  }

  function CodeOr(code: seq<Inst>, l: Layout, r: Layout): seq<Inst>
    requires Last(l) < |code| && Last(r) < |code|
  {
    SetLeft(SetLeft(code + [Fresh(Nop)], Last(r), |code|), Last(l), |code|)
    + [Fresh(Fork).(right := First(l), left := First(r))]
  }

  ghost predicate GoodOps(opstk: seq<OpRec>, nsub: nat)
  {
    && S.StartAtBottom(OpStack(opstk))
    && forall k | 0 <= k < |opstk| :: opstk[k].op == S.LParen ==> 1 <= opstk[k].subid <= nsub
  }

  /** The program under construction and the layouts on the node stack. */
  predicate Good(code: seq<Inst>, nsub: nat, lays: S.Stack<Layout>)
  {
    && Runs(code, nsub, lays) && Stacked(code, lays) && Covered(code, lays)
  }

  predicate Runs(code: seq<Inst>, nsub: nat, lays: S.Stack<Layout>)
  {
    if code == [] then lays.Nil? else InRange(code) && Sane(code, nsub)
  }

  lemma {:induction false} SaneEmit(code: seq<Inst>, nsub: nat, inst: Inst)
    requires InRange(code) && Sane(code, nsub) && inst.left <= |code| && inst.right <= |code|
    requires inst.op == Fork ==> 0 < inst.right < |code| && code[inst.right].op != Nop
    requires inst.op == Open || inst.op == Shut ==> 1 <= inst.subid <= nsub
    requires inst.op.Oper? ==> OperandOk(inst.op.x)
    ensures InRange(code + [inst]) && Sane(code + [inst], nsub)
  {
    var c := code + [inst];
    forall pc | 0 <= pc < |c| ensures SaneAt(c, nsub, pc) {
      if pc < |code| { assert SaneAt(code, nsub, pc); }
    }
  }

  lemma {:induction false} SanePatch(code: seq<Inst>, nsub: nat, pc: Pc, to: Pc)
    requires InRange(code) && Sane(code, nsub) && 0 < pc < |code| && to < |code|
    ensures InRange(SetLeft(code, pc, to)) && Sane(SetLeft(code, pc, to), nsub)
  {
    forall q | 0 <= q < |code| ensures SaneAt(SetLeft(code, pc, to), nsub, q) {
      assert SaneAt(code, nsub, q);
    }
  }

  /** The new instructions of t, and those of the parts it took from the stack. */
  lemma {:induction false} CoveredBy(code: seq<Inst>, lays: S.Stack<Layout>, code': seq<Inst>, lays': S.Stack<Layout>)
    requires Covered(code, lays) && AllPcs(lays) <= AllPcs(lays')
    requires forall pc | 1 <= pc && |code| <= pc < |code'| :: pc in AllPcs(lays')
    ensures Covered(code', lays')
  {}

  /** n instructions are covered. */
  predicate Covers(lays: S.Stack<Layout>, n: nat)
  {
    forall pc | 0 < pc < n :: pc in AllPcs(lays)
  }

  lemma {:induction false} CoverMore(code: seq<Inst>, e: Layout, lays: S.Stack<Layout>, n: nat, t: Layout)
    requires Covered(code, S.Push(e, lays)) && Pcs(e) <= Pcs(t) && forall pc | |code| <= pc < n :: pc in Pcs(t)
    ensures Covers(S.Push(t, lays), n)
  {
    forall pc | 0 < pc < n ensures pc in AllPcs(S.Push(t, lays)) {
      if pc < |code| { assert pc in AllPcs(S.Push(e, lays)); }
    }
  }

  lemma {:induction false} CoverSame(code: seq<Inst>, n: nat, c: seq<Inst>, lays: S.Stack<Layout>)
    requires Covers(lays, n) && |c| == n
    ensures Covered(c, lays)
  {}

  lemma {:induction false} LoopLaid(code: seq<Inst>, pc: Pc, lays: S.Stack<Layout>, e: Layout)
    requires OnTop(code, lays, e) && pc !in Pcs(e) && pc !in AllPcs(lays)
    requires Holds(code, pc, Fork) && code[pc].right == First(e) && Exits(code, e, pc)
    ensures OnTop(code, lays, LStar(pc, e)) && OnTop(code, lays, LPlus(pc, e))
  {}

  /** What is known of a stack with a layout on top, and what it takes to put one there. */
  lemma {:induction false} Unstack(code: seq<Inst>, nsub: nat, t: Layout, lays: S.Stack<Layout>)
    requires Good(code, nsub, S.Push(t, lays))
    ensures InRange(code) && Sane(code, nsub) && Stacked(code, lays) && OnTop(code, lays, t) && Exits(code, t, 0)
    ensures Covered(code, S.Push(t, lays))
    ensures 0 < Last(t) < |code| && 0 < First(t) < |code| && code[First(t)].op != Nop
  {
    LaidPcs(code, t);
  }

  lemma {:induction false} PutOnTop(code: seq<Inst>, nsub: nat, t: Layout, lays: S.Stack<Layout>)
    requires InRange(code) && Sane(code, nsub) && Stacked(code, lays) && OnTop(code, lays, t) && Exits(code, t, 0)
    requires Covered(code, S.Push(t, lays)) && code != []
    ensures Good(code, nsub, S.Push(t, lays))
  {}

  lemma {:induction false} GoodStar(code: seq<Inst>, nsub: nat, lays: S.Stack<Layout>, e: Layout)
    requires Good(code, nsub, S.Push(e, lays))
    ensures Last(e) < |code|
    ensures Good(CodeStar(code, e), nsub, S.Push(LStar(|code|, e), lays))
    ensures Good(CodeStar(code, e), nsub, S.Push(LPlus(|code|, e), lays))
  {
    Unstack(code, nsub, e, lays);
    CoverMore(code, e, lays, |code| + 1, LStar(|code|, e));
    CoverMore(code, e, lays, |code| + 1, LPlus(|code|, e));
    hide Stacked, OnTop, Sane, InRange, Laid, Separate, Covered, Runs, Good, Covers, Pcs, AllPcs;
    var pc, inst := |code|, Fresh(Fork).(right := First(e));
    var c1 := code + [inst];
    StackedEmit(code, lays, inst);
    TopEmit(code, lays, e, inst);
    SaneEmit(code, nsub, inst);
    var c2 := SetLeft(c1, Last(e), pc);
    TopPatch(c1, lays, e, Last(e), pc);
    StackedPatch(c1, lays, Last(e), pc);
    SanePatch(c1, nsub, Last(e), pc);
    assert CodeStar(code, e) == c2;
    LoopLaid(c2, pc, lays, e);
    CoverSame(code, |code| + 1, c2, S.Push(LStar(pc, e), lays));
    CoverSame(code, |code| + 1, c2, S.Push(LPlus(pc, e), lays));
    PutOnTop(c2, nsub, LStar(pc, e), lays);
    PutOnTop(c2, nsub, LPlus(pc, e), lays);
  }

  lemma {:induction false} QuestLaid(code: seq<Inst>, pc: Pc, nop: Pc, lays: S.Stack<Layout>, e: Layout)
    requires OnTop(code, lays, e) && {pc, nop} !! Pcs(e) && {pc, nop} !! AllPcs(lays) && pc != nop
    requires Holds(code, pc, Fork) && Holds(code, nop, Nop)
    requires code[pc].right == First(e) && code[pc].left == nop && Exits(code, e, nop)
    ensures OnTop(code, lays, LQuest(pc, nop, e))
  {}

  /** The fork and the nop of an optional e are wired. */
  lemma {:induction false} WireQuest(code: seq<Inst>, nsub: nat, pc: Pc, nop: Pc, lays: S.Stack<Layout>, e: Layout) returns (c: seq<Inst>)
    requires InRange(code) && Sane(code, nsub) && Stacked(code, lays) && OnTop(code, lays, e) && 0 < Last(e)
    requires {pc, nop} !! Pcs(e) && {pc, nop} !! AllPcs(lays) && 0 < pc < nop && nop == |code| - 1
    requires Holds(code, pc, Fork) && code[pc].right == First(e) && code[nop] == Fresh(Nop)
    ensures Last(e) < |code|
    ensures c == SetLeft(SetLeft(code, pc, nop), Last(e), nop)
    ensures InRange(c) && Sane(c, nsub) && Stacked(c, lays) && OnTop(c, lays, LQuest(pc, nop, e)) && Exits(c, LQuest(pc, nop, e), 0)
  {
    LaidPcs(code, e);
    var c1 := SetLeft(code, pc, nop);
    StackedPatch(code, lays, pc, nop);
    TopPatch(code, lays, e, pc, nop);
    SanePatch(code, nsub, pc, nop);
    c := SetLeft(c1, Last(e), nop);
    TopPatch(c1, lays, e, Last(e), nop);
    StackedPatch(c1, lays, Last(e), nop);
    SanePatch(c1, nsub, Last(e), nop);
    QuestLaid(c, pc, nop, lays, e);
  }

  lemma QuestCode(code: seq<Inst>, e: Layout)
    requires Last(e) < |code|
    ensures CodeQuest(code, e) ==
      SetLeft(SetLeft(code + [Fresh(Fork).(right := First(e))] + [Fresh(Nop)], |code|, |code| + 1), Last(e), |code| + 1)
  {}

  lemma {:induction false} EmitQuest(code: seq<Inst>, nsub: nat, lays: S.Stack<Layout>, e: Layout) returns (c: seq<Inst>)
    requires Stacked(code, lays) && OnTop(code, lays, e) && InRange(code) && Sane(code, nsub)
    ensures c == code + [Fresh(Fork).(right := First(e))] + [Fresh(Nop)]
    ensures Stacked(c, lays) && OnTop(c, lays, e) && InRange(c) && Sane(c, nsub)
    ensures {|code|, |code| + 1} !! Pcs(e) && {|code|, |code| + 1} !! AllPcs(lays)
    ensures Holds(c, |code|, Fork) && c[|code|].right == First(e) && c[|code| + 1] == Fresh(Nop)
  {
    hide Stacked, OnTop, Sane, InRange, Laid, Separate, Pcs, AllPcs;
    var fork := Fresh(Fork).(right := First(e));
    var c1 := code + [fork];
    StackedEmit(code, lays, fork);
    TopEmit(code, lays, e, fork);
    SaneEmit(code, nsub, fork);
    c := c1 + [Fresh(Nop)];
    StackedEmit(c1, lays, Fresh(Nop));
    TopEmit(c1, lays, e, Fresh(Nop));
    SaneEmit(c1, nsub, Fresh(Nop));
  }

  lemma {:induction false} GoodQuest(code: seq<Inst>, nsub: nat, lays: S.Stack<Layout>, e: Layout)
    requires Good(code, nsub, S.Push(e, lays))
    ensures Last(e) < |code|
    ensures Good(CodeQuest(code, e), nsub, S.Push(LQuest(|code|, |code| + 1, e), lays))
  {
    Unstack(code, nsub, e, lays);
    var pc, nop := |code|, |code| + 1;
    CoverMore(code, e, lays, nop + 1, LQuest(pc, nop, e));
    hide *;
    var c2 := EmitQuest(code, nsub, lays, e);
    var c := WireQuest(c2, nsub, pc, nop, lays, e);
    QuestCode(code, e);
    CoverSame(code, nop + 1, c, S.Push(LQuest(pc, nop, e), lays));
    PutOnTop(c, nsub, LQuest(pc, nop, e), lays);
  }

  lemma {:induction false} GroupLaid(code: seq<Inst>, open: Pc, shut: Pc, lays: S.Stack<Layout>, e: Layout)
    requires OnTop(code, lays, e) && {open, shut} !! Pcs(e) && {open, shut} !! AllPcs(lays) && open != shut
    requires Holds(code, open, Open) && Holds(code, shut, Shut)
    requires code[open].left == First(e) && Exits(code, e, shut)
    ensures OnTop(code, lays, LGroup(open, shut, e))
  {}

  lemma {:induction false} WireGroup(code: seq<Inst>, nsub: nat, lays: S.Stack<Layout>, e: Layout, subid: nat) returns (c: seq<Inst>)
    requires Stacked(code, lays) && OnTop(code, lays, e) && InRange(code) && Sane(code, nsub) && 1 <= subid <= nsub
    ensures Last(e) < |code| && c == SetLeft(code + [Fresh(Shut).(subid := subid)], Last(e), |code|)
    ensures Stacked(c, lays) && OnTop(c, lays, e) && InRange(c) && Sane(c, nsub) && Exits(c, e, |code|)
    ensures |code| !in Pcs(e) && |code| !in AllPcs(lays) && c[|code|] == Fresh(Shut).(subid := subid)
  {
    hide Stacked, OnTop, Sane, InRange, Laid, Separate, Pcs, AllPcs;
    var shut := Fresh(Shut).(subid := subid);
    var c1 := code + [shut];
    StackedEmit(code, lays, shut);
    TopEmit(code, lays, e, shut);
    SaneEmit(code, nsub, shut);
    c := SetLeft(c1, Last(e), |code|);
    TopPatch(c1, lays, e, Last(e), |code|);
    StackedPatch(c1, lays, Last(e), |code|);
    SanePatch(c1, nsub, Last(e), |code|);
  }

  lemma {:induction false} OpenGroup(c2: seq<Inst>, nsub: nat, lays: S.Stack<Layout>, e: Layout, subid: nat, shut: Pc) returns (c: seq<Inst>)
    requires Stacked(c2, lays) && OnTop(c2, lays, e) && InRange(c2) && Sane(c2, nsub) && Exits(c2, e, shut) && 1 <= subid <= nsub
    requires shut !in Pcs(e) && shut !in AllPcs(lays) && shut < |c2| && c2[shut] == Fresh(Shut).(subid := subid)
    requires Last(e) < |c2|
    ensures c == c2 + [Fresh(Open).(subid := subid, left := First(e))]
    ensures Stacked(c, lays) && InRange(c) && Sane(c, nsub)
    ensures OnTop(c, lays, LGroup(|c2|, shut, e)) && Exits(c, LGroup(|c2|, shut, e), 0)
  {
    hide Stacked, OnTop, Sane, InRange, Laid, Separate, Pcs, AllPcs;
    var open := Fresh(Open).(subid := subid, left := First(e));
    TopEmit(c2, lays, e, open);
    c := c2 + [open];
    StackedEmit(c2, lays, open);
    SaneEmit(c2, nsub, open);
    GroupLaid(c, |c2|, shut, lays, e);
  }

  lemma {:induction false} GoodGroup(code: seq<Inst>, nsub: nat, lays: S.Stack<Layout>, e: Layout, subid: nat)
    requires Good(code, nsub, S.Push(e, lays)) && 1 <= subid <= nsub
    ensures Last(e) < |code|
    ensures Good(CodeGroup(code, e, subid), nsub, S.Push(LGroup(|code| + 1, |code|, e), lays))
  {
    Unstack(code, nsub, e, lays);
    var t := LGroup(|code| + 1, |code|, e);
    CoverMore(code, e, lays, |code| + 2, t);
    hide Stacked, OnTop, Sane, InRange, Laid, Separate, Pcs, AllPcs, Covered, Covers, Good, Runs;
    var c2 := WireGroup(code, nsub, lays, e, subid);
    var c := OpenGroup(c2, nsub, lays, e, subid, |code|);
    CoverSame(code, |code| + 2, c, S.Push(t, lays));
    PutOnTop(c, nsub, t, lays);
  }

  lemma {:induction false} GoodCat(code: seq<Inst>, nsub: nat, lays: S.Stack<Layout>, l: Layout, r: Layout)
    requires Good(code, nsub, S.Push(r, S.Push(l, lays)))
    ensures Last(l) < |code|
    ensures Good(SetLeft(code, Last(l), First(r)), nsub, S.Push(LCat(l, r), lays))
  {
    assert Stacked(code, S.Push(l, lays));
    LaidPcs(code, l);
    LaidPcs(code, r);
    var c := SetLeft(code, Last(l), First(r));
    SanePatch(code, nsub, Last(l), First(r));
    TopPatch(code, lays, l, Last(l), First(r));
    StackedPatch(code, lays, Last(l), First(r));
    TopPatch(code, lays, r, Last(l), First(r));
    CoveredBy(code, S.Push(r, S.Push(l, lays)), c, S.Push(LCat(l, r), lays));
  }

  lemma {:induction false} OrLaid(code: seq<Inst>, pc: Pc, nop: Pc, lays: S.Stack<Layout>, l: Layout, r: Layout)
    requires OnTop(code, lays, l) && OnTop(code, lays, r) && Pcs(l) !! Pcs(r)
    requires {pc, nop} !! Pcs(l) && {pc, nop} !! Pcs(r) && {pc, nop} !! AllPcs(lays) && pc != nop
    requires Holds(code, pc, Fork) && Holds(code, nop, Nop)
    requires code[pc].right == First(l) && code[pc].left == First(r)
    requires Exits(code, l, nop) && Exits(code, r, nop)
    ensures OnTop(code, lays, LOr(pc, nop, l, r))
  {}

  /** Two layouts, on top of the others, are both directed to a new instruction. */
  lemma {:induction false} Join(code: seq<Inst>, nsub: nat, lays: S.Stack<Layout>, l: Layout, r: Layout, to: Pc) returns (c: seq<Inst>)
    requires OnTop(code, lays, l) && OnTop(code, lays, r) && Pcs(l) !! Pcs(r) && Stacked(code, lays)
    requires InRange(code) && Sane(code, nsub) && to < |code|
    ensures Last(l) < |code| && Last(r) < |code|
    ensures c == SetLeft(SetLeft(code, Last(r), to), Last(l), to)
    ensures OnTop(c, lays, l) && OnTop(c, lays, r) && Stacked(c, lays) && InRange(c) && Sane(c, nsub)
    ensures Exits(c, l, to) && Exits(c, r, to)
  {
    LaidPcs(code, l);
    LaidPcs(code, r);
    var c1 := SetLeft(code, Last(r), to);
    TopPatch(code, lays, r, Last(r), to);
    TopPatch(code, lays, l, Last(r), to);
    StackedPatch(code, lays, Last(r), to);
    SanePatch(code, nsub, Last(r), to);
    c := SetLeft(c1, Last(l), to);
    TopPatch(c1, lays, l, Last(l), to);
    TopPatch(c1, lays, r, Last(l), to);
    StackedPatch(c1, lays, Last(l), to);
    SanePatch(c1, nsub, Last(l), to);
  }

  lemma {:induction false} BothEmit(code: seq<Inst>, nsub: nat, lays: S.Stack<Layout>, l: Layout, r: Layout, inst: Inst)
      returns (c: seq<Inst>)
    requires OnTop(code, lays, l) && OnTop(code, lays, r) && Stacked(code, lays) && InRange(code) && Sane(code, nsub)
    requires inst.left < |code| && inst.right < |code| && (inst.op == Fork || inst.op == Nop)
    requires inst.op == Fork ==> 0 < inst.right && code[inst.right].op != Nop
    ensures c == code + [inst]
    ensures OnTop(c, lays, l) && OnTop(c, lays, r) && Stacked(c, lays) && InRange(c) && Sane(c, nsub)
    ensures |code| !in Pcs(l) && |code| !in Pcs(r) && |code| !in AllPcs(lays)
  {
    c := code + [inst];
    StackedEmit(code, lays, inst);
    TopEmit(code, lays, l, inst);
    TopEmit(code, lays, r, inst);
    SaneEmit(code, nsub, inst);
  }

  /** Both branches lead to a new nop. */
  lemma {:induction false} JoinAtNop(code: seq<Inst>, nsub: nat, lays: S.Stack<Layout>, l: Layout, r: Layout) returns (c: seq<Inst>)
    requires OnTop(code, lays, l) && OnTop(code, lays, r) && Pcs(l) !! Pcs(r) && Stacked(code, lays)
    requires InRange(code) && Sane(code, nsub)
    ensures Last(l) < |code| && Last(r) < |code|
    ensures c == SetLeft(SetLeft(code + [Fresh(Nop)], Last(r), |code|), Last(l), |code|)
    ensures OnTop(c, lays, l) && OnTop(c, lays, r) && Stacked(c, lays) && InRange(c) && Sane(c, nsub)
    ensures Exits(c, l, |code|) && Exits(c, r, |code|) && c[|code|] == Fresh(Nop)
    ensures |code| !in Pcs(l) && |code| !in Pcs(r) && |code| !in AllPcs(lays)
  {
    LaidPcs(code, l);
    LaidPcs(code, r);
    var c1 := BothEmit(code, nsub, lays, l, r, Fresh(Nop));
    c := Join(c1, nsub, lays, l, r, |code|);
  }

  /** A fork to both branches completes the alternative. */
  lemma {:induction false} ForkBoth(code: seq<Inst>, nsub: nat, lays: S.Stack<Layout>, l: Layout, r: Layout, nop: Pc) returns (c: seq<Inst>)
    requires OnTop(code, lays, l) && OnTop(code, lays, r) && Pcs(l) !! Pcs(r) && Stacked(code, lays)
    requires InRange(code) && Sane(code, nsub)
    requires Exits(code, l, nop) && Exits(code, r, nop) && Holds(code, nop, Nop) && code[nop].left == 0
    requires nop !in Pcs(l) && nop !in Pcs(r) && nop !in AllPcs(lays)
    ensures c == code + [Fresh(Fork).(right := First(l), left := First(r))]
    ensures InRange(c) && Sane(c, nsub) && Stacked(c, S.Push(LOr(|code|, nop, l, r), lays))
  {
    LaidPcs(code, l);
    LaidPcs(code, r);
    c := BothEmit(code, nsub, lays, l, r, Fresh(Fork).(right := First(l), left := First(r)));
    OrLaid(c, |code|, nop, lays, l, r);
  }

  lemma {:induction false} UnstackTwo(code: seq<Inst>, nsub: nat, l: Layout, r: Layout, lays: S.Stack<Layout>)
    requires Good(code, nsub, S.Push(r, S.Push(l, lays)))
    ensures InRange(code) && Sane(code, nsub) && Stacked(code, lays) && OnTop(code, lays, l) && OnTop(code, lays, r)
    ensures Stacked(code, S.Push(l, lays)) && Pcs(l) !! Pcs(r)
    ensures 0 < Last(l) < |code| && 0 < Last(r) < |code| && 0 < First(r) < |code|
  {
    assert Stacked(code, S.Push(l, lays));
    LaidPcs(code, l);
    LaidPcs(code, r);
  }

  lemma {:induction false} CoverOr(code: seq<Inst>, lays: S.Stack<Layout>, l: Layout, r: Layout)
    requires Covered(code, S.Push(r, S.Push(l, lays)))
    ensures Covers(S.Push(LOr(|code| + 1, |code|, l, r), lays), |code| + 2)
  {
    var was, now := S.Push(r, S.Push(l, lays)), S.Push(LOr(|code| + 1, |code|, l, r), lays);
    forall pc | 0 < pc < |code| + 2 ensures pc in AllPcs(now) {
      if pc < |code| {
        assert pc in AllPcs(was) && AllPcs(was) == AllPcs(S.Push(l, lays)) + Pcs(r);
        assert AllPcs(S.Push(l, lays)) == AllPcs(lays) + Pcs(l);
      }
    }
  }

  lemma {:induction false} OrExits(code: seq<Inst>, lays: S.Stack<Layout>, t: Layout)
    requires Stacked(code, S.Push(t, lays))
    ensures Stacked(code, lays) && OnTop(code, lays, t) && Exits(code, t, 0)
  {}

  lemma {:induction false} GoodOr(code: seq<Inst>, nsub: nat, lays: S.Stack<Layout>, l: Layout, r: Layout)
    requires Good(code, nsub, S.Push(r, S.Push(l, lays)))
    ensures Last(l) < |code| && Last(r) < |code|
    ensures Good(CodeOr(code, l, r), nsub, S.Push(LOr(|code| + 1, |code|, l, r), lays))
  {
    UnstackTwo(code, nsub, l, r, lays);
    CoverOr(code, lays, l, r);
    var c2 := JoinAtNop(code, nsub, lays, l, r);
    var c := ForkBoth(c2, nsub, lays, l, r, |code|);
    assert c == CodeOr(code, l, r);
    hide *;
    var t := LOr(|code| + 1, |code|, l, r);
    OrExits(c, lays, t);
    CoverSame(code, |code| + 2, c, S.Push(t, lays));
    PutOnTop(c, nsub, t, lays);
  }

  lemma {:induction false} GoodAtom(code: seq<Inst>, nsub: nat, lays: S.Stack<Layout>, x: Operand)
    requires Good(code, nsub, lays) && OperandOk(x)
    ensures var c := if code == [] then [NO_INST] else code;
            Good(c + [Fresh(Oper(x))], nsub, S.Push(LAtom(|c|, x), lays))
  {
    var c := if code == [] then [NO_INST] else code;
    SaneEmit(c, nsub, Fresh(Oper(x)));
    StackedEmit(c, lays, Fresh(Oper(x)));
    CoveredBy(code, lays, c + [Fresh(Oper(x))], S.Push(LAtom(|c|, x), lays));
  }

  // ----- the finished program -----

  lemma {:induction false} StackedLeftStops(code: seq<Inst>, lays: S.Stack<Layout>, pc: Pc)
    requires Stacked(code, lays) && pc in AllPcs(lays)
    ensures LeftStops(code, pc)
    decreases lays
  {
    if pc in Pcs(lays.top) {
      assert LeftEnds(code, 0, 0);
      LaidLeftStops(code, lays.top, pc);
    } else {
      StackedLeftStops(code, lays.rest, pc);
    }
  }

  /** Code finished with END accepts what the expression before END matches. */
  lemma {:induction false} FinishedAccepts(code: seq<Inst>, t: Layout, re: Re, cx: Ctx, i: nat, j: nat)
    requires Laid(code, t) && S.ClosedForm(Tree(t), re) && cx.Valid()
    ensures Accepts(code, cx, First(t), i, j) <==> Matches(re, cx, i, j)
  {
    if re == Eps {
      if i == j <= cx.end {
        assert AcceptsIn(code, cx, First(t), i, j, 1);
      }
    } else {
      assert t.LCat? && Tree(t.r) == Atom(End);
      assert t.r == LAtom(First(t.r), End);
      ProgramMatches(code, cx, t.l, First(t.r), i, j);
      assert Matches(Tree(t.l), cx, i, j) <==> Matches(re, cx, i, j);
    }
  }

  lemma {:induction false} MoreSubs(code: seq<Inst>, opstk: seq<OpRec>, nsub: nat, lays: S.Stack<Layout>)
    requires Good(code, nsub, lays) && GoodOps(opstk, nsub)
    ensures Good(code, nsub + 1, lays) && GoodOps(opstk, nsub + 1)
  {
    var more := nsub + 1;
    forall pc | 0 <= pc < |code| ensures SaneAt(code, more, pc) {
      if code != [] { assert SaneAt(code, nsub, pc); }
    }
  }

  lemma {:induction false} OpsParen(opstk: seq<OpRec>, nsub: nat)
    requires GoodOps(opstk, nsub) && 1 <= nsub
    ensures GoodOps(opstk + [OpRec(S.LParen, nsub)], nsub)
  {
    assert (opstk + [OpRec(S.LParen, nsub)])[..|opstk|] == opstk;
  }

  /** A machine that starts at entry stays within live until END, and left edges make no cycle. */
  ghost predicate Sound(code: seq<Inst>, rank: seq<nat>, live: set<Pc>, nsub: nat, entry: Pc)
  {
    && Ranked(code, rank) && Sane(code, nsub) && Closed(code, live) && entry in live
    && 0 < entry < |code| && code[entry].op != Nop
    && forall pc | 0 <= pc < |code| :: code[pc].left == 0 || code[code[pc].left].op != Nop
  }

  ghost predicate Does(code: seq<Inst>, entry: Pc, re: Re)
  {
    forall cx: Ctx, i: nat, j: nat | cx.Valid() :: Accepts(code, cx, entry, i, j) <==> Matches(re, cx, i, j)
  }

  lemma {:induction false} Finished(code: seq<Inst>, nsub: nat, lays: S.Stack<Layout>)
    requires Good(code, nsub, lays) && lays.Push?
    ensures Laid(code, lays.top) && InRange(code) && Sane(code, nsub)
    ensures 0 < First(lays.top) < |code| && code[First(lays.top)].op != Nop
    ensures forall pc | 0 <= pc < |code| :: LeftStops(code, pc)
  {
    LaidPcs(code, lays.top);
    forall pc | 0 <= pc < |code| ensures LeftStops(code, pc) {
      if pc == 0 { assert LeftEnds(code, 0, 0); } else { StackedLeftStops(code, lays, pc); }
    }
  }

  lemma {:induction false} LinkedSane(code: seq<Inst>, nsub: nat, rank: seq<nat>, code': seq<Inst>, entry: Pc)
    requires Ranked(code, rank) && Skipped(code, rank, code') && Sane(code, nsub)
    requires 0 < entry < |code| && code[entry].op != Nop
    ensures Sane(code', nsub) && |code'| == |code| && code'[entry].op != Nop && code[0].left == code'[0].left == 0
  {
    SkipRanked(code, rank, code');
    assert code'[0] == code[0].(left := Skip(code, rank, code[0].left));
    hide Ranked;
    forall pc | 0 <= pc < |code'| ensures SaneAt(code', nsub, pc) {
      assert SaneAt(code, nsub, pc);
    }
  }

  lemma {:induction false} EndsInEnd(code: seq<Inst>, t: Layout, re: Re)
    requires Laid(code, t) && S.ClosedForm(Tree(t), re)
    ensures Last(t) < |code| && code[Last(t)].op == Oper(End)
  {
    if re == Eps {
      assert t.LAtom?;
    } else {
      assert t.LCat? && Tree(t.r) == Atom(End);
      assert t.r == LAtom(First(t.r), End);
    }
  }

  lemma {:induction false} LinkedSound(code: seq<Inst>, nsub: nat, t: Layout, re: Re, rank: seq<nat>, code': seq<Inst>)
    requires Laid(code, t) && S.ClosedForm(Tree(t), re) && Ranked(code, rank) && Skipped(code, rank, code') && Sane(code, nsub)
    requires 0 < First(t) < |code| && code[First(t)].op != Nop
    ensures Sound(code', rank, Pcs(t), nsub, First(t))
  {
    hide Ranked, Skipped, Sane, Laid, S.ClosedForm, Closed;
    LinkedSane(code, nsub, rank, code', First(t));
    SkipRanked(code, rank, code');
    EndsInEnd(code, t, re);
    LaidPcs(code, t);
    LaidCloses(code, t);
    SkipCloses(code, rank, code', Pcs(t));
  }

  lemma {:induction false} LinkedDoes(code: seq<Inst>, t: Layout, re: Re, rank: seq<nat>, code': seq<Inst>)
    requires Laid(code, t) && S.ClosedForm(Tree(t), re) && Ranked(code, rank) && Skipped(code, rank, code')
    ensures Does(code', First(t), re)
  {
    hide Laid, Ranked, Skipped, Accepts, Matches, S.ClosedForm;
    forall cx: Ctx, i: nat, j: nat | cx.Valid()
      ensures Accepts(code', cx, First(t), i, j) <==> Matches(re, cx, i, j)
    {
      FinishedAccepts(code, t, re, cx, i, j);
      SkippingPreserves(code, rank, code', cx, First(t), i, j);
    }
  }

  // ----- the compiler -----

  class ReProg {
    var code: seq<Inst>
    var opstk: seq<OpRec>
    var cursubid: nat
    var ndstk: seq<Node>
    var nparen: nat
    var lastwasand: bool
    var entry: Pc
    ghost var lays: S.Stack<Layout>
    ghost var rank: seq<nat>
    ghost var live: set<Pc>

    ghost predicate Valid()
      reads this
    {
      && Good(code, cursubid, lays) && SameNodes(ndstk, lays)
      && GoodOps(opstk, cursubid)
    }

    /** The state of the stack machine the compiler is in. */
    ghost function Machine(): S.State
      reads this
    {
      S.State(OpStack(opstk), TreeStack(lays), lastwasand, nparen)
    }

    constructor ()
      ensures Valid() && Machine() == S.INITIAL
    {
      code, opstk, ndstk, lays, rank, live := [], [OpRec(S.Start, 0)], [], S.Nil, [], {};
      cursubid, nparen, lastwasand, entry := 0, 0, false, 0;
      new;
      assert [OpRec(S.Start, 0)][..0] == [];
    }

    /** Add an instruction to the program and return its pc. */
    method Emit(op: Code) returns (pc: Pc)
      modifies this`code
      ensures pc == |code| - 1
      ensures code == (if old(code) == [] then [NO_INST] else old(code)) + [Fresh(op)]
    {
      if code == [] {
        code := [NO_INST];   // make 0 invalid as a pc
      }
      pc := |code|;
      code := code + [Inst(op, 0, 0, 0)];
    }

    method PushOp(op: S.Op)
      modifies this`opstk
      ensures opstk == old(opstk) + [OpRec(op, cursubid)]
      ensures OpStack(opstk) == S.Push(op, OpStack(old(opstk)))
    {
      opstk := opstk + [OpRec(op, cursubid)];
      assert opstk[..|opstk| - 1] == old(opstk);
    }

    method PopOp() returns (op: S.Op, subid: nat)
      requires opstk != []
      modifies this`opstk
      ensures opstk == old(opstk)[..|old(opstk)| - 1]
      ensures OpRec(op, subid) == old(opstk)[|old(opstk)| - 1]
    {
      op, subid := opstk[|opstk| - 1].op, opstk[|opstk| - 1].subid;
      opstk := opstk[..|opstk| - 1];
    }

    method PushNd(first: Pc, last: Pc, ghost t: Layout)
      modifies this`ndstk, this`lays
      ensures lays == S.Push(t, old(lays))
      ensures SameNodes(old(ndstk), old(lays)) && first == First(t) && last == Last(t) ==> SameNodes(ndstk, lays)
    {
      ndstk, lays := ndstk + [Node(first, last)], S.Push(t, lays);
      assert ndstk[..|ndstk| - 1] == old(ndstk);
    }

    /** Pop a parsing node; fails if there is none. */
    method PopNd() returns (ok: bool, nd: Node, ghost t: Layout)
      requires SameNodes(ndstk, lays)
      modifies this`ndstk, this`lays
      ensures ok <==> old(lays).Push?
      ensures ok ==> SameNodes(ndstk, lays) && old(lays) == S.Push(t, lays) && nd == Node(First(t), Last(t))
      ensures !ok ==> lays == old(lays)
    {
      ok, nd, t := |ndstk| > 0, Node(0, 0), LAtom(0, End);
      if ok {
        nd, t := ndstk[|ndstk| - 1], lays.top;
        ndstk, lays := ndstk[..|ndstk| - 1], lays.rest;
      }
    }

    method ReduceGroup(subid: nat) returns (ok: bool)
      requires Good(code, cursubid, lays) && SameNodes(ndstk, lays) && 1 <= subid <= cursubid
      modifies this`code, this`ndstk, this`lays
      ensures ok <==> S.Reduce(S.LParen, TreeStack(old(lays))).Some?
      ensures ok ==> Good(code, cursubid, lays) && SameNodes(ndstk, lays)
      ensures ok ==> TreeStack(lays) == S.Reduce(S.LParen, TreeStack(old(lays))).value
    {
      hide Good, SameNodes, Pcs, AllPcs, CodeOr, CodeStar, CodeQuest;
      ghost var c := code;
      var nd; ghost var t;
      ok, nd, t := PopNd();
      if !ok { return; }
      ghost var rest := lays;
      GoodGroup(c, cursubid, rest, t, subid);
      var i2 := Emit(Shut);
      code := code[i2 := code[i2].(subid := subid)];
      assert code == c + [Fresh(Shut).(subid := subid)];
      code := code[nd.last := code[nd.last].(left := i2)];
      ghost var c2 := code;
      var i1 := Emit(Open);
      code := code[i1 := code[i1].(subid := subid, left := nd.first)];
      assert code == c2 + [Fresh(Open).(subid := subid, left := First(t))];
      PushNd(i1, i2, LGroup(i1, i2, t));
    }

    method Alternative(op1: Node, op2: Node, ghost l: Layout, ghost r: Layout) returns (i1: Pc, i2: Pc)
      requires Good(code, cursubid, S.Push(r, S.Push(l, lays)))
      requires op1 == Node(First(l), Last(l)) && op2 == Node(First(r), Last(r))
      modifies this`code
      ensures i2 == |old(code)| && i1 == i2 + 1 && Last(l) < |old(code)| && Last(r) < |old(code)|
      ensures code == CodeOr(old(code), l, r)
    {
      assert Stacked(code, S.Push(l, lays));
      LaidPcs(code, l);
      LaidPcs(code, r);
      i2 := Emit(Nop);
      code := code[op2.last := code[op2.last].(left := i2)];
      code := code[op1.last := code[op1.last].(left := i2)];
      ghost var c2 := code;
      i1 := Emit(Fork);
      code := code[i1 := code[i1].(right := op1.first, left := op2.first)];
      assert code == c2 + [Fresh(Fork).(right := First(l), left := First(r))];
    }

    method ReduceOr() returns (ok: bool)
      requires Good(code, cursubid, lays) && SameNodes(ndstk, lays)
      modifies this`code, this`ndstk, this`lays
      ensures ok <==> S.Reduce(S.OrOp, TreeStack(old(lays))).Some?
      ensures ok ==> Good(code, cursubid, lays) && SameNodes(ndstk, lays)
      ensures ok ==> TreeStack(lays) == S.Reduce(S.OrOp, TreeStack(old(lays))).value
    {
      hide Good, SameNodes, Pcs, AllPcs, CodeOr, CodeStar, CodeQuest;
      var op1, op2; ghost var l, r;
      ok, op2, r := PopNd();
      if !ok { return; }
      ok, op1, l := PopNd();
      if !ok { return; }
      GoodOr(code, cursubid, lays, l, r);
      var i1, i2 := Alternative(op1, op2, l, r);
      PushNd(i1, i2, LOr(i1, i2, l, r));
    }

    method ReduceCat() returns (ok: bool)
      requires Good(code, cursubid, lays) && SameNodes(ndstk, lays)
      modifies this`code, this`ndstk, this`lays
      ensures ok <==> S.Reduce(S.CatOp, TreeStack(old(lays))).Some?
      ensures ok ==> Good(code, cursubid, lays) && SameNodes(ndstk, lays)
      ensures ok ==> TreeStack(lays) == S.Reduce(S.CatOp, TreeStack(old(lays))).value
    {
      hide Good, SameNodes, Pcs, AllPcs, CodeOr, CodeStar, CodeQuest;
      ghost var c := code;
      var op1, op2; ghost var l, r;
      ok, op2, r := PopNd();
      if !ok { return; }
      ok, op1, l := PopNd();
      if !ok { return; }
      ghost var rest := lays;
      GoodCat(c, cursubid, rest, l, r);
      code := code[op1.last := code[op1.last].(left := op2.first)];
      PushNd(op1.first, op2.last, LCat(l, r));
    }

    /** Pop the operand of a postfix operator and emit its fork. */
    method Loop(op2: Node, ghost t: Layout) returns (i1: Pc)
      requires Good(code, cursubid, S.Push(t, lays)) && op2 == Node(First(t), Last(t))
      modifies this`code
      ensures i1 == |old(code)| && Last(t) < |old(code)| && code == CodeStar(old(code), t)
    {
      LaidPcs(code, t);
      i1 := Emit(Fork);
      code := code[op2.last := code[op2.last].(left := i1)];
      code := code[i1 := code[i1].(right := op2.first)];
    }

    method Optional(op2: Node, ghost t: Layout) returns (i1: Pc, i2: Pc)
      requires Good(code, cursubid, S.Push(t, lays)) && op2 == Node(First(t), Last(t))
      modifies this`code
      ensures i1 == |old(code)| && i2 == i1 + 1 && Last(t) < |old(code)| && code == CodeQuest(old(code), t)
    {
      LaidPcs(code, t);
      i1 := Emit(Fork);
      i2 := Emit(Nop);
      code := code[i1 := code[i1].(left := i2)];
      code := code[i1 := code[i1].(right := op2.first)];
      code := code[op2.last := code[op2.last].(left := i2)];
    }

    method ReduceStar() returns (ok: bool)
      requires Good(code, cursubid, lays) && SameNodes(ndstk, lays)
      modifies this`code, this`ndstk, this`lays
      ensures ok <==> S.Reduce(S.PostOp(StarOp), TreeStack(old(lays))).Some?
      ensures ok ==> Good(code, cursubid, lays) && SameNodes(ndstk, lays)
      ensures ok ==> TreeStack(lays) == S.Reduce(S.PostOp(StarOp), TreeStack(old(lays))).value
    {
      hide Good, SameNodes, Pcs, AllPcs, CodeOr, CodeStar, CodeQuest;
      var op2; ghost var t;
      ok, op2, t := PopNd();
      if !ok { return; }
      GoodStar(code, cursubid, lays, t);
      var i1 := Loop(op2, t);
      PushNd(i1, i1, LStar(i1, t));
    }

    method ReducePlus() returns (ok: bool)
      requires Good(code, cursubid, lays) && SameNodes(ndstk, lays)
      modifies this`code, this`ndstk, this`lays
      ensures ok <==> S.Reduce(S.PostOp(PlusOp), TreeStack(old(lays))).Some?
      ensures ok ==> Good(code, cursubid, lays) && SameNodes(ndstk, lays)
      ensures ok ==> TreeStack(lays) == S.Reduce(S.PostOp(PlusOp), TreeStack(old(lays))).value
    {
      hide Good, SameNodes, Pcs, AllPcs, CodeOr, CodeStar, CodeQuest;
      var op2; ghost var t;
      ok, op2, t := PopNd();
      if !ok { return; }
      GoodStar(code, cursubid, lays, t);
      var i1 := Loop(op2, t);
      PushNd(op2.first, i1, LPlus(i1, t));
    }

    method ReduceQuest() returns (ok: bool)
      requires Good(code, cursubid, lays) && SameNodes(ndstk, lays)
      modifies this`code, this`ndstk, this`lays
      ensures ok <==> S.Reduce(S.PostOp(QuestOp), TreeStack(old(lays))).Some?
      ensures ok ==> Good(code, cursubid, lays) && SameNodes(ndstk, lays)
      ensures ok ==> TreeStack(lays) == S.Reduce(S.PostOp(QuestOp), TreeStack(old(lays))).value
    {
      hide Good, SameNodes, Pcs, AllPcs, CodeOr, CodeStar, CodeQuest;
      var op2; ghost var t;
      ok, op2, t := PopNd();
      if !ok { return; }
      GoodQuest(code, cursubid, lays, t);
      var i1, i2 := Optional(op2, t);
      PushNd(i1, i2, LQuest(i1, i2, t));
    }

    /** Compile the operators on the stack down to the given priority. */
    method EvalUntil(pri: nat) returns (ok: bool)
      requires Valid() && pri > 0
      modifies this`code, this`opstk, this`ndstk, this`lays
      ensures ok <==> S.EvalUntil(OpStack(old(opstk)), TreeStack(old(lays)), pri).Stacks?
      ensures ok ==> Valid()
      ensures ok ==> S.EvalUntil(OpStack(old(opstk)), TreeStack(old(lays)), pri) == S.Stacks(OpStack(opstk), TreeStack(lays))
    {
      hide Good, SameNodes;
      ghost var goal := S.EvalUntil(OpStack(opstk), TreeStack(lays), pri);
      while pri == S.RPAREN_PRI || S.Prec(opstk[|opstk| - 1].op) >= pri
        invariant Valid() && opstk != []
        invariant S.EvalUntil(OpStack(opstk), TreeStack(lays), pri) == goal
        decreases |opstk|
      {
        var op, subid := PopOp();
        match op {
          case LParen =>
            ok := ReduceGroup(subid);
            return;
          case Start => return false;   // unknown operator
          case OrOp => ok := ReduceOr();
          case CatOp => ok := ReduceCat();
          case PostOp(StarOp) => ok := ReduceStar();
          case PostOp(PlusOp) => ok := ReducePlus();
          case PostOp(QuestOp) => ok := ReduceQuest();
        }
        if !ok { return; }
      }
      ok := true;
    }

    /** Compile an operator that is not a parenthesis. */
    method Operator(op: S.Op) returns (ok: bool)
      requires Valid() && op != S.Start && op != S.LParen
      modifies this`code, this`opstk, this`ndstk, this`lays, this`lastwasand
      ensures ok <==> S.Operator(old(Machine()), op).State?
      ensures ok ==> Valid() && Machine() == S.Operator(old(Machine()), op)
    {
      hide Good, SameNodes;
      ok := EvalUntil(S.Prec(op));
      if !ok { return; }
      PushOp(op);
      lastwasand := op.PostOp?;
    }

    method ImplicitCat() returns (ok: bool)
      requires Valid()
      modifies this`code, this`opstk, this`ndstk, this`lays, this`lastwasand
      ensures ok <==> S.ImplicitCat(old(Machine())).State?
      ensures ok ==> Valid() && Machine() == S.ImplicitCat(old(Machine()))
    {
      hide Good, SameNodes;
      ok := true;
      if lastwasand {
        ok := Operator(S.CatOp);
      }
    }

    method OpenParen() returns (ok: bool)
      requires Valid()
      modifies this
      ensures ok <==> S.Step(old(Machine()), TLParen).State?
      ensures ok ==> Valid() && Machine() == S.Step(old(Machine()), TLParen)
    {
      MoreSubs(code, opstk, cursubid, lays);
      hide Good, SameNodes, GoodOps;
      nparen := nparen + 1;
      cursubid := cursubid + 1;
      ghost var before := Machine();
      assert S.ImplicitCat(before).State? <==> S.ImplicitCat(old(Machine())).State?;
      ok := ImplicitCat();
      if !ok { return; }
      OpsParen(opstk, cursubid);
      PushOp(S.LParen);
      lastwasand := false;
    }

    method CloseParen() returns (ok: bool)
      requires Valid()
      modifies this
      ensures ok <==> S.Step(old(Machine()), TRParen).State?
      ensures ok ==> Valid() && Machine() == S.Step(old(Machine()), TRParen)
    {
      hide Good, SameNodes;
      if nparen == 0 {
        return false;   // unmatched )
      }
      nparen := nparen - 1;
      ok := EvalUntil(S.RPAREN_PRI);
      if !ok { return; }
      lastwasand := true;
    }

    /** Compile an operand. */
    method Operand(x: Operand) returns (ok: bool)
      requires Valid() && OperandOk(x)
      modifies this
      ensures ok <==> S.Step(old(Machine()), TOperand(x)).State?
      ensures ok ==> Valid() && Machine() == S.Step(old(Machine()), TOperand(x))
    {
      hide Good, SameNodes;
      ok := ImplicitCat();
      if !ok { return; }
      GoodAtom(code, cursubid, lays, x);
      var pc := Emit(Oper(x));
      PushNd(pc, pc, LAtom(pc, x));
      lastwasand := true;
    }

    method Token(tok: Tok) returns (ok: bool)
      requires Valid() && (tok.TOperand? ==> OperandOk(tok.x))
      modifies this
      ensures ok <==> S.Step(old(Machine()), tok).State?
      ensures ok ==> Valid() && Machine() == S.Step(old(Machine()), tok)
    {
      match tok
      case TOperand(x) => ok := Operand(x);
      case TLParen => ok := OpenParen();
      case TRParen => ok := CloseParen();
      case TOr => ok := Operator(S.OrOp);
      case TPostfix(o) => ok := Operator(S.PostOp(o));
    }

    /** Let every jump go directly to the target of nops. */
    method EatNops()
      requires Ranked(code, rank)
      modifies this`code
      ensures Skipped(old(code), rank, code)
    {
      ghost var c := code;
      for pc := 0 to |code|
        invariant |code| == |c|
        invariant forall q | 0 <= q < pc :: code[q] == c[q].(left := Skip(c, rank, c[q].left))
        invariant forall q | pc <= q < |c| :: code[q] == c[q]
      {
        var t: Pc := code[pc].left;
        ghost var now := code;
        while code[t].op == Nop
          invariant code == now
          invariant t < |c| && Skip(c, rank, t) == Skip(c, rank, c[pc].left)
          decreases rank[t]
        {
          SkipTwice(c, rank, c[t].left);
          SkipLands(c, rank, c[t].left);
          t := code[t].left;
        }
        code := code[pc := code[pc].(left := t)];
      }
    }

    /** What the machine that runs the program relies on. */
    ghost predicate Runnable()
      reads this
    {
      Sound(code, rank, live, cursubid, entry)
    }

    /** The program accepts what re matches, wherever it starts. */
    ghost predicate Implements(re: Re)
      reads this
    {
      Does(code, entry, re)
    }

    /** Close the expression with END. */
    method Finish() returns (ok: bool)
      requires Valid()
      modifies this
      ensures ok <==> S.Close(old(Machine())).Some?
      ensures ok ==> Valid() && ndstk != [] && Tree(lays.top) == S.Close(old(Machine())).value
    {
      ghost var st := Machine();
      ok := EvalUntil(S.START_PRI);
      if !ok { return; }
      assert Machine() == S.EvalAll(st);
      ok := Operand(End);
      if !ok { return; }
      assert Machine() == S.Step(S.EvalAll(st), TOperand(End));
      ghost var s1 := Machine();
      ok := EvalUntil(S.START_PRI);
      if !ok { return; }
      assert Machine() == S.EvalAll(s1);
      ok := nparen == 0 && |ndstk| > 0;
    }

    /** Set the entry point and optimize the code. */
    method Link(ghost re: Re)
      requires Valid() && ndstk != [] && S.ClosedForm(Tree(lays.top), re)
      modifies this
      ensures Runnable() && Implements(re)
    {
      hide Good, GoodOps, Sound, Does, S.ClosedForm, Ranked, Skipped, InRange, Sane, Laid, Pcs;
      ghost var c, t := code, lays.top;
      Finished(c, cursubid, lays);
      rank := RankOf(c);
      entry := ndstk[|ndstk| - 1].first;
      live := Pcs(t);
      EatNops();
      LinkedSound(c, cursubid, t, re, rank, code);
      LinkedDoes(c, t, re, rank, code);
    }
  }

  // ----- the whole compiler -----

  /** Compile re, given as tokens, as a program to search forward. */
  method Compile(toks: seq<Tok>) returns (ok: bool, prg: ReProg)
    requires G.Lexed(toks)
    ensures ok <==> G.Parse(toks).Some?
    ensures fresh(prg)
    ensures ok ==> prg.Runnable() && prg.Implements(G.Parse(toks).value)
  {
    prg := new ReProg();
    S.ShuntIsParse(toks);
    for k := 0 to |toks|
      invariant fresh(prg) && prg.Valid()
      invariant S.Run(S.INITIAL, toks) == S.Run(prg.Machine(), toks[k..])
    {
      assert toks[k..][0] == toks[k] && toks[k..][1..] == toks[k + 1..];
      ok := prg.Token(toks[k]);
      if !ok {
        S.RunBad(toks[k + 1..]);
        return;
      }
    }
    ok := prg.Finish();
    if !ok { return; }
    prg.Link(G.Parse(toks).value);
  }
}
