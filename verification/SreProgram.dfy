/**
  Programs for the matching machine: instructions, the paths through them, and how the code
  of an expression is laid out.

  A `Layout` is a parse tree that also records where the instructions of each of its nodes
  are. `Laid` says a program holds the code of a layout, and the theorem of this module is
  that the paths through such code are the matches of the expression.
 */
module SreProgram {
  import opened SreRegex

  type Pc = nat

  datatype Code = Oper(x: Operand) | Nop | Fork | Open | Shut

  /** An instruction: 0 as left or right means there is none. */
  datatype Inst = Inst(op: Code, subid: nat, left: Pc, right: Pc)

  const NO_INST := Inst(Oper(Lit(0)), 0, 0, 0)

  // ----- paths -----

  /** A path of fewer than n instructions leads from pc, looking at i, to END looking at j. */
  ghost predicate AcceptsIn(code: seq<Inst>, cx: Ctx, pc: Pc, i: nat, j: nat, n: nat)
    requires cx.Valid()
    decreases n
  {
    && n > 0 && 0 < pc < |code| && i <= cx.end
    && match code[pc].op
       case Oper(x) =>
         if x == End then i == j
         else if x.IsTest() then TestHolds(x, cx, i) && AcceptsIn(code, cx, code[pc].left, i, j, n - 1)
         else i < cx.end && Takes(x, cx, cx.txt[i]) && AcceptsIn(code, cx, code[pc].left, i + 1, j, n - 1)
       case Fork =>
         || AcceptsIn(code, cx, code[pc].right, i, j, n - 1)
         || AcceptsIn(code, cx, code[pc].left, i, j, n - 1)
       case _ => AcceptsIn(code, cx, code[pc].left, i, j, n - 1)
  }

  ghost predicate Accepts(code: seq<Inst>, cx: Ctx, pc: Pc, i: nat, j: nat)
    requires cx.Valid()
  {
    exists n: nat :: AcceptsIn(code, cx, pc, i, j, n)
  }

  lemma {:induction false} AcceptsMore(code: seq<Inst>, cx: Ctx, pc: Pc, i: nat, j: nat, n: nat, m: nat)
    requires cx.Valid() && AcceptsIn(code, cx, pc, i, j, n) && n <= m
    ensures AcceptsIn(code, cx, pc, i, j, m)
    decreases n
  {
    var inst := code[pc];
    match inst.op
    case Oper(x) =>
      if x.IsTest() {
        AcceptsMore(code, cx, inst.left, i, j, n - 1, m - 1);
      } else if x != End {
        AcceptsMore(code, cx, inst.left, i + 1, j, n - 1, m - 1);
      }
    case Fork =>
      if AcceptsIn(code, cx, inst.right, i, j, n - 1) {
        AcceptsMore(code, cx, inst.right, i, j, n - 1, m - 1);
      } else {
        AcceptsMore(code, cx, inst.left, i, j, n - 1, m - 1);
      }
    case _ => AcceptsMore(code, cx, inst.left, i, j, n - 1, m - 1);
  }

  // ----- layouts -----

  datatype Layout =
    | LAtom(pc: Pc, x: Operand)
    | LGroup(open: Pc, shut: Pc, e: Layout)
    | LStar(pc: Pc, e: Layout)
    | LPlus(pc: Pc, e: Layout)
    | LQuest(pc: Pc, nop: Pc, e: Layout)
    | LCat(l: Layout, r: Layout)
    | LOr(pc: Pc, nop: Pc, l: Layout, r: Layout)

  function Tree(t: Layout): Re
  {
    match t
    case LAtom(_, x) => Atom(x)
    case LGroup(_, _, e) => Group(Tree(e))
    case LStar(_, e) => Post(StarOp, Tree(e))
    case LPlus(_, e) => Post(PlusOp, Tree(e))
    case LQuest(_, _, e) => Post(QuestOp, Tree(e))
    case LCat(l, r) => Cat(Tree(l), Tree(r))
    case LOr(_, _, l, r) => Or(Tree(l), Tree(r))
  }

  function First(t: Layout): Pc
  {
    match t
    case LAtom(pc, _) => pc
    case LGroup(open, _, _) => open
    case LStar(pc, _) => pc
    case LPlus(_, e) => First(e)
    case LQuest(pc, _, _) => pc
    case LCat(l, _) => First(l)
    case LOr(pc, _, _, _) => pc
  }

  function Last(t: Layout): Pc
  {
    match t
    case LAtom(pc, _) => pc
    case LGroup(_, shut, _) => shut
    case LStar(pc, _) => pc
    case LPlus(pc, _) => pc
    case LQuest(_, nop, _) => nop
    case LCat(_, r) => Last(r)
    case LOr(_, nop, _, _) => nop
  }

  /** The pcs of the instructions of t itself, without those of its parts. */
  function Own(t: Layout): set<Pc>
  {
    match t
    case LAtom(pc, _) => {pc}
    case LGroup(open, shut, _) => {open, shut}
    case LStar(pc, _) => {pc}
    case LPlus(pc, _) => {pc}
    case LQuest(pc, nop, _) => {pc, nop}
    case LCat(_, _) => {}
    case LOr(pc, nop, _, _) => {pc, nop}
  }

  function Pcs(t: Layout): set<Pc>
  {
    match t
    case LAtom(_, _) => Own(t)
    case LGroup(_, _, e) => Own(t) + Pcs(e)
    case LStar(_, e) => Own(t) + Pcs(e)
    case LPlus(_, e) => Own(t) + Pcs(e)
    case LQuest(_, _, e) => Own(t) + Pcs(e)
    case LCat(l, r) => Pcs(l) + Pcs(r)
    case LOr(_, _, l, r) => Own(t) + Pcs(l) + Pcs(r)
  }

  /** No instruction is shared between two nodes. */
  predicate Separate(t: Layout)
  {
    match t
    case LAtom(_, _) => true
    case LGroup(open, shut, e) => Separate(e) && open != shut && Own(t) !! Pcs(e)
    case LStar(_, e) => Separate(e) && Own(t) !! Pcs(e)
    case LPlus(_, e) => Separate(e) && Own(t) !! Pcs(e)
    case LQuest(pc, nop, e) => Separate(e) && pc != nop && Own(t) !! Pcs(e)
    case LCat(l, r) => Separate(l) && Separate(r) && Pcs(l) !! Pcs(r)
    case LOr(pc, nop, l, r) => Separate(l) && Separate(r) && pc != nop && Own(t) !! Pcs(l) !! Pcs(r)
  }

  predicate Holds(code: seq<Inst>, pc: Pc, op: Code)
  {
    0 < pc < |code| && code[pc].op == op
  }

  /** The last instruction of t is there and continues at pc. */
  predicate Exits(code: seq<Inst>, t: Layout, pc: Pc)
  {
    Last(t) < |code| && code[Last(t)].left == pc
  }

  /** The code of t is in place; where its last instruction goes is left open. */
  predicate Laid(code: seq<Inst>, t: Layout)
  {
    match t
    case LAtom(pc, x) => Holds(code, pc, Oper(x))
    case LGroup(open, shut, e) =>
      && Laid(code, e) && Holds(code, open, Open) && Holds(code, shut, Shut)
      && code[open].left == First(e) && Exits(code, e, shut)
    case LStar(pc, e) =>
      Laid(code, e) && Holds(code, pc, Fork) && code[pc].right == First(e) && Exits(code, e, pc)
    case LPlus(pc, e) =>
      Laid(code, e) && Holds(code, pc, Fork) && code[pc].right == First(e) && Exits(code, e, pc)
    case LQuest(pc, nop, e) =>
      && Laid(code, e) && Holds(code, pc, Fork) && Holds(code, nop, Nop)
      && code[pc].right == First(e) && code[pc].left == nop && Exits(code, e, nop)
    case LCat(l, r) => Laid(code, l) && Laid(code, r) && Exits(code, l, First(r))
    case LOr(pc, nop, l, r) =>
      && Laid(code, l) && Laid(code, r) && Holds(code, pc, Fork) && Holds(code, nop, Nop)
      && code[pc].right == First(l) && code[pc].left == First(r)
      && Exits(code, l, nop) && Exits(code, r, nop)
  }

  // ----- paths through laid code are matches -----

  lemma {:induction false} PathMatches(code: seq<Inst>, cx: Ctx, t: Layout, i: nat, j: nat, n: nat) returns (m: nat, n': nat)
    requires cx.Valid() && Laid(code, t) && NoEnd(Tree(t)) && AcceptsIn(code, cx, First(t), i, j, n)
    ensures n' < n && Last(t) < |code|
    ensures Matches(Tree(t), cx, i, m) && AcceptsIn(code, cx, code[Last(t)].left, m, j, n')
    decreases t, n, 1
  {
    match t
    case LAtom(pc, x) =>
      m, n' := if x.IsTest() then i else i + 1, n - 1;
    case LGroup(open, shut, e) =>
      m, n' := PathMatches(code, cx, e, i, j, n - 1);
      n' := n' - 1;
    case LStar(pc, e) =>
      var r: nat;
      r, m, n' := LoopMatches(code, cx, e, pc, i, j, n);
    case LPlus(pc, e) =>
      var r: nat;
      r, m, n' := PlusMatches(code, cx, e, pc, i, j, n);
    case LQuest(_, _, _) =>
      m, n' := QuestMatches(code, cx, t, i, j, n);
    case LCat(l, r) =>
      var m1, n1 := PathMatches(code, cx, l, i, j, n);
      m, n' := PathMatches(code, cx, r, m1, j, n1);
    case LOr(_, _, _, _) =>
      m, n' := OrMatches(code, cx, t, i, j, n);
  }

  lemma {:induction false} QuestMatches(code: seq<Inst>, cx: Ctx, t: Layout, i: nat, j: nat, n: nat) returns (m: nat, n': nat)
    requires t.LQuest? && cx.Valid() && Laid(code, t) && NoEnd(Tree(t)) && AcceptsIn(code, cx, First(t), i, j, n)
    ensures n' < n && Last(t) < |code|
    ensures Matches(Tree(t), cx, i, m) && AcceptsIn(code, cx, code[Last(t)].left, m, j, n')
    decreases t, n, 0
  {
    if AcceptsIn(code, cx, t.nop, i, j, n - 1) {
      m, n' := i, n - 2;
    } else {
      m, n' := PathMatches(code, cx, t.e, i, j, n - 1);
      n' := n' - 1;
    }
  }

  lemma {:induction false} OrMatches(code: seq<Inst>, cx: Ctx, t: Layout, i: nat, j: nat, n: nat) returns (m: nat, n': nat)
    requires t.LOr? && cx.Valid() && Laid(code, t) && NoEnd(Tree(t)) && AcceptsIn(code, cx, First(t), i, j, n)
    ensures n' < n && Last(t) < |code|
    ensures Matches(Tree(t), cx, i, m) && AcceptsIn(code, cx, code[Last(t)].left, m, j, n')
    decreases t, n, 0
  {
    if AcceptsIn(code, cx, First(t.l), i, j, n - 1) {
      m, n' := PathMatches(code, cx, t.l, i, j, n - 1);
    } else {
      m, n' := PathMatches(code, cx, t.r, i, j, n - 1);
    }
    n' := n' - 1;
  }

  lemma {:induction false} LoopMatches(code: seq<Inst>, cx: Ctx, e: Layout, pc: Pc, i: nat, j: nat, n: nat)
      returns (r: nat, m: nat, n': nat)
    requires cx.Valid() && Laid(code, e) && NoEnd(Tree(e)) && AcceptsIn(code, cx, pc, i, j, n)
    requires Holds(code, pc, Fork) && code[pc].right == First(e) && Exits(code, e, pc)
    ensures n' < n && Repeats(Tree(e), r, cx, i, m) && AcceptsIn(code, cx, code[pc].left, m, j, n')
    decreases e, n, 2
  {
    if AcceptsIn(code, cx, code[pc].left, i, j, n - 1) {
      r, m, n' := 0, i, n - 1;
    } else {
      var m1, n1 := PathMatches(code, cx, e, i, j, n - 1);
      r, m, n' := LoopMatches(code, cx, e, pc, m1, j, n1);
      r := r + 1;
    }
  }

  lemma {:induction false} PlusMatches(code: seq<Inst>, cx: Ctx, e: Layout, pc: Pc, i: nat, j: nat, n: nat)
      returns (r: nat, m: nat, n': nat)
    requires cx.Valid() && Laid(code, e) && NoEnd(Tree(e)) && AcceptsIn(code, cx, First(e), i, j, n)
    requires Holds(code, pc, Fork) && code[pc].right == First(e) && Exits(code, e, pc)
    ensures n' < n && r >= 1 && Repeats(Tree(e), r, cx, i, m) && AcceptsIn(code, cx, code[pc].left, m, j, n')
    decreases e, n, 2
  {
    var m1, n1 := PathMatches(code, cx, e, i, j, n);
    r, m, n' := LoopMatches(code, cx, e, pc, m1, j, n1);
    r := r + 1;
  }

  lemma FirstRepeat(e: Re, r: nat, cx: Ctx, i: nat, m: nat) returns (k: nat)
    requires cx.Valid() && r >= 1 && Repeats(e, r, cx, i, m)
    ensures Matches(e, cx, i, k) && Repeats(e, r - 1, cx, k, m)
  {
    k :| Matches(e, cx, i, k) && Repeats(e, r - 1, cx, k, m);
  }

  lemma {:induction false} MatchHasPath(code: seq<Inst>, cx: Ctx, t: Layout, i: nat, m: nat, j: nat, n: nat) returns (n': nat)
    requires cx.Valid() && Laid(code, t) && NoEnd(Tree(t)) && Last(t) < |code|
    requires Matches(Tree(t), cx, i, m) && AcceptsIn(code, cx, code[Last(t)].left, m, j, n)
    ensures AcceptsIn(code, cx, First(t), i, j, n')
    decreases t, 1
  {
    MatchesInRange(Tree(t), cx, i, m);
    match t
    case LAtom(pc, x) => n' := n + 1;
    case LGroup(open, shut, e) =>
      n' := MatchHasPath(code, cx, e, i, m, j, n + 1);
      n' := n' + 1;
    case LStar(pc, e) =>
      var r: nat :| Repeats(Tree(e), r, cx, i, m);
      n' := RepeatsHavePath(code, cx, e, pc, r, i, m, j, n);
    case LPlus(pc, e) =>
      var r: nat :| r >= 1 && Repeats(Tree(e), r, cx, i, m);
      var k := FirstRepeat(Tree(e), r, cx, i, m);
      n' := RepeatsHavePath(code, cx, e, pc, r - 1, k, m, j, n);
      n' := MatchHasPath(code, cx, e, i, k, j, n');
    case LQuest(pc, nop, e) =>
      if Matches(Tree(e), cx, i, m) {
        n' := MatchHasPath(code, cx, e, i, m, j, n + 1);
        n' := n' + 1;
      } else {
        n' := n + 2;
      }
    case LCat(l, r) =>
      var k: nat :| Matches(Tree(l), cx, i, k) && Matches(Tree(r), cx, k, m);
      n' := MatchHasPath(code, cx, r, k, m, j, n);
      n' := MatchHasPath(code, cx, l, i, k, j, n');
    case LOr(_, _, _, _) => n' := OrHasPath(code, cx, t, i, m, j, n);
  }

  lemma {:induction false} OrHasPath(code: seq<Inst>, cx: Ctx, t: Layout, i: nat, m: nat, j: nat, n: nat) returns (n': nat)
    requires t.LOr? && cx.Valid() && Laid(code, t) && NoEnd(Tree(t)) && Last(t) < |code|
    requires Matches(Tree(t), cx, i, m) && AcceptsIn(code, cx, code[Last(t)].left, m, j, n)
    ensures AcceptsIn(code, cx, First(t), i, j, n')
    decreases t, 0
  {
    MatchesInRange(Tree(t), cx, i, m);
    if Matches(Tree(t.l), cx, i, m) {
      n' := MatchHasPath(code, cx, t.l, i, m, j, n + 1);
    } else {
      n' := MatchHasPath(code, cx, t.r, i, m, j, n + 1);
    }
    n' := n' + 1;
  }

  lemma {:induction false} RepeatsHavePath(
      code: seq<Inst>, cx: Ctx, e: Layout, pc: Pc, r: nat, i: nat, m: nat, j: nat, n: nat) returns (n': nat)
    requires cx.Valid() && Laid(code, e) && NoEnd(Tree(e))
    requires Holds(code, pc, Fork) && code[pc].right == First(e) && Exits(code, e, pc)
    requires Repeats(Tree(e), r, cx, i, m) && AcceptsIn(code, cx, code[pc].left, m, j, n)
    ensures AcceptsIn(code, cx, pc, i, j, n')
    decreases e, 2, r
  {
    RepeatsInRange(Tree(e), r, cx, i, m);
    if r == 0 {
      n' := n + 1;
    } else {
      var k: nat :| Matches(Tree(e), cx, i, k) && Repeats(Tree(e), r - 1, cx, k, m);
      n' := RepeatsHavePath(code, cx, e, pc, r - 1, k, m, j, n);
      n' := MatchHasPath(code, cx, e, i, k, j, n');
      n' := n' + 1;
    }
  }

  /** A program that ends in END accepts exactly what the expression before it matches. */
  lemma {:induction false} ProgramMatches(code: seq<Inst>, cx: Ctx, t: Layout, end: Pc, i: nat, j: nat)
    requires cx.Valid() && Laid(code, t) && NoEnd(Tree(t)) && Exits(code, t, end) && Holds(code, end, Oper(End))
    ensures Accepts(code, cx, First(t), i, j) <==> Matches(Tree(t), cx, i, j)
  {
    if Accepts(code, cx, First(t), i, j) {
      var n: nat :| AcceptsIn(code, cx, First(t), i, j, n);
      var m, n' := PathMatches(code, cx, t, i, j, n);
    }
    if Matches(Tree(t), cx, i, j) {
      MatchesInRange(Tree(t), cx, i, j);
      assert AcceptsIn(code, cx, end, j, j, 1);
      var n := MatchHasPath(code, cx, t, i, j, j, 1);
    }
  }

  // ----- growing and patching the code -----

  lemma {:induction false} LaidPcs(code: seq<Inst>, t: Layout)
    requires Laid(code, t)
    ensures First(t) in Pcs(t) && Last(t) in Pcs(t)
    ensures forall pc | pc in Pcs(t) :: 0 < pc < |code|
    ensures code[First(t)].op != Nop
  {
    match t
    case LAtom(_, _) =>
    case LGroup(_, _, e) => LaidPcs(code, e);
    case LStar(_, e) => LaidPcs(code, e);
    case LPlus(_, e) => LaidPcs(code, e);
    case LQuest(_, _, e) => LaidPcs(code, e);
    case LCat(l, r) => LaidPcs(code, l); LaidPcs(code, r);
    case LOr(_, _, l, r) => LaidPcs(code, l); LaidPcs(code, r);
  }

  /** A machine that is at one of pcs stays there until END; 0 is not one of them. */
  predicate Closed(code: seq<Inst>, pcs: set<Pc>)
  {
    forall pc | pc in pcs ::
      && 0 < pc < |code|
      && (code[pc].op != Oper(End) ==> code[pc].left in pcs)
      && (code[pc].op == Fork ==> code[pc].right in pcs)
  }

  /** Within t, the only way out is through the last instruction. */
  lemma {:induction false} LaidStays(code: seq<Inst>, t: Layout, pc: Pc)
    requires Laid(code, t) && pc in Pcs(t)
    ensures 0 < pc < |code|
    ensures pc != Last(t) ==> code[pc].left in Pcs(t)
    ensures code[pc].op == Fork ==> code[pc].right in Pcs(t)
    decreases t
  {
    LaidPcs(code, t);
    match t
    case LAtom(_, _) =>
    case LGroup(_, _, e) => LaidPcs(code, e); if pc in Pcs(e) { LaidStays(code, e, pc); }
    case LStar(_, e) => LaidPcs(code, e); if pc in Pcs(e) { LaidStays(code, e, pc); }
    case LPlus(_, e) => LaidPcs(code, e); if pc in Pcs(e) { LaidStays(code, e, pc); }
    case LQuest(_, _, e) => LaidPcs(code, e); if pc in Pcs(e) { LaidStays(code, e, pc); }
    case LCat(l, r) =>
      LaidPcs(code, l);
      LaidPcs(code, r);
      if pc in Pcs(l) { LaidStays(code, l, pc); } else { LaidStays(code, r, pc); }
    case LOr(_, _, l, r) =>
      LaidPcs(code, l);
      LaidPcs(code, r);
      if pc in Pcs(l) { LaidStays(code, l, pc); } else if pc in Pcs(r) { LaidStays(code, r, pc); }
  }

  lemma {:induction false} LaidCloses(code: seq<Inst>, t: Layout)
    requires Laid(code, t) && Last(t) < |code| && code[Last(t)].op == Oper(End)
    ensures Closed(code, Pcs(t))
  {
    forall pc | pc in Pcs(t) ensures
      && 0 < pc < |code|
      && (code[pc].op != Oper(End) ==> code[pc].left in Pcs(t))
      && (code[pc].op == Fork ==> code[pc].right in Pcs(t))
    {
      LaidStays(code, t, pc);
    }
  }

  lemma {:induction false} LaidEmit(code: seq<Inst>, t: Layout, inst: Inst)
    requires Laid(code, t)
    ensures Laid(code + [inst], t)
  {
    match t
    case LAtom(_, _) =>
    case LGroup(_, _, e) => LaidEmit(code, e, inst);
    case LStar(_, e) => LaidEmit(code, e, inst);
    case LPlus(_, e) => LaidEmit(code, e, inst);
    case LQuest(_, _, e) => LaidEmit(code, e, inst);
    case LCat(l, r) => LaidEmit(code, l, inst); LaidEmit(code, r, inst);
    case LOr(_, _, l, r) => LaidEmit(code, l, inst); LaidEmit(code, r, inst);
  }

  function SetLeft(code: seq<Inst>, pc: Pc, to: Pc): seq<Inst>
    requires pc < |code|
  {
    code[pc := code[pc].(left := to)]
  }

  /** Redirecting an instruction outside t, or the last of t, leaves the code of t in place. */
  lemma {:induction false} LaidPatch(code: seq<Inst>, t: Layout, pc: Pc, to: Pc)
    requires Laid(code, t) && Separate(t) && pc < |code| && (pc in Pcs(t) ==> pc == Last(t))
    ensures Laid(SetLeft(code, pc, to), t)
    decreases t, 1
  {
    match t
    case LAtom(_, _) =>
    case LGroup(_, _, e) => LaidPcs(code, e); LaidPatch(code, e, pc, to);
    case LStar(_, e) => LaidPcs(code, e); LaidPatch(code, e, pc, to);
    case LPlus(_, e) => LaidPcs(code, e); LaidPatch(code, e, pc, to);
    case LQuest(_, _, e) => LaidPcs(code, e); LaidPatch(code, e, pc, to);
    case LCat(_, _) => CatPatch(code, t, pc, to);
    case LOr(_, _, _, _) => OrPatch(code, t, pc, to);
  }

  lemma {:induction false} CatPatch(code: seq<Inst>, t: Layout, pc: Pc, to: Pc)
    requires t.LCat? && Laid(code, t) && Separate(t) && pc < |code| && (pc in Pcs(t) ==> pc == Last(t))
    ensures Laid(SetLeft(code, pc, to), t)
    decreases t, 0
  {
    LaidPcs(code, t.l);
    LaidPcs(code, t.r);
    LaidPatch(code, t.l, pc, to);
    LaidPatch(code, t.r, pc, to);
  }

  lemma {:induction false} OrPatch(code: seq<Inst>, t: Layout, pc: Pc, to: Pc)
    requires t.LOr? && Laid(code, t) && Separate(t) && pc < |code| && (pc in Pcs(t) ==> pc == Last(t))
    ensures Laid(SetLeft(code, pc, to), t)
    decreases t, 0
  {
    LaidPcs(code, t.l);
    LaidPcs(code, t.r);
    LaidPatch(code, t.l, pc, to);
    LaidPatch(code, t.r, pc, to);
  }

  // ----- left edges end -----

  /** Following left from pc reaches 0 in at most n steps. */
  ghost predicate LeftEnds(code: seq<Inst>, pc: Pc, n: nat)
    decreases n
  {
    pc == 0 || (n > 0 && pc < |code| && LeftEnds(code, code[pc].left, n - 1))
  }

  ghost predicate LeftStops(code: seq<Inst>, pc: Pc)
  {
    exists n: nat :: LeftEnds(code, pc, n)
  }

  lemma LeftStep(code: seq<Inst>, pc: Pc)
    requires pc < |code| && LeftStops(code, code[pc].left)
    ensures LeftStops(code, pc)
  {
    var n: nat :| LeftEnds(code, code[pc].left, n);
    assert LeftEnds(code, pc, n + 1);
  }

  /** Left edges within t lead to its exit. */
  lemma {:induction false} LaidLeftStops(code: seq<Inst>, t: Layout, pc: Pc)
    requires Laid(code, t) && Last(t) < |code| && LeftStops(code, code[Last(t)].left) && pc in Pcs(t)
    ensures LeftStops(code, pc)
    decreases t, 1
  {
    LaidPcs(code, t);
    LeftStep(code, Last(t));
    if pc != Last(t) {
      match t
      case LAtom(_, _) =>
      case LGroup(_, _, e) => PartLeftStops(code, e, pc);
      case LStar(_, e) => PartLeftStops(code, e, pc);
      case LPlus(_, e) => PartLeftStops(code, e, pc);
      case LQuest(fork, _, e) =>
        if pc == fork { LeftStep(code, pc); } else { PartLeftStops(code, e, pc); }
      case LCat(l, r) =>
        LaidPcs(code, r);
        LaidLeftStops(code, r, First(r));
        if pc in Pcs(r) { LaidLeftStops(code, r, pc); } else { LaidLeftStops(code, l, pc); }
      case LOr(fork, _, l, r) =>
        if pc in Pcs(l) { LaidLeftStops(code, l, pc); } else { PartLeftStops(code, r, pc); }
    }
  }

  /** The same, also for the instruction before e that goes left into it. */
  lemma {:induction false} PartLeftStops(code: seq<Inst>, e: Layout, pc: Pc)
    requires Laid(code, e) && Last(e) < |code| && LeftStops(code, code[Last(e)].left) && pc < |code|
    requires pc in Pcs(e) || code[pc].left == First(e)
    ensures LeftStops(code, pc)
    decreases e, 2
  {
    LaidPcs(code, e);
    if pc in Pcs(e) {
      LaidLeftStops(code, e, pc);
    } else {
      LaidLeftStops(code, e, First(e));
      LeftStep(code, pc);
    }
  }

  /** How many left steps lead from pc to 0. */
  ghost function LeftDepth(code: seq<Inst>, pc: Pc, n: nat): nat
    requires LeftEnds(code, pc, n)
    decreases n
  {
    if pc == 0 then 0 else 1 + LeftDepth(code, code[pc].left, n - 1)
  }

  lemma {:induction false} LeftDepthUnique(code: seq<Inst>, pc: Pc, n: nat, m: nat)
    requires LeftEnds(code, pc, n) && LeftEnds(code, pc, m)
    ensures LeftDepth(code, pc, n) == LeftDepth(code, pc, m)
    decreases n
  {
    if pc != 0 { LeftDepthUnique(code, code[pc].left, n - 1, m - 1); }
  }

  predicate InRange(code: seq<Inst>)
  {
    |code| > 0 && code[0] == NO_INST
    && forall pc | 0 <= pc < |code| :: code[pc].left < |code| && code[pc].right < |code|
  }

  /** rank strictly falls along every left edge, so left edges form no cycle. */
  predicate Ranked(code: seq<Inst>, rank: seq<nat>)
  {
    InRange(code) && |rank| == |code|
    && forall pc | 0 < pc < |code| :: rank[code[pc].left] < rank[pc]
  }

  ghost function LeftDistance(code: seq<Inst>, pc: Pc): nat
    requires LeftStops(code, pc)
  {
    var n: nat :| LeftEnds(code, pc, n);
    LeftDepth(code, pc, n)
  }

  lemma {:induction false} LeftFalls(code: seq<Inst>, pc: Pc)
    requires 0 < pc < |code| && LeftStops(code, pc)
    ensures LeftStops(code, code[pc].left)
    ensures LeftDistance(code, pc) == 1 + LeftDistance(code, code[pc].left)
  {
    var n: nat :| LeftEnds(code, pc, n) && LeftDistance(code, pc) == LeftDepth(code, pc, n);
    assert LeftEnds(code, code[pc].left, n - 1);
    var m: nat :| LeftEnds(code, code[pc].left, m) && LeftDistance(code, code[pc].left) == LeftDepth(code, code[pc].left, m);
    LeftDepthUnique(code, code[pc].left, m, n - 1);
    assert LeftDepth(code, pc, n) == 1 + LeftDepth(code, code[pc].left, n - 1);
  }

  lemma {:induction false} RankOf(code: seq<Inst>) returns (rank: seq<nat>)
    requires InRange(code) && forall pc | 0 <= pc < |code| :: LeftStops(code, pc)
    ensures Ranked(code, rank)
  {
    rank := seq(|code|, pc requires 0 <= pc < |code| => LeftDistance(code, pc));
    forall pc | 0 < pc < |code| ensures rank[code[pc].left] < rank[pc] {
      LeftFalls(code, pc);
    }
  }

  // ----- skipping nops -----

  /** Where a jump to t ends up once nops are skipped. */
  function Skip(code: seq<Inst>, rank: seq<nat>, t: Pc): Pc
    requires Ranked(code, rank) && t < |code|
    decreases rank[t]
  {
    if t == 0 || code[t].op != Nop then t else Skip(code, rank, code[t].left)
  }

  lemma {:induction false} SkipLands(code: seq<Inst>, rank: seq<nat>, t: Pc)
    requires Ranked(code, rank) && t < |code|
    ensures var s := Skip(code, rank, t); s < |code| && (s == 0 || code[s].op != Nop) && rank[s] <= rank[t]
    decreases rank[t]
  {
    if t != 0 && code[t].op == Nop { SkipLands(code, rank, code[t].left); }
  }

  lemma {:induction false} SkipTwice(code: seq<Inst>, rank: seq<nat>, t: Pc)
    requires Ranked(code, rank) && t < |code|
    ensures Skip(code, rank, t) < |code| && Skip(code, rank, Skip(code, rank, t)) == Skip(code, rank, t)
  {
    SkipLands(code, rank, t);
  }

  /** Every left edge skips the nops it led to. */
  ghost predicate Skipped(code: seq<Inst>, rank: seq<nat>, code': seq<Inst>)
    requires Ranked(code, rank)
  {
    |code'| == |code|
    && forall pc | 0 <= pc < |code| :: code'[pc] == code[pc].(left := Skip(code, rank, code[pc].left))
  }

  lemma {:induction false} SkipRanked(code: seq<Inst>, rank: seq<nat>, code': seq<Inst>)
    requires Ranked(code, rank) && Skipped(code, rank, code')
    ensures Ranked(code', rank)
    ensures forall pc | 0 < pc < |code'| :: code'[pc].left == 0 || code'[code'[pc].left].op != Nop
  {
    forall pc | 0 <= pc < |code| ensures
      && code'[pc].left < |code'| && rank[code'[pc].left] <= rank[code[pc].left]
      && (code'[pc].left == 0 || code'[code'[pc].left].op != Nop)
    {
      SkipLands(code, rank, code[pc].left);
    }
  }

  lemma {:induction false} SkipStays(code: seq<Inst>, rank: seq<nat>, pcs: set<Pc>, t: Pc)
    requires Ranked(code, rank) && Closed(code, pcs) && t in pcs
    ensures t < |code| && Skip(code, rank, t) in pcs
    decreases if t < |rank| then rank[t] else 0
  {
    if code[t].op == Nop { SkipStays(code, rank, pcs, code[t].left); }
  }

  lemma {:induction false} SkipCloses(code: seq<Inst>, rank: seq<nat>, code': seq<Inst>, pcs: set<Pc>)
    requires Ranked(code, rank) && Skipped(code, rank, code') && Closed(code, pcs)
    ensures Closed(code', pcs)
  {
    forall pc | pc in pcs ensures
      && 0 < pc < |code'|
      && (code'[pc].op != Oper(End) ==> code'[pc].left in pcs)
      && (code'[pc].op == Fork ==> code'[pc].right in pcs)
    {
      assert code'[pc] == code[pc].(left := Skip(code, rank, code[pc].left));
      if code[pc].op != Oper(End) { SkipStays(code, rank, pcs, code[pc].left); }
    }
  }

  lemma {:induction false} SkipPath(code: seq<Inst>, rank: seq<nat>, cx: Ctx, pc: Pc, i: nat, j: nat, n: nat)
    requires Ranked(code, rank) && cx.Valid() && pc < |code| && i <= cx.end
    requires AcceptsIn(code, cx, pc, i, j, n)
    ensures AcceptsIn(code, cx, Skip(code, rank, pc), i, j, n)
    decreases rank[pc]
  {
    if code[pc].op == Nop {
      SkipPath(code, rank, cx, code[pc].left, i, j, n - 1);
      AcceptsMore(code, cx, Skip(code, rank, pc), i, j, n - 1, n);
    }
  }

  lemma {:induction false} SkipPathBack(code: seq<Inst>, rank: seq<nat>, cx: Ctx, pc: Pc, i: nat, j: nat, n: nat) returns (n': nat)
    requires Ranked(code, rank) && cx.Valid() && pc < |code| && i <= cx.end
    requires AcceptsIn(code, cx, Skip(code, rank, pc), i, j, n)
    ensures AcceptsIn(code, cx, pc, i, j, n')
    decreases rank[pc]
  {
    n' := n;
    if pc != 0 && code[pc].op == Nop {
      n' := SkipPathBack(code, rank, cx, code[pc].left, i, j, n);
      n' := n' + 1;
    }
  }

  lemma {:induction false} SkippedAccepts(code: seq<Inst>, rank: seq<nat>, code': seq<Inst>, cx: Ctx, pc: Pc, i: nat, j: nat, n: nat)
    requires Ranked(code, rank) && Skipped(code, rank, code') && cx.Valid()
    requires AcceptsIn(code, cx, pc, i, j, n)
    ensures AcceptsIn(code', cx, pc, i, j, n)
    decreases n
  {
    assert code'[pc] == code[pc].(left := Skip(code, rank, code[pc].left));
    hide Skipped;
    var left, right := code[pc].left, code[pc].right;
    if code[pc].op == Fork && AcceptsIn(code, cx, right, i, j, n - 1) {
      SkippedAccepts(code, rank, code', cx, right, i, j, n - 1);
    } else if code[pc].op != Oper(End) {
      var i' := if code[pc].op.Oper? && !code[pc].op.x.IsTest() then i + 1 else i;
      SkipPath(code, rank, cx, left, i', j, n - 1);
      SkippedAccepts(code, rank, code', cx, Skip(code, rank, left), i', j, n - 1);
    }
  }

  lemma {:induction false} SkippedAcceptsBack(code: seq<Inst>, rank: seq<nat>, code': seq<Inst>, cx: Ctx, pc: Pc, i: nat, j: nat, n: nat)
      returns (n': nat)
    requires Ranked(code, rank) && Skipped(code, rank, code') && cx.Valid()
    requires AcceptsIn(code', cx, pc, i, j, n)
    ensures AcceptsIn(code, cx, pc, i, j, n')
    decreases n, 1
  {
    assert code'[pc] == code[pc].(left := Skip(code, rank, code[pc].left));
    match code[pc].op
    case Oper(x) =>
      if x == End {
        n' := n;
      } else {
        n' := SkippedEdgeBack(code, rank, code', cx, pc, if x.IsTest() then i else i + 1, j, n);
      }
    case Fork =>
      if AcceptsIn(code', cx, code[pc].right, i, j, n - 1) {
        n' := SkippedAcceptsBack(code, rank, code', cx, code[pc].right, i, j, n - 1);
        n' := n' + 1;
      } else {
        n' := SkippedEdgeBack(code, rank, code', cx, pc, i, j, n);
      }
    case _ =>
      n' := SkippedEdgeBack(code, rank, code', cx, pc, i, j, n);
  }

  lemma {:induction false} SkippedEdgeBack(code: seq<Inst>, rank: seq<nat>, code': seq<Inst>, cx: Ctx, pc: Pc, i: nat, j: nat, n: nat)
      returns (n': nat)
    requires Ranked(code, rank) && Skipped(code, rank, code') && cx.Valid() && 0 < pc < |code| && n > 0
    requires AcceptsIn(code', cx, Skip(code, rank, code[pc].left), i, j, n - 1)
    ensures n' > 0 && AcceptsIn(code, cx, code[pc].left, i, j, n' - 1)
    decreases n, 0
  {
    n' := SkippedAcceptsBack(code, rank, code', cx, Skip(code, rank, code[pc].left), i, j, n - 1);
    n' := SkipPathBack(code, rank, cx, code[pc].left, i, j, n');
    n' := n' + 1;
  }

  /** Skipping nops changes no path's end points. */
  lemma {:induction false} SkippingPreserves(code: seq<Inst>, rank: seq<nat>, code': seq<Inst>, cx: Ctx, pc: Pc, i: nat, j: nat)
    requires Ranked(code, rank) && Skipped(code, rank, code') && cx.Valid()
    ensures Accepts(code', cx, pc, i, j) <==> Accepts(code, cx, pc, i, j)
  {
    if Accepts(code, cx, pc, i, j) {
      var n: nat :| AcceptsIn(code, cx, pc, i, j, n);
      SkippedAccepts(code, rank, code', cx, pc, i, j, n);
    }
    if Accepts(code', cx, pc, i, j) {
      var n: nat :| AcceptsIn(code', cx, pc, i, j, n);
      var n' := SkippedAcceptsBack(code, rank, code', cx, pc, i, j, n);
    }
  }
}
