/**
  The grammar of structural regular expressions, as a one-pass reader over tokens and as
  the set of parse trees with their token strings, and the proof that the two agree.

    alt  ::= cat ('|' cat)*          cat ::= post+
    post ::= prim ('*' | '+' | '?')* prim ::= operand | '(' alt ')'

  The source has no parse tree: this one is the reference the compiler is compared with.
 */
module SreGrammar {
  import opened SreRegex

  // ----- parse trees and the tokens they stand for -----

  function Level(t: Re): nat
  {
    match t
    case Or(_, _) => 0
    case Cat(_, _) => 1
    case _ => 2
  }

  /** t is the tree some non-empty token string is read as; both chains lean left. */
  predicate Canonical(t: Re)
  {
    match t
    case Eps => false
    case Atom(x) => x != End
    case Group(e) => Canonical(e)
    case Post(_, e) => Canonical(e) && Level(e) == 2
    case Cat(l, r) => Canonical(l) && Canonical(r) && Level(l) >= 1 && Level(r) == 2
    case Or(l, r) => Canonical(l) && Canonical(r) && Level(r) >= 1
  }

  function Yield(t: Re): seq<Tok>
  {
    match t
    case Eps => []
    case Atom(x) => [TOperand(x)]
    case Group(e) => [TLParen] + Yield(e) + [TRParen]
    case Post(o, e) => Yield(e) + [TPostfix(o)]
    case Cat(l, r) => Yield(l) + Yield(r)
    case Or(l, r) => Yield(l) + [TOr] + Yield(r)
  }

  predicate Lexed(toks: seq<Tok>)
  {
    forall k | 0 <= k < |toks| && toks[k].TOperand? :: toks[k].x != End && OperandOk(toks[k].x)
  }

  // ----- the reader -----

  /** What has been read since the last open '(': alternatives, then a chain, then its last piece. */
  datatype Frame = Frame(alt: Option<Re>, chain: Option<Re>, piece: Option<Re>)

  const EMPTY := Frame(None, None, None)

  /** One frame for each '(' still open, the innermost outside. */
  datatype Frames = Base(f: Frame) | Inner(out: Frames, f: Frame)
  {
    function Put(g: Frame): Frames {
      this.(f := g)
    }

    function Depth(): nat {
      if Base? then 0 else 1 + out.Depth()
    }
  }

  function Chained(chain: Option<Re>, piece: Re): Re
  {
    if chain.None? then piece else Cat(chain.value, piece)
  }

  function Whole(f: Frame): Re
    requires f.piece.Some?
  {
    var c := Chained(f.chain, f.piece.value);
    if f.alt.None? then c else Or(f.alt.value, c)
  }

  /** Make room for a new piece at the end of the chain. */
  function Shift(f: Frame): Frame
  {
    if f.piece.None? then f else Frame(f.alt, Some(Chained(f.chain, f.piece.value)), None)
  }

  /** The frames after one more token; None if the token cannot come next. */
  function Read(fs: Frames, tok: Tok): Option<Frames>
  {
    var f := fs.f;
    match tok
    case TOperand(x) => Some(fs.Put(Shift(f).(piece := Some(Atom(x)))))
    case TLParen => Some(Inner(fs.Put(Shift(f)), EMPTY))
    case TRParen =>
      if fs.Base? || f.piece.None? then None
      else Some(fs.out.Put(fs.out.f.(piece := Some(Group(Whole(f))))))
    case TOr =>
      if f.piece.None? then None else Some(fs.Put(Frame(Some(Whole(f)), None, None)))
    case TPostfix(o) =>
      if f.piece.None? then None else Some(fs.Put(f.(piece := Some(Post(o, f.piece.value)))))
  }

  function ReadAll(fs: Frames, toks: seq<Tok>): Option<Frames>
    decreases toks
  {
    if toks == [] then Some(fs)
    else
      match Read(fs, toks[0])
      case None => None
      case Some(fs') => ReadAll(fs', toks[1..])
  }

  function Finish(fs: Frames): Option<Re>
  {
    if fs.Inner? then None
    else if fs.f == EMPTY then Some(Eps)
    else if fs.f.piece.None? then None
    else Some(Whole(fs.f))
  }

  /** The tree of a token string, or None when it is malformed. */
  function Parse(toks: seq<Tok>): Option<Re>
  {
    match ReadAll(Base(EMPTY), toks)
    case None => None
    case Some(fs) => Finish(fs)
  }

  // ----- every tree is read back from its tokens -----

  lemma {:induction false} ReadAllAppend(fs: Frames, a: seq<Tok>, b: seq<Tok>)
    ensures ReadAll(fs, a + b)
         == (match ReadAll(fs, a) case None => None case Some(fs') => ReadAll(fs', b))
    decreases a
  {
    if a == [] {
      assert a + b == b;
    } else {
      assert (a + b)[0] == a[0] && (a + b)[1..] == a[1..] + b;
      if Read(fs, a[0]).Some? {
        ReadAllAppend(Read(fs, a[0]).value, a[1..], b);
      }
    }
  }

  lemma {:induction false} ReadAllOne(fs: Frames, t: Tok)
    ensures ReadAll(fs, [t]) == Read(fs, t)
  {
    assert [t][1..] == [];
  }

  /** Reading the tokens of t leaves t as the value at its level of the innermost frame. */
  ghost predicate ReadAs(t: Re, fs: Frames, g: Frame)
  {
    var f := fs.f;
    && ReadAll(fs, Yield(t)) == Some(fs.Put(g))
    && g.piece.Some?
    && g.alt == (if Level(t) == 0 then g.alt else f.alt)
    && (Level(t) == 2 ==> g == Shift(f).(piece := Some(t)))
    && (Level(t) >= 1 && f.chain.None? && f.piece.None? ==> Chained(g.chain, g.piece.value) == t)
    && (f == EMPTY ==> Whole(g) == t)
  }

  lemma {:induction false} ReadYield(t: Re, fs: Frames) returns (g: Frame)
    requires Canonical(t)
    requires Level(t) == 2 || (fs.f.chain.None? && fs.f.piece.None?)
    requires Level(t) == 0 ==> fs.f == EMPTY
    ensures ReadAs(t, fs, g)
    decreases t
  {
    match t
    case Atom(x) =>
      g := Shift(fs.f).(piece := Some(t));
      ReadAllOne(fs, TOperand(x));
    case Group(e) =>
      g := Shift(fs.f).(piece := Some(t));
      ReadAllOne(fs, TLParen);
      var under := Inner(fs.Put(Shift(fs.f)), EMPTY);
      var h := ReadYield(e, under);
      ReadAllAppend(fs, [TLParen], Yield(e));
      ReadAllAppend(fs, [TLParen] + Yield(e), [TRParen]);
      ReadAllOne(under.Put(h), TRParen);
    case Post(o, e) =>
      var h := ReadYield(e, fs);
      g := h.(piece := Some(t));
      ReadAllAppend(fs, Yield(e), [TPostfix(o)]);
      ReadAllOne(fs.Put(h), TPostfix(o));
    case Cat(l, r) =>
      var h := ReadYield(l, fs);
      g := ReadYield(r, fs.Put(h));
      ReadAllAppend(fs, Yield(l), Yield(r));
    case Or(l, r) =>
      var h := ReadYield(l, fs);
      ReadAllAppend(fs, Yield(l), [TOr]);
      ReadAllOne(fs.Put(h), TOr);
      g := ReadYield(r, fs.Put(Frame(Some(l), None, None)));
      ReadAllAppend(fs, Yield(l) + [TOr], Yield(r));
  }

  lemma {:induction false} ParseYield(t: Re)
    requires t == Eps || Canonical(t)
    ensures Parse(Yield(t)) == Some(t)
  {
    if t != Eps {
      var g := ReadYield(t, Base(EMPTY));
    }
  }

  // ----- and only tokens of a tree are read -----

  function OptYield(t: Option<Re>): seq<Tok>
  {
    if t.None? then [] else Yield(t.value)
  }

  function FrameYield(f: Frame): seq<Tok>
  {
    (if f.alt.Some? then OptYield(f.alt) + [TOr] else []) + OptYield(f.chain) + OptYield(f.piece)
  }

  function FramesYield(fs: Frames): seq<Tok>
  {
    (if fs.Base? then [] else FramesYield(fs.out) + [TLParen]) + FrameYield(fs.f)
  }

  predicate GoodFrame(f: Frame)
  {
    && (f.alt.Some? ==> Canonical(f.alt.value))
    && (f.chain.Some? ==> Canonical(f.chain.value) && Level(f.chain.value) >= 1)
    && (f.piece.Some? ==> Canonical(f.piece.value) && Level(f.piece.value) == 2)
  }

  /** Around the innermost frame there is no open piece; a chain waits there only for a group. */
  predicate GoodFrames(fs: Frames)
  {
    && GoodFrame(fs.f)
    && (fs.f.piece.None? ==> fs.f.chain.None?)
    && (fs.Inner? ==> Waiting(fs.out))
  }

  predicate Waiting(fs: Frames)
  {
    GoodFrame(fs.f) && fs.f.piece.None? && (fs.Inner? ==> Waiting(fs.out))
  }

  lemma {:induction false} ChainYield(f: Frame)
    requires GoodFrame(f) && f.piece.Some?
    ensures var c := Chained(f.chain, f.piece.value);
            Canonical(c) && Level(c) >= 1 && Yield(c) == OptYield(f.chain) + OptYield(f.piece)
  {
    if f.chain.None? {
      assert OptYield(f.chain) + OptYield(f.piece) == Yield(f.piece.value);
    }
  }

  lemma Assoc(a: seq<Tok>, b: seq<Tok>, c: seq<Tok>)
    ensures a + (b + c) == a + b + c && [] + b == b && b + [] == b
  {}

  lemma {:induction false} WholeYield(f: Frame)
    requires GoodFrame(f) && f.piece.Some?
    ensures Canonical(Whole(f)) && Yield(Whole(f)) == FrameYield(f)
  {
    ChainYield(f);
    var c := Chained(f.chain, f.piece.value);
    if f.alt.None? {
      Assoc([], OptYield(f.chain), OptYield(f.piece));
    } else {
      assert Yield(Or(f.alt.value, c)) == Yield(f.alt.value) + [TOr] + Yield(c);
      hide OptYield, Chained, Level;
      Assoc(Yield(f.alt.value) + [TOr], OptYield(f.chain), OptYield(f.piece));
      assert OptYield(f.alt) == Yield(f.alt.value) by { OptYieldSome(f.alt.value); }
    }
  }

  lemma OptYieldSome(t: Re)
    ensures OptYield(Some(t)) == Yield(t) && OptYield(None) == []
  {}

  lemma {:induction false} ShiftYield(f: Frame)
    requires GoodFrame(f)
    ensures GoodFrame(Shift(f)) && FrameYield(Shift(f)) == FrameYield(f) && Shift(f).piece.None?
  {
    if f.piece.Some? {
      ChainYield(f);
      var c := Chained(f.chain, f.piece.value);
      OptYieldSome(c);
      hide OptYield, Chained, Level, Yield;
      var a := if f.alt.Some? then OptYield(f.alt) + [TOr] else [];
      Assoc(a, OptYield(f.chain), OptYield(f.piece));
      Assoc([], a + Yield(c), []);
    }
  }

  lemma {:induction false} PieceYield(f: Frame, e: Re)
    requires f.piece.None?
    ensures FrameYield(f.(piece := Some(e))) == FrameYield(f) + Yield(e)
  {}

  lemma {:induction false} PutYield(fs: Frames, g: Frame, more: seq<Tok>)
    requires FrameYield(g) == FrameYield(fs.f) + more
    ensures FramesYield(fs.Put(g)) == FramesYield(fs) + more
  {}

  lemma {:induction false} ReadGroupYield(fs: Frames)
    requires GoodFrames(fs) && fs.Inner? && fs.f.piece.Some?
    ensures GoodFrames(Read(fs, TRParen).value)
    ensures FramesYield(Read(fs, TRParen).value) == FramesYield(fs) + [TRParen]
  {
    WholeYield(fs.f);
    var e := Group(Whole(fs.f));
    var out, y := FramesYield(fs.out), FrameYield(fs.f);
    assert Yield(e) == [TLParen] + y + [TRParen] && FramesYield(fs) == (out + [TLParen]) + y;
    PieceYield(fs.out.f, e);
    hide FrameYield, FramesYield, Whole, Yield;
    PutYield(fs.out, fs.out.f.(piece := Some(e)), Yield(e));
    Assoc(out, [TLParen] + y, [TRParen]);
    Assoc(out, [TLParen], y);
  }

  lemma {:induction false} ReadOperandYield(fs: Frames, x: Operand)
    requires GoodFrames(fs) && x != End
    ensures GoodFrames(Read(fs, TOperand(x)).value)
    ensures FramesYield(Read(fs, TOperand(x)).value) == FramesYield(fs) + [TOperand(x)]
  {
    ShiftYield(fs.f);
    PieceYield(Shift(fs.f), Atom(x));
    assert Yield(Atom(x)) == [TOperand(x)];
    hide FrameYield, FramesYield, Yield;
    PutYield(fs, Shift(fs.f).(piece := Some(Atom(x))), [TOperand(x)]);
  }

  lemma {:induction false} ReadOpenYield(fs: Frames)
    requires GoodFrames(fs)
    ensures GoodFrames(Read(fs, TLParen).value)
    ensures FramesYield(Read(fs, TLParen).value) == FramesYield(fs) + [TLParen]
  {
    ShiftYield(fs.f);
    assert FrameYield(EMPTY) == [];
    hide FrameYield;
    assert FrameYield(fs.f) + [] == FrameYield(fs.f);
    PutYield(fs, Shift(fs.f), []);
  }

  lemma {:induction false} ReadOrYield(fs: Frames)
    requires GoodFrames(fs) && fs.f.piece.Some?
    ensures GoodFrames(Read(fs, TOr).value)
    ensures FramesYield(Read(fs, TOr).value) == FramesYield(fs) + [TOr]
  {
    WholeYield(fs.f);
    var g := Frame(Some(Whole(fs.f)), None, None);
    OptYieldSome(Whole(fs.f));
    Assoc(FrameYield(fs.f), [TOr], []);
    assert FrameYield(g) == FrameYield(fs.f) + [TOr];
    hide FrameYield, FramesYield, Yield, Whole;
    PutYield(fs, g, [TOr]);
  }

  lemma {:induction false} ReadPostYield(fs: Frames, o: Postfix)
    requires GoodFrames(fs) && fs.f.piece.Some?
    ensures GoodFrames(Read(fs, TPostfix(o)).value)
    ensures FramesYield(Read(fs, TPostfix(o)).value) == FramesYield(fs) + [TPostfix(o)]
  {
    var g := fs.f.(piece := Some(Post(o, fs.f.piece.value)));
    OptYieldSome(Post(o, fs.f.piece.value));
    assert FrameYield(g) == FrameYield(fs.f) + [TPostfix(o)];
    hide FrameYield, FramesYield, Yield;
    PutYield(fs, g, [TPostfix(o)]);
  }

  lemma {:induction false} ReadExtendsYield(fs: Frames, tok: Tok)
    requires GoodFrames(fs) && tok != TOperand(End) && Read(fs, tok).Some?
    ensures GoodFrames(Read(fs, tok).value)
    ensures FramesYield(Read(fs, tok).value) == FramesYield(fs) + [tok]
  {
    match tok
    case TOperand(x) => ReadOperandYield(fs, x);
    case TLParen => ReadOpenYield(fs);
    case TRParen => ReadGroupYield(fs);
    case TOr => ReadOrYield(fs);
    case TPostfix(o) => ReadPostYield(fs, o);
  }

  lemma {:induction false} ReadAllExtendsYield(fs: Frames, toks: seq<Tok>)
    requires GoodFrames(fs) && Lexed(toks) && ReadAll(fs, toks).Some?
    ensures GoodFrames(ReadAll(fs, toks).value)
    ensures FramesYield(ReadAll(fs, toks).value) == FramesYield(fs) + toks
    decreases toks
  {
    if toks != [] {
      var fs' := Read(fs, toks[0]).value;
      ReadExtendsYield(fs, toks[0]);
      ReadAllExtendsYield(fs', toks[1..]);
      FirstThenRest(FramesYield(fs), toks);
    }
  }

  lemma FirstThenRest(a: seq<Tok>, b: seq<Tok>)
    requires b != []
    ensures (a + [b[0]]) + b[1..] == a + b
  {}

  lemma {:induction false} ParseSound(toks: seq<Tok>)
    requires Lexed(toks) && Parse(toks).Some?
    ensures var t := Parse(toks).value; (t == Eps || Canonical(t)) && Yield(t) == toks
  {
    ReadAllExtendsYield(Base(EMPTY), toks);
    assert [] + toks == toks;
    var fs := ReadAll(Base(EMPTY), toks).value;
    if fs.f.piece.Some? {
      WholeYield(fs.f);
    }
  }

  /** The reader accepts exactly the token strings of the grammar's trees, each with its own tree. */
  lemma {:induction false} ParseIsTheGrammar(toks: seq<Tok>, t: Re)
    requires Lexed(toks)
    ensures Parse(toks) == Some(t) <==> (t == Eps || Canonical(t)) && Yield(t) == toks
  {
    if Parse(toks) == Some(t) {
      ParseSound(toks);
    }
    if (t == Eps || Canonical(t)) && Yield(t) == toks {
      ParseYield(t);
    }
  }
}
