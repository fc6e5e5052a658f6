/**
  Structural regular expressions: tokens, the grammar they are read with and what
  an expression matches.

  Because `^` and `$` look at the text around them, the meaning of an expression is not a
  set of strings but a relation `Matches(re, cx, i, j)`: in the text `cx`, the expression
  covers exactly the runes from position i up to position j.
 */
module SreRegex {

  type Rune = int

  const NEWLINE: Rune := 10
  const WORD_CLASS: Rune := 0x200000A   // \w within a class
  const BLANK_CLASS: Rune := 0x200000B  // \s within a class
  const RANGE_MARK: Rune := 0x10FFFF    // flags a range; its two ends follow

  /** The operands of the source; tEND is the operand the compiler adds by itself. */
  datatype Operand =
    | Lit(r: Rune)
    | Any
    | Word
    | Blank
    | Bol
    | Eol
    | CClass(cls: seq<Rune>)
    | NCClass(cls: seq<Rune>)
    | End
  {
    /** `^` and `$` look at the text but take no rune from it. */
    predicate IsTest() {
      Bol? || Eol?
    }
  }

  datatype Postfix = StarOp | PlusOp | QuestOp

  datatype Tok =
    | TOperand(x: Operand)
    | TLParen
    | TRParen
    | TOr
    | TPostfix(o: Postfix)

  datatype Option<+T> = None | Some(value: T)

  datatype Re =
    | Eps
    | Atom(x: Operand)
    | Group(e: Re)
    | Post(o: Postfix, e: Re)
    | Cat(l: Re, r: Re)
    | Or(l: Re, r: Re)

  /** END is not an operand of the expression. */
  predicate NoEnd(t: Re)
  {
    match t
    case Eps => true
    case Atom(x) => x != End
    case Group(e) => NoEnd(e)
    case Post(_, e) => NoEnd(e)
    case Cat(l, r) => NoEnd(l) && NoEnd(r)
    case Or(l, r) => NoEnd(l) && NoEnd(r)
  }

  // ----- the text searched -----

  /**
    The text given to the machine and the position where the search must stop.
    Which runes are letters or digits, and which are spaces, is a parameter.
   */
  datatype Ctx = Ctx(txt: seq<Rune>, end: nat, wordRunes: set<Rune>, spaceRunes: set<Rune>)
  {
    predicate Valid() {
      end <= |txt|
    }

    /** The rune looked at when the machine is at p: 0 once the text is exhausted. */
    function At(p: nat): Rune
      requires Valid() && p <= end
    {
      if p == end then 0 else txt[p]
    }
  }

  predicate InClass(cls: seq<Rune>, cx: Ctx, c: Rune)
  {
    if cls == [] then false
    else if cls[0] == RANGE_MARK && |cls| >= 3 then
      cls[1] <= c <= cls[2] || InClass(cls[3..], cx, c)
    else
      || (cls[0] == WORD_CLASS && c in cx.wordRunes)
      || (cls[0] == BLANK_CLASS && c in cx.spaceRunes)
      || cls[0] == c
      || InClass(cls[1..], cx, c)
  }

  /** Every range mark of the class is followed by the two ends of its range. */
  predicate ClassOk(cls: seq<Rune>)
  {
    if cls == [] then true
    else if cls[0] == RANGE_MARK then |cls| >= 3 && ClassOk(cls[3..])
    else ClassOk(cls[1..])
  }

  predicate OperandOk(x: Operand)
  {
    match x
    case CClass(cls) => ClassOk(cls)
    case NCClass(cls) => ClassOk(cls)
    case _ => true
  }

  /** An element of a class as it is written between the brackets. */
  datatype ClassItem = One(r: Rune) | Span(lo: Rune, hi: Rune) | WordItem | BlankItem

  function Encode(items: seq<ClassItem>): seq<Rune>
  {
    if items == [] then []
    else
      (match items[0]
       case One(r) => [r]
       case Span(lo, hi) => [RANGE_MARK, lo, hi]
       case WordItem => [WORD_CLASS]
       case BlankItem => [BLANK_CLASS]) + Encode(items[1..])
  }

  predicate ItemHas(item: ClassItem, cx: Ctx, c: Rune)
  {
    match item
    case One(r) => r == c
    case Span(lo, hi) => lo <= c <= hi
    case WordItem => c in cx.wordRunes
    case BlankItem => c in cx.spaceRunes
  }

  predicate IsRune(c: Rune)
  {
    0 <= c < 0x110000
  }

  /** Encoded with marks, a class holds what its elements hold, unless an element is the mark itself. */
  lemma {:induction false} ClassMeaning(items: seq<ClassItem>, cx: Ctx, c: Rune)
    requires IsRune(c)
    requires forall k | 0 <= k < |items| :: items[k].One? ==> IsRune(items[k].r) && items[k].r != RANGE_MARK
    ensures ClassOk(Encode(items))
    ensures InClass(Encode(items), cx, c) <==> exists k | 0 <= k < |items| :: ItemHas(items[k], cx, c)
  {
    if items != [] {
      var rest := items[1..];
      var code := Encode(items);
      ClassMeaning(rest, cx, c);
      if items[0].Span? {
        assert code[3..] == Encode(rest);
      } else {
        assert code[1..] == Encode(rest);
      }
      assert InClass(code, cx, c) <==> ItemHas(items[0], cx, c) || InClass(Encode(rest), cx, c);
      if k :| 0 <= k < |rest| && ItemHas(rest[k], cx, c) {
        assert ItemHas(items[k + 1], cx, c);
      }
      if k :| 0 <= k < |items| && ItemHas(items[k], cx, c) {
        assert k > 0 ==> ItemHas(rest[k - 1], cx, c);
      }
    }
  }

  predicate Takes(x: Operand, cx: Ctx, c: Rune)
  {
    match x
    case Lit(r) => r == c
    case Any => c != NEWLINE && c != 0
    case Word => c in cx.wordRunes
    case Blank => c in cx.spaceRunes && c != NEWLINE
    case CClass(cls) => InClass(cls, cx, c)
    case NCClass(cls) => !InClass(cls, cx, c)
    case _ => false
  }

  predicate TestHolds(x: Operand, cx: Ctx, p: nat)
    requires cx.Valid() && p <= cx.end
  {
    match x
    case Bol => p == 0 || (cx.txt[p - 1] == NEWLINE && p < cx.end)
    case Eol => cx.At(p) == NEWLINE || cx.At(p) == 0
    case _ => false
  }

  // ----- what an expression matches -----

  ghost predicate Matches(re: Re, cx: Ctx, i: nat, j: nat)
    requires cx.Valid()
    decreases re, 0, 0
  {
    match re
    case Eps => i == j <= cx.end
    case Atom(x) =>
      if x.IsTest() then i == j <= cx.end && TestHolds(x, cx, i)
      else i < cx.end && j == i + 1 && Takes(x, cx, cx.txt[i])
    case Group(e) => Matches(e, cx, i, j)
    case Post(o, e) => (
      match o
      case StarOp => exists n: nat :: Repeats(e, n, cx, i, j)
      case PlusOp => exists n: nat :: n >= 1 && Repeats(e, n, cx, i, j)
      case QuestOp => i == j <= cx.end || Matches(e, cx, i, j)
    )
    case Cat(l, r) => exists k: nat :: Matches(l, cx, i, k) && Matches(r, cx, k, j)
    case Or(l, r) => Matches(l, cx, i, j) || Matches(r, cx, i, j)
  }

  /** n consecutive matches of e cover the runes from i to j. */
  ghost predicate Repeats(e: Re, n: nat, cx: Ctx, i: nat, j: nat)
    requires cx.Valid()
    decreases e, 1, n
  {
    if n == 0 then i == j <= cx.end
    else exists k: nat :: Matches(e, cx, i, k) && Repeats(e, n - 1, cx, k, j)
  }

  ghost predicate Equivalent(a: Re, b: Re)
  {
    forall cx: Ctx, i: nat, j: nat | cx.Valid() :: Matches(a, cx, i, j) <==> Matches(b, cx, i, j)
  }

  /** A match stays within the text. */
  lemma {:induction false} MatchesInRange(re: Re, cx: Ctx, i: nat, j: nat)
    requires cx.Valid() && Matches(re, cx, i, j)
    ensures i <= j <= cx.end
    decreases re, 0, 0
  {
    match re
    case Eps =>
    case Atom(_) =>
    case Group(e) => MatchesInRange(e, cx, i, j);
    case Post(o, e) =>
      if o == QuestOp {
        if Matches(e, cx, i, j) { MatchesInRange(e, cx, i, j); }
      } else {
        var n: nat :| Repeats(e, n, cx, i, j);
        RepeatsInRange(e, n, cx, i, j);
      }
    case Cat(l, r) =>
      var k: nat :| Matches(l, cx, i, k) && Matches(r, cx, k, j);
      MatchesInRange(l, cx, i, k);
      MatchesInRange(r, cx, k, j);
    case Or(l, r) =>
      if Matches(l, cx, i, j) { MatchesInRange(l, cx, i, j); } else { MatchesInRange(r, cx, i, j); }
  }

  lemma {:induction false} RepeatsInRange(e: Re, n: nat, cx: Ctx, i: nat, j: nat)
    requires cx.Valid() && Repeats(e, n, cx, i, j)
    ensures i <= j <= cx.end
    decreases e, 1, n
  {
    if n > 0 {
      var k: nat :| Matches(e, cx, i, k) && Repeats(e, n - 1, cx, k, j);
      MatchesInRange(e, cx, i, k);
      RepeatsInRange(e, n - 1, cx, k, j);
    }
  }

  // ----- algebra of the postfix operators -----

  lemma {:induction false} RepeatsAppend(e: Re, n: nat, m: nat, cx: Ctx, i: nat, k: nat, j: nat)
    requires cx.Valid() && Repeats(e, n, cx, i, k) && Repeats(e, m, cx, k, j)
    ensures Repeats(e, n + m, cx, i, j)
    decreases n
  {
    if n > 0 {
      var h: nat :| Matches(e, cx, i, h) && Repeats(e, n - 1, cx, h, k);
      RepeatsAppend(e, n - 1, m, cx, h, k, j);
    }
  }

  lemma OnceIsRepeats(e: Re, cx: Ctx, i: nat, j: nat)
    requires cx.Valid() && Matches(e, cx, i, j)
    ensures Repeats(e, 1, cx, i, j)
  {
    MatchesInRange(e, cx, i, j);
    assert Repeats(e, 0, cx, j, j);
  }

  /** If every match of e is some repetition of d, so is every repetition of e. */
  lemma {:induction false} RepeatsFlatten(e: Re, d: Re, n: nat, cx: Ctx, i: nat, j: nat)
    requires cx.Valid() && Repeats(e, n, cx, i, j)
    requires forall p: nat, q: nat | Matches(e, cx, p, q) :: Matches(Post(StarOp, d), cx, p, q)
    ensures Matches(Post(StarOp, d), cx, i, j)
    decreases n
  {
    if n == 0 {
      assert Repeats(d, 0, cx, i, j);
    } else {
      var k: nat :| Matches(e, cx, i, k) && Repeats(e, n - 1, cx, k, j);
      RepeatsFlatten(e, d, n - 1, cx, k, j);
      assert Matches(Post(StarOp, d), cx, i, k);
      var a: nat :| Repeats(d, a, cx, i, k);
      var b: nat :| Repeats(d, b, cx, k, j);
      RepeatsAppend(d, a, b, cx, i, k, j);
    }
  }

  lemma StarCovers(o: Postfix, d: Re, cx: Ctx, i: nat, j: nat)
    requires cx.Valid() && Matches(Post(o, d), cx, i, j)
    ensures Matches(Post(StarOp, d), cx, i, j)
  {
    if o == QuestOp {
      if Matches(d, cx, i, j) {
        OnceIsRepeats(d, cx, i, j);
      } else {
        assert Repeats(d, 0, cx, i, j);
      }
    }
  }

  /** One operator applied to a starred, plussed or optional d never leaves d*. */
  lemma TwiceIsStar(o: Postfix, o': Postfix, d: Re, cx: Ctx, i: nat, j: nat)
    requires cx.Valid() && Matches(Post(o, Post(o', d)), cx, i, j)
    ensures Matches(Post(StarOp, d), cx, i, j)
  {
    forall p: nat, q: nat | Matches(Post(o', d), cx, p, q) ensures Matches(Post(StarOp, d), cx, p, q) {
      StarCovers(o', d, cx, p, q);
    }
    StarCovers(o, Post(o', d), cx, i, j);
    var n: nat :| Repeats(Post(o', d), n, cx, i, j);
    RepeatsFlatten(Post(o', d), d, n, cx, i, j);
  }

  /** Conversely d* is covered by any two different operators. */
  lemma {:induction false} StarIsTwice(o: Postfix, o': Postfix, d: Re, cx: Ctx, i: nat, j: nat)
    requires cx.Valid() && Matches(Post(StarOp, d), cx, i, j) && o != o'
    ensures Matches(Post(o, Post(o', d)), cx, i, j)
  {
    var n: nat :| Repeats(d, n, cx, i, j);
    RepeatsInRange(d, n, cx, i, j);
    var e := Post(o', d);
    if o' == StarOp {
      assert Matches(e, cx, i, j);
      OnceIsRepeats(e, cx, i, j);
    } else if o' == PlusOp {
      if n == 0 {
        assert Repeats(e, 0, cx, i, j);
      } else {
        assert Matches(e, cx, i, j);
        OnceIsRepeats(e, cx, i, j);
      }
    } else {
      OptionalRepeats(d, n, cx, i, j);
      if n == 0 {
        assert Matches(e, cx, i, j);
        OnceIsRepeats(e, cx, i, j);
      }
    }
  }

  lemma {:induction false} OptionalRepeats(d: Re, n: nat, cx: Ctx, i: nat, j: nat)
    requires cx.Valid() && Repeats(d, n, cx, i, j)
    ensures Repeats(Post(QuestOp, d), n, cx, i, j)
    decreases n
  {
    if n > 0 {
      var k: nat :| Matches(d, cx, i, k) && Repeats(d, n - 1, cx, k, j);
      OptionalRepeats(d, n - 1, cx, k, j);
      assert Matches(Post(QuestOp, d), cx, i, k);
    }
  }

  /** The order in which two postfix operators are applied does not matter. */
  lemma PostfixCommute(o: Postfix, o': Postfix, d: Re)
    ensures Equivalent(Post(o, Post(o', d)), Post(o', Post(o, d)))
  {
    if o != o' {
      forall cx: Ctx, i: nat, j: nat | cx.Valid()
        ensures Matches(Post(o, Post(o', d)), cx, i, j) <==> Matches(Post(o', Post(o, d)), cx, i, j)
      {
        if Matches(Post(o, Post(o', d)), cx, i, j) {
          TwiceIsStar(o, o', d, cx, i, j);
          StarIsTwice(o', o, d, cx, i, j);
        }
        if Matches(Post(o', Post(o, d)), cx, i, j) {
          TwiceIsStar(o', o, d, cx, i, j);
          StarIsTwice(o, o', d, cx, i, j);
        }
      }
    }
  }

  // ----- equivalence is a congruence -----

  lemma {:induction false} RepeatsCongruent(a: Re, b: Re, n: nat, cx: Ctx, i: nat, j: nat)
    requires cx.Valid() && Equivalent(a, b) && Repeats(a, n, cx, i, j)
    ensures Repeats(b, n, cx, i, j)
    decreases n
  {
    if n > 0 {
      var k: nat :| Matches(a, cx, i, k) && Repeats(a, n - 1, cx, k, j);
      RepeatsCongruent(a, b, n - 1, cx, k, j);
      assert Matches(b, cx, i, k);
    }
  }

  lemma PostCongruent(o: Postfix, a: Re, b: Re)
    requires Equivalent(a, b)
    ensures Equivalent(Post(o, a), Post(o, b))
  {
    forall cx: Ctx, i: nat, j: nat | cx.Valid()
      ensures Matches(Post(o, a), cx, i, j) <==> Matches(Post(o, b), cx, i, j)
    {
      if o != QuestOp {
        forall n: nat | Repeats(a, n, cx, i, j) ensures Repeats(b, n, cx, i, j) {
          RepeatsCongruent(a, b, n, cx, i, j);
        }
        forall n: nat | Repeats(b, n, cx, i, j) ensures Repeats(a, n, cx, i, j) {
          RepeatsCongruent(b, a, n, cx, i, j);
        }
      }
    }
  }

  lemma CatCongruent(a: Re, b: Re, a': Re, b': Re)
    requires Equivalent(a, a') && Equivalent(b, b')
    ensures Equivalent(Cat(a, b), Cat(a', b'))
  {
    forall cx: Ctx, i: nat, j: nat | cx.Valid()
      ensures Matches(Cat(a, b), cx, i, j) <==> Matches(Cat(a', b'), cx, i, j)
    {
      forall k: nat {:trigger Matches(a, cx, i, k)} {:trigger Matches(a', cx, i, k)}
        ensures Matches(a, cx, i, k) && Matches(b, cx, k, j)
           <==> Matches(a', cx, i, k) && Matches(b', cx, k, j)
      {}
    }
  }

  lemma EquivalentTransitive(a: Re, b: Re, c: Re)
    requires Equivalent(a, b) && Equivalent(b, c)
    ensures Equivalent(a, c)
  {
    forall cx: Ctx, i: nat, j: nat | cx.Valid()
      ensures Matches(a, cx, i, j) <==> Matches(c, cx, i, j)
    {
      assert Matches(a, cx, i, j) <==> Matches(b, cx, i, j);
    }
  }
}
