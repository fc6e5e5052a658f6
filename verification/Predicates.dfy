/**
  File predicates: what they select, how they are printed, and how they are read back. Name
  spaces send them to servers as strings, so what is read must select the same files, and
  prune the same directories.
 */
module Predicates {

  datatype Option<T> = None | Some(value: T)

  datatype Op = Le | Eq | Neq | Ge | Lt | Gt | Eqs | Neqs | Match | Rexp

  datatype Pred =
    | Cmp(op: Op, name: string, value: string)
    | Not(arg: Pred)
    | And(args: seq<Pred>)
    | Or(args: seq<Pred>)
    | Prune
    | True
    | False

  // ----- evaluation -----

  /** The value, if the tree can be pruned there, and the error, if any. */
  datatype Res = Res(v: bool, pruned: bool, err: string)

  /** Matching of globs and of regular expressions, and reading of numbers: they are not part of this model. */
  datatype Env = Env(glob: (string, string) -> Res, rexp: (string, string) -> Res, num: string -> Option<int>)

  type Dir = map<string, string>

  predicate ByName(p: Pred)
  {
    p.Cmp? && (p.op == Match || p.op == Eqs || p.op == Rexp) && (p.name == "name" || p.name == "path")
  }

  /** What an and returns early. */
  predicate AndStops(r: Res)
  {
    r.err != "" || !r.v || r.pruned
  }

  predicate OrStops(r: Res)
  {
    r.err != "" || r.v || r.pruned
  }

  /** Evaluate p at the entry e, found at depth lvl. */
  function Eval(p: Pred, e: Dir, lvl: int, env: Env): Res
  {
    match p
    case True => Res(true, false, "")
    case False => Res(false, false, "")
    case Prune => Res(false, true, "")
    case Not(a) =>
      var r := Eval(a, e, lvl, env);
      Res(!r.v, if ByName(a) then r.v else r.pruned, r.err)
    case And(args) => EvalAnd(args, e, lvl, env)
    case Or(args) => EvalOr(args, e, lvl, env)
    case Cmp(op, name, value) =>
      match op
      case Match => if name in e then env.glob(value, e[name]) else Res(false, false, "")
      case Rexp => if name in e then env.rexp(value, e[name]) else Res(false, false, "")
      case Eqs => if name in e then Res(e[name] == value, false, "") else Res(false, false, "")
      case Neqs =>
        if name in e then Res(e[name] != value, (name == "name" || name == "path") && e[name] == value, "")
        else Res(true, false, "")
      case _ => EvalNum(op, name, value, e, lvl, env)
  }

  function EvalAnd(args: seq<Pred>, e: Dir, lvl: int, env: Env): Res
  {
    if args == [] then Res(true, false, "")
    else
      var r := Eval(args[0], e, lvl, env);
      if AndStops(r) then r else EvalAnd(args[1..], e, lvl, env)
  }

  function EvalOr(args: seq<Pred>, e: Dir, lvl: int, env: Env): Res
  {
    if args == [] then Res(false, false, "")
    else
      var r := Eval(args[0], e, lvl, env);
      if OrStops(r) then r else EvalOr(args[1..], e, lvl, env)
  }

  /** Comparisons of numbers; those of the depth say when it is no use to go deeper. */
  function EvalNum(op: Op, name: string, value: string, e: Dir, lvl: int, env: Env): Res
  {
    var isdepth := name == "depth";
    if !isdepth && name !in e then Res(false, false, "")
    else
      var n1 := if isdepth then Some(lvl) else env.num(e[name]);
      var n2 := env.num(value);
      if n1.None? || n2.None? then Res(false, false, "not a number")
      else
        var a, b := n1.value, n2.value;
        match op
        case Lt => Res(a < b, isdepth && a >= b - 1, "")
        case Le => Res(a <= b, isdepth && a >= b, "")
        case Eq => Res(a == b, isdepth && a >= b, "")
        case Ge => Res(a >= b, false, "")
        case _ => Res(a > b, false, "")   // also for !==
  }

  // ----- printing -----

  function Prec(p: Pred): nat
  {
    match p
    case Or(_) => 1
    case And(_) => 2
    case Not(_) => 3
    case _ => 4
  }

  function OpStr(op: Op): string
  {
    match op
    case Lt => "<"
    case Le => "<="
    case Neq => "!=="
    case Eq => "=="
    case Ge => ">="
    case Gt => ">"
    case Neqs => "!="
    case Eqs => "="
    case Match => "~"
    case Rexp => "~~"
  }

  function String(p: Pred): string
    decreases p, 0
  {
    match p
    case Not(a) => "!" + StringArg(a, 3)
    case And(args) => StringArgs(args, 2, "&")
    case Or(args) => StringArgs(args, 1, "|")
    case Cmp(op, name, value) => name + " " + OpStr(op) + " " + value
    case Prune => "prune"
    case True => "true"
    case False => "false"
  }

  function StringArg(a: Pred, prec: nat): string
    decreases a, 1
  {
    if Prec(a) < prec then "(" + String(a) + ")" else String(a)
  }

  function StringArgs(args: seq<Pred>, prec: nat, op: string): string
    decreases args, 2
  {
    if args == [] then ""
    else if |args| == 1 then StringArg(args[0], prec)
    else StringArg(args[0], prec) + " " + op + " " + StringArgs(args[1..], prec, op)
  }

  // ----- tokens -----

  datatype Tok = TNone | TOp(op: Op) | TNot | TOr | TAnd | TName | TLpar | TRpar | TPrune | TTrue | TFalse

  const APPROX: char := '\U{2248}'
  const EQUIV: char := '\U{2261}'
  const DIFFERENT: char := '\U{2260}'
  const GREATER: char := '\U{2265}'
  const LESS: char := '\U{2264}'

  predicate IsPunct(c: char)
  {
    c in ['!', '&', '|', '~', '=', '(', ')', '>', '<', '\'', ',', ':', APPROX, EQUIV, DIFFERENT, GREATER, LESS]
  }

  predicate IsSpace(c: char)
  {
    c == ' ' || c == '\t' || c == '\n'
  }

  /** Does c start something else than a word? */
  predicate IsSpecial(c: char)
  {
    c in ['~', '(', ')', '|', '&', ',', ':', APPROX, EQUIV, DIFFERENT, '>', '<', '!', '=', '"', '\'']
  }

  /** The number of leading spaces. */
  function Spaces(s: string): (n: nat)
    ensures n <= |s| && (n < |s| ==> !IsSpace(s[n])) && forall i | 0 <= i < n :: IsSpace(s[i])
  {
    if s == "" || !IsSpace(s[0]) then 0 else 1 + Spaces(s[1..])
  }

  /** The length of what comes before a space or punctuation. */
  function WordEnd(s: string): (n: nat)
    ensures n <= |s| && (n < |s| ==> IsPunct(s[n]) || IsSpace(s[n]))
    ensures forall i | 0 <= i < n :: !IsPunct(s[i]) && !IsSpace(s[i])
  {
    if s == "" || IsPunct(s[0]) || IsSpace(s[0]) then 0 else 1 + WordEnd(s[1..])
  }

  /** Where c is first found, or the length. */
  function Find(s: string, c: char): (n: nat)
    ensures n <= |s| && (n < |s| ==> s[n] == c) && forall i | 0 <= i < n :: s[i] != c
  {
    if s == "" || s[0] == c then 0 else 1 + Find(s[1..], c)
  }

  function WordTok(w: string): Tok
  {
    if w == "prune" then TPrune
    else if w == "true" || w == "t" then TTrue
    else if w == "false" || w == "f" then TFalse
    else TName
  }

  /** The end of the text, a token and what follows it, or a token that is not complete. */
  datatype Next = End | Got(tok: Tok, val: string, rest: string) | Fail(tok: Tok)

  function One(c: char): Tok
    requires IsSpecial(c)
  {
    if c == '~' then TOp(Match)
    else if c == '(' then TLpar
    else if c == ')' then TRpar
    else if c == '|' || c == ':' then TOr
    else if c == '&' || c == ',' then TAnd
    else if c == APPROX then TOp(Rexp)
    else if c == EQUIV then TOp(Eq)
    else if c == DIFFERENT then TOp(Neqs)
    else if c == '>' then TOp(Gt)
    else if c == '<' then TOp(Lt)
    else if c == '!' then TNot
    else TOp(Eqs)
  }

  /** The next token of a text that does not start with a space. */
  function NextTok(t: string): Next
    requires t != "" ==> !IsSpace(t[0])
  {
    if t == "" then End
    else
      var c, t1 := t[0], t[1..];
      if c == '~' && t1 != "" && t1[0] == '~' then Got(TOp(Rexp), "~~", t1[1..])
      else if (c == '>' || c == '<' || c == '!' || c == '=') && t1 != "" && t1[0] == '=' then
        if c == '!' then
          if |t1| > 1 && t1[1] == '=' then Got(TOp(Neq), "!==", t1[2..]) else Got(TOp(Neqs), "!=", t1[1..])
        else if c == '=' then Got(TOp(Eq), "==", t1[1..])
        else if c == '<' then Got(TOp(Le), "<=", t1[1..])
        else Got(TOp(Ge), ">=", t1[1..])
      else if c == '"' || c == '\'' then
        if t1 == "" then Fail(TNone)
        else
          var n := Find(t1, c);
          if n == |t1| then Fail(TName) else Got(TName, t1[..n], t1[n + 1..])
      else if IsSpecial(c) then Got(One(c), [c], t1)
      else
        var n := 1 + WordEnd(t1);
        Got(WordTok(t[..n]), t[..n], t[n..])
  }

  function LexOne(s: string): Next
  {
    NextTok(s[Spaces(s)..])
  }

  lemma LexShrinks(s: string)
    ensures LexOne(s).Got? ==> |LexOne(s).rest| < |s|
  {}

  /** All the tokens of a text. */
  datatype Toks = Eof | Bad(tok: Tok) | More(tok: Tok, val: string, rest: Toks)

  function Lex(s: string): Toks
    decreases |s|
  {
    LexShrinks(s);
    match LexOne(s)
    case End => Eof
    case Fail(t) => Bad(t)
    case Got(t, v, rest) => More(t, v, Lex(rest))
  }

  function Len(ts: Toks): nat
  {
    if ts.More? then 1 + Len(ts.rest) else 0
  }

  // ----- reading -----

  datatype Parsed = Err | Ok(p: Pred, rest: Toks)

  datatype ParsedAll = ErrAll | OkAll(ps: seq<Pred>, rest: Toks)

  function DigitsEnd(s: string): nat
  {
    if s == "" || !('0' <= s[0] <= '9') then 0 else 1 + DigitsEnd(s[1..])
  }

  function Number(s: string): nat
  {
    if s == "" then 0
    else Number(s[..|s| - 1]) * 10 + if '0' <= s[|s| - 1] <= '9' then s[|s| - 1] as int - '0' as int else 0
  }

  /** A decimal number of 64 bits, perhaps with a sign. */
  predicate IsInt(s: string)
  {
    var signed := s != "" && (s[0] == '-' || s[0] == '+');
    var d := if signed then s[1..] else s;
    && d != "" && DigitsEnd(d) == |d|
    && Number(d) < 0x8000_0000_0000_0000 + if signed && s[0] == '-' then 1 else 0
  }

  predicate IsTypeName(s: string)
  {
    s == "d" || s == "-" || s == "c"
  }

  function ParsePrim(ts: Toks): (r: Parsed)
    ensures r.Ok? ==> Len(r.rest) < Len(ts)
    decreases Len(ts), 0
  {
    if !ts.More? then Err
    else
      var t, ts1 := ts.tok, ts.rest;
      match t
      case TPrune => Ok(Prune, ts1)
      case TTrue => Ok(True, ts1)
      case TFalse => Ok(False, ts1)
      case TName =>
        if IsTypeName(ts.val) then Ok(Cmp(Eqs, "type", ts.val), ts1)
        else if IsInt(ts.val) then Ok(Cmp(Le, "depth", ts.val), ts1)
        else if !ts1.More? || !ts1.tok.TOp? then Err
        else if !ts1.rest.More? || ts1.rest.tok != TName then Err
        else
          assert Len(ts) == 1 + Len(ts1) && Len(ts1) == 1 + Len(ts1.rest) && Len(ts1.rest) == 1 + Len(ts1.rest.rest);
          Ok(Cmp(ts1.tok.op, ts.val, ts1.rest.val), ts1.rest.rest)
      case TOp(op) =>
        if op != Match && op != Eqs && op != Rexp then Err
        else if !ts1.More? || ts1.tok != TName then Err
        else Ok(Cmp(op, if '/' in ts1.val then "path" else "name", ts1.val), ts1.rest)
      case TNot =>
        (match ParsePrim(ts1)
         case Err => Err
         case Ok(a, ts2) => Ok(Not(a), ts2))
      case TLpar =>
        (match ParseOrs(ts1)
         case Err => Err
         case Ok(a, ts2) => if ts2.More? && ts2.tok == TRpar then Ok(a, ts2.rest) else Err)
      case _ => Err
  }

  function AndList(ts: Toks): (r: ParsedAll)
    ensures r.OkAll? ==> Len(r.rest) < Len(ts) && r.ps != []
    decreases Len(ts), 1
  {
    match ParsePrim(ts)
    case Err => ErrAll
    case Ok(a, ts1) =>
      match AndTail(ts1)
      case ErrAll => ErrAll
      case OkAll(more, ts2) => OkAll([a] + more, ts2)
  }

  function AndTail(ts: Toks): (r: ParsedAll)
    ensures r.OkAll? ==> Len(r.rest) <= Len(ts)
    decreases Len(ts), 2
  {
    if ts.Bad? then ErrAll
    else if ts.More? && ts.tok == TAnd then AndList(ts.rest)
    else OkAll([], ts)
  }

  function ParseAnds(ts: Toks): (r: Parsed)
    ensures r.Ok? ==> Len(r.rest) < Len(ts)
    decreases Len(ts), 2
  {
    match AndList(ts)
    case ErrAll => Err
    case OkAll(ps, rest) => Ok(if |ps| == 1 then ps[0] else And(ps), rest)
  }

  function OrList(ts: Toks): (r: ParsedAll)
    ensures r.OkAll? ==> Len(r.rest) < Len(ts) && r.ps != []
    decreases Len(ts), 3
  {
    match ParseAnds(ts)
    case Err => ErrAll
    case Ok(a, ts1) =>
      match OrTail(ts1)
      case ErrAll => ErrAll
      case OkAll(more, ts2) => OkAll([a] + more, ts2)
  }

  function OrTail(ts: Toks): (r: ParsedAll)
    ensures r.OkAll? ==> Len(r.rest) <= Len(ts)
    decreases Len(ts), 4
  {
    if ts.Bad? then ErrAll
    else if ts.More? && ts.tok == TOr then OrList(ts.rest)
    else OkAll([], ts)
  }

  function ParseOrs(ts: Toks): (r: Parsed)
    ensures r.Ok? ==> Len(r.rest) < Len(ts)
    decreases Len(ts), 4
  {
    match OrList(ts)
    case ErrAll => Err
    case OkAll(ps, rest) => Ok(if |ps| == 1 then ps[0] else Or(ps), rest)
  }

  /** Read a whole text: nothing may follow. */
  function Parse(s: string): Option<Pred>
  {
    match ParseOrs(Lex(s))
    case Err => None
    case Ok(p, rest) => if rest.More? then None else Some(p)
  }

  // ----- what is read -----

  /** p with ands of ands, and ors of ors, made one. */
  function Flat(p: Pred): Pred
    decreases p, 0
  {
    match p
    case Not(a) => Not(Flat(a))
    case And(args) => And(FlatAnds(args, []))
    case Or(args) => Or(FlatOrs(args, []))
    case _ => p
  }

  /** The terms of p when it is in an and, and then more. */
  function FlatAnd(p: Pred, more: seq<Pred>): seq<Pred>
    decreases p, 1
  {
    if p.And? then FlatAnds(p.args, more) else [Flat(p)] + more
  }

  function FlatAnds(args: seq<Pred>, more: seq<Pred>): seq<Pred>
    decreases args, 2
  {
    if args == [] then more else FlatAnd(args[0], FlatAnds(args[1..], more))
  }

  function FlatOr(p: Pred, more: seq<Pred>): seq<Pred>
    decreases p, 1
  {
    if p.Or? then FlatOrs(p.args, more) else [Flat(p)] + more
  }

  function FlatOrs(args: seq<Pred>, more: seq<Pred>): seq<Pred>
    decreases args, 2
  {
    if args == [] then more else FlatOr(args[0], FlatOrs(args[1..], more))
  }

  /** A word that is read back as it is. */
  predicate Plain(w: string)
  {
    && w != "" && !IsSpecial(w[0]) && !IsSpace(w[0])
    && forall i | 0 < i < |w| :: !IsPunct(w[i]) && !IsSpace(w[i])
  }

  predicate PlainValue(w: string)
  {
    Plain(w) && WordTok(w) == TName
  }

  /** A value that is not short for a type or a depth. */
  predicate PlainName(w: string)
  {
    PlainValue(w) && !IsTypeName(w) && !IsInt(w)
  }

  /** All comparisons are of plain words. */
  predicate Plainly(p: Pred)
  {
    match p
    case Cmp(_, name, value) => PlainName(name) && PlainValue(value)
    case Not(a) => Plainly(a)
    case And(args) => forall a | a in args :: Plainly(a)
    case Or(args) => forall a | a in args :: Plainly(a)
    case _ => true
  }

  /** No and, and no or, is empty. */
  predicate Full(p: Pred)
  {
    match p
    case Not(a) => Full(a)
    case And(args) => args != [] && forall a | a in args :: Full(a)
    case Or(args) => args != [] && forall a | a in args :: Full(a)
    case _ => true
  }

  predicate AllFull(args: seq<Pred>)
  {
    args != [] && forall a | a in args :: Full(a)
  }

  /** What p is read as once printed: flattened, and with a term for each and, or or, of that term alone. */
  function Read(p: Pred): Pred
    decreases p, 0
  {
    match p
    case Not(a) => Not(Read(a))
    case And(args) => MakeAnd(AndTerms(args, []))
    case Or(args) => MakeOr(OrTerms(args, []))
    case _ => p
  }

  function MakeAnd(ts: seq<Pred>): Pred
  {
    if |ts| == 1 then ts[0] else And(ts)
  }

  function MakeOr(ts: seq<Pred>): Pred
  {
    if |ts| == 1 then ts[0] else Or(ts)
  }

  function AndTerm(p: Pred, more: seq<Pred>): seq<Pred>
    decreases p, 1
  {
    if p.And? then AndTerms(p.args, more) else [Read(p)] + more
  }

  function AndTerms(args: seq<Pred>, more: seq<Pred>): seq<Pred>
    decreases args, 2
  {
    if args == [] then more else AndTerm(args[0], AndTerms(args[1..], more))
  }

  function OrTerm(p: Pred, more: seq<Pred>): seq<Pred>
    decreases p, 1
  {
    if p.Or? then OrTerms(p.args, more) else [Read(p)] + more
  }

  function OrTerms(args: seq<Pred>, more: seq<Pred>): seq<Pred>
    decreases args, 2
  {
    if args == [] then more else OrTerm(args[0], OrTerms(args[1..], more))
  }

  // ----- flattening keeps the meaning -----

  lemma {:induction false} AndOfFlat(p: Pred, more: seq<Pred>, e: Dir, lvl: int, env: Env)
    ensures EvalAnd(FlatAnd(p, more), e, lvl, env) ==
      if AndStops(Eval(p, e, lvl, env)) then Eval(p, e, lvl, env) else EvalAnd(more, e, lvl, env)
    decreases p, 1
  {
    if p.And? {
      AndsOfFlat(p.args, more, e, lvl, env);
    } else {
      FlatEval(p, e, lvl, env);
      assert ([Flat(p)] + more)[1..] == more;
    }
  }

  lemma {:induction false} AndsOfFlat(args: seq<Pred>, more: seq<Pred>, e: Dir, lvl: int, env: Env)
    ensures EvalAnd(FlatAnds(args, more), e, lvl, env) ==
      if AndStops(EvalAnd(args, e, lvl, env)) then EvalAnd(args, e, lvl, env) else EvalAnd(more, e, lvl, env)
    decreases args, 2
  {
    if args != [] {
      AndsOfFlat(args[1..], more, e, lvl, env);
      AndOfFlat(args[0], FlatAnds(args[1..], more), e, lvl, env);
    }
  }

  lemma {:induction false} OrOfFlat(p: Pred, more: seq<Pred>, e: Dir, lvl: int, env: Env)
    ensures EvalOr(FlatOr(p, more), e, lvl, env) ==
      if OrStops(Eval(p, e, lvl, env)) then Eval(p, e, lvl, env) else EvalOr(more, e, lvl, env)
    decreases p, 1
  {
    if p.Or? {
      OrsOfFlat(p.args, more, e, lvl, env);
    } else {
      FlatEval(p, e, lvl, env);
      assert ([Flat(p)] + more)[1..] == more;
    }
  }

  lemma {:induction false} OrsOfFlat(args: seq<Pred>, more: seq<Pred>, e: Dir, lvl: int, env: Env)
    ensures EvalOr(FlatOrs(args, more), e, lvl, env) ==
      if OrStops(EvalOr(args, e, lvl, env)) then EvalOr(args, e, lvl, env) else EvalOr(more, e, lvl, env)
    decreases args, 2
  {
    if args != [] {
      OrsOfFlat(args[1..], more, e, lvl, env);
      OrOfFlat(args[0], FlatOrs(args[1..], more), e, lvl, env);
    }
  }

  /** The value, the prune flag and the error are the same for every entry at every depth. */
  lemma {:induction false} FlatEval(p: Pred, e: Dir, lvl: int, env: Env)
    ensures Eval(Flat(p), e, lvl, env) == Eval(p, e, lvl, env)
    decreases p, 0
  {
    match p
    case Not(a) => FlatEval(a, e, lvl, env);
    case And(args) =>
      AndsOfFlat(args, [], e, lvl, env);
      AndEnds(args, e, lvl, env);
    case Or(args) =>
      OrsOfFlat(args, [], e, lvl, env);
      OrEnds(args, e, lvl, env);
    case _ =>
  }

  lemma {:induction false} AndEnds(args: seq<Pred>, e: Dir, lvl: int, env: Env)
    ensures !AndStops(EvalAnd(args, e, lvl, env)) ==> EvalAnd(args, e, lvl, env) == Res(true, false, "")
    decreases args
  {
    if args != [] { AndEnds(args[1..], e, lvl, env); }
  }

  lemma {:induction false} OrEnds(args: seq<Pred>, e: Dir, lvl: int, env: Env)
    ensures !OrStops(EvalOr(args, e, lvl, env)) ==> EvalOr(args, e, lvl, env) == Res(false, false, "")
    decreases args
  {
    if args != [] { OrEnds(args[1..], e, lvl, env); }
  }

  // ----- the tokens that are printed -----

  function Toks2(p: Pred, k: Toks): Toks
    decreases p, 0
  {
    match p
    case Not(a) => More(TNot, "!", ToksArg(a, 3, k))
    case And(args) => ToksArgs(args, 2, TAnd, "&", k)
    case Or(args) => ToksArgs(args, 1, TOr, "|", k)
    case Cmp(op, name, value) => More(TName, name, More(TOp(op), OpStr(op), More(TName, value, k)))
    case Prune => More(TPrune, "prune", k)
    case True => More(TTrue, "true", k)
    case False => More(TFalse, "false", k)
  }

  function ToksArg(a: Pred, prec: nat, k: Toks): Toks
    decreases a, 1
  {
    if Prec(a) < prec then More(TLpar, "(", Toks2(a, More(TRpar, ")", k))) else Toks2(a, k)
  }

  function ToksArgs(args: seq<Pred>, prec: nat, sep: Tok, val: string, k: Toks): Toks
    decreases args, 2
  {
    if args == [] then k
    else if |args| == 1 then ToksArg(args[0], prec, k)
    else ToksArg(args[0], prec, More(sep, val, ToksArgs(args[1..], prec, sep, val, k)))
  }

  // ----- reading the tokens of p -----

  /** What may follow a predicate: nothing that starts one. */
  predicate Follows(k: Toks)
  {
    k.Eof? || (k.More? && (k.tok == TRpar || k.tok == TAnd || k.tok == TOr))
  }

  predicate EndsAnd(k: Toks)
  {
    Follows(k) && (k.More? ==> k.tok != TAnd)
  }

  predicate EndsOr(k: Toks)
  {
    EndsAnd(k) && (k.More? ==> k.tok != TOr)
  }

  /** What an and is read as when its terms are those of p, and then what r is. */
  function ThenAnd(p: Pred, r: ParsedAll): ParsedAll
  {
    if Full(p) && r.OkAll? then OkAll(AndTerm(p, r.ps), r.rest) else ErrAll
  }

  function ThenAnds(args: seq<Pred>, r: ParsedAll): ParsedAll
  {
    if AllFull(args) && r.OkAll? then OkAll(AndTerms(args, r.ps), r.rest) else ErrAll
  }

  function ThenOr(p: Pred, r: ParsedAll): ParsedAll
  {
    if Full(p) && r.OkAll? then OkAll(OrTerm(p, r.ps), r.rest) else ErrAll
  }

  function ThenOrs(args: seq<Pred>, r: ParsedAll): ParsedAll
  {
    if AllFull(args) && r.OkAll? then OkAll(OrTerms(args, r.ps), r.rest) else ErrAll
  }

  /** What is read of p alone. */
  function Whole(p: Pred, k: Toks): Parsed
  {
    if Full(p) then Ok(Read(p), k) else Err
  }

  lemma FullSplit(args: seq<Pred>)
    requires |args| > 1
    ensures AllFull(args) <==> Full(args[0]) && AllFull(args[1..])
  {
    assert args[0] in args && forall a | a in args :: a == args[0] || a in args[1..];
    assert forall a | a in args[1..] :: a in args;
  }

  lemma FullOne(args: seq<Pred>)
    requires |args| == 1
    ensures args[0] in args && args[1..] == [] && (AllFull(args) <==> Full(args[0]))
  {
    assert args[0] in args && forall a | a in args :: a == args[0];
  }

  lemma OneTerm(args: seq<Pred>, more: seq<Pred>)
    requires |args| == 1
    ensures AndTerms(args, more) == AndTerm(args[0], more) && OrTerms(args, more) == OrTerm(args[0], more)
  {
    assert args[1..] == [];
  }

  lemma NoneStarts(k: Toks)
    requires Follows(k)
    ensures ParsePrim(k) == Err && AndList(k) == ErrAll && ParseAnds(k) == Err && OrList(k) == ErrAll && ParseOrs(k) == Err
  {}

  /** What an operand of ! is printed as is read as one. */
  lemma {:induction false} ReadPrim(p: Pred, prec: nat, k: Toks)
    requires Plainly(p) && (Prec(p) < prec || Prec(p) >= 3)
    ensures ParsePrim(ToksArg(p, prec, k)) == Whole(p, k)
    decreases p, if Prec(p) < prec then 7 else 2
  {
    if Prec(p) < prec {
      ReadOrs(p, More(TRpar, ")", k));
    } else if p.Not? {
      ReadPrim(p.arg, 3, k);
    }
  }

  /** What p is printed as in an and is read as its terms, and then more. */
  lemma {:induction false} ReadAnd(p: Pred, k: Toks)
    requires Plainly(p) && Follows(k)
    ensures AndList(ToksArg(p, 2, k)) == ThenAnd(p, AndTail(k))
    decreases p, if p.Or? then 8 else 3
  {
    if p.And? {
      ReadAndArgs(p.args, k);
    } else {
      ReadPrim(p, 2, k);
    }
  }

  lemma {:induction false} ReadAndArgs(args: seq<Pred>, k: Toks)
    requires (forall a | a in args :: Plainly(a)) && Follows(k)
    ensures AndList(ToksArgs(args, 2, TAnd, "&", k)) == ThenAnds(args, AndTail(k))
    decreases args, 9
  {
    if args == [] {
      NoneStarts(k);
    } else if |args| == 1 {
      FullOne(args);
      OneTerm(args, if AndTail(k).OkAll? then AndTail(k).ps else []);
      ReadAnd(args[0], k);
    } else {
      FullSplit(args);
      assert args[0] in args;
      ReadAndArgs(args[1..], k);
      ReadAnd(args[0], More(TAnd, "&", ToksArgs(args[1..], 2, TAnd, "&", k)));
    }
  }

  lemma {:induction false} ReadAnds(p: Pred, k: Toks)
    requires Plainly(p) && EndsAnd(k) && !p.Or?
    ensures ParseAnds(Toks2(p, k)) == Whole(p, k)
    decreases p, 4
  {
    ReadAnd(p, k);
    assert ToksArg(p, 2, k) == Toks2(p, k);
    assert AndTail(k) == OkAll([], k);
    assert [Read(p)] + [] == [Read(p)];
  }

  lemma {:induction false} ReadOr(p: Pred, k: Toks)
    requires Plainly(p) && EndsAnd(k)
    ensures OrList(ToksArg(p, 1, k)) == ThenOr(p, OrTail(k))
    decreases p, 5
  {
    if p.Or? {
      ReadOrArgs(p.args, k);
    } else {
      ReadAnds(p, k);
    }
  }

  lemma {:induction false} ReadOrArgs(args: seq<Pred>, k: Toks)
    requires (forall a | a in args :: Plainly(a)) && EndsAnd(k)
    ensures OrList(ToksArgs(args, 1, TOr, "|", k)) == ThenOrs(args, OrTail(k))
    decreases args, 9
  {
    if args == [] {
      NoneStarts(k);
    } else if |args| == 1 {
      FullOne(args);
      OneTerm(args, if OrTail(k).OkAll? then OrTail(k).ps else []);
      ReadOr(args[0], k);
    } else {
      FullSplit(args);
      assert args[0] in args;
      ReadOrArgs(args[1..], k);
      ReadOr(args[0], More(TOr, "|", ToksArgs(args[1..], 1, TOr, "|", k)));
    }
  }

  /** The tokens of p are read as it is printed, and are refused if any and, or or, is empty. */
  lemma {:induction false} ReadOrs(p: Pred, k: Toks)
    requires Plainly(p) && EndsOr(k)
    ensures ParseOrs(Toks2(p, k)) == Whole(p, k)
    decreases p, 6
  {
    ReadOr(p, k);
    assert ToksArg(p, 1, k) == Toks2(p, k);
    assert OrTail(k) == OkAll([], k);
    assert [Read(p)] + [] == [Read(p)];
  }

  // ----- the tokens of what is printed -----

  /** What may follow a predicate. */
  predicate Delim(s: string)
  {
    s == "" || IsSpace(s[0]) || s[0] == ')'
  }

  lemma LexHere(t: string)
    requires t != "" ==> !IsSpace(t[0])
    ensures Lex(t) == match NextTok(t) case End => Eof case Fail(k) => Bad(k) case Got(k, v, rest) => (LexShrinks(t); More(k, v, Lex(rest)))
  {
    assert Spaces(t) == 0 && t[0..] == t;
  }

  lemma LexSpace(s: string)
    ensures Lex(" " + s) == Lex(s)
  {
    var t := " " + s;
    assert t[1..] == s;
    assert Spaces(t) == 1 + Spaces(s);
    assert t[Spaces(t)..] == s[Spaces(s)..];
  }

  lemma {:induction false} WordEndIs(w: string, s: string)
    requires (forall i | 0 <= i < |w| :: !IsPunct(w[i]) && !IsSpace(w[i])) && (s == "" || IsPunct(s[0]) || IsSpace(s[0]))
    ensures WordEnd(w + s) == |w|
    decreases |w|
  {
    if w == "" {
      assert w + s == s;
    } else {
      assert (w + s)[0] == w[0] && (w + s)[1..] == w[1..] + s;
      WordEndIs(w[1..], s);
    }
  }

  lemma {:induction false} LexWord(w: string, s: string)
    requires Plain(w) && Delim(s)
    ensures Lex(w + s) == More(WordTok(w), w, Lex(s))
  {
    var t := w + s;
    assert t[0] == w[0] && t[1..] == w[1..] + s;
    WordEndIs(w[1..], s);
    hide WordTok, Plain;
    assert t[..|w|] == w && t[|w|..] == s;
    assert !IsSpecial(t[0]) && !IsSpace(t[0]);
    LexHere(t);
    hide Lex;
    WordStarts(t);
  }

  lemma WordStarts(t: string)
    requires t != "" && !IsSpecial(t[0]) && !IsSpace(t[0])
    ensures NextTok(t) == Got(WordTok(t[..1 + WordEnd(t[1..])]), t[..1 + WordEnd(t[1..])], t[1 + WordEnd(t[1..])..])
  {}

  lemma LexShort(c: char, s: string)
    requires (c == '<' || c == '>' || c == '=' || c == '~') && s != "" && s[0] == ' '
    ensures Lex([c] + s) == More(One(c), [c], Lex(s))
  {
    var t := [c] + s;
    assert t[0] == c && t[1..] == s;
    LexHere(t);
  }

  lemma LexLong(c: char, d: char, s: string)
    requires (d == '=' && (c == '<' || c == '>' || c == '=' || c == '!')) || (c == '~' && d == '~')
    requires s != "" && s[0] == ' '
    ensures Lex([c, d] + s) == More(TOp(match c case '<' => Le case '>' => Ge case '=' => Eq case '!' => Neqs case _ => Rexp), [c, d], Lex(s))
  {
    var t := [c, d] + s;
    assert t[0] == c && t[1..][0] == d && t[1..][1..] == s;
    assert |t[1..]| > 1 && t[1..][1] == ' ';
    LexHere(t);
  }

  lemma LexNeq(s: string)
    ensures Lex("!==" + s) == More(TOp(Neq), "!==", Lex(s))
  {
    var t := "!==" + s;
    assert t[0] == '!' && t[1..][0] == '=' && t[1..][1] == '=' && t[1..][2..] == s;
    LexHere(t);
  }

  lemma LexOp(op: Op, s: string)
    requires s != "" && s[0] == ' '
    ensures Lex(OpStr(op) + s) == More(TOp(op), OpStr(op), Lex(s))
  {
    hide Lex;
    match op
    case Lt => LexShort('<', s);
    case Gt => LexShort('>', s);
    case Eqs => LexShort('=', s);
    case Match => LexShort('~', s);
    case Le => LexLong('<', '=', s);
    case Ge => LexLong('>', '=', s);
    case Eq => LexLong('=', '=', s);
    case Rexp => LexLong('~', '~', s);
    case Neqs => LexLong('!', '=', s);
    case Neq => LexNeq(s);
  }

  lemma LexChar(c: char, s: string)
    requires c == '(' || c == ')' || c == '&' || c == '|' || (c == '!' && s != "" && s[0] != '=')
    ensures Lex([c] + s) == More(One(c), [c], Lex(s))
  {
    var t := [c] + s;
    assert t[0] == c && t[1..] == s;
    LexHere(t);
  }

  lemma {:induction false} LexString(p: Pred, s: string)
    requires Plainly(p) && Delim(s)
    ensures Lex(String(p) + s) == Toks2(p, Lex(s))
    decreases p, 0
  {
    hide Lex, Plain, IsInt;
    match p {
      case Cmp(op, name, value) => LexCmp(op, name, value, s);
      case Not(a) => LexNot(a, s);
      case And(args) => LexArgs(args, 2, '&', s);
      case Or(args) => LexArgs(args, 1, '|', s);
      case Prune => LexAtoms(s);
      case True => LexAtoms(s);
      case False => LexAtoms(s);
    }
  }

  lemma PlainLetters(w: string)
    requires w != "" && forall i | 0 <= i < |w| :: 'a' <= w[i] <= 'z'
    ensures Plain(w)
  {
    assert 'a' <= w[0] <= 'z';
  }

  lemma AtomWords()
    ensures Plain("prune") && Plain("true") && Plain("false")
    ensures WordTok("prune") == TPrune && WordTok("true") == TTrue && WordTok("false") == TFalse
  {
    PlainLetters("prune");
    PlainLetters("true");
    PlainLetters("false");
    hide Plain;
  }

  lemma LexAtoms(s: string)
    requires Delim(s)
    ensures Lex("prune" + s) == More(TPrune, "prune", Lex(s))
    ensures Lex("true" + s) == More(TTrue, "true", Lex(s)) && Lex("false" + s) == More(TFalse, "false", Lex(s))
  {
    hide *;
    AtomWords();
    LexWord("prune", s);
    LexWord("true", s);
    LexWord("false", s);
  }

  lemma NotParts(a: Pred, s: string, k: Toks)
    ensures String(Not(a)) + s == ['!'] + (StringArg(a, 3) + s)
    ensures Toks2(Not(a), k) == More(One('!'), ['!'], ToksArg(a, 3, k))
  {
    assert String(Not(a)) == ['!'] + StringArg(a, 3);
  }

  lemma {:induction false} LexNot(a: Pred, s: string)
    requires Plainly(a) && Delim(s)
    ensures Lex(String(Not(a)) + s) == Toks2(Not(a), Lex(s))
    decreases a, 2
  {
    hide *;
    StartsArg(a);
    LexArg(a, 3, s);
    NotParts(a, s, Lex(s));
    LexChar('!', StringArg(a, 3) + s);
  }

  /** What is printed of the operand of ! is not empty, and starts with a word, a negation or a parenthesis. */
  lemma StartsArg(a: Pred)
    requires Plainly(a)
    ensures StringArg(a, 3) != "" && StringArg(a, 3)[0] != '='
  {
    if a.Cmp? { assert String(a)[0] == a.name[0]; }
  }

  lemma {:induction false} LexCmp(op: Op, name: string, value: string, s: string)
    requires Plain(name) && WordTok(name) == TName && Plain(value) && WordTok(value) == TName && Delim(s)
    ensures Lex(String(Cmp(op, name, value)) + s) == More(TName, name, More(TOp(op), OpStr(op), More(TName, value, Lex(s))))
  {
    var v := value + s;
    var o := OpStr(op) + (" " + v);
    assert String(Cmp(op, name, value)) + s == name + (" " + o);
    LexWord(name, " " + o);
    LexSpace(o);
    LexOp(op, " " + v);
    LexSpace(v);
    LexWord(value, s);
  }

  lemma ArgParts(a: Pred, prec: nat, s: string, k: Toks)
    ensures Prec(a) < prec ==> StringArg(a, prec) + s == ['('] + (String(a) + ([')'] + s))
    ensures Prec(a) < prec ==> ToksArg(a, prec, k) == More(One('('), ['('], Toks2(a, More(One(')'), [')'], k)))
    ensures Prec(a) >= prec ==> StringArg(a, prec) == String(a) && ToksArg(a, prec, k) == Toks2(a, k)
    ensures Delim([')'] + s)
  {
    hide String, Toks2;
    if Prec(a) < prec {
      assert StringArg(a, prec) == (['('] + String(a)) + [')'];
    }
  }

  lemma {:induction false} LexArg(a: Pred, prec: nat, s: string)
    requires Plainly(a) && Delim(s)
    ensures Lex(StringArg(a, prec) + s) == ToksArg(a, prec, Lex(s))
    decreases a, 1
  {
    hide *;
    ArgParts(a, prec, s, Lex(s));
    if Prec(a) < prec {
      LexString(a, [')'] + s);
      LexChar('(', String(a) + ([')'] + s));
      LexChar(')', s);
    } else {
      LexString(a, s);
    }
  }

  lemma ArgsParts(args: seq<Pred>, prec: nat, op: char, s: string, k: Toks)
    requires |args| > 1 && (op == '&' || op == '|')
    ensures var more := StringArgs(args[1..], prec, [op]) + s;
            && StringArgs(args, prec, [op]) + s == StringArg(args[0], prec) + (" " + ([op] + (" " + more)))
            && ToksArgs(args, prec, One(op), [op], k)
               == ToksArg(args[0], prec, More(One(op), [op], ToksArgs(args[1..], prec, One(op), [op], k)))
            && Delim(" " + ([op] + (" " + more)))
  {
    var a, m := StringArg(args[0], prec), StringArgs(args[1..], prec, [op]);
    assert StringArgs(args, prec, [op]) == a + " " + [op] + " " + m;
    hide StringArg, StringArgs, ToksArg;
    assert (a + " " + [op] + " " + m) + s == a + (" " + ([op] + (" " + (m + s))));
  }

  lemma OneArg(args: seq<Pred>, prec: nat, op: char, k: Toks)
    requires |args| == 1 && IsSpecial(op)
    ensures StringArgs(args, prec, [op]) == StringArg(args[0], prec)
    ensures ToksArgs(args, prec, One(op), [op], k) == ToksArg(args[0], prec, k)
  {}

  lemma NoArgs(args: seq<Pred>, prec: nat, op: char, s: string, k: Toks)
    requires args == [] && IsSpecial(op)
    ensures StringArgs(args, prec, [op]) + s == s && ToksArgs(args, prec, One(op), [op], k) == k
  {}

  lemma {:induction false} LexArgs(args: seq<Pred>, prec: nat, op: char, s: string)
    requires (forall a | a in args :: Plainly(a)) && Delim(s) && (op == '&' || op == '|')
    ensures Lex(StringArgs(args, prec, [op]) + s) == ToksArgs(args, prec, One(op), [op], Lex(s))
    decreases args, 2
  {
    assert IsSpecial(op) && (args != [] ==> args[0] in args);
    hide *;
    if args == [] {
      NoArgs(args, prec, op, s, Lex(s));
    } else if |args| == 1 {
      LexArg(args[0], prec, s);
      OneArg(args, prec, op, Lex(s));
    } else {
      var more := StringArgs(args[1..], prec, [op]) + s;
      var sep := [op] + (" " + more);
      ArgsParts(args, prec, op, s, Lex(s));
      LexArgs(args[1..], prec, op, s);
      LexSpace(more);
      LexChar(op, " " + more);
      LexSpace(sep);
      LexArg(args[0], prec, " " + sep);
    }
  }

  // ----- the round trip -----

  /** What is printed is read, but for ands in ands, ors in ors, and ands and ors of one term; and refused if one of them is empty. */
  lemma {:induction false} PrintedIsRead(p: Pred)
    requires Plainly(p)
    ensures Parse(String(p)) == if Full(p) then Some(Read(p)) else None
  {
    LexString(p, "");
    assert String(p) + "" == String(p) && Lex("") == Eof;
    ReadOrs(p, Eof);
  }

  /** What a text stands for: an empty one is no predicate, which is always true; None if it is refused. */
  function Compile(s: string): Option<Option<Pred>>
  {
    if s == "" then Some(None)
    else match Parse(s)
      case None => None
      case Some(p) => Some(Some(p))
  }

  function EvalRead(o: Option<Pred>, e: Dir, lvl: int, env: Env): Res
  {
    if o.None? then Res(true, false, "") else Eval(o.value, e, lvl, env)
  }

  /** An empty and, or or, perhaps as the only term of others; but not an or as the only term of an and, which has parentheses. */
  predicate Blank(p: Pred)
  {
    || (p.And? && (p.args == [] || (|p.args| == 1 && p.args[0].And? && Blank(p.args[0]))))
    || (p.Or? && (p.args == [] || (|p.args| == 1 && Blank(p.args[0]))))
  }

  lemma {:induction false} BlankText(p: Pred)
    ensures String(p) == "" <==> Blank(p)
    decreases p
  {
    if (p.And? || p.Or?) && |p.args| == 1 {
      BlankText(p.args[0]);
      assert StringArgs(p.args, 2, "&") == StringArg(p.args[0], 2) && StringArgs(p.args, 1, "|") == StringArg(p.args[0], 1);
    }
  }

  lemma {:induction false} BlankNotFull(p: Pred)
    requires Blank(p)
    ensures !Full(p)
    decreases p
  {
    if p.args != [] {
      assert p.args[0] in p.args;
      BlankNotFull(p.args[0]);
    }
  }

  /** What the text of any predicate of plain words stands for, empty ands and ors included. */
  lemma {:induction false} CompiledIs(p: Pred)
    requires Plainly(p)
    ensures Compile(String(p)) == if Blank(p) then Some(None) else if Full(p) then Some(Some(Read(p))) else None
  {
    BlankText(p);
    PrintedIsRead(p);
  }

  // ----- what it means -----

  /** The first term, going down, that is not the only one of an and, or of an or. */
  function Lone(p: Pred): Pred
  {
    if (p.And? || p.Or?) && |p.args| == 1 then Lone(p.args[0]) else p
  }

  lemma EvalSingle(one: seq<Pred>, e: Dir, lvl: int, env: Env)
    requires |one| == 1
    ensures EvalAnd(one, e, lvl, env) == Eval(one[0], e, lvl, env) == EvalOr(one, e, lvl, env)
  {
    assert one[1..] == [];
  }

  /** An and, or an or, of one term evaluates as that term. */
  lemma {:induction false} LoneEval(p: Pred, e: Dir, lvl: int, env: Env)
    ensures Eval(p, e, lvl, env) == Eval(Lone(p), e, lvl, env)
    decreases p
  {
    if (p.And? || p.Or?) && |p.args| == 1 {
      EvalSingle(p.args, e, lvl, env);
      LoneEval(p.args[0], e, lvl, env);
    }
  }

  /**
    But under a negation that depends: not matching a name or a path prunes where it matches,
    and not matching an and, or an or, prunes where that does.
   */
  lemma {:induction false} LoneUnderNot(p: Pred, e: Dir, lvl: int, env: Env)
    ensures Eval(Not(p), e, lvl, env) == Eval(Not(Lone(p)), e, lvl, env) <==>
      var c := Lone(p);
      p == c || !ByName(c) || Eval(c, e, lvl, env).v == Eval(c, e, lvl, env).pruned
  {
    LoneEval(p, e, lvl, env);
  }

  /** No negation is over an and, or an or, that comes to a single test of a name or a path. */
  predicate Kept(p: Pred)
  {
    match p
    case Not(a) => (ByName(Lone(a)) ==> ByName(a)) && Kept(a)
    case And(args) => forall a | a in args :: Kept(a)
    case Or(args) => forall a | a in args :: Kept(a)
    case _ => true
  }

  lemma {:induction false} TermsMany(args: seq<Pred>, more: seq<Pred>)
    requires forall a | a in args :: Full(a)
    ensures |AndTerms(args, more)| >= |args| + |more| && |OrTerms(args, more)| >= |args| + |more|
    decreases args
  {
    if args != [] {
      var a := args[0];
      assert a in args;
      TermsMany(args[1..], more);
      if a.And? { TermsMany(a.args, AndTerms(args[1..], more)); }
      if a.Or? { TermsMany(a.args, OrTerms(args[1..], more)); }
    }
  }

  /** An and, or an or, of one term is read as that term. */
  lemma ReadSingle(p: Pred)
    requires (p.And? || p.Or?) && |p.args| == 1
    ensures Read(p) == Read(p.args[0])
  {
    var a := p.args[0];
    assert p.args[1..] == [] && [Read(a)] + [] == [Read(a)];
    assert AndTerms(p.args, []) == AndTerm(a, []) && OrTerms(p.args, []) == OrTerm(a, []);
  }

  lemma {:induction false} ReadByName(p: Pred)
    requires Full(p)
    ensures ByName(Read(p)) <==> ByName(Lone(p))
    decreases p
  {
    if p.And? || p.Or? {
      if |p.args| == 1 {
        assert p.args[0] in p.args;
        ReadSingle(p);
        ReadByName(p.args[0]);
      } else {
        TermsMany(p.args, []);
      }
    }
  }

  lemma {:induction false} AndOfRead(p: Pred, more: seq<Pred>, e: Dir, lvl: int, env: Env)
    requires Full(p) && Kept(p)
    ensures EvalAnd(AndTerm(p, more), e, lvl, env) ==
      if AndStops(Eval(p, e, lvl, env)) then Eval(p, e, lvl, env) else EvalAnd(more, e, lvl, env)
    decreases p, 1
  {
    if p.And? {
      AndsOfRead(p.args, more, e, lvl, env);
    } else {
      ReadEval(p, e, lvl, env);
      assert ([Read(p)] + more)[1..] == more;
    }
  }

  lemma {:induction false} AndsOfRead(args: seq<Pred>, more: seq<Pred>, e: Dir, lvl: int, env: Env)
    requires forall a | a in args :: Full(a) && Kept(a)
    ensures EvalAnd(AndTerms(args, more), e, lvl, env) ==
      if AndStops(EvalAnd(args, e, lvl, env)) then EvalAnd(args, e, lvl, env) else EvalAnd(more, e, lvl, env)
    decreases args, 2
  {
    if args != [] {
      assert args[0] in args;
      AndsOfRead(args[1..], more, e, lvl, env);
      AndOfRead(args[0], AndTerms(args[1..], more), e, lvl, env);
    }
  }

  lemma {:induction false} OrOfRead(p: Pred, more: seq<Pred>, e: Dir, lvl: int, env: Env)
    requires Full(p) && Kept(p)
    ensures EvalOr(OrTerm(p, more), e, lvl, env) ==
      if OrStops(Eval(p, e, lvl, env)) then Eval(p, e, lvl, env) else EvalOr(more, e, lvl, env)
    decreases p, 1
  {
    if p.Or? {
      OrsOfRead(p.args, more, e, lvl, env);
    } else {
      ReadEval(p, e, lvl, env);
      assert ([Read(p)] + more)[1..] == more;
    }
  }

  lemma {:induction false} OrsOfRead(args: seq<Pred>, more: seq<Pred>, e: Dir, lvl: int, env: Env)
    requires forall a | a in args :: Full(a) && Kept(a)
    ensures EvalOr(OrTerms(args, more), e, lvl, env) ==
      if OrStops(EvalOr(args, e, lvl, env)) then EvalOr(args, e, lvl, env) else EvalOr(more, e, lvl, env)
    decreases args, 2
  {
    if args != [] {
      assert args[0] in args;
      OrsOfRead(args[1..], more, e, lvl, env);
      OrOfRead(args[0], OrTerms(args[1..], more), e, lvl, env);
    }
  }

  /** What is read has the same value, prune flag and error for every entry at every depth. */
  lemma {:induction false} ReadEval(p: Pred, e: Dir, lvl: int, env: Env)
    requires Full(p) && Kept(p)
    ensures Eval(Read(p), e, lvl, env) == Eval(p, e, lvl, env)
    decreases p, 0
  {
    match p
    case Not(a) =>
      ReadEval(a, e, lvl, env);
      ReadByName(a);
    case And(args) =>
      AndsOfRead(args, [], e, lvl, env);
      AndEnds(args, e, lvl, env);
      if |AndTerms(args, [])| == 1 { EvalSingle(AndTerms(args, []), e, lvl, env); }
    case Or(args) =>
      OrsOfRead(args, [], e, lvl, env);
      OrEnds(args, e, lvl, env);
      if |OrTerms(args, [])| == 1 { EvalSingle(OrTerms(args, []), e, lvl, env); }
    case _ =>
  }

  /** So what a server reads selects and prunes what the client meant. */
  lemma {:induction false} SentMeansTheSame(p: Pred, e: Dir, lvl: int, env: Env)
    requires Plainly(p) && Full(p) && Kept(p)
    ensures Parse(String(p)).Some? && Eval(Parse(String(p)).value, e, lvl, env) == Eval(p, e, lvl, env)
  {
    PrintedIsRead(p);
    ReadEval(p, e, lvl, env);
  }

  /**
    A negation that is sent means the same for an entry exactly when it is not over an and, or
    an or, that comes to a single test of a name or a path, or that test prunes there just when it holds.
   */
  lemma {:induction false} SentUnderNot(a: Pred, e: Dir, lvl: int, env: Env)
    requires Plainly(a) && Full(a) && Kept(a)
    ensures Parse(String(Not(a))).Some?
    ensures Eval(Parse(String(Not(a))).value, e, lvl, env) == Eval(Not(a), e, lvl, env) <==>
      var c := Lone(a);
      a == c || !ByName(c) || Eval(c, e, lvl, env).v == Eval(c, e, lvl, env).pruned
  {
    PrintedIsRead(Not(a));
    ReadEval(a, e, lvl, env);
    ReadByName(a);
    LoneEval(a, e, lvl, env);
    if ByName(a) { assert a == Lone(a); }
  }

  /** One test, in an and or in an or, under a negation, is read without them. */
  lemma SingleIsRead(c: Pred, q: Pred)
    requires Plainly(c) && c.Cmp? && (q == And([c]) || q == Or([c]))
    ensures Parse(String(Not(q))) == Some(Not(c)) && Lone(q) == c
  {
    hide Plainly;
    assert q.args == [c] && forall a | a in q.args :: a == c;
    assert Plainly(Not(q)) && Full(Not(q)) by { PlainSingle(c, q); }
    hide Parse, String, Full;
    PrintedIsRead(Not(q));
    ReadSingle(q);
  }

  lemma PlainSingle(c: Pred, q: Pred)
    requires Plainly(c) && c.Cmp? && (q == And([c]) || q == Or([c]))
    ensures Plainly(Not(q)) && Full(Not(q))
  {
    hide PlainName, PlainValue;
    assert q.args == [c] && forall a | a in q.args :: a == c;
    assert Full(c) && Full(q);
  }

  /** So the entry with a name is pruned by what is read, and not by what was sent. */
  lemma SingleIsLost(name: string, q: Pred, lvl: int, env: Env)
    requires PlainValue(name) && (q == And([Cmp(Eqs, "name", name)]) || q == Or([Cmp(Eqs, "name", name)]))
    ensures var e: Dir := map["name" := name];
            && Parse(String(Not(q))) == Some(Not(Cmp(Eqs, "name", name)))
            && !Eval(Not(q), e, lvl, env).pruned && Eval(Not(Cmp(Eqs, "name", name)), e, lvl, env).pruned
  {
    var c := Cmp(Eqs, "name", name);
    ShortIsPlain("name");
    assert Plainly(c);
    hide Parse, String, PlainName, PlainValue;
    SingleIsRead(c, q);
    LoneEval(q, map["name" := name], lvl, env);
  }

  /** A predicate printed as the empty text is read as no predicate, which is right exactly when what is empty is an and. */
  lemma {:induction false} BlankIsAll(p: Pred, e: Dir, lvl: int, env: Env)
    requires Blank(p)
    ensures Compile(String(p)) == Some(None)
    ensures EvalRead(None, e, lvl, env) == Eval(p, e, lvl, env) <==> Lone(p) == And([])
    ensures Lone(p) == And([]) || Lone(p) == Or([])
    decreases p
  {
    BlankText(p);
    LoneEval(p, e, lvl, env);
    BlankEnds(p);
  }

  lemma {:induction false} BlankEnds(p: Pred)
    requires Blank(p)
    ensures Lone(p) == And([]) || Lone(p) == Or([])
    decreases p
  {
    if p.args != [] { BlankEnds(p.args[0]); }
  }

  /** An or of nothing is false, and is read as what is always true; so is an or of that; and what has it as one of its terms is refused. */
  lemma EmptyOrIsLost(e: Dir, lvl: int, env: Env)
    ensures Compile(String(Or([]))) == Compile(String(Or([Or([])]))) == Some(None)
    ensures !Eval(Or([]), e, lvl, env).v && !Eval(Or([Or([])]), e, lvl, env).v
    ensures Compile(String(And([Or([]), True]))) == None
  {
    var inner, outer, both := Or([]), Or([Or([])]), And([Or([]), True]);
    assert outer.args[0] == inner && both.args[0] == inner && inner in both.args;
    assert forall a | a in both.args :: a == inner || a == True;
    assert Lone(outer) == inner;
    BlankIsAll(inner, e, lvl, env);
    BlankIsAll(outer, e, lvl, env);
    CompiledIs(both);
    LoneEval(outer, e, lvl, env);
  }

  // ----- exactly what is read back as it was -----

  /** Ands and ors of two terms at least, with no and in an and, and no or in an or. */
  predicate Normal(p: Pred)
  {
    match p
    case Not(a) => Normal(a)
    case And(args) => |args| >= 2 && forall a | a in args :: !a.And? && Normal(a)
    case Or(args) => |args| >= 2 && forall a | a in args :: !a.Or? && Normal(a)
    case _ => true
  }

  /** The tests, negations, ands and ors in p. */
  function Size(p: Pred): nat
    decreases p, 0
  {
    match p
    case Not(a) => 1 + Size(a)
    case And(args) => 1 + Sizes(args)
    case Or(args) => 1 + Sizes(args)
    case _ => 1
  }

  function Sizes(args: seq<Pred>): nat
    decreases args, 1
  {
    if args == [] then 0 else Size(args[0]) + Sizes(args[1..])
  }

  lemma SizesCons(p: Pred, more: seq<Pred>)
    ensures Sizes([p] + more) == Size(p) + Sizes(more)
  {
    assert ([p] + more)[1..] == more;
  }

  predicate NormalAnds(args: seq<Pred>)
  {
    args != [] ==> !args[0].And? && Normal(args[0]) && NormalAnds(args[1..])
  }

  predicate NormalOrs(args: seq<Pred>)
  {
    args != [] ==> !args[0].Or? && Normal(args[0]) && NormalOrs(args[1..])
  }

  lemma {:induction false} NormalEach(args: seq<Pred>)
    ensures NormalAnds(args) <==> forall a | a in args :: !a.And? && Normal(a)
    ensures NormalOrs(args) <==> forall a | a in args :: !a.Or? && Normal(a)
    decreases args
  {
    if args != [] {
      NormalEach(args[1..]);
      assert args[0] in args && forall a | a in args :: a == args[0] || a in args[1..];
      assert forall a | a in args[1..] :: a in args;
    }
  }

  /** Terms are as they were, or fewer things are left. */
  lemma {:induction false} AndTermsSize(args: seq<Pred>, more: seq<Pred>)
    requires forall a | a in args :: Full(a)
    ensures NormalAnds(args) ==> AndTerms(args, more) == args + more
    ensures Sizes(AndTerms(args, more)) <= Sizes(args) + Sizes(more)
    ensures !NormalAnds(args) ==> Sizes(AndTerms(args, more)) < Sizes(args) + Sizes(more)
    decreases args, 2
  {
    if args == [] {
      assert args + more == more;
    } else {
      var a, rest := args[0], AndTerms(args[1..], more);
      assert a in args && args + more == [a] + (args[1..] + more);
      AndTermsSize(args[1..], more);
      if a.And? {
        AndTermsSize(a.args, rest);
      } else {
        ReadSize(a);
        SizesCons(Read(a), rest);
      }
    }
  }

  lemma {:induction false} OrTermsSize(args: seq<Pred>, more: seq<Pred>)
    requires forall a | a in args :: Full(a)
    ensures NormalOrs(args) ==> OrTerms(args, more) == args + more
    ensures Sizes(OrTerms(args, more)) <= Sizes(args) + Sizes(more)
    ensures !NormalOrs(args) ==> Sizes(OrTerms(args, more)) < Sizes(args) + Sizes(more)
    decreases args, 2
  {
    if args == [] {
      assert args + more == more;
    } else {
      var a, rest := args[0], OrTerms(args[1..], more);
      assert a in args && args + more == [a] + (args[1..] + more);
      OrTermsSize(args[1..], more);
      if a.Or? {
        OrTermsSize(a.args, rest);
      } else {
        ReadSize(a);
        SizesCons(Read(a), rest);
      }
    }
  }

  /** What is read is p, or is smaller. */
  lemma {:induction false} ReadSize(p: Pred)
    requires Full(p)
    ensures Normal(p) ==> Read(p) == p
    ensures Size(Read(p)) <= Size(p) && (!Normal(p) ==> Size(Read(p)) < Size(p))
    decreases p, 1
  {
    match p
    case Not(a) => ReadSize(a);
    case And(args) =>
      NormalEach(args);
      AndTermsSize(args, []);
      MadeSize(args, AndTerms(args, []));
      if |args| == 1 { ReadLess(p); }
    case Or(args) =>
      NormalEach(args);
      OrTermsSize(args, []);
      MadeSize(args, OrTerms(args, []));
      if |args| == 1 { ReadLess(p); }
    case _ =>
  }

  lemma {:induction false} ReadLess(p: Pred)
    requires Full(p) && (p.And? || p.Or?) && |p.args| == 1
    ensures Size(Read(p)) < Size(p)
    decreases p, 0
  {
    assert p.args[0] in p.args && p.args[1..] == [];
    ReadSingle(p);
    ReadSize(p.args[0]);
  }

  lemma MadeSize(args: seq<Pred>, ts: seq<Pred>)
    requires Sizes(ts) <= Sizes(args)
    ensures Size(MakeAnd(ts)) <= 1 + Sizes(ts) && Size(MakeOr(ts)) <= 1 + Sizes(ts)
    ensures args + [] == args
  {
    if |ts| == 1 { assert ts[1..] == []; }
  }

  /** A predicate of plain words is printed and read back as it was exactly when it is in normal form. */
  lemma {:induction false} ReadBackIffNormal(p: Pred)
    requires Plainly(p)
    ensures Parse(String(p)) == Some(p) <==> Normal(p)
  {
    PrintedIsRead(p);
    NormalFull(p);
    if Full(p) { ReadSize(p); }
  }

  lemma {:induction false} NormalFull(p: Pred)
    ensures Normal(p) ==> Full(p)
    decreases p
  {
    match p
    case Not(a) => NormalFull(a);
    case And(args) => forall a | a in args ensures Normal(a) ==> Full(a) { NormalFull(a); }
    case Or(args) => forall a | a in args ensures Normal(a) ==> Full(a) { NormalFull(a); }
    case _ =>
  }

  // ----- and as it was, flattened -----

  lemma {:induction false} TermsOfFlatAnds(args: seq<Pred>, fm: seq<Pred>, more: seq<Pred>)
    ensures AndTerms(FlatAnds(args, fm), more) == AndTerms(args, AndTerms(fm, more))
    decreases args, 1
  {
    if args != [] {
      var a, rest := args[0], FlatAnds(args[1..], fm);
      TermsOfFlatAnds(args[1..], fm, more);
      if a.And? {
        TermsOfFlatAnds(a.args, rest, more);
      } else {
        assert ([Flat(a)] + rest)[1..] == rest;
        ReadFlat(a);
      }
    }
  }

  lemma {:induction false} TermsOfFlatOrs(args: seq<Pred>, fm: seq<Pred>, more: seq<Pred>)
    ensures OrTerms(FlatOrs(args, fm), more) == OrTerms(args, OrTerms(fm, more))
    decreases args, 1
  {
    if args != [] {
      var a, rest := args[0], FlatOrs(args[1..], fm);
      TermsOfFlatOrs(args[1..], fm, more);
      if a.Or? {
        TermsOfFlatOrs(a.args, rest, more);
      } else {
        assert ([Flat(a)] + rest)[1..] == rest;
        ReadFlat(a);
      }
    }
  }

  /** Flattened or not, it is read the same. */
  lemma {:induction false} ReadFlat(p: Pred)
    ensures Read(Flat(p)) == Read(p)
    decreases p, 0
  {
    match p
    case Not(a) => ReadFlat(a);
    case And(args) => TermsOfFlatAnds(args, [], []);
    case Or(args) => TermsOfFlatOrs(args, [], []);
    case _ =>
  }

  lemma {:induction false} FlatAndsFull(args: seq<Pred>, more: seq<Pred>)
    requires forall a | a in args + more :: Full(a)
    ensures forall a | a in FlatAnds(args, more) :: Full(a)
    ensures |FlatAnds(args, more)| >= |args| + |more|
    decreases args, 1
  {
    if args != [] {
      var a := args[0];
      assert a in args + more && forall b | b in args[1..] + more :: b in args + more;
      FlatAndsFull(args[1..], more);
      if a.And? {
        FlatAndsFull(a.args, FlatAnds(args[1..], more));
      } else {
        FlatFull(a);
      }
    } else {
      assert args + more == more;
    }
  }

  lemma {:induction false} FlatOrsFull(args: seq<Pred>, more: seq<Pred>)
    requires forall a | a in args + more :: Full(a)
    ensures forall a | a in FlatOrs(args, more) :: Full(a)
    ensures |FlatOrs(args, more)| >= |args| + |more|
    decreases args, 1
  {
    if args != [] {
      var a := args[0];
      assert a in args + more && forall b | b in args[1..] + more :: b in args + more;
      FlatOrsFull(args[1..], more);
      if a.Or? {
        FlatOrsFull(a.args, FlatOrs(args[1..], more));
      } else {
        FlatFull(a);
      }
    } else {
      assert args + more == more;
    }
  }

  lemma {:induction false} FlatFull(p: Pred)
    requires Full(p)
    ensures Full(Flat(p))
    decreases p, 0
  {
    match p
    case Not(a) => FlatFull(a);
    case And(args) => assert args + [] == args; FlatAndsFull(args, []);
    case Or(args) => assert args + [] == args; FlatOrsFull(args, []);
    case _ =>
  }

  /** What is read is the flattened predicate exactly when, flattened, it has no and, and no or, of a single term, and none was empty. */
  lemma {:induction false} FlatIsReadIff(p: Pred)
    requires Plainly(p)
    ensures Parse(String(p)) == Some(Flat(p)) <==> Full(p) && Normal(Flat(p))
  {
    PrintedIsRead(p);
    if Full(p) {
      FlatFull(p);
      ReadFlat(p);
      ReadSize(Flat(p));
    }
  }

  // ----- not equal -----

  /** The number that a comparison is about, if there is one. */
  function NumOf(name: string, e: Dir, lvl: int, env: Env): Option<int>
  {
    if name == "depth" then Some(lvl) else if name in e then env.num(e[name]) else None
  }

  /** Not equal, for numbers, is more than: that is right exactly when the number is not less. */
  lemma NotEqualIsMore(name: string, value: string, a: int, b: int, e: Dir, lvl: int, env: Env)
    requires NumOf(name, e, lvl, env) == Some(a) && env.num(value) == Some(b)
    ensures Eval(Cmp(Neq, name, value), e, lvl, env) == Eval(Cmp(Gt, name, value), e, lvl, env)
    ensures Eval(Cmp(Neq, name, value), e, lvl, env).v == (a != b) <==> a >= b
  {}

  /** A file of size 1 is not one of a size that is not 2. */
  lemma OneIsNotTwo(lvl: int, env: Env)
    requires env.num("1") == Some(1) && env.num("2") == Some(2)
    ensures Eval(Cmp(Neq, "size", "2"), map["size" := "1"], lvl, env) == Res(false, false, "")
  {}

  // ----- exactly which comparisons are read back -----

  /** Names that short forms stand for. */
  predicate IsShort(name: string)
  {
    name == "type" || name == "depth" || name == "name" || name == "path"
  }

  lemma ShortIsPlain(name: string)
    requires IsShort(name)
    ensures PlainName(name)
  {
    hide Plain, IsInt, WordTok;
    PlainLetters(name);
    ShortIsWord(name);
  }

  lemma ShortIsWord(name: string)
    requires IsShort(name)
    ensures WordTok(name) == TName && !IsTypeName(name) && !IsInt(name)
  {
    assert DigitsEnd(name) == 0;
  }

  /** If one comparison is all that is read, it is the first thing read. */
  lemma OnlyPrim(ts: Toks, c: Pred, rest: Toks)
    requires ParseOrs(ts) == Ok(c, rest) && c.Cmp?
    ensures ParsePrim(ts).Ok? && ParsePrim(ts).p == c
  {
    var l := OrList(ts);
    assert l.OkAll? && l.ps == [c];
    var a := ParseAnds(ts);
    assert a.Ok? && l.ps == [a.p] + OrTail(a.rest).ps;
    assert a.p == l.ps[0] == c;
    var al := AndList(ts);
    assert al.OkAll? && al.ps == [c];
    var b := ParsePrim(ts);
    assert al.ps == [b.p] + AndTail(b.rest).ps;
    assert b.p == al.ps[0];
  }

  /** After q spaces and parentheses, s has name as a token. */
  predicate NamedAt(s: string, q: nat, name: string)
  {
    Skipped(s, q) && IsName(s[q..], name)
  }

  /** Where the name of the first comparison comes from. */
  lemma PrimName(ts: Toks, c: Pred, rest: Toks)
    requires ParsePrim(ts) == Ok(c, rest) && c.Cmp?
    ensures ts.More? && (ts.tok == TName || ts.tok == TLpar || IsShort(c.name))
    ensures ts.tok == TName ==> IsShort(c.name) || (c.name == ts.val && !IsTypeName(ts.val) && !IsInt(ts.val))
    ensures ts.tok == TLpar ==> ParseOrs(ts.rest).Ok? && ParseOrs(ts.rest).p == c
  {
    hide IsInt, ParseOrs;
  }

  lemma LexNext(s: string)
    requires Lex(s).More?
    ensures LexOne(s).Got? && Lex(s) == (LexShrinks(s); More(LexOne(s).tok, LexOne(s).val, Lex(LexOne(s).rest)))
  {}

  /** The name of a comparison comes from a short form, or from the text. */
  lemma {:induction false} NameFrom(s: string, c: Pred, rest: Toks)
    requires ParsePrim(Lex(s)) == Ok(c, rest) && c.Cmp?
    ensures IsShort(c.name) || exists q :: NamedAt(s, q, c.name)
    decreases |s|
  {
    LexShrinks(s);
    PrimName(Lex(s), c, rest);
    LexNext(s);
    hide Lex, ParsePrim, ParseOrs, IsInt, IsTypeName, IsShort, NextTok;
    if !IsShort(c.name) {
      if Lex(s).tok == TName {
        assert s[0..] == s;
        assert NamedAt(s, 0, c.name);
      } else {
        ParenIs(s[Spaces(s)..]);
        var r := LexOne(s).rest;
        OnlyPrim(Lex(r), c, ParseOrs(Lex(r)).rest);
        NameFrom(r, c, ParsePrim(Lex(r)).rest);
        var q :| NamedAt(r, q, c.name);
        NamedLater(s, r, q, c.name);
      }
    }
  }

  predicate Skipped(s: string, q: nat)
  {
    q <= |s| && forall i | 0 <= i < q :: IsSpace(s[i]) || s[i] == '('
  }

  predicate IsName(s: string, name: string)
  {
    && LexOne(s).Got? && LexOne(s).tok == TName && LexOne(s).val == name
    && !IsTypeName(name) && !IsInt(name)
  }

  lemma NamedLater(s: string, r: string, q: nat, name: string)
    requires Spaces(s) < |s| && s[Spaces(s)] == '(' && r == s[Spaces(s)..][1..] && NamedAt(r, q, name)
    ensures NamedAt(s, Spaces(s) + 1 + q, name)
  {
    hide *;
    SkipParen(s, Spaces(s));
    DropTwice(s, Spaces(s), 1);
    NamedMore(s, Spaces(s) + 1, q, name);
  }

  lemma DropTwice(s: string, a: nat, b: nat)
    requires a + b <= |s|
    ensures s[a..][b..] == s[a + b..]
  {}

  lemma SkipParen(s: string, n: nat)
    requires n == Spaces(s) < |s| && s[n] == '('
    ensures Skipped(s, n + 1)
  {}

  lemma NamedMore(s: string, n: nat, q: nat, name: string)
    requires n <= |s| && Skipped(s, n) && NamedAt(s[n..], q, name)
    ensures NamedAt(s, n + q, name)
  {
    SkippedMore(s, n, q);
    hide Skipped, IsName;
    assert s[n..][q..] == s[n + q..];
  }

  lemma SkippedMore(s: string, n: nat, q: nat)
    requires n <= |s| && Skipped(s, n) && Skipped(s[n..], q)
    ensures Skipped(s, n + q) && n + q <= |s|
  {
    assert forall i | n <= i < n + q :: s[i] == s[n..][i - n];
  }

  lemma ParenIs(t: string)
    requires (t != "" ==> !IsSpace(t[0])) && NextTok(t).Got? && NextTok(t).tok == TLpar
    ensures t != "" && t[0] == '(' && NextTok(t).rest == t[1..]
  {}

  lemma WordIs(t: string)
    requires t != "" && !IsSpace(t[0]) && !IsSpecial(t[0])
    ensures NextTok(t).Got? && Plain(NextTok(t).val) && NextTok(t).tok == WordTok(NextTok(t).val)
  {
    var n := WordEnd(t[1..]);
    var w := t[..1 + n];
    WordStarts(t);
    hide NextTok, WordTok, IsSpecial, IsPunct;
    assert w[0] == t[0];
    assert forall i | 0 < i < |w| :: w[i] == t[1..][i - 1];
  }

  lemma QuotedIs(t: string)
    requires t != "" && (t[0] == '"' || t[0] == '\'') && NextTok(t).Got?
    ensures t[0] !in NextTok(t).val
  {
    hide WordTok, IsSpecial;
    var n := Find(t[1..], t[0]);
    assert NextTok(t).val == t[1..][..n];
  }

  lemma SpecialIs(t: string)
    requires t != "" && IsSpecial(t[0]) && t[0] != '"' && t[0] != '\'' && NextTok(t).Got?
    ensures NextTok(t).tok != TName
  {}

  /** A name in a text is a plain word, or was quoted. */
  lemma NameIs(t: string)
    requires (t != "" ==> !IsSpace(t[0])) && NextTok(t).Got? && NextTok(t).tok == TName
    ensures t != ""
    ensures PlainValue(NextTok(t).val) || ((t[0] == '"' || t[0] == '\'') && t[0] !in NextTok(t).val)
  {
    assert t != "";
    hide NextTok, IsSpecial, Plain;
    if !IsSpecial(t[0]) {
      WordIs(t);
    } else if t[0] == '"' || t[0] == '\'' {
      QuotedIs(t);
    } else {
      SpecialIs(t);
    }
  }

  /** A comparison is printed and read back exactly when its name and its value are plain words that stand for nothing else. */
  lemma {:induction false} ReadBackIffPlain(op: Op, name: string, value: string)
    ensures Parse(String(Cmp(op, name, value))) == Some(Cmp(op, name, value)) <==> PlainName(name) && PlainValue(value)
  {
    var c := Cmp(op, name, value);
    if PlainName(name) && PlainValue(value) {
      PrintedIsRead(c);
    }
    if Parse(String(c)) == Some(c) {
      OnlyPrim(Lex(String(c)), c, ParseOrs(Lex(String(c))).rest);
      NameIsPlain(c);
      ValueIsPlain(c);
    }
  }

  lemma {:induction false} NameIsPlain(c: Pred)
    requires c.Cmp? && ParsePrim(Lex(String(c))).Ok? && ParsePrim(Lex(String(c))).p == c
    ensures PlainName(c.name)
  {
    hide *;
    var s := String(c);
    NameFrom(s, c, ParsePrim(Lex(s)).rest);
    if IsShort(c.name) {
      ShortIsPlain(c.name);
    } else {
      var q :| NamedAt(s, q, c.name);
      PlainIfNamed(c, q);
    }
  }

  lemma SkipSpaces(s: string, q: nat)
    requires Skipped(s, q)
    ensures Skipped(s, q + Spaces(s[q..])) && s[q..][Spaces(s[q..])..] == s[q + Spaces(s[q..])..]
  {
    var t := s[q..];
    assert forall i | 0 <= i < |t| :: t[i] == s[q + i];
    forall i | 0 <= i < q + Spaces(t) ensures IsSpace(s[i]) || s[i] == '(' {
      if i >= q { assert s[i] == t[i - q]; }
    }
  }

  /** What follows spaces and parentheses is in the name, or starts the operator. */
  lemma NotQuoted(c: Pred, at: nat)
    requires c.Cmp? && at < |String(c)| && Skipped(String(c), at) && String(c)[at] !in c.name
    ensures String(c)[at] != '"' && String(c)[at] != '\''
  {
    OpFollows(c);
    hide String, OpStr;
    var s, n := String(c), |c.name|;
    assert at <= n + 1;
  }

  lemma NameHere(t: string, name: string)
    requires IsName(t, name)
    ensures Spaces(t) < |t| && !IsTypeName(name) && !IsInt(name)
    ensures PlainValue(name) || ((t[Spaces(t)] == '"' || t[Spaces(t)] == '\'') && t[Spaces(t)] !in name)
  {
    NameIs(t[Spaces(t)..]);
    hide NextTok, IsInt, Plain;
  }

  lemma {:induction false} PlainIfNamed(c: Pred, q: nat)
    requires c.Cmp? && NamedAt(String(c), q, c.name)
    ensures PlainName(c.name)
  {
    var s := String(c);
    NameHere(s[q..], c.name);
    SkipSpaces(s, q);
    var at := q + Spaces(s[q..]);
    assert s[q..][Spaces(s[q..])] == s[at];
    hide String, IsName, IsInt, Plain, Skipped, Spaces;
    if !PlainValue(c.name) {
      NotQuoted(c, at);
    }
  }

  /** After the name comes the operator: it is no space, and it does not open anything. */
  lemma OpFollows(c: Pred)
    requires c.Cmp?
    ensures var s, n := String(c), |c.name|;
            && |s| > n + 1 && s[..n] == c.name && s[n] == ' ' && s[n + 1] == OpStr(c.op)[0]
            && !IsSpace(s[n + 1]) && s[n + 1] != '(' && s[n + 1] != '"' && s[n + 1] != '\''
            && forall i | 0 <= i < n :: s[i] == c.name[i] && s[i] in c.name
  {
    var s, n := String(c), |c.name|;
    assert s == c.name + (" " + (OpStr(c.op) + (" " + c.value)));
  }

  lemma {:induction false} ValueIsPlain(c: Pred)
    requires c.Cmp? && PlainName(c.name) && ParsePrim(Lex(String(c))).Ok? && ParsePrim(Lex(String(c))).p == c
    ensures PlainValue(c.value)
  {
    LexUpToValue(c);
    ValueToken(c, Lex(String(c)), Lex(c.value));
    LexNext(c.value);
    hide *;
    PlainIfToken(c.value);
  }

  lemma LexUpToValue(c: Pred)
    requires c.Cmp? && PlainName(c.name)
    ensures Lex(String(c)) == More(TName, c.name, More(TOp(c.op), OpStr(c.op), Lex(c.value)))
  {
    var v := " " + c.value;
    assert String(c) == c.name + (" " + (OpStr(c.op) + v));
    hide Lex, OpStr, String;
    LexWord(c.name, " " + (OpStr(c.op) + v));
    LexSpace(OpStr(c.op) + v);
    LexOp(c.op, v);
    LexSpace(c.value);
  }

  lemma ValueToken(c: Pred, ts: Toks, vs: Toks)
    requires c.Cmp? && PlainName(c.name) && ts == More(TName, c.name, More(TOp(c.op), OpStr(c.op), vs))
    requires ParsePrim(ts).Ok? && ParsePrim(ts).p == c
    ensures vs.More? && vs.tok == TName && vs.val == c.value
  {
    hide Plain, IsInt;
  }

  lemma PlainIfToken(v: string)
    requires LexOne(v).Got? && LexOne(v).tok == TName && LexOne(v).val == v
    ensures PlainValue(v)
  {
    var n := Spaces(v);
    NameIs(v[n..]);
    hide NextTok, Plain;
    assert v[n..][0] == v[n] && v[n] in v;
  }

  // ----- the parser -----

  class Lexer {
    var t: string

    constructor (s: string)
      ensures t == s
    {
      t := s;
    }

    /** Scan the next token; at the end, or if it is not complete, there is none. */
    method Scan() returns (ok: bool, eof: bool, tok: Tok, val: string)
      modifies this
      ensures ok <==> LexOne(old(t)).Got?
      ensures ok ==> LexOne(old(t)) == Got(tok, val, t)
      ensures eof <==> LexOne(old(t)).End?
    {
      SkipBlanks();
      hide NextTok, IsSpecial, IsPunct, IsSpace, Spaces;
      NoneLeft(t);
      ok, eof, tok, val := false, false, TNone, "";
      if t == "" {
        eof := true;
        return;
      }
      var c := t[0];
      if c == '"' || c == '\'' {
        ok, tok, val := Quoted(c);
        return;
      }
      if IsSpecial(c) {
        ok := true;
        tok, val := Special(c);
        return;
      }
      ok := true;
      tok, val := Word();
    }

    method SkipBlanks()
      modifies this
      ensures t == old(t)[Spaces(old(t))..] && LexOne(old(t)) == NextTok(t) && (t != "" ==> !IsSpace(t[0]))
    {
      ghost var s := t;
      ghost var n: nat := 0;
      while |t| > 0 && IsSpace(t[0])
        invariant n <= |s| && t == s[n..] && Spaces(s) == n + Spaces(t)
        decreases |t|
      {
        assert s[n..][1..] == s[n + 1..];
        t := t[1..];
        n := n + 1;
      }
      assert Spaces(t) == 0;
    }

    method Word() returns (tok: Tok, val: string)
      requires t != "" && !IsSpace(t[0]) && !IsSpecial(t[0])
      modifies this
      ensures NextTok(old(t)) == Got(tok, val, t)
    {
      WordStarts(t);
      hide NextTok, IsSpecial, IsPunct, IsSpace;
      ghost var now := t;
      var i := 1;
      while i < |t| && !IsPunct(t[i]) && !IsSpace(t[i])
        invariant 1 <= i <= |t| && t == now && WordEnd(t[1..]) == i - 1 + WordEnd(t[i..])
      {
        assert t[i..][1..] == t[i + 1..];
        i := i + 1;
      }
      tok, val := WordTok(t[..i]), t[..i];
      t := t[i..];
    }

    method Quoted(c: char) returns (ok: bool, tok: Tok, val: string)
      requires t != "" && t[0] == c && (c == '"' || c == '\'')
      modifies this
      ensures ok <==> NextTok(old(t)).Got?
      ensures ok ==> NextTok(old(t)) == Got(tok, val, t)
      ensures !NextTok(old(t)).End?
    {
      ok, tok, val := false, TName, "";
      if |t| == 1 {
        tok := TNone;
        return;
      }
      var i := 1;
      while i < |t| && t[i] != c
        invariant 1 <= i <= |t| && t == old(t) && Find(t[1..], c) == i - 1 + Find(t[i..], c)
      {
        assert t[i..][1..] == t[i + 1..];
        i := i + 1;
      }
      if i < |t| {
        assert t[1..i] == t[1..][..i - 1] && t[i + 1..] == t[1..][i..];
        ok, val := true, t[1..i];
        t := t[i + 1..];
      }
    }

    method Special(c: char) returns (tok: Tok, val: string)
      requires t != "" && t[0] == c && IsSpecial(c) && c != '"' && c != '\''
      modifies this
      ensures NextTok(old(t)) == Got(tok, val, t)
    {
      if c == '~' && |t| > 1 && t[1] == '~' {
        assert t[2..] == t[1..][1..];
        tok, val, t := TOp(Rexp), "~~", t[2..];
      } else if (c == '>' || c == '<' || c == '!' || c == '=') && |t| > 1 && t[1] == '=' {
        assert t[2..] == t[1..][1..];
        if c == '!' {
          if |t| > 2 && t[2] == '=' {
            assert t[3..] == t[1..][2..];
            tok, val, t := TOp(Neq), "!==", t[3..];
          } else {
            tok, val, t := TOp(Neqs), "!=", t[2..];
          }
        } else if c == '=' {
          tok, val, t := TOp(Eq), "==", t[2..];
        } else if c == '<' {
          tok, val, t := TOp(Le), "<=", t[2..];
        } else {
          tok, val, t := TOp(Ge), ">=", t[2..];
        }
      } else {
        tok, val, t := One(c), [c], t[1..];
      }
    }

    method Peek() returns (ok: bool, eof: bool, tok: Tok, val: string)
      modifies this
      ensures t == old(t)
      ensures match Lex(t) case Eof => eof && !ok case Bad(_) => !eof && !ok case More(k, v, _) => ok && !eof && tok == k && val == v
    {
      var was := t;
      LexIs(t);
      ok, eof, tok, val := Scan();
      t := was;
    }

    /** Take a token that is known to be next. */
    method Take() returns (ok: bool, tok: Tok, val: string)
      modifies this
      ensures ok <==> Lex(old(t)).More?
      ensures ok ==> Lex(old(t)) == More(tok, val, Lex(t)) && |t| < |old(t)|
    {
      LexIs(t);
      LexShrinks(t);
      var eof;
      ok, eof, tok, val := Scan();
    }

    method Ors() returns (ok: bool, p: Pred)
      modifies this
      ensures ok <==> ParseOrs(Lex(old(t))).Ok?
      ensures ok ==> ParseOrs(Lex(old(t))) == Ok(p, Lex(t)) && |t| < |old(t)|
      decreases |t|, 2
    {
      hide *;
      p := True;
      ghost var start := Lex(t);
      OrStarts(start);
      var a;
      ok, a := Ands();
      if !ok { return; }
      var args := [a];
      while true
        invariant |t| < |old(t)| && |args| > 0 && OrRead(start, args, Lex(t))
        decreases |t|
      {
        OrIsRead(start, args, Lex(t));
        var some, eof, op, v := Peek();
        if !some || op != TOr {
          ok := some || eof;
          p := if |args| == 1 then args[0] else Or(args);
          return;
        }
        OrGoesOn(start, args, Lex(t));
        some, op, v := Take();
        ok, a := Ands();
        if !ok { return; }
        args := args + [a];
      }
    }

    method Ands() returns (ok: bool, p: Pred)
      modifies this
      ensures ok <==> ParseAnds(Lex(old(t))).Ok?
      ensures ok ==> ParseAnds(Lex(old(t))) == Ok(p, Lex(t)) && |t| < |old(t)|
      decreases |t|, 1
    {
      hide *;
      p := True;
      ghost var start := Lex(t);
      AndStarts(start);
      var a;
      ok, a := Prim();
      if !ok { return; }
      var args := [a];
      while true
        invariant |t| < |old(t)| && |args| > 0 && AndRead(start, args, Lex(t))
        decreases |t|
      {
        AndIsRead(start, args, Lex(t));
        var some, eof, op, v := Peek();
        if !some || op != TAnd {
          ok := some || eof;
          p := if |args| == 1 then args[0] else And(args);
          return;
        }
        AndGoesOn(start, args, Lex(t));
        some, op, v := Take();
        ok, a := Prim();
        if !ok { return; }
        args := args + [a];
      }
    }

    method Prim() returns (ok: bool, p: Pred)
      modifies this
      ensures ok <==> ParsePrim(Lex(old(t))).Ok?
      ensures ok ==> ParsePrim(Lex(old(t))) == Ok(p, Lex(t)) && |t| < |old(t)|
      decreases |t|, 0
    {
      p := True;
      var tok, v;
      ok, tok, v := Take();
      if !ok { return; }
      match tok {
        case TPrune => p := Prune;
        case TTrue => p := True;
        case TFalse => p := False;
        case TName => ok, p := Comparison(v);
        case TOp(op) => ok, p := Unary(op);
        case TNot =>
          ok, p := Prim();
          p := Not(p);
        case TLpar =>
          ok, p := Ors();
          if !ok { return; }
          var r, w;
          ok, r, w := Take();
          ok := ok && r == TRpar;
        case _ => ok := false;
      }
    }

    /** A word that stands for a type or a depth, or the name, the operator and the value of a comparison. */
    method Comparison(v1: string) returns (ok: bool, p: Pred)
      modifies this
      ensures ok <==> ParsePrim(More(TName, v1, Lex(old(t)))).Ok?
      ensures ok ==> ParsePrim(More(TName, v1, Lex(old(t)))) == Ok(p, Lex(t)) && |t| <= |old(t)|
    {
      ok, p := true, True;
      if IsTypeName(v1) {
        p := Cmp(Eqs, "type", v1);
        return;
      }
      if IsInt(v1) {
        p := Cmp(Le, "depth", v1);
        return;
      }
      var x, o;
      ok, x, o := Take();
      if !ok || !x.TOp? {
        return false, p;
      }
      var t2, v2;
      ok, t2, v2 := Take();
      if !ok || t2 != TName {
        return false, p;
      }
      p := Cmp(x.op, v1, v2);
    }

    /** A comparison without a name is with the path, if the value has a slash, or with the name. */
    method Unary(op: Op) returns (ok: bool, p: Pred)
      modifies this
      ensures ok <==> ParsePrim(More(TOp(op), "", Lex(old(t)))).Ok?
      ensures ok ==> ParsePrim(More(TOp(op), "", Lex(old(t)))) == Ok(p, Lex(t)) && |t| <= |old(t)|
    {
      p := True;
      if op != Match && op != Eqs && op != Rexp {
        return false, p;
      }
      var t2, v2;
      ok, t2, v2 := Take();
      if !ok || t2 != TName {
        return false, p;
      }
      p := Cmp(op, if '/' in v2 then "path" else "name", v2);
    }
  }

  lemma NoneLeft(t: string)
    requires t != "" ==> !IsSpace(t[0])
    ensures NextTok(t).End? <==> t == ""
  {}

  /** args have been read since start, and now comes the rest. */
  predicate AndRead(start: Toks, args: seq<Pred>, now: Toks)
  {
    args != [] && AndList(start) == Joined(args, AndTail(now))
  }

  lemma AndStarts(start: Toks)
    ensures ParsePrim(start).Err? ==> ParseAnds(start).Err?
    ensures ParsePrim(start).Ok? ==> AndRead(start, [ParsePrim(start).p], ParsePrim(start).rest)
  {}

  lemma AndIsRead(start: Toks, args: seq<Pred>, now: Toks)
    requires AndRead(start, args, now)
    ensures now.Bad? ==> ParseAnds(start).Err?
    ensures now.Eof? || (now.More? && now.tok != TAnd) ==>
      ParseAnds(start) == Ok(if |args| == 1 then args[0] else And(args), now)
  {
    assert args + [] == args;
  }

  lemma AndGoesOn(start: Toks, args: seq<Pred>, now: Toks)
    requires AndRead(start, args, now) && now.More? && now.tok == TAnd
    ensures ParsePrim(now.rest).Err? ==> ParseAnds(start).Err?
    ensures ParsePrim(now.rest).Ok? ==> AndRead(start, args + [ParsePrim(now.rest).p], ParsePrim(now.rest).rest)
  {
    assert AndTail(now) == AndList(now.rest);
    if ParsePrim(now.rest).Ok? {
      JoinedMore(args, ParsePrim(now.rest).p, AndTail(ParsePrim(now.rest).rest));
    }
  }

  predicate OrRead(start: Toks, args: seq<Pred>, now: Toks)
  {
    args != [] && OrList(start) == Joined(args, OrTail(now))
  }

  lemma OrStarts(start: Toks)
    ensures ParseAnds(start).Err? ==> ParseOrs(start).Err?
    ensures ParseAnds(start).Ok? ==> OrRead(start, [ParseAnds(start).p], ParseAnds(start).rest)
  {}

  lemma OrIsRead(start: Toks, args: seq<Pred>, now: Toks)
    requires OrRead(start, args, now)
    ensures now.Bad? ==> ParseOrs(start).Err?
    ensures now.Eof? || (now.More? && now.tok != TOr) ==>
      ParseOrs(start) == Ok(if |args| == 1 then args[0] else Or(args), now)
  {
    assert args + [] == args;
  }

  lemma OrGoesOn(start: Toks, args: seq<Pred>, now: Toks)
    requires OrRead(start, args, now) && now.More? && now.tok == TOr
    ensures ParseAnds(now.rest).Err? ==> ParseOrs(start).Err?
    ensures ParseAnds(now.rest).Ok? ==> OrRead(start, args + [ParseAnds(now.rest).p], ParseAnds(now.rest).rest)
  {
    assert OrTail(now) == OrList(now.rest);
    if ParseAnds(now.rest).Ok? {
      JoinedMore(args, ParseAnds(now.rest).p, OrTail(ParseAnds(now.rest).rest));
    }
  }

  lemma LexIs(t: string)
    ensures Lex(t) == match LexOne(t) case End => Eof case Fail(k) => Bad(k) case Got(k, v, rest) => (LexShrinks(t); More(k, v, Lex(rest)))
  {}

  function Joined(args: seq<Pred>, more: ParsedAll): ParsedAll
  {
    if more.OkAll? then OkAll(args + more.ps, more.rest) else ErrAll
  }

  lemma JoinedMore(args: seq<Pred>, a: Pred, more: ParsedAll)
    ensures Joined(args, Joined([a], more)) == Joined(args + [a], more)
  {
    if more.OkAll? { assert args + ([a] + more.ps) == (args + [a]) + more.ps; }
  }

  /** Compile a predicate; the empty text stands for the one that is always true. */
  method New(s: string) returns (ok: bool, p: Option<Pred>)
    ensures s == "" ==> ok && p == None
    ensures s != "" ==> (ok <==> Parse(s).Some?) && (ok ==> p == Parse(s))
    ensures Compile(s) == if ok then Some(p) else None
  {
    if s == "" {
      return true, None;
    }
    var l := new Lexer(s);
    var q;
    ok, q := l.Ors();
    if !ok { return false, None; }
    var more, tok, v := l.Take();
    if more {
      return false, None;   // syntax error
    }
    p := Some(q);
  }
}
