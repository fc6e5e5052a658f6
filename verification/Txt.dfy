/**
  In-memory text with insertion, removal, marks, and undo and redo.

  The class keeps pieces, an edit log and a cached position as the program does, and is proved
  against the flat text. The texts the user saw are kept as history, and the log is proved
  to lead from each to the next.
 */
module Txt {
  import opened Pieces
  import opened TxtPieces

  datatype Tedit = Eins | Edel

  datatype Edit = Edit(op: Tedit, off: nat, data: seq<Rune>, contd: bool)

  datatype Mark = Mark(off: int, equaltoo: bool)

  /** The position cached by Getc: its offset, negative if there is none, its piece and place. */
  datatype Seek = Seek(off: int, i: int, n: int)

  datatype Option<+T> = None | Some(value: T)

  // ----- positions -----

  function Pins(old_: int, insp: int, inssz: int): int
  {
    if old_ < insp then old_ else old_ + inssz
  }

  function Pdel(old_: int, delp0: int, delp1: int): int
  {
    if old_ < delp0 then old_ else if old_ < delp1 then delp0 else old_ - (delp1 - delp0)
  }

  /** A mark away from the insertion stays between the same runes. */
  lemma MarkTracksIns(s: seq<Rune>, p0: nat, x: seq<Rune>, m: nat)
    requires p0 <= |s| && m <= |s| && m != p0
    ensures var s', m' := Inserted(s, p0, x), Pins(m, p0, |x|);
            0 <= m' <= |s'| && if m < p0 then s'[..m'] == s[..m] && s'[m'] == s[m] else s'[m'..] == s[m..] && s'[m' - 1] == s[m - 1]
  {}

  /** A mark outside the runes deleted stays by the same runes, one within them goes to their place. */
  lemma MarkTracksDel(s: seq<Rune>, p0: nat, n: nat, m: nat)
    requires p0 + n <= |s| && m <= |s|
    ensures var s', m' := s[..p0] + s[p0 + n..], Pdel(m, p0, p0 + n);
            && 0 <= m' <= |s'|
            && (m <= p0 ==> s'[..m'] == s[..m])
            && (m >= p0 + n ==> s'[m'..] == s[m..])
            && (p0 <= m < p0 + n ==> m' == p0)
  {}

  /** Where the marks go when e is made at a mark, or at none. */
  predicate Moved(marks: map<string, Mark>, marks': map<string, Mark>, e: Edit, at: Option<string>)
  {
    && marks'.Keys == marks.Keys
    && forall k | k in marks ::
         marks'[k] == marks[k].(off :=
           if e.op == Edel then Pdel(marks[k].off, e.off, e.off + |e.data|)
           else if marks[k].off != e.off || marks[k].equaltoo || at == Some(k) then Pins(marks[k].off, e.off, |e.data|)
           else marks[k].off)
  }

  // ----- what an edit does to a text -----

  /** A mark at the end of what is deleted goes to its start. */
  lemma DeletedMark(marks: map<string, Mark>, marks': map<string, Mark>, e: Edit, name: string, k: nat)
    requires Moved(marks, marks', e, Some(name)) && e.op == Edel && name in marks && marks[name].off == e.off + k
    ensures name in marks' && (|e.data| == k ==> marks'[name].off == e.off)
  {}

  lemma CutIs(s: seq<Rune>, off: nat, k: nat)
    ensures off + k <= |s| ==> |Cut(s, off, k)| == k
  {}

  /** e turns s into t. */
  predicate Follows(s: seq<Rune>, e: Edit, t: seq<Rune>)
  {
    match e.op
    case Eins => e.off <= |s| && t == Inserted(s, e.off, e.data)
    case Edel =>
      if e.data == [] then t == s
      else e.off + |e.data| <= |s| && s[e.off..e.off + |e.data|] == e.data && t == s[..e.off] + s[e.off + |e.data|..]
  }

  function Inverse(e: Edit): Edit
  {
    e.(op := if e.op == Eins then Edel else Eins)
  }

  /** The text after applying e, whether or not it is as e expects. */
  function After(s: seq<Rune>, e: Edit): seq<Rune>
  {
    match e.op
    case Eins => if e.off <= |s| then Inserted(s, e.off, e.data) else s
    case Edel => Deleted(s, e.off, |e.data|)
  }

  lemma {:induction false} FollowsIsAfter(s: seq<Rune>, e: Edit, t: seq<Rune>)
    requires Follows(s, e, t)
    ensures After(s, e) == t && |t| == if e.op == Eins then |s| + |e.data| else |s| - |e.data|
  {}

  /** Undoing an edit in a text that edit led to gives the text before it. */
  lemma {:induction false} InverseUndoes(s: seq<Rune>, e: Edit, t: seq<Rune>)
    requires Follows(s, e, t)
    ensures After(t, Inverse(e)) == s && |s| == if e.op == Eins then |t| - |e.data| else |t| + |e.data|
    ensures e.op == Eins ==> e.off + |e.data| <= |t|
    ensures e.op == Edel && e.data != [] ==> e.off <= |t|
  {
    if e.op == Edel && e.data != [] {
      assert s == s[..e.off] + s[e.off..e.off + |e.data|] + s[e.off + |e.data|..];
    }
    if e.op == Edel && e.data == [] && e.off <= |t| {
      assert Inserted(t, e.off, []) == t;
    }
  }

  lemma InsertedLength(s: seq<Rune>, off: nat, x: seq<Rune>)
    ensures off <= |s| ==> |Inserted(s, off, x)| == |s| + |x|
  {}

  lemma MovedContd(marks: map<string, Mark>, marks': map<string, Mark>, e: Edit, contd: bool, at: Option<string>)
    requires Moved(marks, marks', e, at)
    ensures Moved(marks, marks', e.(contd := contd), at)
  {}

  /** Deleting the first rune and then what is now the second, undo puts the text back in another order. */
  lemma {:induction false} MergedDeleteLosesOrder()
    ensures var s, e := [1, 2, 3], Edit(Edel, 0, [1], false);
            && After(s, e) == [2, 3] && Merges([e], 1, Edel, 1)
            && Deleted([2, 3], 1, 1) == [2] && Cut([2, 3], 1, 1) == [3]
            && After([2], Inverse(e.(data := [1, 3]))) == [1, 3, 2] != s
  {}

  /** The log so far leads from each text to the next. */
  predicate Chain(hist: seq<seq<Rune>>, edits: seq<Edit>)
  {
    |hist| == |edits| + 1 && forall k | 0 <= k < |edits| :: Follows(hist[k], edits[k], hist[k + 1])
  }

  /** e makes a text of b runes one of n. */
  predicate Fits(e: Edit, b: int, n: int)
  {
    match e.op
    case Eins => n == b + |e.data| && (e.data == [] || e.off <= b)
    case Edel => n == b - |e.data| && (e.data == [] || e.off + |e.data| <= b)
  }

  lemma UndoStep(hist: seq<seq<Rune>>, edits: seq<Edit>, n: nat)
    requires Chain(hist, edits) && n < |edits|
    ensures |hist| == |edits| + 1
    ensures After(hist[n + 1], Inverse(edits[n])) == hist[n] && Fits(Inverse(edits[n]), |hist[n + 1]|, |hist[n]|)
  {
    InverseUndoes(hist[n], edits[n], hist[n + 1]);
  }

  /** The edit to redo, told whether the one after it continues it. */
  function Next(edits: seq<Edit>, n: nat): Edit
    requires n < |edits|
  {
    edits[n].(contd := n < |edits| - 1 && edits[n + 1].contd)
  }

  lemma NextIs(edits: seq<Edit>, n: nat, s: seq<Rune>)
    requires n < |edits|
    ensures After(s, Next(edits, n)) == After(s, edits[n])
    ensures AllSome(edits) ==> Next(edits, n).data != []
  {}

  lemma RedoStep(hist: seq<seq<Rune>>, edits: seq<Edit>, n: nat)
    requires Chain(hist, edits) && n < |edits|
    ensures |hist| == |edits| + 1
    ensures After(hist[n], edits[n]) == hist[n + 1] && Fits(Next(edits, n), |hist[n]|, |hist[n + 1]|)
  {
    FollowsIsAfter(hist[n], edits[n], hist[n + 1]);
  }

  /** New edits of the same kind right after the last one are added to it. */
  predicate Merges(edits: seq<Edit>, n: nat, op: Tedit, pos: nat)
    requires n <= |edits|
  {
    n > 0 && edits[n - 1].op == op && edits[n - 1].off + |edits[n - 1].data| == pos && |edits[n - 1].data| < 1024
  }

  lemma MergedInsert(s: seq<Rune>, e: Edit, t: seq<Rune>, x: seq<Rune>)
    requires e.op == Eins && Follows(s, e, t)
    ensures Follows(s, e.(data := e.data + x), Inserted(t, e.off + |e.data|, x))
  {}

  /** Deleting d and then r with x kept between them is deleting d + r exactly when x and r commute. */
  lemma {:induction false} CutsCommute(a: seq<Rune>, d: seq<Rune>, x: seq<Rune>, r: seq<Rune>, z: seq<Rune>)
    ensures var s, len := a + d + (x + r + z), |d| + |r|;
            s[|a|..|a| + len] == d + r && a + (x + z) == s[..|a|] + s[|a| + len..] <==> x + r == r + x
  {
    var w := x + r + z;
    var s, len := a + d + w, |d| + |r|;
    assert s[|a|..|a| + len] == d + w[..|r|];
    assert s[|a| + len..] == w[|r|..] && s[..|a|] == a;
    if d + w[..|r|] == d + r && a + (x + z) == a + w[|r|..] {
      assert (d + r)[|d|..] == r && (d + w[..|r|])[|d|..] == w[..|r|];
      assert (a + (x + z))[|a|..] == x + z && (a + w[|r|..])[|a|..] == w[|r|..];
      assert w == w[..|r|] + w[|r|..] == r + (x + z);
      assert w[..|x| + |r|] == x + r && (r + (x + z))[..|x| + |r|] == r + x;
    }
    if x + r == r + x {
      assert w == r + (x + z);
      assert w[..|r|] == r && w[|r|..] == x + z;
    }
  }

  lemma {:induction false} DeleteInParts(a: seq<Rune>, x: seq<Rune>, r: seq<Rune>, z: seq<Rune>)
    requires r != []
    ensures Cut(a + (x + r + z), |a| + |x|, |r|) == r
    ensures Deleted(a + (x + r + z), |a| + |x|, |r|) == a + (x + z)
  {}

  /**
    Deletes are merged when the second starts where the first would have ended had nothing
    been deleted. The merged edit describes both exactly when the second part of the text
    deleted commutes with the text kept between them.
   */
  lemma {:induction false} MergedDelete(a: seq<Rune>, e: Edit, x: seq<Rune>, r: seq<Rune>, z: seq<Rune>)
    requires e.op == Edel && e.data != [] && e.off == |a| && |x| == |e.data| && r != []
    ensures Follows(a + e.data + (x + r + z), e, a + (x + r + z))
    ensures Follows(a + e.data + (x + r + z), e.(data := e.data + r), Deleted(a + (x + r + z), |a| + |x|, |r|)) <==> x + r == r + x
  {
    DeleteInParts(a, x, r, z);
    CutsCommute(a, e.data, x, r, z);
    var s := a + e.data + (x + r + z);
    assert s[..|a|] + s[|a| + |e.data|..] == a + (x + r + z);
  }

  /** The text before and after a delete, cut where a merged delete would cut them. */
  lemma {:induction false} DeleteParts(s: seq<Rune>, e: Edit, t: seq<Rune>, r: seq<Rune>)
      returns (a: seq<Rune>, x: seq<Rune>, z: seq<Rune>)
    requires e.op == Edel && e.data != [] && Follows(s, e, t)
    requires var pos := e.off + |e.data|; pos + |r| <= |t| && t[pos..pos + |r|] == r
    ensures |a| == e.off && |x| == |e.data| && x == t[e.off..e.off + |e.data|]
    ensures s == a + e.data + (x + r + z) && t == a + (x + r + z)
  {
    var pos := e.off + |e.data|;
    a, x, z := t[..e.off], t[e.off..pos], t[pos + |r|..];
    assert t == a + (x + r + z);
    assert s == s[..e.off] + e.data + s[pos..];
    assert s[..e.off] == a && s[pos..] == t[e.off..];
  }

  /** A delete is recorded as it was unless it is merged with one it does not commute with. */
  predicate DelRecorded(edits: seq<Edit>, n: nat, s: seq<Rune>, off: nat, rs: seq<Rune>)
    requires n <= |edits|
  {
    rs != [] && Merges(edits, n, Edel, off) && edits[n - 1].off <= |s| && off <= |s| ==>
      var x := s[edits[n - 1].off..off];
      x + rs == rs + x
  }

  /** The log and the texts after a new edit, merged with the last one or not. */
  predicate Recorded(hist: seq<seq<Rune>>, edits: seq<Edit>, n: nat, op: Tedit, pos: nat, x: seq<Rune>, same: bool, t: seq<Rune>,
                     hist': seq<seq<Rune>>, edits': seq<Edit>)
    requires n <= |edits| && |hist| == |edits| + 1
  {
    if Merges(edits, n, op, pos) then
      edits' == edits[..n - 1] + [edits[n - 1].(data := edits[n - 1].data + x)] && hist' == hist[..n] + [t]
    else
      edits' == edits[..n] + [Edit(op, pos, x, same)] && hist' == hist[..n + 1] + [t]
  }

  /** Every edit of the log is about some runes. */
  predicate AllSome(edits: seq<Edit>)
  {
    forall k | 0 <= k < |edits| :: edits[k].data != []
  }

  lemma {:induction false} ChainSnoc(h: seq<seq<Rune>>, es: seq<Edit>, n: nat, e: Edit, t: seq<Rune>)
    requires Chain(h, es) && n <= |es|
    ensures Chain(h[..n + 1] + [t], es[..n] + [e]) <==> Follows(h[n], e, t)
  {
    var h', es' := h[..n + 1] + [t], es[..n] + [e];
    assert h'[n] == h[n] && es'[n] == e && h'[n + 1] == t;
    forall k | 0 <= k < n ensures Follows(h'[k], es'[k], h'[k + 1]) {
      assert Follows(h[k], es[k], h[k + 1]);
    }
  }

  lemma {:induction false} InsertKeepsChain(
      h: seq<seq<Rune>>, es: seq<Edit>, n: nat, s: seq<Rune>, off: nat, x: seq<Rune>, same: bool, es': seq<Edit>, h': seq<seq<Rune>>)
    requires Chain(h, es) && n <= |es| && h[n] == s && off <= |s|
    requires Recorded(h, es, n, Eins, off, x, same, Inserted(s, off, x), h', es')
    ensures Chain(h', es')
  {
    var t := Inserted(s, off, x);
    if Merges(es, n, Eins, off) {
      assert Follows(h[n - 1], es[n - 1], h[n]);
      MergedInsert(h[n - 1], es[n - 1], s, x);
      ChainSnoc(h, es, n - 1, es[n - 1].(data := es[n - 1].data + x), t);
    } else {
      ChainSnoc(h, es, n, Edit(Eins, off, x, same), t);
    }
  }

  lemma {:induction false} CutLength(t: seq<Rune>, off: nat, n: int)
    ensures var rs := Cut(t, off, n);
            && Cut(t, off, |rs|) == rs && Deleted(t, off, |rs|) == Deleted(t, off, n)
            && |Deleted(t, off, n)| == |t| - |rs|
            && (rs == [] ==> Deleted(t, off, n) == t)
            && (rs != [] ==> off + |rs| <= |t| && t[off..off + |rs|] == rs)
  {}

  lemma {:induction false} MergeRecordsSome(s: seq<Rune>, e: Edit, t: seq<Rune>, rs: seq<Rune>)
    requires e.op == Edel && Follows(s, e, t) && e.data != [] && rs != []
    requires var off := e.off + |e.data|; off + |rs| <= |t| && t[off..off + |rs|] == rs
    ensures var off := e.off + |e.data|;
            Follows(s, e.(data := e.data + rs), Deleted(t, off, |rs|)) <==> t[e.off..off] + rs == rs + t[e.off..off]
  {
    hide *;
    var a, x, z := DeleteParts(s, e, t, rs);
    MergedDelete(a, e, x, rs, z);
  }

  lemma {:induction false} MergeRecords(s: seq<Rune>, e: Edit, t: seq<Rune>, off: nat, n: int)
    requires e.op == Edel && Follows(s, e, t) && e.off + |e.data| == off
    ensures var rs := Cut(t, off, n);
            Follows(s, e.(data := e.data + rs), Deleted(t, off, n))
            <==> (rs == [] || e.data == [] || (off <= |t| && t[e.off..off] + rs == rs + t[e.off..off]))
  {
    var rs := Cut(t, off, n);
    CutLength(t, off, n);
    if rs == [] {
      assert e.data + rs == e.data;
    } else if e.data == [] {
      assert e.data + rs == rs;
    } else {
      MergeRecordsSome(s, e, t, rs);
    }
  }

  lemma {:induction false} DeleteKeepsChain(
      h: seq<seq<Rune>>, es: seq<Edit>, m: nat, s: seq<Rune>, off: nat, n: int, same: bool, es': seq<Edit>, h': seq<seq<Rune>>)
    requires Chain(h, es) && m <= |es| && h[m] == s
    requires Recorded(h, es, m, Edel, off, Cut(s, off, n), same, Deleted(s, off, n), h', es')
    ensures Chain(h', es') <==> DelRecorded(es, m, s, off, Cut(s, off, n))
  {
    var rs, t := Cut(s, off, n), Deleted(s, off, n);
    if Merges(es, m, Edel, off) {
      var e := es[m - 1];
      assert Follows(h[m - 1], e, h[m]);
      ChainSnoc(h, es, m - 1, e.(data := e.data + rs), t);
      MergeRecords(h[m - 1], e, s, off, n);
      if e.data == [] && rs != [] { assert s[off..off] == []; }
    } else {
      ChainSnoc(h, es, m, Edit(Edel, off, rs, same), t);
      assert Follows(s, Edit(Edel, off, rs, same), t);
    }
  }

  // ----- the text -----

  class Text {
    var data: seq<seq<Rune>>
    var undoable: bool          // edits are kept
    var edits: seq<Edit>
    var nedits: nat             // edits applied in edits
    var sz: nat
    var marks: map<string, Mark>
    var mark: Option<string>    // the mark an edit is being made at
    var seek: Seek
    var contd: bool
    var vers: nat
    ghost var hist: seq<seq<Rune>>   // the texts before and after each edit kept

    ghost function Contents(): seq<Rune>
      reads this`data
    {
      Flat(data)
    }

    ghost predicate Valid()
      reads this
    {
      && sz == |Contents()|
      && nedits <= |edits|
      && |hist| == |edits| + 1
      && (!undoable ==> edits == [])
      && CursorOk()
    }

    /** The cached position, if any, is that of its offset. */
    ghost predicate CursorOk()
      reads this`data, this`seek
    {
      seek.off == -2
      || (&& 0 <= seek.off < |Flat(data)| && 0 <= seek.i < |data| && 0 <= seek.n < |data[seek.i]|
          && |Flat(data[..seek.i])| + seek.n == seek.off)
    }

    /** The log describes what happened, and the text is where the log is. */
    ghost predicate HistoryOk()
      reads this`data, this`hist, this`edits, this`nedits, this`undoable
    {
      Chain(hist, edits) && nedits <= |edits| && (undoable ==> hist[nedits] == Contents())
    }

    ghost predicate AllMarksIn(n: int)
      reads this`marks
    {
      forall k | k in marks :: 0 <= marks[k].off <= n
    }

    ghost predicate MarksIn()
      reads this`marks, this`sz
    {
      AllMarksIn(sz)
    }

    constructor New(txt: seq<Rune>, undo: bool)
      ensures Valid() && HistoryOk() && Dense(data) && MarksIn()
      ensures Contents() == txt && undoable == undo && marks == map[] && edits == (if undo && txt != [] then [Edit(Eins, 0, txt, false)] else [])
      ensures AllSome(edits)
    {
      data, undoable, edits, nedits, sz, marks, mark, contd, vers := [], undo, [], 0, 0, map[], None, false, 0;
      seek, hist := Seek(-2, 0, 0), [[]];
      new;
      if |txt| > 0 {
        var ok := Ins(txt, 0);
      }
    }

    // ----- changing the pieces -----

    /** Insert x at off; fails if that would leave a hole. */
    method InsAt(x: seq<Rune>, off: nat) returns (ok: bool)
      requires sz == |Contents()|
      modifies this`data, this`sz, this`seek
      ensures ok <==> off <= old(sz)
      ensures sz == |Contents()| && seek.off == -2
      ensures Contents() == if ok then Inserted(old(Contents()), off, x) else old(Contents())
      ensures old(Dense(data)) && x != [] ==> Dense(data)
    {
      seek := seek.(off := -2);
      if off > sz {
        return false;
      }
      if off == sz {
        if |data| > 0 && |data[|data| - 1]| < 512 {
          var i := |data| - 1;
          InsertAfterPiece(data, i, x);
          FlatAround(data, i);
          assert Flat(data[i + 1..]) == [];
          data := data[i := data[i] + x];
        } else {
          FlatAppend(data, [x]);
          FlatOne(x);
          data := data + [x];
        }
        sz := sz + |x|;
        return true;
      }
      data := InsPieces(data, off, x);
      sz := sz + |x|;
      return true;
    }

    /** Delete n runes at off and return them. */
    method DelAt(off: nat, n: int) returns (b: seq<Rune>)
      requires sz == |Contents()|
      modifies this`data, this`sz, this`seek
      ensures b == Cut(old(Contents()), off, n)
      ensures sz == |Contents()| && seek.off == -2
      ensures Contents() == Deleted(old(Contents()), off, n)
      ensures old(Dense(data)) ==> Dense(data)
    {
      seek := seek.(off := -2);
      if off >= sz {
        return [];
      }
      data, b := DelPieces(data, off, n);
      sz := sz - |b|;
    }

    // ----- marks -----

    /** Move the marks after an edit to a text that had b runes. */
    method MarkEdit(e: Edit, ghost b: nat)
      modifies this`marks
      ensures old(AllMarksIn(b)) && e.op == Eins && (e.data == [] || e.off <= b) ==> AllMarksIn(b + |e.data|)
      ensures old(AllMarksIn(b)) && e.op == Edel && (e.data == [] || e.off + |e.data| <= b) ==> AllMarksIn(b - |e.data|)
      ensures Moved(old(marks), marks, e, mark)
    {
      if e.op == Eins {
        marks := map k | k in marks ::
          if marks[k].off != e.off || marks[k].equaltoo || mark == Some(k) then marks[k].(off := Pins(marks[k].off, e.off, |e.data|))
          else marks[k];
      } else {
        marks := map k | k in marks :: marks[k].(off := Pdel(marks[k].off, e.off, e.off + |e.data|));
      }
    }

    // ----- the log -----

    /** Note an edit just made: the text is already the new one. */
    method AddEdit(op: Tedit, pos: nat, x: seq<Rune>, same: bool) returns (e: Edit)
      requires nedits <= |edits| && |hist| == |edits| + 1 && (!undoable ==> edits == [])
      modifies this`edits, this`nedits, this`hist
      ensures e.op == op && e.off == pos && e.data == x
      ensures nedits <= |edits| && |hist| == |edits| + 1
      ensures !old(undoable) ==> edits == old(edits) && hist == old(hist) && nedits == old(nedits)
      ensures old(undoable) ==> nedits == |edits| && hist[nedits] == Contents()
      ensures old(undoable) ==>
        Recorded(old(hist), old(edits), old(nedits), op, pos, x, same, Contents(), hist, edits)
      ensures old(AllSome(edits)) && x != [] ==> AllSome(edits)
    {
      if !undoable {
        return Edit(op, pos, x, same);
      }
      if nedits < |edits| {
        edits := edits[..nedits];
        hist := hist[..nedits + 1];
      }
      if nedits > 0 && edits[nedits - 1].op == op && edits[nedits - 1].off + |edits[nedits - 1].data| == pos
         && |edits[nedits - 1].data| < 1024 {
        var last := edits[nedits - 1];
        edits := edits[nedits - 1 := last.(data := last.data + x)];
        hist := hist[nedits := Contents()];
        return Edit(op, pos, x, last.contd);
      }
      e := Edit(op, pos, x, same);
      edits, nedits := edits + [e], nedits + 1;
      hist := hist + [Contents()];
    }

    /** Note an insertion that turned s into the text. */
    method NoteIns(x: seq<Rune>, off: nat, same: bool, ghost s: seq<Rune>) returns (e: Edit)
      requires nedits <= |edits| && |hist| == |edits| + 1 && (!undoable ==> edits == [])
      requires off <= |s| && Contents() == Inserted(s, off, x)
      modifies this`edits, this`nedits, this`hist
      ensures e.op == Eins && e.off == off && e.data == x
      ensures nedits <= |edits| && |hist| == |edits| + 1
      ensures !old(undoable) ==> edits == old(edits) && hist == old(hist) && nedits == old(nedits)
      ensures old(undoable) ==> nedits == |edits| && hist[nedits] == Contents()
      ensures old(undoable) ==>
        Recorded(old(hist), old(edits), old(nedits), Eins, off, x, same, Contents(), hist, edits)
      ensures old(AllSome(edits)) && x != [] ==> AllSome(edits)
      ensures old(Chain(hist, edits)) && old(undoable ==> hist[nedits] == s) ==> HistoryOk()
    {
      ghost var h, es, n := hist, edits, nedits;
      e := AddEdit(Eins, off, x, same);
      if undoable && old(Chain(hist, edits)) && h[n] == s {
        InsertKeepsChain(h, es, n, s, off, x, same, edits, hist);
      }
    }

    /** Note a deletion of n runes that turned s into the text. */
    method NoteDel(rs: seq<Rune>, off: nat, same: bool, ghost s: seq<Rune>, ghost n: int) returns (e: Edit)
      requires nedits <= |edits| && |hist| == |edits| + 1 && (!undoable ==> edits == [])
      requires rs == Cut(s, off, n) && Contents() == Deleted(s, off, n)
      modifies this`edits, this`nedits, this`hist
      ensures e.op == Edel && e.off == off && e.data == rs
      ensures nedits <= |edits| && |hist| == |edits| + 1
      ensures !old(undoable) ==> edits == old(edits) && hist == old(hist) && nedits == old(nedits)
      ensures old(undoable) ==> nedits == |edits| && hist[nedits] == Contents()
      ensures old(undoable) ==>
        Recorded(old(hist), old(edits), old(nedits), Edel, off, rs, same, Contents(), hist, edits)
      ensures old(AllSome(edits)) && rs != [] ==> AllSome(edits)
      ensures old(Chain(hist, edits)) && undoable && old(hist[nedits]) == s ==>
        (HistoryOk() <==> DelRecorded(old(edits), old(nedits), s, off, rs))
    {
      ghost var h, es, m := hist, edits, nedits;
      e := AddEdit(Edel, off, rs, same);
      if undoable && old(Chain(hist, edits)) && h[m] == s {
        DeleteKeepsChain(h, es, m, s, off, n, same, edits, hist);
      }
    }

    // ----- the operations -----

    /** Insert runes at off, note the edit and move the marks. */
    method Ins(x: seq<Rune>, off: nat) returns (ok: bool)
      requires Valid()
      modifies this`data, this`sz, this`seek, this`edits, this`nedits, this`hist, this`marks, this`contd, this`vers
      ensures Valid() && !contd
      ensures ok <==> off <= old(sz)
      ensures Contents() == if ok then Inserted(old(Contents()), off, x) else old(Contents())
      ensures old(HistoryOk()) ==> HistoryOk()
      ensures old(Dense(data)) && x != [] ==> Dense(data)
      ensures old(AllSome(edits)) && x != [] ==> AllSome(edits)
      ensures old(MarksIn()) ==> MarksIn()
      ensures !ok ==> edits == old(edits) && nedits == old(nedits) && hist == old(hist) && marks == old(marks)
      ensures ok && undoable ==>
        && nedits == |edits|
        && Recorded(old(hist), old(edits), old(nedits), Eins, off, x, old(contd), Contents(), hist, edits)
      ensures ok ==> Moved(old(marks), marks, Edit(Eins, off, x, false), mark)
    {
      hide Chain, Recorded, Inserted, Flat, Dense, AllSome, Moved;
      var same := contd;
      contd := false;
      InsertedLength(Contents(), off, x);
      ok := InsAt(x, off);
      if !ok { return; }
      vers := vers + 1;
      var e := NoteIns(x, off, same, old(Contents()));
      MarkEdit(e, old(sz));
      MovedContd(old(marks), marks, e, false, mark);
    }

    /** Delete n runes at off, note the edit and move the marks. */
    method DelRunes(off: nat, n: int) returns (rs: seq<Rune>)
      requires Valid()
      modifies this`data, this`sz, this`seek, this`edits, this`nedits, this`hist, this`marks, this`contd
      ensures Valid() && !contd
      ensures rs == Cut(old(Contents()), off, n) && Contents() == Deleted(old(Contents()), off, n)
      ensures old(Dense(data)) ==> Dense(data)
      ensures old(AllSome(edits)) && rs != [] ==> AllSome(edits)
      ensures old(MarksIn()) ==> MarksIn()
      ensures undoable ==>
        && nedits == |edits|
        && Recorded(old(hist), old(edits), old(nedits), Edel, off, rs, old(contd), Contents(), hist, edits)
      ensures old(HistoryOk()) && undoable ==>
        (HistoryOk() <==> DelRecorded(old(edits), old(nedits), old(Contents()), off, rs))
      ensures Moved(old(marks), marks, Edit(Edel, off, rs, false), mark)
    {
      hide Chain, Recorded, DelRecorded, Cut, Deleted, Flat, AllSome, Moved;
      var same := contd;
      contd := false;
      CutLength(Contents(), off, n);
      rs := DelAt(off, n);
      var e := NoteDel(rs, off, same, old(Contents()), n);
      MarkEdit(e, old(sz));
      MovedContd(old(marks), marks, e, false, mark);
    }

    /** Delete n runes at off. */
    method Del(off: nat, n: int) returns (rs: seq<Rune>)
      requires Valid()
      modifies this`data, this`sz, this`seek, this`edits, this`nedits, this`hist, this`marks, this`contd, this`vers
      ensures Valid()
      ensures rs == Cut(old(Contents()), off, n) && Contents() == Deleted(old(Contents()), off, n)
      ensures old(Dense(data)) ==> Dense(data)
      ensures old(AllSome(edits)) && rs != [] ==> AllSome(edits)
      ensures old(MarksIn()) ==> MarksIn()
      ensures n == 0 ==> edits == old(edits) && nedits == old(nedits) && hist == old(hist) && marks == old(marks)
      ensures n != 0 && undoable ==>
        && nedits == |edits|
        && Recorded(old(hist), old(edits), old(nedits), Edel, off, rs, old(contd), Contents(), hist, edits)
      ensures old(HistoryOk()) && undoable && n != 0 ==>
        (HistoryOk() <==> DelRecorded(old(edits), old(nedits), old(Contents()), off, rs))
    {
      vers := vers + 1;
      if n == 0 {
        CutLength(Contents(), off, n);
        return [];
      }
      rs := DelRunes(off, n);
    }

    /** Apply an edit of the log and move the marks. */
    method ApplyMarked(e: Edit)
      requires sz == |Contents()|
      modifies this`data, this`sz, this`seek, this`marks
      ensures sz == |Contents()| && seek.off == -2 && Contents() == After(old(Contents()), e)
      ensures old(MarksIn()) && Fits(e, old(sz), sz) ==> MarksIn()
      ensures old(Dense(data)) && (e.op == Eins ==> e.data != []) ==> Dense(data)
    {
      hide Flat, After;
      ghost var b := sz;
      Apply(e);
      MarkEdit(e, b);
    }

    /** Undo the last edit applied, if any, and return what was done. */
    method Undo() returns (r: Option<Edit>)
      requires Valid()
      modifies this`data, this`sz, this`seek, this`nedits, this`marks, this`vers
      ensures Valid() && hist == old(hist) && edits == old(edits) && undoable == old(undoable)
      ensures r.None? <==> old(nedits) == 0
      ensures r.None? ==> nedits == 0 && Contents() == old(Contents()) && marks == old(marks) && data == old(data)
      ensures r.Some? ==> nedits == old(nedits) - 1 && Contents() == After(old(Contents()), Inverse(edits[nedits]))
      ensures r.Some? ==> r.value == Inverse(edits[nedits])
      ensures old(HistoryOk()) ==> HistoryOk() && (undoable ==> Contents() == hist[nedits])
      ensures old(HistoryOk()) && old(MarksIn()) ==> MarksIn()
      ensures old(Dense(data)) && AllSome(edits) ==> Dense(data)
    {
      if !undoable || nedits == 0 {
        return None;
      }
      hide Flat, Inserted, Deleted, Cut, Follows, After, Chain, Fits, Dense, AllMarksIn;
      vers := vers + 1;
      nedits := nedits - 1;
      var e := Inverse(edits[nedits]);
      if old(HistoryOk()) {
        UndoStep(hist, edits, nedits);
      }
      ApplyMarked(e);
      return Some(e);
    }

    /** Redo the next edit of the log, if any, and return what was done. */
    method Redo() returns (r: Option<Edit>)
      requires Valid()
      modifies this`data, this`sz, this`seek, this`nedits, this`marks, this`vers
      ensures Valid() && hist == old(hist) && edits == old(edits) && undoable == old(undoable)
      ensures r.None? <==> old(nedits) == |edits|
      ensures r.None? ==> nedits == old(nedits) && Contents() == old(Contents()) && marks == old(marks) && data == old(data)
      ensures r.Some? ==> nedits == old(nedits) + 1 && Contents() == After(old(Contents()), edits[old(nedits)])
      ensures r.Some? ==> r.value == Next(edits, old(nedits))
      ensures old(HistoryOk()) ==> HistoryOk() && (undoable ==> Contents() == hist[nedits])
      ensures old(HistoryOk()) && old(MarksIn()) ==> MarksIn()
      ensures old(Dense(data)) && AllSome(edits) ==> Dense(data)
    {
      hide Flat, Inserted, Deleted, Cut, Follows, After, Chain, Fits, Dense, AllMarksIn, AllSome, Next;
      if !undoable || nedits == |edits| {
        return None;
      }
      vers := vers + 1;
      var e := Next(edits, nedits);
      NextIs(edits, nedits, Contents());
      if old(HistoryOk()) { RedoStep(hist, edits, nedits); }
      nedits := nedits + 1;
      ApplyMarked(e);
      return Some(e);
    }

    /** Apply an edit of the log to the text; one that would leave a hole does nothing. */
    method Apply(e: Edit)
      requires sz == |Contents()|
      modifies this`data, this`sz, this`seek
      ensures sz == |Contents()| && seek.off == -2
      ensures Contents() == After(old(Contents()), e)
      ensures old(Dense(data)) && (e.op == Eins ==> e.data != []) ==> Dense(data)
    {
      if e.op == Eins {
        var ok := InsAt(e.data, e.off);
      } else {
        var b := DelAt(e.off, |e.data|);
      }
    }

    /** Undoing k edits and redoing them leaves the text as it was. */
    method UndoThenRedo(k: nat)
      requires Valid() && HistoryOk() && undoable && k <= nedits
      modifies this
      ensures Contents() == old(Contents()) && nedits == old(nedits) && edits == old(edits)
      ensures old(Dense(data)) && AllSome(edits) ==> Dense(data)
    {
      hide Dense, AllSome, Chain, Flat;
      for j := 0 to k
        invariant old(Dense(data)) && AllSome(edits) ==> Dense(data)
        invariant Valid() && HistoryOk() && undoable && nedits == old(nedits) - j
        invariant hist == old(hist) && edits == old(edits)
      {
        var r := Undo();
      }
      for j := 0 to k
        invariant old(Dense(data)) && AllSome(edits) ==> Dense(data)
        invariant Valid() && HistoryOk() && undoable && nedits == old(nedits) - k + j
        invariant hist == old(hist) && edits == old(edits)
      {
        var r := Redo();
      }
    }

    /** Insert runes at a mark, which moves after them. */
    method MarkIns(name: string, x: seq<Rune>) returns (ok: bool)
      requires Valid() && (name in marks ==> marks[name].off >= 0)
      modifies this
      ensures Valid() && undoable == old(undoable)
      ensures ok <==> name in old(marks) && old(marks)[name].off <= old(sz)
      ensures !ok ==> Contents() == old(Contents()) && edits == old(edits) && nedits == old(nedits) && marks == old(marks)
      ensures ok ==> Contents() == Inserted(old(Contents()), old(marks)[name].off, x)
      ensures ok ==> name in marks && marks[name].off == old(marks)[name].off + |x|
      ensures old(HistoryOk()) ==> HistoryOk()
      ensures old(Dense(data)) && x != [] ==> Dense(data)
      ensures old(AllSome(edits)) && x != [] ==> AllSome(edits)
      ensures old(MarksIn()) ==> MarksIn()
    {
      if name !in marks {
        return false;
      }
      mark := Some(name);
      ok := Ins(x, marks[name].off);
      if ok { mark := None; }
    }

    /** Where the deletion of n runes before a mark at off starts. */
    static function Before(m: nat, n: nat): nat
    {
      if n > m then 0 else m - n
    }

    static function NotNegative(off: int): nat
    {
      if off < 0 then 0 else off
    }

    /** Delete at most n runes right before a mark, which stays by the rune after them. */
    method MarkDel(name: string, n: nat) returns (rs: seq<Rune>)
      requires Valid()
      modifies this
      ensures Valid() && undoable == old(undoable)
      ensures n == 0 || name !in old(marks) ==> rs == [] && Contents() == old(Contents()) && marks == old(marks)
      ensures n > 0 && name in old(marks) ==>
        var m := NotNegative(old(marks)[name].off);
        var off := Before(m, n);
        && rs == Cut(old(Contents()), off, m - off) && Contents() == Deleted(old(Contents()), off, m - off)
        && name in marks && (m <= old(sz) ==> marks[name].off == off)
      ensures old(Dense(data)) ==> Dense(data)
      ensures n == 0 || name !in old(marks) ==> edits == old(edits) && nedits == old(nedits)
      ensures old(AllSome(edits)) && (n == 0 || name !in old(marks) || rs != []) ==> AllSome(edits)
      ensures old(MarksIn()) ==> MarksIn()
    {
      vers := vers + 1;
      if n == 0 || name !in marks {
        return [];
      }
      var m := NotNegative(marks[name].off);
      var off := Before(m, n);
      marks := marks[name := marks[name].(off := m)];
      assert old(MarksIn()) ==> MarksIn();
      rs := DelAtMark(name, off, m - off);
    }

    method DelAtMark(name: string, off: nat, k: nat) returns (rs: seq<Rune>)
      requires Valid() && name in marks && marks[name].off == off + k
      modifies this`data, this`sz, this`seek, this`edits, this`nedits, this`hist, this`marks, this`mark, this`contd
      ensures Valid()
      ensures rs == Cut(old(Contents()), off, k) && Contents() == Deleted(old(Contents()), off, k)
      ensures name in marks && (off + k <= old(sz) ==> marks[name].off == off)
      ensures old(Dense(data)) ==> Dense(data)
      ensures old(AllSome(edits)) && rs != [] ==> AllSome(edits)
      ensures old(MarksIn()) ==> MarksIn()
    {
      hide Moved, Recorded, DelRecorded, Chain, Flat, Cut, Deleted, Dense, AllSome;
      mark := Some(name);
      label Before:
      CutIs(Contents(), off, k);
      rs := DelRunes(off, k);
      DeletedMark(old@Before(marks), marks, Edit(Edel, off, rs, false), name, k);
      mark := None;
    }

    /** Move the cached position one rune back. */
    method StepBack()
      requires Valid() && Dense(data) && seek.off > 0
      modifies this`seek
      ensures Valid() && seek.off == old(seek.off) - 1
    {
      if seek.n > 0 {
        seek := seek.(n := seek.n - 1);
      } else {
        FlatAround(data, seek.i - 1);
        seek := seek.(i := seek.i - 1, n := |data[seek.i - 1]| - 1);
      }
      seek := seek.(off := seek.off - 1);
    }

    /** Move the cached position one rune forward, if there is one. */
    method StepForward() returns (ok: bool)
      requires Valid() && Dense(data) && seek.off >= 0
      modifies this`seek
      ensures Valid() && (ok <==> old(seek.off) + 1 < sz)
      ensures seek.off == if ok then old(seek.off) + 1 else old(seek.off)
    {
      FlatAround(data, seek.i);
      if seek.n >= |data[seek.i]| - 1 {
        if seek.i >= |data| - 1 {
          assert Flat(data[seek.i + 1..]) == [];
          return false;
        }
        FlatAround(data, seek.i + 1);
        seek := seek.(i := seek.i + 1, n := 0);
      } else {
        seek := seek.(n := seek.n + 1);
      }
      seek := seek.(off := seek.off + 1);
      RuneAt(data, seek.i, seek.n);
      return true;
    }

    method Cached() returns (c: Rune)
      requires Valid() && seek.off >= 0
      ensures c == Contents()[seek.off]
    {
      RuneAt(data, seek.i, seek.n);
      return data[seek.i][seek.n];
    }

    /** The rune at off, 0 if there is none. */
    method Getc(off: nat) returns (c: Rune)
      requires Valid() && Dense(data)
      modifies this`seek
      ensures Valid()
      ensures c == if off < |Contents()| then Contents()[off] else 0
    {
      if off == seek.off {
        c := Cached();
        return;
      }
      if off == seek.off - 1 {
        StepBack();
        c := Cached();
        return;
      }
      if off == seek.off + 1 {
        var ok := StepForward();
        if !ok { return 0; }
        c := Cached();
        return;
      }
      if off >= sz {
        seek := seek.(off := -2);
        return 0;
      }
      var i, o := FindPiece(data, off);
      seek := Seek(off, i, o);
      c := Cached();
    }
  }

  lemma RuneAt(d: seq<seq<Rune>>, i: nat, n: nat)
    requires i < |d| && n < |d[i]|
    ensures |Flat(d[..i])| + n < |Flat(d)| && Flat(d)[|Flat(d[..i])| + n] == d[i][n]
  {
    FlatAround(d, i);
  }
}
