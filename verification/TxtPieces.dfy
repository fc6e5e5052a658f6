/** Text kept as a series of pieces, and the flat text it stands for. */
module TxtPieces {
  import opened Pieces

  type Rune = int

  /** No piece is empty. */
  predicate Dense(d: seq<seq<Rune>>)
  {
    forall k | 0 <= k < |d| :: d[k] != []
  }

  function Inserted(s: seq<Rune>, off: nat, x: seq<Rune>): seq<Rune>
    requires off <= |s|
  {
    s[..off] + x + s[off..]
  }

  /** The runes from off on, at most n of them. */
  function Cut(s: seq<Rune>, off: nat, n: int): seq<Rune>
  {
    if off >= |s| || n <= 0 then [] else if n >= |s| - off then s[off..] else s[off..off + n]
  }

  function Deleted(s: seq<Rune>, off: nat, n: int): seq<Rune>
  {
    if off >= |s| then s else s[..off] + s[off + |Cut(s, off, n)|..]
  }

  lemma {:induction false} InsertAfterPiece(d: seq<seq<Rune>>, i: nat, x: seq<Rune>)
    requires i < |d|
    ensures var off := |Flat(d[..i])| + |d[i]|;
            off <= |Flat(d)| && Flat(d[i := d[i] + x]) == Inserted(Flat(d), off, x)
  {
    hide Flat;
    FlatAround(d, i);
    assert d[i := d[i] + x] == d[..i] + [d[i] + x] + d[i + 1..];
    FlatReplace(d, i, [d[i] + x]);
    FlatOne(d[i] + x);
  }

  lemma {:induction false} SplitPiece(d: seq<seq<Rune>>, i: nat, o: nat)
    requires i < |d| && o <= |d[i]|
    ensures Flat(d[..i] + [d[i][..o], d[i][o..]] + d[i + 1..]) == Flat(d)
  {
    FlatAround(d, i);
    FlatReplace(d, i, [d[i][..o], d[i][o..]]);
    assert [d[i][..o], d[i][o..]][1..] == [d[i][o..]];
    FlatOne(d[i][o..]);
  }

  /** Insert x at off, splitting the piece off falls in. */
  method InsPieces(d0: seq<seq<Rune>>, off: nat, x: seq<Rune>) returns (d: seq<seq<Rune>>)
    requires off < |Flat(d0)|
    ensures Flat(d) == Inserted(Flat(d0), off, x)
    ensures Dense(d0) && x != [] ==> Dense(d)
  {
    d := d0;
    FlatAll(d0);
    var i, o := 0, off;
    while i < |d0|
      invariant 0 <= i <= |d0| && d == d0 && 0 <= o && |Flat(d[..i])| + o == off
    {
      FlatAround(d, i);
      if o < |d[i]| {
        SplitPiece(d, i, o);
        var p := d[i];
        d := d[..i] + [p[..o], p[o..]] + d[i + 1..];
        assert d[..i] == d0[..i];
        assert forall k | 0 <= k < |d| && k != i :: (k < i && d[k] == d0[k]) || (k == i + 1 && d[k] == p[o..]) || (k > i + 1 && d[k] == d0[k - 1]);
      }
      if o == |d[i]| {
        InsertAfterPiece(d, i, x);
        d := d[i := d[i] + x];
        return;
      }
      o, i := o - |d[i]|, i + 1;
    }
    assert false;
  }

  /** Where off falls: the piece and the position within it. */
  method FindPiece(d: seq<seq<Rune>>, off: nat) returns (i: nat, o: nat)
    requires off < |Flat(d)|
    ensures i < |d| && o < |d[i]| && |Flat(d[..i])| + o == off
  {
    FlatAll(d);
    i, o := 0, off;
    while i < |d| && o >= |d[i]|
      invariant 0 <= i <= |d| && |Flat(d[..i])| + o == off
    {
      FlatAround(d, i);
      o, i := o - |d[i]|, i + 1;
    }
  }

  lemma CutMiddle(a: seq<Rune>, p: seq<Rune>, b: seq<Rune>, o: nat, nd: nat)
    requires o + nd <= |p|
    ensures var s, at := a + p + b, |a| + o;
            && s[at..at + nd] == p[o..o + nd]
            && a + (p[..o] + p[o + nd..]) + b == s[..at] + s[at + nd..]
  {}

  /** One step of deletion: take nd runes of piece i, from o on. */
  lemma {:induction false} TakeFromPiece(d: seq<seq<Rune>>, i: nat, o: nat, nd: nat, mid: seq<seq<Rune>>)
    requires i < |d| && o + nd <= |d[i]| && Flat(mid) == d[i][..o] + d[i][o + nd..]
    ensures var at := |Flat(d[..i])| + o;
            && at + nd <= |Flat(d)| && Flat(d)[at..at + nd] == d[i][o..o + nd]
            && Flat(d[..i] + mid + d[i + 1..]) == Flat(d)[..at] + Flat(d)[at + nd..]
  {
    hide Flat;
    FlatAround(d, i);
    FlatReplace(d, i, mid);
    CutMiddle(Flat(d[..i]), d[i], Flat(d[i + 1..]), o, nd);
  }

  /** Delete nd runes of piece i, from o on; i' is the piece that follows. */
  method TakeStep(d: seq<seq<Rune>>, i: nat, o: nat, nd: nat) returns (d': seq<seq<Rune>>, i': nat)
    requires i < |d| && o + nd <= |d[i]|
    ensures var at := |Flat(d[..i])| + o;
            && at + nd <= |Flat(d)| && Flat(d)[at..at + nd] == d[i][o..o + nd]
            && Flat(d') == Flat(d)[..at] + Flat(d)[at + nd..]
            && i' <= |d'| && (o + nd == |d[i]| ==> |Flat(d'[..i'])| == at)
    ensures |d'| - i' == |d| - i - 1
    ensures Dense(d) ==> Dense(d')
  {
    if nd == |d[i]| {
      TakeFromPiece(d, i, o, nd, []);
      d', i' := d[..i] + [] + d[i + 1..], i;
      assert d'[..i] == d[..i];
    } else {
      var p := if o + nd == |d[i]| then d[i][..o] else d[i][..o] + d[i][o + nd..];
      assert p == d[i][..o] + d[i][o + nd..];
      FlatOne(p);
      TakeFromPiece(d, i, o, nd, [p]);
      d', i' := d[..i] + [p] + d[i + 1..], i + 1;
      assert d'[..i + 1] == d[..i] + [p];
      FlatAppend(d[..i], [p]);
    }
  }

  lemma CutNext(s: seq<Rune>, off: nat, tot: nat, nd: nat)
    requires off + tot + nd <= |s|
    ensures var t := s[..off] + s[off + tot..];
            && t[off..off + nd] == s[off + tot..off + tot + nd]
            && t[..off] + t[off + nd..] == s[..off] + s[off + tot + nd..]
            && s[off..off + tot] + s[off + tot..off + tot + nd] == s[off..off + tot + nd]
  {}

  lemma {:induction false} CutDone(s: seq<Rune>, off: nat, tot: nat, n: int)
    requires off < |s| && off + tot <= |s| && (n >= 0 ==> tot <= n) && (n < 0 ==> tot == 0)
    requires tot >= n || off + tot == |s|
    ensures s[off..off + tot] == Cut(s, off, n) && s[..off] + s[off + tot..] == Deleted(s, off, n)
  {}

  method DelPieces(d0: seq<seq<Rune>>, off: nat, n: int) returns (d: seq<seq<Rune>>, b: seq<Rune>)
    requires off < |Flat(d0)|
    ensures b == Cut(Flat(d0), off, n) && Flat(d) == Deleted(Flat(d0), off, n)
    ensures Dense(d0) ==> Dense(d)
  {
    hide Flat, Cut, Deleted, Dense;
    ghost var s := Flat(d0);
    d, b := d0, [];
    var i, o := FindPiece(d, off);
    var tot: nat := 0;
    assert s == s[..off] + s[off..];
    while i < |d| && tot < n
      invariant 0 <= i <= |d| && o >= 0 && (tot < n ==> |Flat(d[..i])| + o == off)
      invariant (n >= 0 ==> tot <= n) && (tot == 0 || n >= 0)
      invariant off + tot <= |s| && b == s[off..off + tot] && Flat(d) == s[..off] + s[off + tot..]
      invariant if i < |d| then o <= |d[i]| else o == 0
      invariant Dense(d0) ==> Dense(d)
      decreases |d| - i
    {
      var nd := if |d[i]| - o > n - tot then n - tot else |d[i]| - o;
      b := b + d[i][o..o + nd];
      var d', i' := TakeStep(d, i, o, nd);
      CutNext(s, off, tot, nd);
      d, i, tot, o := d', i', tot + nd, 0;
    }
    if i == |d| { FlatAll(d); }
    CutDone(s, off, tot, n);
  }
}
