/**
  The diffs command: lines are interned, the common ends are trimmed, a table of longest
  common subsequences is filled and walked back to report what to keep, add and delete.
 */
module Diffs {

  type Line = string

  // ----- matching two sequences -----

  /**
    A common subsequence of a and b, as the positions it takes in each: the k-th pair of
    positions holds the same element in both, and positions increase.
   */
  predicate Matching<T(==)>(a: seq<T>, b: seq<T>, f: seq<nat>, g: seq<nat>)
  {
    && |f| == |g| && Increasing(f) && Increasing(g)
    && forall k | 0 <= k < |f| :: f[k] < |a| && g[k] < |b| && a[f[k]] == b[g[k]]
  }

  /** No common subsequence of a and b has more than n elements. */
  ghost predicate LongestCommon<T(!new)>(a: seq<T>, b: seq<T>, n: nat)
  {
    forall f, g | Matching(a, b, f, g) :: |f| <= n
  }

  predicate Increasing(f: seq<nat>)
  {
    forall k, l | 0 <= k < l < |f| :: f[k] < f[l]
  }

  /** The length of the longest common subsequence of the first i of a and the first j of b. */
  function Lcs(a: seq<nat>, b: seq<nat>, i: nat, j: nat): nat
    requires i <= |a| && j <= |b|
  {
    if i == 0 || j == 0 then 0
    else if a[i - 1] == b[j - 1] then Lcs(a, b, i - 1, j - 1) + 1
    else if Lcs(a, b, i, j - 1) > Lcs(a, b, i - 1, j) then Lcs(a, b, i, j - 1)
    else Lcs(a, b, i - 1, j)
  }

  lemma {:induction false} LcsGrows(a: seq<nat>, b: seq<nat>, i: nat, j: nat)
    requires i <= |a| && j <= |b|
    ensures i > 0 ==> Lcs(a, b, i - 1, j) <= Lcs(a, b, i, j) <= Lcs(a, b, i - 1, j) + 1
    ensures j > 0 ==> Lcs(a, b, i, j - 1) <= Lcs(a, b, i, j) <= Lcs(a, b, i, j - 1) + 1
  {
    if i > 0 && j > 0 {
      LcsGrows(a, b, i - 1, j - 1);
      LcsGrows(a, b, i - 1, j);
      LcsGrows(a, b, i, j - 1);
    }
  }

  /** No matching of the first i and the first j is longer than the table says. */
  lemma {:induction false} LcsBounds(a: seq<nat>, b: seq<nat>, f: seq<nat>, g: seq<nat>, i: nat, j: nat)
    requires i <= |a| && j <= |b| && Matching(a[..i], b[..j], f, g)
    ensures |f| <= Lcs(a, b, i, j)
    decreases i + j
  {
    var n := |f|;
    if n > 0 {
      var p, q := f[n - 1], g[n - 1];
      if a[i - 1] == b[j - 1] {
        LcsBounds(a, b, f[..n - 1], g[..n - 1], i - 1, j - 1);
      } else if p < i - 1 {
        LcsBounds(a, b, f, g, i - 1, j);
        LcsGrows(a, b, i, j);
      } else {
        assert q < j - 1;
        LcsBounds(a, b, f, g, i, j - 1);
        LcsGrows(a, b, i, j);
      }
    }
  }

  lemma {:induction false} IncreasingFrom(f: seq<nat>, k: nat)
    requires Increasing(f) && k < |f|
    ensures f[k] >= k
  {
    if k > 0 { IncreasingFrom(f, k - 1); }
  }

  lemma {:induction false} IncreasingTo(f: seq<nat>, k: nat, top: nat)
    requires Increasing(f) && k < |f| && f[|f| - 1] < top
    ensures f[k] + (|f| - k) <= top
    decreases |f| - k
  {
    if k < |f| - 1 { IncreasingTo(f, k + 1, top); }
  }

  /** Positions shifted down by n. */
  function Shift(f: seq<nat>, n: nat): seq<nat>
    requires forall k | 0 <= k < |f| :: f[k] >= n
  {
    seq(|f|, k requires 0 <= k < |f| => f[k] - n)
  }

  /**
    Trimming loses nothing: a common subsequence of whole files is no longer than the
    trimmed ends plus some common subsequence of what is left.
   */
  lemma {:induction false} TrimmedMatching<T>(pre: seq<T>, a: seq<T>, b: seq<T>, suf: seq<T>, f: seq<nat>, g: seq<nat>)
      returns (f': seq<nat>, g': seq<nat>)
    requires Matching(pre + a + suf, pre + b + suf, f, g)
    ensures Matching(a, b, f', g') && |f| <= |pre| + |f'| + |suf|
  {
    var n, p, s := |f|, |pre|, |suf|;
    if n <= p + s {
      f', g' := [], [];
    } else {
      forall k | p <= k < n - s ensures p <= f[k] < p + |a| && p <= g[k] < p + |b| {
        IncreasingFrom(f, k);
        IncreasingFrom(g, k);
        IncreasingTo(f, k, p + |a| + s);
        IncreasingTo(g, k, p + |b| + s);
      }
      f', g' := ShiftMatching(pre, a, b, suf, f, g, p, n - s);
    }
  }

  /** Matches between the ends, seen without the ends. */
  lemma {:induction false} ShiftMatching<T>(pre: seq<T>, a: seq<T>, b: seq<T>, suf: seq<T>, f: seq<nat>, g: seq<nat>, lo: nat, hi: nat)
      returns (f': seq<nat>, g': seq<nat>)
    requires Matching(pre + a + suf, pre + b + suf, f, g) && lo <= hi <= |f|
    requires forall k | lo <= k < hi :: |pre| <= f[k] < |pre| + |a| && |pre| <= g[k] < |pre| + |b|
    ensures Matching(a, b, f', g') && |f'| == hi - lo
  {
    f', g' := Shift(f[lo..hi], |pre|), Shift(g[lo..hi], |pre|);
    forall k | 0 <= k < |f'| ensures f'[k] < |a| && g'[k] < |b| && a[f'[k]] == b[g'[k]] {
      assert f'[k] == f[lo + k] - |pre| && g'[k] == g[lo + k] - |pre|;
      InMiddle(pre, a, suf, f[lo + k]);
      InMiddle(pre, b, suf, g[lo + k]);
    }
  }

  lemma InMiddle<T>(pre: seq<T>, a: seq<T>, suf: seq<T>, i: nat)
    requires |pre| <= i < |pre| + |a|
    ensures (pre + a + suf)[i] == a[i - |pre|]
  {}

  // ----- reports -----

  datatype What = Eq | Add | Del

  datatype Rep = Rep(what: What, i: nat, j: nat)

  /** The script that turns the first i of a into the first j of b, as report emits it. */
  function Script(a: seq<nat>, b: seq<nat>, i: nat, j: nat): seq<Rep>
    requires i <= |a| && j <= |b|
    decreases i + j
  {
    if i > 0 && j > 0 && a[i - 1] == b[j - 1] then Script(a, b, i - 1, j - 1) + [Rep(Eq, i - 1, j - 1)]
    else if j > 0 && (i == 0 || Lcs(a, b, i, j - 1) >= Lcs(a, b, i - 1, j)) then
      Script(a, b, i, j - 1) + [Rep(Add, i, j - 1)]
    else if i > 0 then Script(a, b, i - 1, j) + [Rep(Del, i - 1, j)]
    else []
  }

  /** The elements of the first file that a script mentions: those it keeps and those it deletes. */
  function Olds<T>(a: seq<T>, rs: seq<Rep>): seq<T>
    requires forall k | 0 <= k < |rs| :: rs[k].what != Add ==> rs[k].i < |a|
  {
    if rs == [] then []
    else
      var r := rs[|rs| - 1];
      Olds(a, rs[..|rs| - 1]) + if r.what == Add then [] else [a[r.i]]
  }

  /** The elements of the second file that a script mentions: those it keeps and those it adds. */
  function News<T>(b: seq<T>, rs: seq<Rep>): seq<T>
    requires forall k | 0 <= k < |rs| :: rs[k].what != Del ==> rs[k].j < |b|
  {
    if rs == [] then []
    else
      var r := rs[|rs| - 1];
      News(b, rs[..|rs| - 1]) + if r.what == Del then [] else [b[r.j]]
  }

  function Kept(rs: seq<Rep>): nat
  {
    if rs == [] then 0 else Kept(rs[..|rs| - 1]) + if rs[|rs| - 1].what == Eq then 1 else 0
  }

  /** A report is about lines that exist, and keeps only what is equal. */
  predicate ReportOk<T(==)>(a: seq<T>, b: seq<T>, r: Rep)
  {
    && (r.what != Add ==> r.i < |a|)
    && (r.what != Del ==> r.j < |b|)
    && (r.what == Eq ==> a[r.i] == b[r.j])
  }

  predicate Reports<T(==)>(a: seq<T>, b: seq<T>, rs: seq<Rep>)
  {
    forall k | 0 <= k < |rs| :: ReportOk(a, b, rs[k])
  }

  lemma {:induction false} AppendReport<T>(a: seq<T>, b: seq<T>, rs: seq<Rep>, r: Rep)
    requires Reports(a, b, rs) && ReportOk(a, b, r)
    ensures Reports(a, b, rs + [r])
    ensures Olds(a, rs + [r]) == Olds(a, rs) + if r.what == Add then [] else [a[r.i]]
    ensures News(b, rs + [r]) == News(b, rs) + if r.what == Del then [] else [b[r.j]]
    ensures Kept(rs + [r]) == Kept(rs) + if r.what == Eq then 1 else 0
  {
    assert (rs + [r])[..|rs|] == rs;
  }

  /** What a script must be to turn the first i of a into the first j of b. */
  ghost predicate IsDiff(a: seq<nat>, b: seq<nat>, i: nat, j: nat, rs: seq<Rep>)
    requires i <= |a| && j <= |b|
  {
    Reports(a, b, rs) && Olds(a, rs) == a[..i] && News(b, rs) == b[..j] && Kept(rs) == Lcs(a, b, i, j)
  }

  lemma {:induction false} ExtendDiff(a: seq<nat>, b: seq<nat>, i: nat, j: nat, rs: seq<Rep>, r: Rep)
    requires i <= |a| && j <= |b| && IsDiff(a, b, i, j, rs) && ReportOk(a, b, r) && r.i == i && r.j == j
    ensures var i', j' := if r.what == Add then i else i + 1, if r.what == Del then j else j + 1;
            Lcs(a, b, i', j') == Lcs(a, b, i, j) + (if r.what == Eq then 1 else 0) ==> IsDiff(a, b, i', j', rs + [r])
  {
    AppendReport(a, b, rs, r);
    if r.what != Add { assert a[..i + 1] == a[..i] + [a[i]]; }
    if r.what != Del { assert b[..j + 1] == b[..j] + [b[j]]; }
  }

  lemma NoDiff(a: seq<nat>, b: seq<nat>)
    ensures IsDiff(a, b, 0, 0, Script(a, b, 0, 0))
  {}

  lemma KeepsLine(a: seq<nat>, b: seq<nat>, i: nat, j: nat)
    requires 0 < i <= |a| && 0 < j <= |b| && a[i - 1] == b[j - 1]
    requires IsDiff(a, b, i - 1, j - 1, Script(a, b, i - 1, j - 1))
    ensures IsDiff(a, b, i, j, Script(a, b, i, j))
  {
    hide IsDiff;
    ExtendDiff(a, b, i - 1, j - 1, Script(a, b, i - 1, j - 1), Rep(Eq, i - 1, j - 1));
  }

  lemma AddsLine(a: seq<nat>, b: seq<nat>, i: nat, j: nat)
    requires i <= |a| && 0 < j <= |b| && (i > 0 ==> a[i - 1] != b[j - 1] && Lcs(a, b, i, j - 1) >= Lcs(a, b, i - 1, j))
    requires IsDiff(a, b, i, j - 1, Script(a, b, i, j - 1))
    ensures IsDiff(a, b, i, j, Script(a, b, i, j))
  {
    hide IsDiff;
    ExtendDiff(a, b, i, j - 1, Script(a, b, i, j - 1), Rep(Add, i, j - 1));
  }

  lemma DeletesLine(a: seq<nat>, b: seq<nat>, i: nat, j: nat)
    requires 0 < i <= |a| && j <= |b| && (j > 0 ==> a[i - 1] != b[j - 1] && Lcs(a, b, i, j - 1) < Lcs(a, b, i - 1, j))
    requires IsDiff(a, b, i - 1, j, Script(a, b, i - 1, j))
    ensures IsDiff(a, b, i, j, Script(a, b, i, j))
  {
    hide IsDiff;
    ExtendDiff(a, b, i - 1, j, Script(a, b, i - 1, j), Rep(Del, i - 1, j));
  }

  lemma {:induction false} ScriptIsDiff(a: seq<nat>, b: seq<nat>, i: nat, j: nat)
    requires i <= |a| && j <= |b|
    ensures IsDiff(a, b, i, j, Script(a, b, i, j))
    decreases i + j
  {
    hide *;
    if i == 0 && j == 0 {
      NoDiff(a, b);
    } else if i > 0 && j > 0 && a[i - 1] == b[j - 1] {
      ScriptIsDiff(a, b, i - 1, j - 1);
      KeepsLine(a, b, i, j);
    } else if j > 0 && (i == 0 || Lcs(a, b, i, j - 1) >= Lcs(a, b, i - 1, j)) {
      ScriptIsDiff(a, b, i, j - 1);
      AddsLine(a, b, i, j);
    } else {
      ScriptIsDiff(a, b, i - 1, j);
      DeletesLine(a, b, i, j);
    }
  }

  // ----- the table -----

  /** The rows before i, and the first j of row i, hold the lengths; so does column 0. */
  ghost predicate Filled(lcs: array2<nat>, a: seq<nat>, b: seq<nat>, i: nat, j: nat)
    reads lcs
  {
    && lcs.Length0 == |a| + 1 && lcs.Length1 == |b| + 1
    && (forall p | 0 <= p <= |a| :: lcs[p, 0] == 0)
    && forall p, q | 0 <= p <= |a| && 0 <= q <= |b| && (p < i || (p == i && q < j)) :: lcs[p, q] == Lcs(a, b, p, q)
  }

  method FillCell(lcs: array2<nat>, a: seq<nat>, b: seq<nat>, i: nat, j: nat)
    requires 0 < i <= |a| && 0 < j <= |b| && Filled(lcs, a, b, i, j)
    modifies lcs
    ensures Filled(lcs, a, b, i, j + 1)
  {
    var v;
    assert lcs[i - 1, j - 1] == Lcs(a, b, i - 1, j - 1);
    assert lcs[i - 1, j] == Lcs(a, b, i - 1, j);
    assert lcs[i, j - 1] == Lcs(a, b, i, j - 1);
    if a[i - 1] == b[j - 1] {
      v := lcs[i - 1, j - 1] + 1;
    } else if lcs[i, j - 1] > lcs[i - 1, j] {
      v := lcs[i, j - 1];
    } else {
      v := lcs[i - 1, j];
    }
    assert v == Lcs(a, b, i, j);
    lcs[i, j] := v;
  }

  /** The table of longest common subsequences. */
  method FillTable(a: seq<nat>, b: seq<nat>) returns (lcs: array2<nat>)
    ensures fresh(lcs) && Filled(lcs, a, b, |a| + 1, 0)
  {
    var ni, nj := |a| + 1, |b| + 1;
    lcs := new nat[ni, nj]((_, _) => 0);
    for i := 1 to ni
      invariant fresh(lcs) && Filled(lcs, a, b, i, 0)
    {
      for j := 1 to nj
        invariant Filled(lcs, a, b, i, j)
      {
        FillCell(lcs, a, b, i, j);
      }
    }
  }

  // ----- trimming -----

  /** Split off the common prefix. */
  method Prefix(ln1: seq<nat>, ln2: seq<nat>) returns (pre: seq<nat>, rest1: seq<nat>, rest2: seq<nat>)
    ensures ln1 == pre + rest1 && ln2 == pre + rest2
    ensures rest1 != [] && rest2 != [] ==> rest1[0] != rest2[0]
  {
    var i := 0;
    while i < |ln1| && i < |ln2| && ln1[i] == ln2[i]
      invariant i <= |ln1| && i <= |ln2| && ln1[..i] == ln2[..i]
    {
      i := i + 1;
    }
    return ln1[..i], ln1[i..], ln2[i..];
  }

  /** Split off the common suffix. */
  method Suffix(ln1: seq<nat>, ln2: seq<nat>) returns (suf: seq<nat>, rest1: seq<nat>, rest2: seq<nat>)
    ensures ln1 == rest1 + suf && ln2 == rest2 + suf
    ensures rest1 != [] && rest2 != [] ==> LastOf(rest1) != LastOf(rest2)
  {
    var ni, nj, i := |ln1|, |ln2|, 0;
    while i < ni && i < nj && ln1[ni - i - 1] == ln2[nj - i - 1]
      invariant i <= ni && i <= nj && ln1[ni - i..] == ln2[nj - i..]
    {
      i := i + 1;
    }
    return ln1[ni - i..], ln1[..ni - i], ln2[..nj - i];
  }

  /** How many lines two files have in common before the first that differs. */
  function Common<T(==)>(a: seq<T>, b: seq<T>): (n: nat)
    ensures n <= |a| && n <= |b| && a[..n] == b[..n] && (n < |a| && n < |b| ==> a[n] != b[n])
  {
    if a == [] || b == [] || a[0] != b[0] then 0 else 1 + Common(a[1..], b[1..])
  }

  /** After the lines they have in common, both files have more, and the last ones are equal. */
  predicate EndsAlike<T(==)>(a: seq<T>, b: seq<T>)
  {
    var n := Common(a, b);
    n < |a| && n < |b| && LastOf(a) == LastOf(b)
  }

  /** What is before the first line that differs is all that is common. */
  lemma {:induction false} CommonIs<T>(a: seq<T>, b: seq<T>, n: nat)
    requires n <= |a| && n <= |b| && (forall k | 0 <= k < n :: a[k] == b[k]) && (n < |a| && n < |b| ==> a[n] != b[n])
    ensures Common(a, b) == n
    decreases n
  {
    if n > 0 { CommonIs(a[1..], b[1..], n - 1); }
  }

  function LastOf<T>(s: seq<T>): T
    requires s != []
  {
    s[|s| - 1]
  }

  lemma LastOfBoth<T>(x: seq<T>, y: seq<T>)
    requires y != []
    ensures x + y != [] && LastOf(x + y) == LastOf(y)
  {}

  lemma CommonWas<T>(pre: seq<T>, r: seq<T>, q: seq<T>)
    requires r != [] && q != [] ==> r[0] != q[0]
    ensures Common(pre + r, pre + q) == |pre|
  {
    hide *;
    var x, y := pre + r, pre + q;
    assert |x| == |pre| + |r| && |y| == |pre| + |q|;
    forall k | 0 <= k < |pre| ensures x[k] == y[k] {}
    if r != [] { assert x[|pre|] == r[0]; }
    if q != [] { assert y[|pre|] == q[0]; }
    CommonIs(x, y, |pre|);
  }

  lemma AlikeIs<T>(pre: seq<T>, r: seq<T>, q: seq<T>)
    requires Common(pre + r, pre + q) == |pre|
    ensures EndsAlike(pre + r, pre + q) <==> r != [] && q != [] && LastOf(r) == LastOf(q)
  {
    hide Common;
    if r != [] && q != [] {
      LastOfBoth(pre, r);
      LastOfBoth(pre, q);
    }
  }

  /** Trimmed as far as can be, the ends say whether the files end alike. */
  lemma {:induction false} EndsAre<T>(pre: seq<T>, r: seq<T>, q: seq<T>, a: seq<T>, b: seq<T>, suf: seq<T>)
    requires r == a + suf && q == b + suf
    requires r != [] && q != [] ==> r[0] != q[0]
    requires a != [] && b != [] ==> LastOf(a) != LastOf(b)
    ensures Common(pre + r, pre + q) == |pre| && (EndsAlike(pre + r, pre + q) <==> suf != [])
    ensures a != [] && b != [] ==> a[0] != b[0]
  {
    hide *;
    CommonWas(pre, r, q);
    AlikeIs(pre, r, q);
    if suf == [] {
      assert r == a && q == b;
    } else {
      LastOfBoth(a, suf);
      LastOfBoth(b, suf);
    }
    if a != [] && b != [] { assert r[0] == a[0] && q[0] == b[0]; }
  }

  lemma Assoc<T>(a: seq<T>, b: seq<T>, c: seq<T>)
    ensures a + b + c == a + (b + c)
  {}

  // ----- the command's state -----

  /** The lines of ids. */
  function Text(hlines: seq<Line>, ids: seq<nat>): seq<Line>
    requires forall k | 0 <= k < |ids| :: ids[k] < |hlines|
  {
    seq(|ids|, k requires 0 <= k < |ids| => hlines[ids[k]])
  }

  class XFiles {
    var lines: map<Line, nat>   // the id of each line seen
    var hlines: seq<Line>       // the line of each id
    var f0: seq<nat>            // the files, as ids
    var f1: seq<nat>
    var prefix: seq<nat>
    var suffix: seq<nat>
    var repc: seq<Rep>          // the reports sent

    /** Ids name lines one to one. */
    predicate Interned()
      reads this
    {
      && (forall s | s in lines :: lines[s] < |hlines| && hlines[lines[s]] == s)
      && (forall k | 0 <= k < |hlines| :: hlines[k] in lines && lines[hlines[k]] == k)
    }

    predicate Known(ids: seq<nat>)
      reads this
    {
      forall k | 0 <= k < |ids| :: ids[k] < |hlines|
    }

    predicate Valid()
      reads this
    {
      Interned() && Known(f0) && Known(f1)
    }

    constructor ()
      ensures Valid() && f0 == [] && f1 == [] && repc == []
    {
      lines, hlines, f0, f1, prefix, suffix, repc := map[], [], [], [], [], [], [];
    }

    /** Add a line to file 1 or 2. */
    method AddLine(s: Line, fno: nat)
      requires Valid() && fno <= 2
      modifies this`lines, this`hlines, this`f0, this`f1
      ensures Valid() && old(hlines) <= hlines
      ensures Text(hlines, f0) == old(Text(hlines, f0)) + if fno == 1 then [s] else []
      ensures Text(hlines, f1) == old(Text(hlines, f1)) + if fno == 2 then [s] else []
    {
      if fno == 0 { return; }
      var id;
      if s in lines {
        id := lines[s];
      } else {
        id := |hlines|;
        lines := lines[s := id];
        hlines := hlines + [s];
      }
      if fno == 1 { f0 := f0 + [id]; } else { f1 := f1 + [id]; }
    }

    /** Walk the table back from (i, j), reporting. */
    method Report(lcs: array2<nat>, i: nat, j: nat)
      requires i <= |f0| && j <= |f1| && Filled(lcs, f0, f1, |f0| + 1, 0)
      modifies this`repc
      ensures repc == old(repc) + Script(f0, f1, i, j)
      decreases i + j
    {
      if i > 0 && j > 0 {
        assert lcs[i - 1, j] == Lcs(f0, f1, i - 1, j);
        assert lcs[i, j - 1] == Lcs(f0, f1, i, j - 1);
      }
      if i > 0 && j > 0 && f0[i - 1] == f1[j - 1] {
        Report(lcs, i - 1, j - 1);
        repc := repc + [Rep(Eq, i - 1, j - 1)];
      } else if j > 0 && (i == 0 || lcs[i, j - 1] >= lcs[i - 1, j]) {
        Report(lcs, i, j - 1);
        repc := repc + [Rep(Add, i, j - 1)];
      } else if i > 0 && (j == 0 || lcs[i, j - 1] < lcs[i - 1, j]) {
        Report(lcs, i - 1, j);
        repc := repc + [Rep(Del, i - 1, j)];
      }
    }

    /**
      The trimmed ends and the reports explain both files: what is kept or deleted is the
      first, what is kept or added is the second.
     */
    ghost predicate Explains(ids0: seq<nat>, ids1: seq<nat>)
      reads this
    {
      && Reports(f0, f1, repc)
      && prefix + Olds(f0, repc) + suffix == ids0
      && prefix + News(f1, repc) + suffix == ids1
    }

    /** Trim the common ends of the files. */
    method Trim()
      modifies this`f0, this`f1, this`prefix, this`suffix
      ensures prefix + f0 + suffix == old(f0) && prefix + f1 + suffix == old(f1)
      ensures |prefix| == Common(old(f0), old(f1)) && (suffix != [] <==> EndsAlike(old(f0), old(f1)))
      ensures f0 != [] && f1 != [] ==> f0[0] != f1[0] && LastOf(f0) != LastOf(f1)
    {
      hide *;
      prefix, f0, f1 := Prefix(f0, f1);
      ghost var r, q := f0, f1;
      suffix, f0, f1 := Suffix(f0, f1);
      EndsAre(prefix, r, q, f0, f1, suffix);
      Assoc(prefix, f0, suffix);
      Assoc(prefix, f1, suffix);
    }

    /** Report the differences of the trimmed files. */
    method ReportAll()
      requires repc == []
      modifies this`repc
      ensures Reports(f0, f1, repc) && Olds(f0, repc) == f0 && News(f1, repc) == f1
      ensures Kept(repc) == Lcs(f0, f1, |f0|, |f1|)
    {
      var lcs := FillTable(f0, f1);
      Report(lcs, |f0|, |f1|);
      assert repc == Script(f0, f1, |f0|, |f1|);
      assert f0[..|f0|] == f0 && f1[..|f1|] == f1;
      ScriptIsDiff(f0, f1, |f0|, |f1|);
    }

    /**
      Compare the files. lflag asks for the equal lines too, and qflag for the status only.
      The status is true if the files were found to differ.
     */
    method Diff(lflag: bool, qflag: bool) returns (differ: bool)
      requires Valid() && repc == []
      modifies this
      ensures hlines == old(hlines) && lines == old(lines)
      ensures !qflag ==> Explains(old(f0), old(f1))
      ensures !qflag ==> LongestCommon(old(f0), old(f1), |prefix| + Kept(repc) + |suffix|)
      ensures differ <==> old(f0) != old(f1) && (qflag || !lflag || !EndsAlike(old(f0), old(f1)))
    {
      Trim();
      SameEnds(prefix, f0, f1, suffix);
      Optimal(prefix, f0, f1, suffix);
      if |f0| == 0 && |f1| == 0 {
        return false;
      }
      if qflag {
        return true;
      }
      ReportAll();
      differ := ShowReport();
      if !differ { AllEqual(f0, f1, repc); }
      if lflag && |suffix| > 0 {
        differ := false;   // printing the suffix overwrites the status
      }
    }

    /** Print the reports; only the status is modelled: whether anything is added or deleted. */
    method ShowReport() returns (differ: bool)
      ensures differ <==> exists k :: 0 <= k < |repc| && repc[k].what != Eq
    {
      differ := false;
      for k := 0 to |repc|
        invariant differ <==> exists l :: 0 <= l < k && repc[l].what != Eq
      {
        if repc[k].what != Eq { differ := true; }
      }
    }
  }

  /** A script that only keeps lines is a script between equal files. */
  lemma {:induction false} AllEqual(a: seq<nat>, b: seq<nat>, rs: seq<Rep>)
    requires Reports(a, b, rs) && forall k | 0 <= k < |rs| :: rs[k].what == Eq
    ensures Olds(a, rs) == News(b, rs)
    decreases |rs|
  {
    if rs != [] { AllEqual(a, b, rs[..|rs| - 1]); }
  }

  lemma SameEnds<T>(pre: seq<T>, a: seq<T>, b: seq<T>, suf: seq<T>)
    ensures pre + a + suf == pre + b + suf <==> a == b
  {
    if pre + a + suf == pre + b + suf {
      var w := pre + a + suf;
      assert |a| == |b|;
      assert a == w[|pre|..|pre| + |a|] && b == (pre + b + suf)[|pre|..|pre| + |b|];
    }
  }

  /** No common subsequence of the whole files is longer than the ends plus the table's corner. */
  lemma {:induction false} Optimal(pre: seq<nat>, a: seq<nat>, b: seq<nat>, suf: seq<nat>)
    ensures LongestCommon(pre + a + suf, pre + b + suf, |pre| + Lcs(a, b, |a|, |b|) + |suf|)
  {
    forall f, g | Matching(pre + a + suf, pre + b + suf, f, g)
      ensures |f| <= |pre| + Lcs(a, b, |a|, |b|) + |suf|
    {
      var f', g' := TrimmedMatching(pre, a, b, suf, f, g);
      assert a[..|a|] == a && b[..|b|] == b;
      LcsBounds(a, b, f', g', |a|, |b|);
    }
  }

  // ----- files as lines -----

  predicate OneToOne(hlines: seq<Line>)
  {
    forall k, l | 0 <= k < l < |hlines| :: hlines[k] != hlines[l]
  }

  predicate AllKnown(hlines: seq<Line>, ids: seq<nat>)
  {
    forall k | 0 <= k < |ids| :: ids[k] < |hlines|
  }

  /** Comparing ids is comparing lines. */
  lemma {:induction false} SameMatchings(hlines: seq<Line>, a: seq<nat>, b: seq<nat>, n: nat)
    requires OneToOne(hlines) && AllKnown(hlines, a) && AllKnown(hlines, b) && LongestCommon(a, b, n)
    ensures LongestCommon(Text(hlines, a), Text(hlines, b), n)
  {
    forall f, g | Matching(Text(hlines, a), Text(hlines, b), f, g) ensures |f| <= n {
      forall k | 0 <= k < |f| ensures a[f[k]] == b[g[k]] {
        assert Text(hlines, a)[f[k]] == Text(hlines, b)[g[k]];
      }
      assert Matching(a, b, f, g);
    }
  }

  lemma {:induction false} SameTexts(hlines: seq<Line>, a: seq<nat>, b: seq<nat>)
    requires OneToOne(hlines) && AllKnown(hlines, a) && AllKnown(hlines, b)
    ensures Text(hlines, a) == Text(hlines, b) <==> a == b
  {
    if Text(hlines, a) == Text(hlines, b) {
      forall k | 0 <= k < |a| ensures a[k] == b[k] {
        assert Text(hlines, a)[k] == Text(hlines, b)[k];
      }
    }
  }

  /** Two files end alike exactly when their ids do. */
  lemma {:induction false} SameEndings(hlines: seq<Line>, a: seq<nat>, b: seq<nat>)
    requires OneToOne(hlines) && AllKnown(hlines, a) && AllKnown(hlines, b)
    ensures Common(Text(hlines, a), Text(hlines, b)) == Common(a, b)
    ensures EndsAlike(Text(hlines, a), Text(hlines, b)) <==> EndsAlike(a, b)
  {
    var n, x, y := Common(a, b), Text(hlines, a), Text(hlines, b);
    forall k | 0 <= k < n ensures x[k] == y[k] {
      assert a[..n][k] == b[..n][k];
    }
    CommonIs(x, y, n);
  }

  /** Asked for the equal lines too, two files that differ in their first line are reported as equal. */
  method EndingHidesTheStatus() returns (differ: bool)
    ensures !differ
  {
    var file1, file2: seq<Line> := ["one", "end"], ["two", "end"];
    assert file1[0] != file2[0] by { assert "one"[0] != "two"[0]; }
    var x;
    differ, x := DiffFiles(file1, file2, true, false);
  }

  /**
    Compare two files given by their lines. The common lines reported, those of the ends
    included, are as many as in any common subsequence of the files.
   */
  method DiffFiles(file1: seq<Line>, file2: seq<Line>, lflag: bool, qflag: bool) returns (differ: bool, x: XFiles)
    ensures fresh(x)
    ensures !qflag ==>
      && Reports(x.f0, x.f1, x.repc)
      && AllKnown(x.hlines, x.prefix + Olds(x.f0, x.repc) + x.suffix)
      && AllKnown(x.hlines, x.prefix + News(x.f1, x.repc) + x.suffix)
      && Text(x.hlines, x.prefix + Olds(x.f0, x.repc) + x.suffix) == file1
      && Text(x.hlines, x.prefix + News(x.f1, x.repc) + x.suffix) == file2
      && LongestCommon(file1, file2, |x.prefix| + Kept(x.repc) + |x.suffix|)
    ensures differ <==> file1 != file2 && (qflag || !lflag || !EndsAlike(file1, file2))
  {
    x := new XFiles();
    for k := 0 to |file1|
      invariant fresh(x) && x.Valid() && x.repc == [] && Text(x.hlines, x.f0) == file1[..k] && x.f1 == []
    {
      x.AddLine(file1[k], 1);
      assert x.f1 == [] by { assert |Text(x.hlines, x.f1)| == 0; }
    }
    for k := 0 to |file2|
      invariant fresh(x) && x.Valid() && x.repc == [] && Text(x.hlines, x.f0) == file1 && Text(x.hlines, x.f1) == file2[..k]
    {
      x.AddLine(file2[k], 2);
    }
    ghost var a, b, hlines := x.f0, x.f1, x.hlines;
    assert file1[..|file1|] == file1 && file2[..|file2|] == file2;
    differ := x.Diff(lflag, qflag);
    assert OneToOne(hlines) by {
      forall k, l | 0 <= k < l < |hlines| ensures hlines[k] != hlines[l] {
        assert x.lines[hlines[k]] == k && x.lines[hlines[l]] == l;
      }
    }
    SameTexts(hlines, a, b);
    SameEndings(hlines, a, b);
    if !qflag {
      SameMatchings(hlines, a, b, |x.prefix| + Kept(x.repc) + |x.suffix|);
    }
  }
}
