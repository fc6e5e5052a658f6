/**
  Paths: strings to name files, and the elements they stand for. The operations on strings
  are proved to be operations on lists of elements, for cleaned absolute paths.
 */
module Paths {

  type Path = seq<string>

  /** What cleaning leaves between slashes. */
  predicate IsElem(e: string)
  {
    e != "" && '/' !in e
  }

  predicate IsPath(els: Path)
  {
    forall i | 0 <= i < |els| :: IsElem(els[i])
  }

  /** Each element, with a slash before it. */
  function Slashed(els: Path): string
  {
    if els == [] then "" else "/" + (els[0] + Slashed(els[1..]))
  }

  /** The cleaned absolute path for els. */
  function Join(els: Path): string
  {
    if els == [] then "/" else Slashed(els)
  }

  // ----- elements of a string -----

  /** The position of the first slash, or the length. */
  function ToSlash(s: string): (n: nat)
    ensures n <= |s| && '/' !in s[..n] && (n < |s| ==> s[n] == '/')
  {
    if s == "" || s[0] == '/' then 0 else 1 + ToSlash(s[1..])
  }

  function Split(s: string): Path
    decreases |s|
  {
    var n := ToSlash(s);
    if n == |s| then [s] else [s[..n]] + Split(s[n + 1..])
  }

  function Elems(p: string): Path
  {
    if p == "/" || p == "" then [] else Split(if p[0] == '/' then p[1..] else p)
  }

  lemma {:induction false} ToSlashIs(e: string, t: string)
    requires '/' !in e && (t == "" || t[0] == '/')
    ensures ToSlash(e + t) == |e|
    decreases |e|
  {
    if e != "" {
      assert (e + t)[1..] == e[1..] + t && (e + t)[0] == e[0];
      assert e[0] in e;
      ToSlashIs(e[1..], t);
    } else {
      assert e + t == t;
    }
  }

  lemma SplitStep(e: string, t: string)
    requires '/' !in e && (t == "" || t[0] == '/')
    ensures Split(e + t) == if t == "" then [e] else [e] + Split(t[1..])
  {
    ToSlashIs(e, t);
    var s := e + t;
    assert s[..|e|] == e;
    if t == "" { assert s == e; } else { assert s[|e| + 1..] == t[1..]; }
  }

  lemma {:induction false} SplitSlashed(els: Path)
    requires IsPath(els) && els != []
    ensures Split(Slashed(els)[1..]) == els
    decreases |els|
  {
    var e, rest := els[0], Slashed(els[1..]);
    SlashedParts(els);
    hide *;
    SplitStep(e, rest);
    if els[1..] == [] {
      assert els == [e];
    } else {
      SplitSlashed(els[1..]);
      assert els == [e] + els[1..];
    }
  }

  lemma SlashedParts(els: Path)
    requires IsPath(els) && els != []
    ensures '/' !in els[0] && IsPath(els[1..]) && |Slashed(els)| > 0 && Slashed(els)[1..] == els[0] + Slashed(els[1..])
    ensures if els[1..] == [] then Slashed(els[1..]) == "" else Slashed(els[1..]) != "" && Slashed(els[1..])[0] == '/'
  {
    assert IsElem(els[0]);
  }

  /** Splitting a cleaned path gives back its elements. */
  lemma {:induction false} ElemsOfJoin(els: Path)
    requires IsPath(els)
    ensures Elems(Join(els)) == els
  {
    if els != [] {
      assert IsElem(els[0]);
      SplitSlashed(els);
    }
  }

  // ----- cleaning -----

  predicate IsAbs(s: string)
  {
    s != "" && s[0] == '/'
  }

  predicate Cleaned(s: string)
  {
    IsPath(Elems(s)) && Join(Elems(s)) == s
  }

  /** No element stands for another place. */
  predicate NoDots(els: Path)
  {
    forall i | 0 <= i < |els| :: els[i] != "." && els[i] != ".."
  }

  /** The elements of a path from the root: empty ones and "." say nothing, and ".." goes up, but not above the root. */
  function CleanElems(els: Path, done: Path): Path
    decreases |els|
  {
    if els == [] then done
    else
      var e := els[0];
      CleanElems(els[1..],
        if e == "" || e == "." then done
        else if e == ".." then (if done == [] then [] else done[..|done| - 1])
        else done + [e])
  }

  /** The absolute path that s stands for, cleaned. */
  function UseAbsPath(s: string): string
    requires IsAbs(s)
  {
    Join(CleanElems(Split(s[1..]), []))
  }

  /** The last element of a cleaned path, "/" for the root. */
  function Base(s: string): string
  {
    var els := Elems(s);
    if els == [] then "/" else els[|els| - 1]
  }

  lemma {:induction false} SplitElems(s: string)
    ensures forall i | 0 <= i < |Split(s)| :: '/' !in Split(s)[i]
    decreases |s|
  {
    var n := ToSlash(s);
    assert s[..|s|] == s;
    if n < |s| { SplitElems(s[n + 1..]); }
  }

  lemma {:induction false} CleanElemsOk(els: Path, done: Path)
    requires (forall i | 0 <= i < |els| :: '/' !in els[i]) && IsPath(done) && NoDots(done)
    ensures IsPath(CleanElems(els, done)) && NoDots(CleanElems(els, done))
    decreases |els|
  {
    if els != [] {
      var e := els[0];
      CleanElemsOk(els[1..],
        if e == "" || e == "." then done
        else if e == ".." then (if done == [] then [] else done[..|done| - 1])
        else done + [e]);
    }
  }

  lemma {:induction false} CleanElemsSame(els: Path, done: Path)
    requires IsPath(els) && NoDots(els)
    ensures CleanElems(els, done) == done + els
    decreases |els|
  {
    if els == [] {
      assert done + els == done;
    } else {
      assert IsElem(els[0]);
      CleanElemsSame(els[1..], done + [els[0]]);
      assert done + [els[0]] + els[1..] == done + els;
    }
  }

  /** What is left is cleaned, and cleaning it again changes nothing. */
  lemma {:induction false} CleanedOnce(s: string)
    requires IsAbs(s)
    ensures IsAbs(UseAbsPath(s)) && Cleaned(UseAbsPath(s)) && NoDots(Elems(UseAbsPath(s)))
    ensures UseAbsPath(UseAbsPath(s)) == UseAbsPath(s)
  {
    var els := CleanElems(Split(s[1..]), []);
    SplitElems(s[1..]);
    CleanElemsOk(Split(s[1..]), []);
    ElemsOfJoin(els);
    if els == [] {
      assert UseAbsPath(s) == "/" && "/"[1..] == "" && Split("") == [""];
    } else {
      SlashedParts(els);
      SplitSlashed(els);
      CleanElemsSame(els, []);
      assert [] + els == els;
    }
  }

  // ----- prefixes -----

  /** pref is p or a path above it; both cleaned. */
  predicate HasPrefix(p: string, pref: string)
  {
    pref == "" || (pref <= p && (pref == "/" || |p| == |pref| || p[|pref|] == '/'))
  }

  /** What is left of p after pref, starting with a slash; "" if it is not below it. Both absolute and cleaned. */
  function Suffix(p: string, pref: string): string
  {
    if p == "" then ""
    else if pref == "" then p
    else if pref == "/" then p
    else if |p| < |pref| then ""
    else if !(pref <= p) then ""
    else if |p| == |pref| then "/"
    else if p[|pref|] != '/' then ""
    else p[|pref|..]
  }

  lemma {:induction false} SlashedAppend(a: Path, b: Path)
    ensures Slashed(a + b) == Slashed(a) + Slashed(b)
    decreases |a|
  {
    if a == [] {
      assert a + b == b;
    } else {
      SlashedAppend(a[1..], b);
      assert (a + b)[1..] == a[1..] + b && (a + b)[0] == a[0];
    }
  }

  lemma {:induction false} SlashedPrefix(a: Path, b: Path)
    requires IsPath(a) && IsPath(b) && Slashed(b) <= Slashed(a)
    requires |Slashed(b)| == |Slashed(a)| || Slashed(a)[|Slashed(b)|] == '/'
    ensures b <= a
    decreases |b|
  {
    if b != [] {
      assert a != [];
      var x, y, s, t := a[0], b[0], Slashed(a[1..]), Slashed(b[1..]);
      assert IsElem(x) && IsElem(y);
      var u, v := x + s, y + t;
      assert Slashed(a) == "/" + u && Slashed(b) == "/" + v;
      assert v <= u by { assert Slashed(a)[1..] == u && Slashed(b)[1..] == v; }
      SameElem(x, s, y, t);
      assert u[|x|..] == s && v[|x|..] == t;
      SlashedPrefix(a[1..], b[1..]);
    }
  }

  /** Elements that end where a slash or the string ends are the same. */
  lemma SameElem(x: string, s: string, y: string, t: string)
    requires IsElem(x) && IsElem(y) && y + t <= x + s
    requires (s == "" || s[0] == '/') && (t == "" || t[0] == '/')
    requires |y + t| == |x + s| || (x + s)[|y + t|] == '/'
    ensures x == y
  {
    var u, v := x + s, y + t;
    assert forall k | 0 <= k < |x| :: x[k] in x && u[k] == x[k];
    assert forall k | 0 <= k < |y| :: y[k] in y && v[k] == y[k];
    assert forall k | 0 <= k < |v| :: u[k] == v[k];
    assert s != "" ==> u[|x|] == s[0];
    assert t != "" ==> v[|y|] == t[0];
    if |x| == |y| {
      assert u[..|x|] == x && v[..|y|] == y;
    }
  }

  /** On cleaned paths, being a prefix is being a prefix element by element. */
  lemma {:induction false} PrefixIsElems(a: Path, b: Path)
    requires IsPath(a) && IsPath(b)
    ensures HasPrefix(Join(a), Join(b)) <==> b <= a
  {
    if b <= a && b != [] {
      SlashedAppend(b, a[|b|..]);
      assert b + a[|b|..] == a;
    }
    if HasPrefix(Join(a), Join(b)) && b != [] {
      assert IsElem(b[0]) && |Slashed(b)| >= 2;
      if a != [] {
        SlashedPrefix(a, b);
      }
    }
  }

  /** The suffix is the path of the elements left, so prefix and suffix make the path again. */
  lemma {:induction false} SuffixIsElems(a: Path, b: Path)
    requires IsPath(a) && IsPath(b)
    ensures Suffix(Join(a), Join(b)) == if b <= a then Join(a[|b|..]) else ""
  {
    PrefixIsElems(a, b);
    if b == [] {
      assert a[0..] == a;
    } else {
      assert IsElem(b[0]);
      assert |Join(b)| >= 2 && Join(b)[1] != '/';
      if b <= a {
        SlashedAppend(b, a[|b|..]);
        assert b + a[|b|..] == a;
        SlashedAfter(Join(a), Join(b), a[|b|..]);
      } else {
        SuffixOnlyIf(Join(a), Join(b));
      }
    }
  }

  lemma SlashedAfter(p: string, pref: string, rest: Path)
    requires p == pref + Slashed(rest) && |pref| >= 2
    ensures Suffix(p, pref) == Join(rest)
  {
    assert p[|pref|..] == Slashed(rest);
  }

  lemma SuffixOnlyIf(p: string, pref: string)
    requires !HasPrefix(p, pref) && IsAbs(p)
    ensures Suffix(p, pref) == ""
  {}

  // ----- order -----

  function StrCmp(a: string, b: string): (r: int)
    ensures r == -1 || r == 0 || r == 1
    decreases |a|
  {
    if a == "" then (if b == "" then 0 else -1)
    else if b == "" then 1
    else if a[0] < b[0] then -1
    else if a[0] > b[0] then 1
    else StrCmp(a[1..], b[1..])
  }

  lemma {:induction false} StrCmpEq(a: string, b: string)
    ensures StrCmp(a, b) == 0 <==> a == b
    ensures StrCmp(b, a) == -StrCmp(a, b)
    decreases |a|
  {
    if a != "" && b != "" {
      StrCmpEq(a[1..], b[1..]);
      assert a == [a[0]] + a[1..] && b == [b[0]] + b[1..];
    }
  }

  lemma {:induction false} StrCmpTrans(a: string, b: string, c: string)
    requires StrCmp(a, b) < 0 && StrCmp(b, c) < 0
    ensures StrCmp(a, c) < 0
    decreases |a|
  {
    if a != "" && b != "" && c != "" && a[0] == b[0] == c[0] {
      StrCmpTrans(a[1..], b[1..], c[1..]);
    }
  }

  /** The order in which paths are found. */
  function Cmp(a: Path, b: Path): (r: int)
    ensures r == -1 || r == 0 || r == 1
    decreases |a|
  {
    if a == [] then (if b == [] then 0 else -1)
    else if b == [] then 1
    else if a[0] != b[0] then StrCmp(a[0], b[0])
    else Cmp(a[1..], b[1..])
  }

  method PathCmp(path0: string, path1: string) returns (r: int)
    ensures r == Cmp(Elems(path0), Elems(path1))
  {
    var els0, els1 := Elems(path0), Elems(path1);
    var i := 0;
    while i < |els0| && i < |els1|
      invariant 0 <= i <= |els0| && i <= |els1|
      invariant Cmp(els0[i..], els1[i..]) == Cmp(els0, els1)
    {
      StrCmpEq(els0[i], els1[i]);
      if StrCmp(els0[i], els1[i]) < 0 {
        return -1;
      }
      if StrCmp(els0[i], els1[i]) > 0 {
        return 1;
      }
      i := i + 1;
    }
    if |els0| < |els1| {
      return -1;
    }
    if |els0| > |els1| {
      return 1;
    }
    return 0;
  }

  lemma {:induction false} CmpEq(a: Path, b: Path)
    ensures Cmp(a, b) == 0 <==> a == b
    ensures Cmp(b, a) == -Cmp(a, b)
    decreases |a|
  {
    if a != [] && b != [] {
      StrCmpEq(a[0], b[0]);
      if a[0] == b[0] {
        CmpEq(a[1..], b[1..]);
        assert a == [a[0]] + a[1..] && b == [b[0]] + b[1..];
      }
    }
  }

  lemma {:induction false} CmpTrans(a: Path, b: Path, c: Path)
    requires Cmp(a, b) < 0 && Cmp(b, c) < 0
    ensures Cmp(a, c) < 0
    decreases |a|
  {
    if a != [] && b != [] && c != [] {
      StrCmpEq(a[0], c[0]);
      if a[0] == b[0] == c[0] {
        CmpTrans(a[1..], b[1..], c[1..]);
      } else if a[0] != b[0] && b[0] != c[0] {
        StrCmpTrans(a[0], b[0], c[0]);
        StrCmpEq(a[0], a[0]);
      }
    }
  }

  /** A directory comes before what is below it, and what is found between them is below it too. */
  lemma {:induction false} BelowIsAfter(p: Path, q: Path, r: Path)
    ensures p <= r ==> Cmp(p, r) <= 0
    ensures p <= r && Cmp(p, q) <= 0 && Cmp(q, r) <= 0 ==> p <= q
    decreases |p|
  {
    if p != [] && r != [] {
      if p[0] == r[0] {
        BelowIsAfter(p[1..], if q == [] then [] else q[1..], r[1..]);
        assert p <= r ==> p[1..] <= r[1..];
        if q != [] {
          StrCmpEq(p[0], q[0]);
          StrCmpEq(q[0], r[0]);
          assert p[0] == q[0] && p[1..] <= q[1..] ==> p <= q by {
            assert p == [p[0]] + p[1..] && q == [q[0]] + q[1..];
          }
        }
      }
    }
  }
}
