/** A sequence kept in pieces, and the flat sequence it stands for. */
module Pieces {

  function Flat<T>(d: seq<seq<T>>): seq<T>
  {
    if d == [] then [] else d[0] + Flat(d[1..])
  }

  lemma {:induction false} FlatAppend<T>(a: seq<seq<T>>, b: seq<seq<T>>)
    ensures Flat(a + b) == Flat(a) + Flat(b)
    decreases |a|
  {
    if a == [] {
      assert a + b == b;
    } else {
      assert (a + b)[0] == a[0] && (a + b)[1..] == a[1..] + b;
      FlatAppend(a[1..], b);
    }
  }

  lemma FlatOne<T>(p: seq<T>)
    ensures Flat([p]) == p
  {
    assert [p][1..] == [];
  }

  lemma FlatAll<T>(d: seq<seq<T>>)
    ensures Flat(d[..|d|]) == Flat(d)
  {
    assert d[..|d|] == d;
  }

  /** The text before, in and after a piece. */
  lemma {:induction false} FlatAround<T>(d: seq<seq<T>>, i: nat)
    requires i < |d|
    ensures Flat(d) == Flat(d[..i]) + d[i] + Flat(d[i + 1..])
    ensures Flat(d[..i + 1]) == Flat(d[..i]) + d[i]
  {
    assert d[..i + 1] == d[..i] + [d[i]] && d == d[..i + 1] + d[i + 1..];
    FlatAppend(d[..i], [d[i]]);
    FlatAppend(d[..i + 1], d[i + 1..]);
    FlatOne(d[i]);
  }

  /** The text when the piece at i is replaced. */
  lemma {:induction false} FlatReplace<T>(d: seq<seq<T>>, i: nat, mid: seq<seq<T>>)
    requires i < |d|
    ensures Flat(d[..i] + mid + d[i + 1..]) == Flat(d[..i]) + Flat(mid) + Flat(d[i + 1..])
  {
    FlatAppend(d[..i], mid);
    FlatAppend(d[..i] + mid, d[i + 1..]);
  }
}
