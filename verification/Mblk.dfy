/**
  Memory block buffers: a file kept as consecutive blocks, some of them holes, with spare
  room at the end of the last one. The buffer is proved to be a flat sequence of bytes, and
  descriptors on it to read and write that sequence at their offset.
 */
module Mblk {

  import opened Pieces

  type Byte = int   // only zero matters here

  /** A block at an offset: its data, to the whole of its capacity, and the n bytes in use. Holes have no data. */
  datatype Block = Block(off: nat, data: Data, n: nat)

  datatype Data = Hole | Bytes(bytes: seq<Byte>)

  function Zeros(n: nat): (z: seq<Byte>)
    ensures |z| == n && forall k | 0 <= k < n :: z[k] == 0
  {
    seq(n, _ => 0)
  }

  lemma MoreZeros(s: seq<Byte>, n: nat, m: nat)
    ensures (s + Zeros(n)) + Zeros(m) == s + Zeros(n + m)
  {
    assert Zeros(n) + Zeros(m) == Zeros(n + m);
  }

  lemma Regroup(s: seq<Byte>, p: seq<Byte>, k: nat)
    requires k <= |p|
    ensures (s + p[..k]) + p[k..] == s + p
  {
    assert p[..k] + p[k..] == p;
  }

  // ----- blocks -----

  predicate GoodBlock(size: nat, b: Block)
  {
    && 0 < b.n <= size
    && (b.data.Bytes? ==> |b.data.bytes| == size && forall k | b.n <= k < size :: b.data.bytes[k] == 0)
  }

  function Used(size: nat, b: Block): seq<Byte>
    requires GoodBlock(size, b)
  {
    if b.data.Hole? then Zeros(b.n) else b.data.bytes[..b.n]
  }

  function Length(blks: seq<Block>): nat
  {
    if blks == [] then 0 else blks[|blks| - 1].off + blks[|blks| - 1].n
  }

  /** Each block is good and starts where the one before it ends. */
  predicate GoodBlocks(size: nat, blks: seq<Block>)
  {
    blks == []
    || (var init, last := blks[..|blks| - 1], blks[|blks| - 1];
        GoodBlocks(size, init) && GoodBlock(size, last) && last.off == Length(init))
  }

  /** The bytes of the blocks, one after another. */
  function Contents(size: nat, blks: seq<Block>): (s: seq<Byte>)
    requires GoodBlocks(size, blks)
    ensures |s| == Length(blks)
  {
    if blks == [] then [] else Contents(size, blks[..|blks| - 1]) + Used(size, blks[|blks| - 1])
  }

  /** Any first blocks are good, and hold the first bytes. */
  lemma {:induction false} DropBlocks(size: nat, blks: seq<Block>, k: nat)
    requires GoodBlocks(size, blks) && k <= |blks|
    ensures GoodBlocks(size, blks[..k]) && Length(blks[..k]) <= Length(blks)
    ensures Contents(size, blks[..k]) == Contents(size, blks)[..Length(blks[..k])]
    decreases |blks|
  {
    if k == |blks| {
      assert blks[..k] == blks;
    } else {
      var init := blks[..|blks| - 1];
      DropBlocks(size, init, k);
      assert init[..k] == blks[..k];
    }
  }

  /** A block holds the bytes from its offset on. */
  lemma {:induction false} BlockAt(size: nat, blks: seq<Block>, k: nat)
    requires GoodBlocks(size, blks) && k < |blks|
    ensures GoodBlock(size, blks[k]) && GoodBlocks(size, blks[..k]) && blks[k].off == Length(blks[..k])
    ensures blks[k].off + blks[k].n == Length(blks[..k + 1]) <= Length(blks)
    ensures Contents(size, blks)[blks[k].off..blks[k].off + blks[k].n] == Used(size, blks[k])
  {
    var upto := blks[..k + 1];
    DropBlocks(size, blks, k + 1);
    assert upto[..k] == blks[..k] && upto[k] == blks[k];
    var s := Contents(size, upto);
    assert s == Contents(size, blks[..k]) + Used(size, blks[k]);
    assert s[blks[k].off..] == Used(size, blks[k]);
  }

  lemma {:induction false} AddBlock(size: nat, blks: seq<Block>, b: Block)
    requires GoodBlocks(size, blks) && GoodBlock(size, b) && b.off == Length(blks)
    ensures GoodBlocks(size, blks + [b]) && Contents(size, blks + [b]) == Contents(size, blks) + Used(size, b)
  {
    assert (blks + [b])[..|blks|] == blks;
  }

  /** The last block may be replaced by any that starts at the same place. */
  lemma {:induction false} ReplaceLast(size: nat, blks: seq<Block>, b: Block)
    requires GoodBlocks(size, blks) && blks != [] && GoodBlock(size, b) && b.off == blks[|blks| - 1].off
    ensures GoodBlocks(size, blks[|blks| - 1 := b]) && b.off <= Length(blks)
    ensures Contents(size, blks[|blks| - 1 := b]) == Contents(size, blks)[..b.off] + Used(size, b)
    ensures Contents(size, blks) == Contents(size, blks)[..b.off] + Used(size, blks[|blks| - 1])
  {
    var k := |blks| - 1;
    assert blks[k := b][..k] == blks[..k];
    assert Contents(size, blks) == Contents(size, blks[..k]) + Used(size, blks[k]);
  }

  lemma SplitAround(a: seq<Byte>, i: nat, u: seq<Byte>, j: nat, z: seq<Byte>)
    requires i <= j <= |a|
    ensures (a[..i] + u + a[j..]) + z == (a + z)[..i] + u + (a + z)[j..]
  {}

  lemma {:induction false} LastPart(size: nat, blks: seq<Block>, b: Block)
    requires GoodBlocks(size, blks) && GoodBlock(size, b) && b.off == Length(blks)
    ensures GoodBlocks(size, blks + [b]) && Contents(size, blks + [b]) == Contents(size, blks) + Used(size, b)
    ensures Length(blks + [b]) == b.off + b.n
  {
    AddBlock(size, blks, b);
  }

  lemma SplitLast(size: nat, blks: seq<Block>)
    requires GoodBlocks(size, blks) && blks != []
    ensures var init, last := blks[..|blks| - 1], blks[|blks| - 1];
            && GoodBlocks(size, init) && GoodBlock(size, last) && last.n <= size && last.off == Length(init) && blks == init + [last]
            && Length(blks) == last.off + last.n
  {}

  /** Any block may be replaced by one of the same place and length. */
  lemma {:induction false} ReplaceBlock(size: nat, blks: seq<Block>, k: nat, b: Block)
    requires GoodBlocks(size, blks) && k < |blks| && GoodBlock(size, b) && b.off == blks[k].off && b.n == blks[k].n
    ensures GoodBlocks(size, blks[k := b]) && b.off + b.n <= Length(blks) == Length(blks[k := b])
    ensures Contents(size, blks[k := b]) == Contents(size, blks)[..b.off] + Used(size, b) + Contents(size, blks)[b.off + b.n..]
    decreases |blks|, 0
  {
    SplitLast(size, blks);
    hide *;
    var init, z := blks[..|blks| - 1], blks[|blks| - 1];
    if k == |init| {
      assert blks[k := b] == init + [b];
      ReplaceTail(size, init, z, b);
    } else {
      assert blks[k := b] == init[k := b] + [z];
      ReplaceBefore(size, init, k, b, z);
    }
  }

  lemma {:induction false} ReplaceTail(size: nat, init: seq<Block>, z: Block, b: Block)
    requires GoodBlocks(size, init) && GoodBlock(size, z) && GoodBlock(size, b) && z.off == b.off == Length(init) && z.n == b.n
    ensures GoodBlocks(size, init + [z]) && GoodBlocks(size, init + [b])
    ensures b.off + b.n == Length(init + [z]) == Length(init + [b])
    ensures Contents(size, init + [b]) ==
      Contents(size, init + [z])[..b.off] + Used(size, b) + Contents(size, init + [z])[b.off + b.n..]
  {
    hide *;
    LastPart(size, init, z);
    LastPart(size, init, b);
    var s, t := Contents(size, init), Contents(size, init + [z]);
    assert t[..b.off] == s && t[b.off + b.n..] == [];
    assert s + Used(size, b) + [] == s + Used(size, b);
  }

  lemma {:induction false} ReplaceBefore(size: nat, init: seq<Block>, k: nat, b: Block, z: Block)
    requires GoodBlocks(size, init) && GoodBlock(size, z) && z.off == Length(init)
    requires k < |init| && GoodBlock(size, b) && b.off == init[k].off && b.n == init[k].n
    ensures GoodBlocks(size, init + [z]) && GoodBlocks(size, init[k := b] + [z])
    ensures b.off + b.n <= Length(init + [z]) == Length(init[k := b] + [z])
    ensures Contents(size, init[k := b] + [z]) ==
      Contents(size, init + [z])[..b.off] + Used(size, b) + Contents(size, init + [z])[b.off + b.n..]
    decreases |init|, 1
  {
    hide *;
    ReplaceBlock(size, init, k, b);
    var next := init[k := b];
    LastPart(size, init, z);
    LastPart(size, next, z);
    SplitAround(Contents(size, init), b.off, Used(size, b), b.off + b.n, Used(size, z));
  }

  // ----- what the operations mean -----

  /** s cut or filled with zeros to n bytes. */
  function Sized(s: seq<Byte>, n: nat): seq<Byte>
  {
    if n <= |s| then s[..n] else s + Zeros(n - |s|)
  }

  /** p written over s at `at`, with zeros before it if s is too short. */
  function Overlay(s: seq<Byte>, at: nat, p: seq<Byte>): seq<Byte>
  {
    var t := if at > |s| then Sized(s, at) else s;
    t[..at] + p + if at + |p| <= |t| then t[at + |p|..] else []
  }

  /** Writes one after another are one write. */
  lemma {:induction false} OverlayTwice(s: seq<Byte>, at: nat, p: seq<Byte>, q: seq<Byte>)
    ensures Overlay(Overlay(s, at, p), at + |p|, q) == Overlay(s, at, p + q)
  {
    var t := if at > |s| then Sized(s, at) else s;
    var u := Overlay(s, at, p);
    assert u[..at + |p|] == t[..at] + p;
  }

  lemma OverlayInside(s: seq<Byte>, at: nat, p: seq<Byte>)
    requires at + |p| <= |s|
    ensures |Overlay(s, at, p)| == |s| && Overlay(s, at, p[..0]) == s
  {}

  /** A block with p written over its bytes from boff on. */
  function Patched(size: nat, blk: Block, boff: nat, p: seq<Byte>): (b: Block)
    requires GoodBlock(size, blk) && boff + |p| <= blk.n
    ensures GoodBlock(size, b) && b.off == blk.off && b.n == blk.n
    ensures Used(size, b) == Used(size, blk)[..boff] + p + Used(size, blk)[boff + |p|..]
  {
    var bytes := if blk.data.Hole? then Zeros(size) else blk.data.bytes;
    Block(blk.off, Data.Bytes(bytes[..boff] + p + bytes[boff + |p|..]), blk.n)
  }

  /** A block cut to its first boff bytes; new data is always assumed to be zero, so what is cut is cleared. */
  function Cleared(size: nat, blk: Block, boff: nat): (b: Block)
    requires GoodBlock(size, blk) && 0 < boff <= blk.n
    ensures GoodBlock(size, b) && b.off == blk.off && b.n == boff && Used(size, b) == Used(size, blk)[..boff]
  {
    if blk.data.Hole? then blk.(n := boff)
    else Block(blk.off, Data.Bytes(blk.data.bytes[..boff] + Zeros(size - boff)), boff)
  }

  /** The blocks cut in block nb, which b replaces. */
  lemma {:induction false} ClearOk(size: nat, blks: seq<Block>, nb: nat, b: Block)
    requires GoodBlocks(size, blks) && nb < |blks| && GoodBlock(size, blks[nb]) && GoodBlock(size, b)
    requires b.off == blks[nb].off && b.n <= blks[nb].n && Used(size, b) == Used(size, blks[nb])[..b.n]
    ensures GoodBlocks(size, blks[..nb] + [b]) && b.off + b.n <= Length(blks)
    ensures Contents(size, blks[..nb] + [b]) == Contents(size, blks)[..b.off + b.n]
  {
    hide *;
    BlockAt(size, blks, nb);
    DropBlocks(size, blks, nb);
    LastPart(size, blks[..nb], b);
    CutPart(Contents(size, blks), b.off, blks[nb].n, b.n);
  }

  lemma CutPart(s: seq<Byte>, off: nat, n: nat, boff: nat)
    requires off + n <= |s| && boff <= n
    ensures s[..off] + s[off..off + n][..boff] == s[..off + boff]
  {}

  /** A block with more data in its spare room. */
  function Filled(size: nat, blk: Block, x: seq<Byte>): (b: Block)
    requires GoodBlock(size, blk) && blk.data.Bytes? && blk.n + |x| <= size
    ensures GoodBlock(size, b) && b.off == blk.off && b.n == blk.n + |x| && Used(size, b) == Used(size, blk) + x
  {
    Block(blk.off, Data.Bytes(blk.data.bytes[..blk.n] + x + blk.data.bytes[blk.n + |x|..]), blk.n + |x|)
  }

  /** The spare room of a block is zeros. */
  lemma SpareIsZeros(size: nat, b: Block, lz: nat)
    requires GoodBlock(size, b) && b.n + lz <= size
    ensures GoodBlock(size, b.(n := b.n + lz)) && Used(size, b.(n := b.n + lz)) == Used(size, b) + Zeros(lz)
  {}

  lemma {:induction false} FillOk(size: nat, blks: seq<Block>, b: Block, x: seq<Byte>)
    requires GoodBlocks(size, blks) && blks != [] && GoodBlock(size, b) && GoodBlock(size, blks[|blks| - 1])
    requires b.off == blks[|blks| - 1].off && Used(size, b) == Used(size, blks[|blks| - 1]) + x
    ensures GoodBlocks(size, blks[|blks| - 1 := b]) && Contents(size, blks[|blks| - 1 := b]) == Contents(size, blks) + x
  {
    hide Contents, GoodBlocks, Used;
    ReplaceLast(size, blks, b);
    Assoc(Contents(size, blks)[..b.off], Used(size, blks[|blks| - 1]), x);
  }

  lemma Assoc(a: seq<Byte>, b: seq<Byte>, c: seq<Byte>)
    ensures (a + b) + c == a + (b + c)
  {}

  /** Block nb replaced by b, with p written over it. */
  lemma {:induction false} OverwriteOk(size: nat, blks: seq<Block>, nb: nat, boff: nat, p: seq<Byte>, b: Block)
    requires GoodBlocks(size, blks) && nb < |blks| && GoodBlock(size, blks[nb]) && GoodBlock(size, b)
    requires boff + |p| <= blks[nb].n && b.off == blks[nb].off && b.n == blks[nb].n
    requires Used(size, b) == Used(size, blks[nb])[..boff] + p + Used(size, blks[nb])[boff + |p|..]
    ensures GoodBlocks(size, blks[nb := b]) && b.off + boff + |p| <= Length(blks)
    ensures Contents(size, blks[nb := b]) == Overlay(Contents(size, blks), b.off + boff, p)
  {
    hide *;
    BlockAt(size, blks, nb);
    ReplaceBlock(size, blks, nb, b);
    PatchIsOverlay(Contents(size, blks), b.off, b.n, boff, p);
  }

  // ----- the buffer -----

  class Buffer {
    const size: nat
    var blks: seq<Block>

    ghost predicate Valid()
      reads this
    {
      size > 0 && GoodBlocks(size, blks)
    }

    ghost function Bytes(): seq<Byte>
      requires Valid()
      reads this
    {
      Contents(size, blks)
    }

    constructor (size: nat)
      requires size > 0
      ensures Valid() && Bytes() == [] && this.size == size
    {
      this.size, blks := size, [];
    }

    method Len() returns (n: nat)
      requires Valid()
      ensures n == |Bytes()| && size > 0
    {
      return Length(blks);
    }

    /**
      Find a position with a binary search over no more blocks than the position itself;
      that is enough because no block is empty.
     */
    method Seek(pos: nat) returns (nblk: nat, blkoff: nat)
      requires Valid()
      ensures (nblk, blkoff) == Place(blks, pos)
      ensures pos < |Bytes()| ==>
        nblk < |blks| && blkoff < blks[nblk].n && blks[nblk].off + blkoff == pos
      ensures pos >= |Bytes()| && pos > 0 ==> nblk == |blks| && blkoff == 0
    {
      if pos == 0 {
        if |blks| > 0 { BlockAt(size, blks, 0); }
        return 0, 0;
      }
      if pos >= Length(blks) {
        return |blks|, 0;
      }
      var i: nat, j: nat := 0, pos;
      while i < j
        invariant i <= j <= pos && i <= |blks|
        invariant i > 0 ==> blks[i - 1].off + blks[i - 1].n <= pos
        invariant j < pos && j < |blks| ==> blks[j].off + blks[j].n > pos
        decreases j - i
      {
        var h := (i + j) / 2;
        if h >= |blks| || blks[h].off + blks[h].n > pos {
          j := h;
        } else {
          i := h + 1;
        }
      }
      FoundPlace(size, blks, pos, i);
      PlaceIs(size, blks, i, pos - blks[i].off);
      return i, pos - blks[i].off;
    }

    /** Let the last block grow to the size of a block: with data, its spare room is zero already. */
    method GrowLast(nz: nat) returns (left: nat)
      requires Valid()
      modifies this`blks
      ensures Valid() && left <= nz && Bytes() == old(Bytes()) + Zeros(nz - left)
    {
      hide Contents, GoodBlocks, Used, GoodBlock, Length;
      left := nz;
      if |blks| > 0 {
        var k := |blks| - 1;
        var last := blks[k];
        SplitLast(size, blks);
        var lz := if nz > size - last.n then size - last.n else nz;
        var b := last.(n := last.n + lz);
        SpareIsZeros(size, last, lz);
        FillOk(size, blks, b, Zeros(lz));
        blks := blks[k := b];
        left := nz - lz;
      }
    }

    /** Add nz zero bytes: first in the last block, then in holes. */
    method Grow(nz: nat)
      requires Valid()
      modifies this`blks
      ensures Valid() && Bytes() == old(Bytes()) + Zeros(nz)
    {
      hide Contents, GoodBlocks, Length;
      var left: nat := GrowLast(nz);
      while left > 0
        invariant Valid() && left <= nz && Bytes() == old(Bytes()) + Zeros(nz - left)
      {
        var hsz := if left > size then size else left;
        var b := Block(Length(blks), Hole, hsz);
        AddBlock(size, blks, b);
        MoreZeros(old(Bytes()), nz - left, hsz);
        blks := blks + [b];
        left := left - hsz;
      }
    }

    /** Cut or extend the buffer to n bytes. */
    method Truncate(n: nat)
      requires Valid()
      modifies this`blks
      ensures Valid() && Bytes() == Sized(old(Bytes()), n)
    {
      var sz := Length(blks);
      if n == sz {
        return;
      }
      if n >= sz {
        Grow(n - sz);
        return;
      }
      var nb, boff := Seek(n);
      BlockAt(size, blks, nb);
      DropBlocks(size, blks, nb);
      if boff == 0 {
        blks := blks[..nb];
        return;
      }
      ClearOk(size, blks, nb, Cleared(size, blks[nb], boff));
      blks := blks[..nb] + [Cleared(size, blks[nb], boff)];
    }

    /** Write what fits in the spare room of the last block; a hole has none. */
    method FillLast(p: seq<Byte>) returns (rest: seq<Byte>)
      requires Valid()
      modifies this`blks
      ensures Valid() && |rest| <= |p| && rest == p[|p| - |rest|..]
      ensures Bytes() == old(Bytes()) + p[..|p| - |rest|]
    {
      hide Contents, GoodBlocks, Used, GoodBlock, Length, Filled;
      rest := p;
      if |blks| > 0 && blks[|blks| - 1].data.Bytes? {
        var k := |blks| - 1;
        SplitLast(size, blks);
        var left := if size - blks[k].n > |p| then |p| else size - blks[k].n;
        FillOk(size, blks, Filled(size, blks[k], p[..left]), p[..left]);
        blks := blks[k := Filled(size, blks[k], p[..left])];
        rest := p[left..];
      }
    }

    /** Write p in new blocks. */
    method WriteBlocks(p: seq<Byte>)
      requires Valid()
      modifies this`blks
      ensures Valid() && Bytes() == old(Bytes()) + p
    {
      var rest := p;
      while |rest| > 0
        invariant Valid() && old(Bytes()) + p == Bytes() + rest
        decreases |rest|
      {
        var sz := if size > |rest| then |rest| else size;
        var b := Block(Length(blks), Data.Bytes(rest[..sz] + Zeros(size - sz)), sz);
        AddBlock(size, blks, b);
        assert Used(size, b) == rest[..sz];
        Regroup(Bytes(), rest, sz);
        blks := blks + [b];
        rest := rest[sz..];
      }
    }

    /** Append p. */
    method Write(p: seq<Byte>)
      requires Valid()
      modifies this`blks
      ensures Valid() && Bytes() == old(Bytes()) + p
    {
      if |p| > 0 {
        var rest := FillLast(p);
        Regroup(old(Bytes()), p, |p| - |rest|);
        WriteBlocks(rest);
      }
    }

    /** Write p over block nb, from boff on; a hole gets data. */
    method OverwriteBlock(nb: nat, boff: nat, p: seq<Byte>)
      requires Valid() && nb < |blks| && boff + |p| <= blks[nb].n
      modifies this`blks
      ensures Valid() && |blks| == old(|blks|)
      ensures blks[nb].off == old(blks[nb].off) && blks[nb].n == old(blks[nb].n)
      ensures blks[nb].off + boff + |p| <= |old(Bytes())|
      ensures Bytes() == Overlay(old(Bytes()), blks[nb].off + boff, p)
    {
      hide Contents, GoodBlocks, Overlay, Used, GoodBlock, Patched, Length;
      BlockAt(size, blks, nb);
      OverwriteOk(size, blks, nb, boff, p, Patched(size, blks[nb], boff, p));
      blks := blks[nb := Patched(size, blks[nb], boff, p)];
    }

    /** Write p over bytes there are, from at on. */
    method Overwrite(at: nat, p: seq<Byte>)
      requires Valid() && at + |p| <= |Bytes()|
      modifies this`blks
      ensures Valid() && Bytes() == Overlay(old(Bytes()), at, p)
    {
      ghost var s := Bytes();
      OverlayInside(s, at, p);
      if |p| == 0 {
        return;
      }
      var nb, boff := Seek(at);
      hide *;
      var done: nat := 0;
      while done < |p|
        invariant Valid() && done <= |p| && |Bytes()| == |s|
        invariant Bytes() == Overlay(s, at, p[..done])
        invariant done < |p| ==> 0 <= nb < |blks| && 0 <= boff < blks[nb].n && blks[nb].off + boff == at + done
        decreases |p| - done
      {
        nb, boff, done := OverwriteNext(s, at, p, done, nb, boff);
      }
      assert p[..|p|] == p;
    }

    /** Write what fits in block nb, and go on to the next one. */
    method OverwriteNext(ghost s: seq<Byte>, at: nat, p: seq<Byte>, done: nat, nb: nat, boff: nat)
      returns (nb': nat, boff': nat, done': nat)
      requires Valid() && done < |p| && at + |p| <= |s| == |Bytes()| && Bytes() == Overlay(s, at, p[..done])
      requires nb < |blks| && boff < blks[nb].n && blks[nb].off + boff == at + done
      modifies this`blks
      ensures Valid() && done < done' <= |p| && |Bytes()| == |s| && Bytes() == Overlay(s, at, p[..done'])
      ensures done' < |p| ==> nb' < |blks| && boff' < blks[nb'].n && blks[nb'].off + boff' == at + done'
    {
      hide Contents, GoodBlocks, Overlay;
      var nbwr := if |p| - done > blks[nb].n - boff then blks[nb].n - boff else |p| - done;
      OverwriteBlock(nb, boff, p[done..done + nbwr]);
      OverlayTwice(s, at, p[..done], p[done..done + nbwr]);
      assert p[..done] + p[done..done + nbwr] == p[..done + nbwr];
      OverlayInside(s, at, p[..done + nbwr]);
      nb', boff', done' := nb + 1, 0, done + nbwr;
      if done' < |p| {
        NextBlock(size, blks, nb);
      }
    }

    /** Write p at an offset, over what there is there; a hole may be left before it. */
    method WriteAt(p: seq<Byte>, at: nat)
      requires Valid()
      modifies this`blks
      ensures Valid() && Bytes() == Overlay(old(Bytes()), at, p)
    {
      if at > Length(blks) {
        Truncate(at);
      }
      hide GoodBlocks, Overlay, Contents;
      ghost var s := Bytes();
      var nwr: nat := 0;
      if at < Length(blks) {
        nwr := if Length(blks) - at > |p| then |p| else Length(blks) - at;
        Overwrite(at, p[..nwr]);
      }
      Write(p[nwr..]);
      AppendIsOverlay(s, at, p, nwr);
    }
  }

  /** Patching a stretch of s is patching s. */
  lemma {:induction false} PatchIsOverlay(s: seq<Byte>, off: nat, n: nat, boff: nat, p: seq<Byte>)
    requires off + n <= |s| && boff + |p| <= n
    ensures var u := s[off..off + n];
            s[..off] + (u[..boff] + p + u[boff + |p|..]) + s[off + n..] == Overlay(s, off + boff, p)
  {}

  /** Overwriting what there is and appending the rest is writing over. */
  lemma {:induction false} AppendIsOverlay(s: seq<Byte>, at: nat, p: seq<Byte>, nwr: nat)
    requires at <= |s| && nwr <= |p| && at + nwr <= |s| && (nwr < |p| ==> at + nwr == |s|)
    ensures Overlay(s, at, p[..nwr]) + p[nwr..] == Overlay(s, at, p)
  {
    assert p[..nwr] + p[nwr..] == p;
  }

  /** If there are bytes after a block, there is a next block. */
  lemma {:induction false} NextBlock(size: nat, blks: seq<Block>, k: nat)
    requires GoodBlocks(size, blks) && k < |blks| && blks[k].off + blks[k].n < Length(blks)
    ensures k + 1 < |blks| && blks[k + 1].off == blks[k].off + blks[k].n && blks[k + 1].n > 0
  {
    BlockAt(size, blks, k + 1);
    BlockAt(size, blks, k);
  }

  /** The block and the offset in it where a position is, as descriptors keep them. */
  function Place(blks: seq<Block>, pos: nat): (nat, nat)
  {
    if pos == 0 then (0, 0) else PlaceIn(blks, pos)
  }

  function PlaceIn(blks: seq<Block>, pos: nat): (nat, nat)
  {
    if pos >= Length(blks) then (|blks|, 0)
    else
      var last := blks[|blks| - 1];
      if pos >= last.off then (|blks| - 1, pos - last.off) else PlaceIn(blks[..|blks| - 1], pos)
  }

  /** Blocks end in order, and none before its index. */
  lemma {:induction false} EndsGrow(size: nat, blks: seq<Block>, i: nat, k: nat)
    requires GoodBlocks(size, blks) && i <= k < |blks|
    ensures blks[i].off + blks[i].n <= blks[k].off + blks[k].n
    ensures i < k ==> blks[i].off + blks[i].n <= blks[k].off
    ensures i <= blks[i].off
    decreases |blks|
  {
    var last := |blks| - 1;
    if k < last {
      EndsGrow(size, blks[..last], i, k);
    } else if i < last {
      EndsGrow(size, blks[..last], i, last - 1);
    } else if last > 0 {
      EndsGrow(size, blks[..last], last - 1, last - 1);
    }
  }

  /** Where a search that stopped at i has stopped. */
  lemma {:induction false} FoundPlace(size: nat, blks: seq<Block>, pos: nat, i: nat)
    requires GoodBlocks(size, blks) && 0 < pos < Length(blks) && i <= pos && i <= |blks|
    requires i > 0 ==> blks[i - 1].off + blks[i - 1].n <= pos
    requires i < pos && i < |blks| ==> blks[i].off + blks[i].n > pos
    ensures i < |blks| && blks[i].off <= pos < blks[i].off + blks[i].n
  {
    if i < |blks| {
      BlockAt(size, blks, i);
      EndsGrow(size, blks, i, i);
    }
  }

  /** The place of a byte is the only block and offset that make its position. */
  lemma {:induction false} PlaceIs(size: nat, blks: seq<Block>, i: nat, o: nat)
    requires GoodBlocks(size, blks) && i < |blks| && o < blks[i].n
    ensures Place(blks, blks[i].off + o) == (i, o) && blks[i].off + o < Length(blks)
  {
    PlaceInIs(size, blks, i, o);
    if blks[i].off + o == 0 { EndsGrow(size, blks, i, i); }
  }

  lemma {:induction false} PlaceInIs(size: nat, blks: seq<Block>, i: nat, o: nat)
    requires GoodBlocks(size, blks) && i < |blks| && o < blks[i].n
    ensures PlaceIn(blks, blks[i].off + o) == (i, o) && blks[i].off + o < Length(blks)
    decreases |blks|
  {
    var last := |blks| - 1;
    if i < last {
      PlaceInIs(size, blks[..last], i, o);
    }
  }

  // ----- descriptors -----

  /** Where a descriptor that is not past the end stands. */
  predicate At(blks: seq<Block>, pos: nat, i: nat, o: nat)
  {
    if i < |blks| then o < blks[i].n && blks[i].off + o == pos
    else i == |blks| && o == 0 && pos == Length(blks) && pos > 0
  }

  lemma {:induction false} AtIsPlace(size: nat, blks: seq<Block>, pos: nat, i: nat, o: nat)
    requires GoodBlocks(size, blks)
    requires At(blks, pos, i, o)
    ensures Place(blks, pos) == (i, o) && pos <= Length(blks)
    ensures i == |blks| <==> pos == Length(blks)
  {
    if i < |blks| {
      PlaceIs(size, blks, i, o);
    }
  }

  function FilledHole(size: nat, blk: Block): (b: Block)
    requires GoodBlock(size, blk) && blk.data.Hole?
    ensures GoodBlock(size, b) && b.data.Bytes? && b.off == blk.off && b.n == blk.n && Used(size, b) == Used(size, blk)
  {
    blk.(data := Data.Bytes(Zeros(size)))
  }

  /** A hole may be given data: it is zeros. */
  lemma {:induction false} FillHole(size: nat, blks: seq<Block>, k: nat, b: Block)
    requires GoodBlocks(size, blks) && k < |blks| && GoodBlock(size, blks[k]) && GoodBlock(size, b)
    requires b.off == blks[k].off && b.n == blks[k].n && Used(size, b) == Used(size, blks[k])
    ensures GoodBlocks(size, blks[k := b]) && Contents(size, blks[k := b]) == Contents(size, blks)
    ensures Length(blks[k := b]) == Length(blks)
  {
    hide *;
    BlockAt(size, blks, k);
    ReplaceBlock(size, blks, k, b);
    var s := Contents(size, blks);
    assert s[..b.off] + s[b.off..b.off + b.n] + s[b.off + b.n..] == s;
  }

  lemma NextPart(s: seq<Byte>, i: nat, j: nat, k: nat)
    requires i <= j <= k <= |s|
    ensures s[i..j] + s[j..k] == s[i..k]
  {}

  lemma PartOfPart(s: seq<Byte>, off: nat, n: nat, o: nat, m: nat)
    requires off + n <= |s| && o + m <= n
    ensures s[off..off + n][o..o + m] == s[off + o..off + o + m]
  {
    var part := s[off..off + n][o..o + m];
    assert forall k | 0 <= k < m :: part[k] == s[off + o + k];
  }

  function Min(a: int, b: int): int
  {
    if a < b then a else b
  }

  /** What reading n bytes at pos gives. */
  function Window(s: seq<Byte>, pos: nat, n: nat): seq<Byte>
  {
    if pos >= |s| then [] else s[pos..Min(pos + n, |s|)]
  }

  /** Where a seek goes: never before the start. */
  function SeekTo(pos: nat, len: nat, off: int, whence: int): nat
  {
    var to := match whence
              case 0 => off
              case 1 => pos + off
              case 2 => len + off
              case _ => pos;
    if to < 0 then 0 else to
  }

  lemma SeekStart(pos: nat, len: nat, off: nat)
    ensures SeekTo(pos, len, off, 0) == off && SeekTo(pos, len, 0, 2) == len
  {}

  class BufferFd {
    const b: Buffer
    var rwoff: nat
    var rwi: nat
    var rwboff: nat

    /** The cached block and offset in it are those of the position. */
    ghost predicate Valid()
      reads this, b
    {
      b.Valid() && (rwi, rwboff) == Place(b.blks, rwoff)
    }

    constructor (b: Buffer)
      requires b.Valid()
      ensures Valid() && this.b == b && b.Valid() && rwoff == 0
    {
      this.b, rwoff, rwi, rwboff := b, 0, 0, 0;
    }

    /** Move to off bytes from the start, from here, or from the end; never before the start. */
    method Seek(off: int, whence: int)
      requires Valid()
      modifies this
      ensures Valid() && b.Valid()
      ensures rwoff == SeekTo(old(rwoff), |b.Bytes()|, off, whence)
    {
      var pos: int := rwoff;
      if whence == 0 {
        pos := off;
      } else if whence == 1 {
        pos := pos + off;
      } else if whence == 2 {
        pos := Length(b.blks) + off;
      }
      rwoff := if pos < 0 then 0 else pos;
      rwi, rwboff := b.Seek(rwoff);
    }

    /** Write at the position, and move past what was written. */
    method Write(p: seq<Byte>)
      requires Valid()
      modifies this, b`blks
      ensures Valid() && b.Valid() && rwoff == old(rwoff) + |p|
      ensures b.Bytes() == Overlay(old(b.Bytes()), old(rwoff), p)
    {
      var off := rwoff;
      rwoff := rwoff + |p|;
      b.WriteAt(p, off);
      rwi, rwboff := b.Seek(rwoff);
    }

    /** Give data to the block at the position, if it is a hole. */
    method FillBlock()
      requires b.Valid() && rwi < |b.blks| && At(b.blks, rwoff, rwi, rwboff)
      modifies b`blks
      ensures b.Valid() && b.Bytes() == old(b.Bytes()) && |b.blks| == old(|b.blks|)
      ensures var blk := b.blks[rwi];
              && GoodBlock(b.size, blk) && blk.data.Bytes? && At(b.blks, rwoff, rwi, rwboff)
              && blk.off + blk.n <= |b.Bytes()| && b.Bytes()[blk.off..blk.off + blk.n] == Used(b.size, blk)
    {
      hide Contents, GoodBlocks, Used, Zeros, GoodBlock, Length, FilledHole;
      var blk := b.blks[rwi];
      var size := b.size;
      BlockAt(size, b.blks, rwi);
      if blk.data.Hole? {
        blk := FilledHole(size, blk);
        FillHole(size, b.blks, rwi, blk);
        b.blks := b.blks[rwi := blk];
        BlockAt(size, b.blks, rwi);
      }
    }

    /** Read from the block at the position what it has of the left bytes wanted. */
    method ReadBlock(left: nat) returns (got: seq<Byte>)
      requires b.Valid() && left > 0 && rwi < |b.blks| && At(b.blks, rwoff, rwi, rwboff)
      modifies this, b`blks
      ensures b.Valid() && b.Bytes() == old(b.Bytes()) && At(b.blks, rwoff, rwi, rwboff)
      ensures 0 < |got| <= left && old(rwoff) + |got| == rwoff <= |b.Bytes()|
      ensures got == b.Bytes()[old(rwoff)..rwoff]
    {
      hide *;
      FillBlock();
      var blk := b.blks[rwi];
      ReadPart(b, rwoff, rwi, rwboff, left);
      var nr := Min(left, blk.n - rwboff);
      got := blk.data.bytes[rwboff..rwboff + nr];
      rwboff, rwoff := rwboff + nr, rwoff + nr;
      if rwboff >= blk.n {
        rwi, rwboff := rwi + 1, 0;
      }
    }

    /**
      Read up to n bytes at the position; nothing and EOF past the end, or if n is 0;
      EOF comes with the last bytes too.
     */
    method Read(n: nat) returns (got: seq<Byte>, eof: bool)
      requires Valid()
      modifies this, b`blks
      ensures Valid() && b.Valid() && b.Bytes() == old(b.Bytes())
      ensures got == Window(b.Bytes(), old(rwoff), n) && rwoff == old(rwoff) + |got|
      ensures eof <==> |got| == 0 || rwoff == |b.Bytes()|
    {
      if Length(b.blks) == 0 || rwoff >= Length(b.blks) {
        return [], true;
      }
      StandsAt(b.size, b.blks, rwoff);
      hide Contents, GoodBlocks, Place;
      ghost var s, pos := b.Bytes(), rwoff;
      got, eof := [], false;
      while |got| < n && rwi < |b.blks|
        invariant b.Valid() && b.Bytes() == s && At(b.blks, rwoff, rwi, rwboff)
        invariant pos <= rwoff <= |s| && |got| <= n && rwoff == pos + |got| && got == s[pos..rwoff]
        invariant eof <==> rwi == |b.blks|
        decreases n - |got|
      {
        ghost var was := rwoff;
        var more := ReadBlock(n - |got|);
        NextPart(s, pos, was, rwoff);
        got := got + more;
        if rwi >= |b.blks| {
          eof := true;
        }
      }
      AtIsPlace(b.size, b.blks, rwoff, rwi, rwboff);
      if |got| == 0 {
        eof := true;
      }
    }

    /** Read at an offset, and move past what was read. */
    method ReadAt(n: nat, off: nat) returns (got: seq<Byte>, eof: bool)
      requires Valid()
      modifies this, b`blks
      ensures Valid() && b.Valid() && b.Bytes() == old(b.Bytes())
      ensures got == Window(b.Bytes(), off, n) && (eof <==> |got| == 0 || off + |got| == |b.Bytes()|)
      ensures rwoff == if off >= |b.Bytes()| then old(rwoff) else off + |got|
    {
      if off >= Length(b.blks) {
        return [], true;
      }
      if rwoff != off {
        rwoff := off;
        rwi, rwboff := b.Seek(off);
      }
      got, eof := Read(n);
    }
  }

  lemma {:induction false} LastEnds(size: nat, blks: seq<Block>, k: nat)
    requires GoodBlocks(size, blks) && k < |blks| && blks[k].off + blks[k].n >= Length(blks)
    ensures k == |blks| - 1
  {
    if k < |blks| - 1 {
      EndsGrow(size, blks, k, |blks| - 1);
    }
  }

  lemma {:induction false} EndOfBlock(size: nat, blks: seq<Block>, k: nat)
    requires GoodBlocks(size, blks) && k < |blks|
    ensures At(blks, blks[k].off + blks[k].n, k + 1, 0)
  {
    BlockAt(size, blks, k);
    if blks[k].off + blks[k].n < Length(blks) {
      NextBlock(size, blks, k);
    } else {
      LastEnds(size, blks, k);
    }
  }

  /** Reading from a block, and where that leaves. */
  lemma {:induction false} ReadPart(b: Buffer, pos: nat, i: nat, o: nat, left: nat)
    requires b.Valid() && i < |b.blks| && At(b.blks, pos, i, o) && GoodBlock(b.size, b.blks[i]) && b.blks[i].data.Bytes?
    requires left > 0 && b.blks[i].off + b.blks[i].n <= |b.Bytes()|
    requires b.Bytes()[b.blks[i].off..b.blks[i].off + b.blks[i].n] == Used(b.size, b.blks[i])
    ensures var nr := Min(left, b.blks[i].n - o);
            && 0 < nr <= left && o + nr <= b.blks[i].n <= |b.blks[i].data.bytes| && pos + nr <= |b.Bytes()|
            && b.blks[i].data.bytes[o..o + nr] == b.Bytes()[pos..pos + nr]
            && if o + nr < b.blks[i].n then At(b.blks, pos + nr, i, o + nr) else At(b.blks, pos + nr, i + 1, 0)
  {
    var nr := Min(left, b.blks[i].n - o);
    PartOfPart(b.Bytes(), b.blks[i].off, b.blks[i].n, o, nr);
    EndOfBlock(b.size, b.blks, i);
    hide GoodBlocks;
    assert Used(b.size, b.blks[i])[o..o + nr] == b.blks[i].data.bytes[o..o + nr];
  }

  lemma {:induction false} StandsAt(size: nat, blks: seq<Block>, pos: nat)
    requires GoodBlocks(size, blks) && pos < Length(blks)
    ensures At(blks, pos, Place(blks, pos).0, Place(blks, pos).1) && Place(blks, pos).0 < |blks|
    decreases |blks|
  {
    var last := |blks| - 1;
    if pos == 0 {
      EndsGrow(size, blks, 0, 0);
      BlockAt(size, blks, 0);
    } else if pos < blks[last].off {
      StandsAt(size, blks[..last], pos);
    }
  }

  // ----- streams of messages -----

  /** The bytes a transfer of count bytes from off asks for; all of them if count is negative. */
  function Requested(s: seq<Byte>, off: nat, count: int): seq<Byte>
  {
    Window(s, off, if count < 0 then |s| else count)
  }

  /** s once the messages have been written to it, one after another, from off on. */
  function Received(s: seq<Byte>, off: nat, msgs: seq<seq<Byte>>): seq<Byte>
  {
    if msgs == [] then s else Overlay(s, off, Flat(msgs))
  }

  /** Receiving what was sent, in no matter how many messages, copies it. */
  lemma {:induction false} SentIsCopied(s: seq<Byte>, off: nat, count: int, msgs: seq<seq<Byte>>, t: seq<Byte>, at: nat)
    requires Flat(msgs) == Requested(s, off, count) && at <= |t|
    ensures var r := Received(t, at, msgs);
            var n := |Requested(s, off, count)|;
            && |r| >= at + n && r[..at] == t[..at] && r[at..at + n] == Requested(s, off, count)
            && r[at + n..] == if at + n <= |t| then t[at + n..] else []
  {
    if msgs == [] {
      assert t[at..at] == [];
    }
  }

  /** How large the next message may be. */
  function MsgSize(size: nat, count: int, tot: nat): (sz: nat)
    requires size > 0 && (count < 0 || tot < count)
    ensures sz > 0
  {
    if count > 0 && count - tot < size then count - tot else size
  }

  /** Send the bytes asked for, in messages as large as a block but for the last one. */
  method SendTo(b: Buffer, off: nat, count: int) returns (msgs: seq<seq<Byte>>, tot: nat)
    requires b.Valid()
    modifies b`blks
    ensures b.Valid() && b.Bytes() == old(b.Bytes())
    ensures Sent(b.size, b.Bytes(), off, count, msgs, tot)
  {
    hide *;
    var len := b.Len();
    SendNone(b.size, b.Bytes(), off, count);
    if count == 0 || off >= len {
      return [], 0;
    }
    var fd := new BufferFd(b);
    SeekStart(0, len, off);
    fd.Seek(off, 0);
    msgs, tot := SendRest(fd, count);
  }

  /** Send from the position on. */
  method SendRest(fd: BufferFd, count: int) returns (msgs: seq<seq<Byte>>, tot: nat)
    requires fd.Valid() && fd.b.Valid() && fd.b.size > 0 && fd.rwoff < |fd.b.Bytes()|
    requires SentSoFar(fd.b.size, fd.b.Bytes(), fd.rwoff, count, [], 0)
    modifies fd, fd.b`blks
    ensures fd.b.Valid() && fd.b.Bytes() == old(fd.b.Bytes())
    ensures Sent(fd.b.size, fd.b.Bytes(), old(fd.rwoff), count, msgs, tot)
  {
    hide *;
    ghost var s, size, off := fd.b.Bytes(), fd.b.size, fd.rwoff;
    msgs, tot := [], 0;
    while count < 0 || tot < count
      invariant fd.Valid() && fd.b.Valid() && fd.b.Bytes() == s && fd.rwoff == off + tot <= |s|
      invariant (count < 0 || tot <= count) && SentSoFar(size, s, off, count, msgs, tot)
      decreases |s| - off - tot
    {
      var sz := MsgSize(fd.b.size, count, tot);
      var buf, eof := fd.Read(sz);
      if |buf| == 0 {
        SendEnd(s, off + tot, sz);
        break;
      }
      SendMore(size, s, off, count, msgs, tot, buf);
      tot := tot + |buf|;
      msgs := msgs + [buf];
    }
    SendAll(size, s, off, count, msgs, tot);
  }

  /** The messages sent when tot bytes have been: as large as a block, but for one that ends the transfer. */
  ghost predicate SentSoFar(size: nat, s: seq<Byte>, off: nat, count: int, msgs: seq<seq<Byte>>, tot: nat)
  {
    && off + tot <= |s| && (count < 0 || tot <= count)
    && Flat(msgs) == s[off..off + tot]
    && forall i | 0 <= i < |msgs| :: 0 < |msgs[i]| <= size
         && ((i < |msgs| - 1 || (off + tot < |s| && (count < 0 || tot < count))) ==> |msgs[i]| == size)
  }

  lemma {:induction false} SendMore(size: nat, s: seq<Byte>, off: nat, count: int, msgs: seq<seq<Byte>>, tot: nat, buf: seq<Byte>)
    requires SentSoFar(size, s, off, count, msgs, tot) && |buf| > 0 && (count < 0 || tot < count)
    requires size > 0 && buf == Window(s, off + tot, MsgSize(size, count, tot))
    ensures SentSoFar(size, s, off, count, msgs + [buf], tot + |buf|)
  {
    FlatAppend(msgs, [buf]);
    FlatOne(buf);
    NextPart(s, off, off + tot, off + tot + |buf|);
  }

  lemma SendNone(size: nat, s: seq<Byte>, off: nat, count: int)
    ensures if count == 0 || off >= |s| then Sent(size, s, off, count, [], 0) else SentSoFar(size, s, off, count, [], 0)
  {}

  lemma SendEnd(s: seq<Byte>, pos: nat, sz: nat)
    requires sz > 0 && |Window(s, pos, sz)| == 0
    ensures Window(s, pos, 1) == []
  {}

  lemma {:induction false} SendAll(size: nat, s: seq<Byte>, off: nat, count: int, msgs: seq<seq<Byte>>, tot: nat)
    requires SentSoFar(size, s, off, count, msgs, tot) && (tot == count || Window(s, off + tot, 1) == [])
    ensures Sent(size, s, off, count, msgs, tot)
  {}

  /**
    What was asked for was sent, tot bytes in all; no message is empty, or larger than a block,
    and only the last one may be smaller.
   */
  predicate Sent(size: nat, s: seq<Byte>, off: nat, count: int, msgs: seq<seq<Byte>>, tot: nat)
  {
    && Flat(msgs) == Requested(s, off, count) && tot == |Flat(msgs)|
    && forall i | 0 <= i < |msgs| :: 0 < |msgs[i]| <= size && (i < |msgs| - 1 ==> |msgs[i]| == size)
  }

  /** Write the messages from off on, or after the end if it is negative. */
  method RecvFrom(b: Buffer, off: int, msgs: seq<seq<Byte>>) returns (tot: nat)
    requires b.Valid()
    modifies b`blks
    ensures b.Valid() && tot == |Flat(msgs)|
    ensures b.Bytes() == Received(old(b.Bytes()), if off < 0 then |old(b.Bytes())| else off, msgs)
  {
    hide *;
    var fd := new BufferFd(b);
    ghost var s := b.Bytes();
    ghost var at := if off < 0 then |s| else off;
    SeekStart(0, |s|, at);
    if off < 0 {
      fd.Seek(0, 2);
    } else {
      fd.Seek(off, 0);
    }
    tot := 0;
    ReceiveNone(s, at, msgs);
    for i := 0 to |msgs|
      invariant b.Valid() && fd.Valid() && fd.b == b && fd.rwoff == at + tot && tot == |Flat(msgs[..i])|
      invariant b.Bytes() == Received(s, at, msgs[..i])
    {
      fd.Write(msgs[i]);
      ReceiveMore(s, at, msgs, i);
      tot := tot + |msgs[i]|;
    }
    assert msgs[..|msgs|] == msgs;
  }

  lemma ReceiveNone(s: seq<Byte>, at: nat, msgs: seq<seq<Byte>>)
    ensures Received(s, at, msgs[..0]) == s && Flat(msgs[..0]) == []
  {}

  lemma {:induction false} ReceiveMore(s: seq<Byte>, at: nat, msgs: seq<seq<Byte>>, i: nat)
    requires i < |msgs|
    ensures Overlay(Received(s, at, msgs[..i]), at + |Flat(msgs[..i])|, msgs[i]) == Received(s, at, msgs[..i + 1])
    ensures Flat(msgs[..i + 1]) == Flat(msgs[..i]) + msgs[i]
  {
    FlatAround(msgs, i);
    ReceiveNone(s, at, msgs);
    var got, x := Flat(msgs[..i]), msgs[i];
    assert i == 0 ==> got + x == x;
    assert msgs[..i + 1] != [] && (i > 0 ==> msgs[..i] != []);
    hide Flat, Overlay;
    OverlayTwice(s, at, got, x);
  }
}
