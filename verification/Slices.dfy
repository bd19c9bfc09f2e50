/** Slices of sequences, and sequences laid out as consecutive blocks. */
module Slices {
  lemma OfSlice<T>(s: seq<T>, from: nat, to: nat, lo: nat, hi: nat)
    requires from <= to <= |s| && lo <= hi <= to - from
    ensures s[from..to][lo..hi] == s[from + lo..from + hi]
  {
    var a, b := s[from..to][lo..hi], s[from + lo..from + hi];
    forall i | 0 <= i < hi - lo ensures a[i] == b[i] {
      assert s[from..to][lo + i] == s[from + (lo + i)];
    }
  }

  lemma OfLeft<T>(a: seq<T>, b: seq<T>, lo: nat, hi: nat)
    requires lo <= hi <= |a|
    ensures (a + b)[lo..hi] == a[lo..hi]
  {
  }

  lemma OfRight<T>(a: seq<T>, b: seq<T>, lo: nat, hi: nat)
    requires lo <= hi <= |b|
    ensures (a + b)[|a| + lo..|a| + hi] == b[lo..hi]
  {
  }

  lemma Join<T>(s: seq<T>, lo: nat, mid: nat, hi: nat)
    requires lo <= mid <= hi <= |s|
    ensures s[lo..mid] + s[mid..hi] == s[lo..hi]
  {
  }

  lemma SameParts<T>(a: seq<T>, b: seq<T>, i: nat, j: nat)
    requires i <= j <= |a| == |b|
    requires a[0..i] == b[0..i] && a[i..j] == b[i..j] && a[j..|a|] == b[j..|a|]
    ensures a == b
  {
    Join(a, 0, i, j);
    Join(b, 0, i, j);
    assert a == a[0..j] + a[j..|a|] && b == b[0..j] + b[j..|b|];
  }

  // ---------- blocks ----------

  function Flat<T>(blocks: seq<seq<T>>): seq<T> {
    if blocks == [] then [] else Flat(blocks[..|blocks| - 1]) + blocks[|blocks| - 1]
  }

  /** Where block `i` starts in the flattened sequence. */
  function Start<T>(blocks: seq<seq<T>>, i: nat): nat
    requires i <= |blocks|
  {
    if i == 0 then 0 else Start(blocks, i - 1) + |blocks[i - 1]|
  }

  lemma FlatNext<T>(blocks: seq<seq<T>>, i: nat)
    requires i < |blocks|
    ensures Flat(blocks[..i + 1]) == Flat(blocks[..i]) + blocks[i]
  {
    assert blocks[..i + 1][..i] == blocks[..i];
  }

  lemma {:induction false} BlockOfPrefix<T>(blocks: seq<seq<T>>, i: nat, k: nat)
    requires i < k <= |blocks|
    ensures |Flat(blocks[..k])| == Start(blocks, k)
    ensures Start(blocks, i) + |blocks[i]| <= Start(blocks, k)
    ensures Flat(blocks[..k])[Start(blocks, i)..Start(blocks, i) + |blocks[i]|] == blocks[i]
  {
    FlatNext(blocks, k - 1);
    var before, last := Flat(blocks[..k - 1]), blocks[k - 1];
    if i + 1 < k {
      BlockOfPrefix(blocks, i, k - 1);
      OfLeft(before, last, Start(blocks, i), Start(blocks, i) + |blocks[i]|);
    } else {
      FlatLength(blocks, i);
      OfRight(before, last, 0, |last|);
    }
  }

  lemma {:induction false} FlatLength<T>(blocks: seq<seq<T>>, k: nat)
    requires k <= |blocks|
    ensures |Flat(blocks[..k])| == Start(blocks, k)
  {
    if k > 0 {
      FlatLength(blocks, k - 1);
      FlatNext(blocks, k - 1);
    }
  }

  /** Every block can be read back at its start. */
  lemma BlockAt<T>(blocks: seq<seq<T>>, i: nat)
    requires i < |blocks|
    ensures |Flat(blocks)| == Start(blocks, |blocks|)
    ensures Start(blocks, i + 1) == Start(blocks, i) + |blocks[i]| <= |Flat(blocks)|
    ensures Flat(blocks)[Start(blocks, i)..Start(blocks, i) + |blocks[i]|] == blocks[i]
  {
    BlockOfPrefix(blocks, i, |blocks|);
    assert blocks[..|blocks|] == blocks;
  }

  lemma {:induction false} StartsWithin<T>(blocks: seq<seq<T>>, i: nat, k: nat)
    requires i <= k <= |blocks|
    ensures Start(blocks, i) <= Start(blocks, k)
  {
    if i < k { BlockOfPrefix(blocks, i, k); }
  }

  predicate Shows<T(==)>(data: seq<T>, blocks: seq<seq<T>>, i: nat)
    requires i < |blocks|
  {
    && Start(blocks, i) + |blocks[i]| <= |data|
    && data[Start(blocks, i)..Start(blocks, i) + |blocks[i]|] == blocks[i]
  }

  /** Data that shows every block at its start, and nothing after the last, is the blocks laid out. */
  lemma {:induction false} FlatFrom<T>(data: seq<T>, blocks: seq<seq<T>>, k: nat)
    requires k <= |blocks| && Start(blocks, |blocks|) <= |data|
    requires forall i :: 0 <= i < |blocks| ==> Shows(data, blocks, i)
    ensures Start(blocks, k) <= |data| && data[0..Start(blocks, k)] == Flat(blocks[..k])
  {
    StartsWithin(blocks, k, |blocks|);
    if k > 0 {
      hide Flat;
      FlatFrom(data, blocks, k - 1);
      assert Shows(data, blocks, k - 1);
      Join(data, 0, Start(blocks, k - 1), Start(blocks, k));
      FlatNext(blocks, k - 1);
    }
  }

  lemma {:induction false} FlatExactly<T>(data: seq<T>, blocks: seq<seq<T>>)
    requires |data| == Start(blocks, |blocks|)
    requires forall i :: 0 <= i < |blocks| ==> Shows(data, blocks, i)
    ensures data == Flat(blocks)
  {
    FlatFrom(data, blocks, |blocks|);
    assert blocks[..|blocks|] == blocks && data[0..|data|] == data;
  }
}
