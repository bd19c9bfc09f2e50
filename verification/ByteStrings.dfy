/** Byte strings and the two big-endian number formats the contracts use:
    fixed-width words (Solidity ABI, nested lengths) and minimal-length numbers (`BigUint`). */
module ByteStrings {
  type byte = b: int | 0 <= b < 256
  type bytes = seq<byte>

  datatype Option<+T> = None | Some(value: T)

  type u64 = n: nat | n < 0x1_0000_0000_0000_0000

  const U32_RANGE: nat := 0x1_0000_0000
  const U64_RANGE: nat := 0x1_0000_0000_0000_0000

  function Pow256(n: nat): (p: nat)
    ensures p > 0
  {
    if n == 0 then 1 else 256 * Pow256(n - 1)
  }

  function Zeros(n: nat): (z: bytes)
    ensures |z| == n
    ensures forall i :: 0 <= i < n ==> z[i] == 0
  {
    seq(n, i => 0)
  }

  /** The low `width` bytes of `value`, most significant first. */
  function Be(value: nat, width: nat): (r: bytes)
    ensures |r| == width
  {
    if width == 0 then [] else Be(value / 256, width - 1) + [value % 256]
  }

  function FromBe(b: bytes): nat {
    if b == [] then 0 else FromBe(b[..|b| - 1]) * 256 + b[|b| - 1]
  }

  /** The shortest big-endian form; zero is the empty string. */
  function MinBe(value: nat): bytes {
    if value == 0 then [] else MinBe(value / 256) + [value % 256]
  }

  lemma {:induction false} FromBeBe(value: nat, width: nat)
    requires value < Pow256(width)
    ensures FromBe(Be(value, width)) == value
  {
    if width > 0 {
      FromBeBe(value / 256, width - 1);
      var b := Be(value, width);
      assert b[..|b| - 1] == Be(value / 256, width - 1);
    }
  }

  lemma {:induction false} BeFromBe(b: bytes)
    ensures FromBe(b) < Pow256(|b|)
    ensures Be(FromBe(b), |b|) == b
  {
    if b != [] {
      var init := b[..|b| - 1];
      BeFromBe(init);
      assert FromBe(b) / 256 == FromBe(init) && FromBe(b) % 256 == b[|b| - 1];
      assert b == init + [b[|b| - 1]];
    }
  }

  lemma {:induction false} BeInjective(x: nat, y: nat, width: nat)
    requires x < Pow256(width) && y < Pow256(width)
    requires Be(x, width) == Be(y, width)
    ensures x == y
  {
    FromBeBe(x, width);
    FromBeBe(y, width);
  }

  lemma {:induction false} FromMinBe(value: nat)
    ensures FromBe(MinBe(value)) == value
    decreases value
  {
    if value > 0 {
      FromMinBe(value / 256);
      var b := MinBe(value);
      assert b[..|b| - 1] == MinBe(value / 256);
    }
  }

  /** A fixed-width word is the minimal form behind leading zeros, and it exists exactly when the number fits. */
  lemma {:induction false} MinBeFits(value: nat, width: nat)
    ensures |MinBe(value)| <= width <==> value < Pow256(width)
    ensures value < Pow256(width) ==> Be(value, width) == Zeros(width - |MinBe(value)|) + MinBe(value)
    decreases width
  {
    if width == 0 {
    } else if value == 0 {
      MinBeFits(0, width - 1);
      assert Zeros(width) == Zeros(width - 1) + [0];
    } else {
      MinBeFits(value / 256, width - 1);
    }
  }

  /** Widening a fitting number only adds zeros in front. */
  lemma {:induction false} BeWiden(value: nat, width: nat, extra: nat)
    requires value < Pow256(width)
    ensures value < Pow256(width + extra)
    ensures Be(value, width + extra) == Zeros(extra) + Be(value, width)
    decreases width
  {
    if width == 0 {
      BeOfZero(extra);
      assert Zeros(extra) + Be(0, 0) == Zeros(extra);
    } else {
      BeWiden(value / 256, width - 1, extra);
    }
  }

  lemma {:induction false} BeOfZero(width: nat)
    ensures Be(0, width) == Zeros(width)
  {
    if width > 0 {
      BeOfZero(width - 1);
      assert Zeros(width) == Zeros(width - 1) + [0];
    }
  }

  lemma Pow256Small()
    ensures Pow256(1) == 256
    ensures Pow256(4) == U32_RANGE
    ensures Pow256(8) == U64_RANGE
  {
    assert Pow256(2) == 0x1_0000 && Pow256(3) == 0x100_0000;
    assert Pow256(5) == 0x100_0000_0000 && Pow256(6) == 0x1_0000_0000_0000 && Pow256(7) == 0x100_0000_0000_0000;
  }
}

/** Names for tokens on this chain. */
module ChainTypes {
  import opened ByteStrings

  datatype TokenIdentifier = Egld | Esdt(name: bytes)

  /** What is attached to a call: plain EGLD, or a list of ESDT payments. */
  datatype EsdtPayment = EsdtPayment(identifier: bytes, nonce: u64, amount: nat)
  datatype Payments = EgldPayment(value: nat) | EsdtPayments(list: seq<EsdtPayment>)
}
