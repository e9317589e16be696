/** Byte strings as the kernel and the agent see them. */
module Bytes {
  type Byte = b: int | 0 <= b < 256

  type Str = seq<Byte>

  const NUL: Byte := 0

  const SLASH: Byte := 47

  /** C strings: no NUL inside. */
  predicate NulFree(s: Str) {
    forall i | 0 <= i < |s| :: s[i] != NUL
  }

  /** The bytes of a text. */
  ghost function Ascii(text: string): (r: Str)
    requires forall i | 0 <= i < |text| :: text[i] < 128 as char
    ensures |r| == |text| && forall i | 0 <= i < |text| :: r[i] == text[i] as int
  {
    seq(|text|, i requires 0 <= i < |text| => text[i] as int)
  }

  function Zeros(n: nat): (r: Str)
    ensures |r| == n && forall i | 0 <= i < n :: r[i] == NUL
  {
    seq(n, _ => NUL)
  }

  /** The first `n` bytes of `s` followed by an endless run of NULs. */
  function Pad(s: Str, n: nat): (r: Str)
    ensures |r| == n
    ensures forall i | 0 <= i < n :: r[i] == if i < |s| then s[i] else NUL
  {
    if |s| >= n then s[..n] else s + Zeros(n - |s|)
  }

  /** NUL padding keeps strings apart as long as both fit and hold no NUL. */
  lemma PadInjective(a: Str, b: Str, n: nat)
    requires NulFree(a) && NulFree(b) && |a| <= n && |b| <= n
    ensures Pad(a, n) == Pad(b, n) ==> a == b
  {
    if |a| < |b| {
      assert Pad(a, n)[|a|] != Pad(b, n)[|a|];
    } else if |b| < |a| {
      assert Pad(a, n)[|b|] != Pad(b, n)[|b|];
    } else {
      assert forall i | 0 <= i < |a| :: Pad(a, n)[i] == a[i] && Pad(b, n)[i] == b[i];
    }
  }

  function Pow256(width: nat): (r: nat)
    ensures r > 0
  {
    if width == 0 then 1 else 256 * Pow256(width - 1)
  }

  /** `n` in `width` bytes, least significant first. */
  function LittleEndian(n: nat, width: nat): (r: Str)
    ensures |r| == width
  {
    if width == 0 then [] else [n % 256] + LittleEndian(n / 256, width - 1)
  }

  function FromLittleEndian(s: Str): nat {
    if s == [] then 0 else s[0] + 256 * FromLittleEndian(s[1..])
  }

  lemma Pow256Values()
    ensures Pow256(2) == 0x1_0000 && Pow256(8) == 0x1_0000_0000_0000_0000
  {
    assert Pow256(2) == 256 * Pow256(1);
    assert Pow256(4) == 256 * (256 * Pow256(2));
    assert Pow256(6) == 256 * (256 * Pow256(4));
    assert Pow256(8) == 256 * (256 * Pow256(6));
  }

  lemma {:induction false} LittleEndianRoundTrip(n: nat, width: nat)
    requires n < Pow256(width)
    ensures FromLittleEndian(LittleEndian(n, width)) == n
  {
    if width > 0 {
      LittleEndianRoundTrip(n / 256, width - 1);
      assert LittleEndian(n, width)[1..] == LittleEndian(n / 256, width - 1);
    }
  }
}
