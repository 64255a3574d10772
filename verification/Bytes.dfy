/** Byte strings as numbers: `new BigInteger(1, bytes)`, `new BigInteger(bytes)` and `toByteArray()`. */
module Bytes {
  import opened NumberTheory
  import opened ModPower

  /** A byte by its bit pattern. */
  type Byte = b: int | 0 <= b < 256

  function Unsigned(s: seq<Byte>): nat {
    if s == [] then 0 else 256 * Unsigned(s[..|s| - 1]) + s[|s| - 1]
  }

  function Signed(s: seq<Byte>): int {
    if s != [] && s[0] >= 128 then Unsigned(s) - Pow(256, |s|) else Unsigned(s)
  }

  lemma {:induction false} PowPositive(b: int, e: nat)
    requires b > 0
    ensures Pow(b, e) > 0
  {
    if e > 0 { PowPositive(b, e - 1); }
  }

  lemma {:induction false} PowAdd(b: int, e: nat, f: nat)
    ensures Pow(b, e + f) == Pow(b, e) * Pow(b, f)
  {
    if e > 0 {
      PowAdd(b, e - 1, f);
      assert b * (Pow(b, e - 1) * Pow(b, f)) == (b * Pow(b, e - 1)) * Pow(b, f);
    }
  }

  lemma {:induction false} UnsignedBound(s: seq<Byte>)
    ensures Unsigned(s) < Pow(256, |s|)
  {
    if s != [] { UnsignedBound(s[..|s| - 1]); }
  }

  lemma {:induction false} UnsignedConcat(s: seq<Byte>, t: seq<Byte>)
    ensures Unsigned(s + t) == Unsigned(s) * Pow(256, |t|) + Unsigned(t)
  {
    if t == [] {
      assert s + t == s;
      assert Pow(256, 0) == 1;
    } else {
      var n := |t| - 1;
      assert (s + t)[..|s + t| - 1] == s + t[..n];
      UnsignedConcat(s, t[..n]);
      assert Pow(256, |t|) == 256 * Pow(256, n);
      assert 256 * (Unsigned(s) * Pow(256, n)) == Unsigned(s) * (256 * Pow(256, n));
    }
  }

  /** The leading byte carries the weight 256^(n-1). */
  lemma UnsignedHead(s: seq<Byte>)
    requires s != []
    ensures Unsigned(s) == s[0] * Pow(256, |s| - 1) + Unsigned(s[1..])
  {
    assert s == [s[0]] + s[1..];
    assert [s[0]][..0] == [];
    assert Unsigned([s[0]]) == s[0];
    UnsignedConcat([s[0]], s[1..]);
  }

  function Zeros(n: nat): (s: seq<Byte>)
    ensures |s| == n && forall i :: 0 <= i < n ==> s[i] == 0
  {
    seq(n, i => 0)
  }

  lemma {:induction false} UnsignedZeros(n: nat, s: seq<Byte>)
    ensures Unsigned(Zeros(n) + s) == Unsigned(s)
  {
    if n == 0 {
      assert Zeros(0) + s == s;
    } else {
      var t := Zeros(n) + s;
      UnsignedHead(t);
      assert t[1..] == Zeros(n - 1) + s;
      UnsignedZeros(n - 1, s);
    }
  }

  /** Byte strings of the same length are determined by their number. */
  lemma {:induction false} UnsignedInjective(s: seq<Byte>, t: seq<Byte>)
    requires |s| == |t| && Unsigned(s) == Unsigned(t)
    ensures s == t
  {
    if s != [] {
      var n := |s| - 1;
      UnsignedInjective(s[..n], t[..n]);
      assert s == s[..n] + [s[n]] && t == t[..n] + [t[n]];
    }
  }

  /** The shortest big-endian form; empty for zero. */
  function Minimal(n: nat): (s: seq<Byte>)
    ensures Unsigned(s) == n
    ensures s != [] ==> s[0] != 0
  {
    if n == 0 then []
    else
      var head := Minimal(n / 256);
      assert (head + [n % 256])[..|head|] == head;
      head + [n % 256]
  }

  /** `n.toByteArray()`: the shortest two's complement form; floor division shifts the sign in. */
  function ToByteArray(n: int): (s: seq<Byte>)
    ensures s != [] && Signed(s) == n
    decreases if n >= 0 then n else -n
  {
    if -128 <= n < 128 then
      OneByte(n % 256);
      [n % 256]
    else
      var head := ToByteArray(n / 256);
      SignedAppend(head, n % 256);
      head + [n % 256]
  }

  lemma OneByte(b: Byte)
    ensures Unsigned([b]) == b && Pow(256, 1) == 256
  {
    assert [b][..0] == [];
    assert Pow(256, 0) == 1;
  }

  lemma SignedAppend(head: seq<Byte>, b: Byte)
    requires head != []
    ensures Signed(head + [b]) == 256 * Signed(head) + b
  {
    var s := head + [b];
    assert s[..|s| - 1] == head;
    assert Pow(256, |s|) == 256 * Pow(256, |head|);
  }

  /** For n >= 0 it is the minimal form, with a zero byte in front when the sign bit would be set. */
  lemma {:induction false} SignByte(n: nat)
    ensures ToByteArray(n) == if Minimal(n) == [] || Minimal(n)[0] >= 128 then [0] + Minimal(n) else Minimal(n)
    ensures Minimal(n) == [] || Minimal(n)[0] >= 128 ==> ToByteArray(n)[1..] == Minimal(n)
  {
    var last := n % 256;
    if n < 128 {
      assert Minimal(0) == [];
      assert n > 0 ==> Minimal(n) == [] + [n];
    } else {
      SignByte(n / 256);
      assert Minimal(n) == Minimal(n / 256) + [last];
      assert n / 256 == 0 ==> Minimal(n / 256) == [] && ToByteArray(0) == [0];
      assert ([0] + Minimal(n / 256)) + [last] == [0] + Minimal(n);
    }
    assert ([0] + Minimal(n))[1..] == Minimal(n);
  }

  lemma {:induction false} MinimalUnique(s: seq<Byte>)
    requires s != [] ==> s[0] != 0
    ensures Minimal(Unsigned(s)) == s
  {
    if s != [] {
      var h, last := s[..|s| - 1], s[|s| - 1];
      UnsignedNonzero(s);
      DivModUnique(Unsigned(s), Unsigned(h), last, 256);
      MinimalUnique(h);
      assert s == h + [last];
    }
  }

  lemma {:induction false} UnsignedNonzero(s: seq<Byte>)
    requires s != [] && s[0] != 0
    ensures Unsigned(s) > 0
  {
    UnsignedHead(s);
    PowPositive(256, |s| - 1);
    assert s[0] * Pow(256, |s| - 1) > 0;
  }

  lemma MinimalLast(n: nat)
    requires n > 0
    ensures |Minimal(n)| == |Minimal(n / 256)| + 1
    ensures Minimal(n)[|Minimal(n)| - 1] == n % 256 && Minimal(n)[..|Minimal(n)| - 1] == Minimal(n / 256)
  {
  }

  lemma BelowNext(n: nat, bound: int)
    requires n < 256 * bound
    ensures n / 256 < bound
  {
  }

  /** A number below 256^k has a minimal form of at most k bytes. */
  lemma {:induction false} MinimalLength(n: nat, k: nat)
    requires n < Pow(256, k)
    ensures |Minimal(n)| <= k
  {
    if n > 0 {
      assert k > 0 by { assert Pow(256, 0) == 1; }
      BelowNext(n, Pow(256, k - 1));
      MinimalLength(n / 256, k - 1);
      MinimalLast(n);
    }
  }
}
