/** The ElGamal block cipher on byte arrays (`ElGamalEngineK`). */
module ElGamalEngine {
  import opened Wrappers
  import opened NumberTheory
  import opened ModPower
  import opened Bytes

  function BitLength(n: nat): nat {
    if n == 0 then 0 else 1 + BitLength(n / 2)
  }

  /** The bytes one number takes in the output block. */
  function HalfSize(p: nat): nat {
    (BitLength(p) + 7) / 8
  }

  /** What `processBlock` lets through on encryption: enough room, and a number below p. */
  predicate Accepts(p: nat, data: seq<Byte>) {
    |data| <= (BitLength(p) + 6) / 8 && Unsigned(data) < p
  }

  /** A number right-aligned in n bytes. */
  function RightAligned(value: nat, n: nat): (s: seq<Byte>)
    requires |Minimal(value)| <= n
    ensures |s| == n
  {
    Zeros(n - |Minimal(value)|) + Minimal(value)
  }

  /** The output of encryption with the exponent k. */
  function EncryptBlock(p: nat, g: int, y: int, data: seq<Byte>, k: nat): Option<seq<Byte>>
    requires p > 0
  {
    if !Accepts(p, data) then None
    else
      var gamma := Pow(g, k) % p;
      var phi := Masked(p, y, Unsigned(data), k);
      FitsHalf(gamma, p);
      FitsHalf(phi, p);
      Some(RightAligned(gamma, HalfSize(p)) + RightAligned(phi, HalfSize(p)))
  }

  /** m y^k mod p. */
  function Masked(p: nat, y: int, m: nat, k: nat): nat
    requires p > 0
  {
    (m * (Pow(y, k) % p)) % p
  }

  /** The output of decryption with the secret x; `asUnsignedByteArray` strips the sign byte. */
  function DecryptBlock(p: nat, x: int, data: seq<Byte>): Option<seq<Byte>>
    requires p > 0
  {
    if |data| > 2 * HalfSize(p) then None
    else
      var h := |data| / 2;
      var m :- Recover(p, x, Unsigned(data[..h]), Unsigned(data[h..2 * h]));
      Some(Minimal(m))
  }

  /** gamma^(p-1-x) phi mod p. */
  function Recover(p: nat, x: int, gamma: nat, phi: nat): Option<nat>
    requires p > 0
  {
    var shared :- ModPow(gamma, p - 1 - x, p);
    Some((shared * phi) % p)
  }

  // ----- sizes -----

  lemma {:induction false} BitLengthBound(n: nat)
    ensures n < Pow(2, BitLength(n))
  {
    if n > 0 { BitLengthBound(n / 2); }
  }

  lemma {:induction false} PowMonotone(b: nat, e: nat, f: nat)
    requires b > 0 && e <= f
    ensures Pow(b, e) <= Pow(b, f)
  {
    PowAdd(b, e, f - e);
    PowPositive(b, e);
    PowPositive(b, f - e);
    MulAtLeast(Pow(b, f - e), Pow(b, e));
    assert Pow(b, e) * Pow(b, f - e) == Pow(b, f - e) * Pow(b, e);
  }

  lemma {:induction false} ByteIsEightBits(n: nat)
    ensures Pow(256, n) == Pow(2, 8 * n)
  {
    if n > 0 {
      ByteIsEightBits(n - 1);
      var q := Pow(2, 8 * n - 8);
      assert Pow(2, 8 * n - 7) == 2 * q;
      assert Pow(2, 8 * n - 6) == 4 * q;
      assert Pow(2, 8 * n - 5) == 8 * q;
      assert Pow(2, 8 * n - 4) == 16 * q;
      assert Pow(2, 8 * n - 3) == 32 * q;
      assert Pow(2, 8 * n - 2) == 64 * q;
      assert Pow(2, 8 * n - 1) == 128 * q;
    }
  }

  /** Every residue mod p fits half a block. */
  lemma FitsHalf(value: nat, p: nat)
    requires value < p
    ensures |Minimal(value)| <= HalfSize(p)
  {
    BitLengthBound(p);
    ByteIsEightBits(HalfSize(p));
    PowMonotone(2, BitLength(p), 8 * HalfSize(p));
    MinimalLength(value, HalfSize(p));
  }

  lemma {:induction false} BitLengthLeast(n: nat)
    requires n > 0
    ensures Pow(2, BitLength(n) - 1) <= n
  {
    if n > 1 { BitLengthLeast(n / 2); } else { assert BitLength(0) == 0; }
  }

  /** Half a block is the least number of bytes that holds the modulus. */
  lemma HalfSizeLeast(p: nat, n: nat)
    ensures p < Pow(256, n) <==> HalfSize(p) <= n
  {
    ByteIsEightBits(n);
    BitLengthBound(p);
    if HalfSize(p) <= n {
      PowMonotone(2, BitLength(p), 8 * n);
    } else {
      BitLengthLeast(p);
      PowMonotone(2, 8 * n, BitLength(p) - 1);
    }
  }

  lemma BitLengthExactly(n: nat, k: nat)
    ensures BitLength(n) <= k <==> n < Pow(2, k)
  {
    BitLengthBound(n);
    if BitLength(n) <= k {
      PowMonotone(2, BitLength(n), k);
    } else {
      BitLengthLeast(n);
      PowMonotone(2, k, BitLength(n) - 1);
    }
  }

  /**
   * The numbers below the modulus are let through, but for those with as many bits as a modulus whose bits are one more
   * than a multiple of eight; bytes that do not fit half a block never are, even if the first ones are zeros.
   */
  lemma AcceptsExactly(p: nat, m: nat, data: seq<Byte>)
    ensures Accepts(p, Minimal(m)) <==> m < p && (BitLength(p) % 8 == 1 ==> BitLength(m) < BitLength(p))
    ensures |data| > HalfSize(p) ==> !Accepts(p, data)
  {
    HalfSizeOf(m);
    if m < p {
      BitLengthBound(p);
      BitLengthExactly(m, BitLength(p));
      RoomFor(BitLength(m), BitLength(p));
    }
  }

  lemma RoomFor(a: nat, b: nat)
    requires a <= b
    ensures (a + 7) / 8 <= (b + 6) / 8 <==> (b % 8 == 1 ==> a < b)
  {
  }

  lemma HalfSizeOf(m: nat)
    ensures |Minimal(m)| == HalfSize(m)
  {
    HalfSizeLeast(m, |Minimal(m)|);
    HalfSizeLeast(m, HalfSize(m));
    UnsignedBound(Minimal(m));
    MinimalLength(m, HalfSize(m));
  }

  /** For a secret below p decryption returns exactly when the block is not too long; an odd last byte is ignored. */
  lemma DecryptReturns(p: nat, x: int, data: seq<Byte>)
    requires p > 0 && x < p
    ensures DecryptBlock(p, x, data).Some? <==> |data| <= 2 * HalfSize(p)
    ensures |data| % 2 == 1 && |data| <= 2 * HalfSize(p) ==>
              DecryptBlock(p, x, data) == DecryptBlock(p, x, data[..|data| - 1])
  {
    if |data| % 2 == 1 {
      var h, even := |data| / 2, data[..|data| - 1];
      assert even[..h] == data[..h] && even[h..2 * h] == data[h..2 * h];
    }
  }

  /** What encryption puts into the two halves: the power of g, and the number of the plaintext times that of y. */
  lemma BlockHalves(p: nat, g: int, y: int, data: seq<Byte>, k: nat)
    requires p > 0
    ensures var block := EncryptBlock(p, g, y, data, k);
            && (block.Some? <==> Accepts(p, data))
            && (block.Some? ==>
                  && |block.value| == 2 * HalfSize(p)
                  && Unsigned(block.value[..HalfSize(p)]) == Pow(g, k) % p
                  && Unsigned(block.value[HalfSize(p)..]) == (Unsigned(data) * Pow(y, k)) % p)
  {
    if Accepts(p, data) {
      var gamma, phi, h := Pow(g, k) % p, Masked(p, y, Unsigned(data), k), HalfSize(p);
      FitsHalf(gamma, p);
      FitsHalf(phi, p);
      HalvesRead(gamma, phi, h);
      MulRight(Unsigned(data), Pow(y, k), p);
      var block := EncryptBlock(p, g, y, data, k).value;
      assert block[h..2 * h] == block[h..];
    }
  }

  // ----- the round trip -----

  /** The shared secret cancels: g^k (g^x)^k-inverse by Fermat. */
  lemma SharedSecretCancels(p: int, g: int, x: int, k: int)
    requires Prime(p) && g % p != 0
    ensures (Exp(Exp(g, k, p), p - 1 - x, p) * Exp(Exp(g, x, p), k, p)) % p == 1
  {
    PrimeUnit(g, p);
    ExpMul(g, k, p - 1 - x, p);
    ExpMul(g, x, k, p);
    ExpAdd(g, k * (p - 1 - x), x * k, p);
    assert k * (p - 1 - x) + x * k == 0 + k * (p - 1) by {
      assert k * (p - 1 - x) == k * (p - 1) - k * x;
    }
    ExpReduce(g, k * (p - 1 - x) + x * k, 0, k, p);
    DivModUnique(1, 0, 1, p);
    assert Pow(g, 0) == 1;
  }

  lemma UnmaskAlgebra(z: int, y: int, m: int, p: int)
    requires p > 0 && (z * y) % p == 1 % p
    ensures (z * ((m * y) % p)) % p == m % p
  {
    MulRight(z, m * y, p);
    assert z * (m * y) == (z * y) * m;
    MulCong(z * y, 1, m, p);
  }

  lemma RightAlignedValue(value: nat, n: nat)
    requires |Minimal(value)| <= n
    ensures Unsigned(RightAligned(value, n)) == value
  {
    UnsignedZeros(n - |Minimal(value)|, Minimal(value));
  }

  lemma HalvesRead(gamma: nat, phi: nat, n: nat)
    requires |Minimal(gamma)| <= n && |Minimal(phi)| <= n
    ensures var s := RightAligned(gamma, n) + RightAligned(phi, n);
            |s| == 2 * n && Unsigned(s[..n]) == gamma && Unsigned(s[n..2 * n]) == phi
  {
    var x, y := RightAligned(gamma, n), RightAligned(phi, n);
    assert (x + y)[..n] == x && (x + y)[n..2 * n] == y;
    RightAlignedValue(gamma, n);
    RightAlignedValue(phi, n);
  }

  /** Decryption gives back the number of the plaintext, whatever the random exponent. */
  lemma RoundTrip(p: int, g: int, x: int, data: seq<Byte>, k: nat)
    requires Prime(p) && g % p != 0 && Accepts(p, data)
    ensures var block := EncryptBlock(p, g, Exp(g, x, p), data, k);
            && block.Some? && |block.value| == 2 * HalfSize(p)
            && DecryptBlock(p, x, block.value) == Some(Minimal(Unsigned(data)))
  {
    PrimeUnit(g, p);
    var y, m := Exp(g, x, p), Unsigned(data);
    ExpRange(g, x, p);
    ExpUnit(g, x, p);
    var gamma := Pow(g, k) % p;
    var phi := Masked(p, y, m, k);
    FitsHalf(gamma, p);
    FitsHalf(phi, p);
    HalvesRead(gamma, phi, HalfSize(p));
    assert gamma == Exp(g, k, p) && Pow(y, k) % p == Exp(y, k, p);
    ExpUnit(g, k, p);
    SharedSecretCancels(p, g, x, k);
    DivModUnique(1, 0, 1, p);
    UnmaskAlgebra(Exp(gamma, p - 1 - x, p), Exp(y, k, p), m, p);
    DivModUnique(m, 0, m, p);
  }

  /** The bytes come back exactly when there is no leading zero byte to lose. */
  lemma RoundTripBytes(p: int, g: int, x: int, data: seq<Byte>, k: nat)
    requires Prime(p) && g % p != 0 && Accepts(p, data)
    ensures var block := EncryptBlock(p, g, Exp(g, x, p), data, k);
            && block.Some?
            && (DecryptBlock(p, x, block.value) == Some(data) <==> (data == [] || data[0] != 0))
  {
    RoundTrip(p, g, x, data, k);
    if data == [] || data[0] != 0 { MinimalUnique(data); }
  }

  // ----- the engine itself -----

  /** The exponents the drawing loop stops at. */
  predicate InRange(k: nat, p: nat) {
    1 <= k && k + 2 <= p
  }

  function FirstInRange(draws: seq<nat>, p: nat): (k: nat)
    requires exists i :: 0 <= i < |draws| && InRange(draws[i], p)
    ensures InRange(k, p)
    ensures exists i :: 0 <= i < |draws| && draws[i] == k && forall j :: 0 <= j < i ==> !InRange(draws[j], p)
  {
    if InRange(draws[0], p) then draws[0]
    else
      assert exists i :: 0 <= i < |draws[1..]| && InRange(draws[1..][i], p) by {
        var i :| 0 <= i < |draws| && InRange(draws[i], p);
        assert draws[1..][i - 1] == draws[i];
      }
      FirstInRange(draws[1..], p)
  }

  function Splice(s: seq<Byte>, at: nat, part: seq<Byte>): (r: seq<Byte>)
    requires at + |part| <= |s|
    ensures |r| == |s|
  {
    s[..at] + part + s[at + |part|..]
  }

  /** `System.arraycopy`. */
  method ArrayCopy(src: array<Byte>, from: nat, dst: array<Byte>, to: nat, length: nat)
    requires src != dst && from + length <= src.Length && to + length <= dst.Length
    modifies dst
    ensures dst[..] == Splice(old(dst[..]), to, src[from..from + length])
  {
    for i := 0 to length
      invariant forall j :: to <= j < to + i ==> dst[j] == src[from + j - to]
      invariant forall j :: 0 <= j < to || to + i <= j < dst.Length ==> dst[j] == old(dst[j])
    {
      dst[to + i] := src[from + i];
    }
  }

  /** `new` in Java: an array of zero bytes. */
  method NewArray(n: nat) returns (a: array<Byte>)
    ensures fresh(a) && a[..] == Zeros(n)
  {
    a := new Byte[n](i => 0);
  }

  /** The bytes that are copied: the signed form, or the form without its sign byte when it does not fit. */
  function Copied(bytes: seq<Byte>, half: nat): seq<Byte> {
    if |bytes| > half then bytes[1..] else bytes
  }

  lemma CopiedIsAligned(value: nat, half: nat)
    requires |Minimal(value)| <= half
    ensures var copied := Copied(ToByteArray(value), half);
            |copied| <= half && Zeros(half - |copied|) + copied == RightAligned(value, half)
  {
    SignByte(value);
    EitherForm(ToByteArray(value), Minimal(value), half);
  }

  lemma EitherForm(bytes: seq<Byte>, minimal: seq<Byte>, half: nat)
    requires |minimal| <= half
    requires bytes == minimal || (bytes == [0] + minimal && bytes[1..] == minimal)
    ensures var copied := Copied(bytes, half);
            |copied| <= half && Zeros(half - |copied|) + copied == Zeros(half - |minimal|) + minimal
  {
    if bytes != minimal && |minimal| < half {
      ZeroMoves(half - |minimal| - 1, minimal);
    }
  }

  lemma ZeroMoves(n: nat, s: seq<Byte>)
    ensures Zeros(n) + ([0] + s) == Zeros(n + 1) + s
  {
  }

  lemma SpliceFirst(x: seq<Byte>, half: nat)
    requires |x| <= half
    ensures Splice(Zeros(2 * half), half - |x|, x) == (Zeros(half - |x|) + x) + Zeros(half)
  {
  }

  lemma SpliceSecond(first: seq<Byte>, y: seq<Byte>, half: nat)
    requires |first| == half && |y| <= half
    ensures Splice(first + Zeros(half), 2 * half - |y|, y) == first + (Zeros(half - |y|) + y)
  {
  }

  /** Writing both parts into a zeroed block aligns each to the end of its half. */
  lemma BothSpliced(x: seq<Byte>, y: seq<Byte>, half: nat)
    requires |x| <= half && |y| <= half
    ensures Splice(Splice(Zeros(2 * half), half - |x|, x), 2 * half - |y|, y)
         == (Zeros(half - |x|) + x) + (Zeros(half - |y|) + y)
  {
    SpliceFirst(x, half);
    SpliceSecond(Zeros(half - |x|) + x, y, half);
  }

  /** Copies the bytes of a number to the end of a half. */
  method PlaceHalf(bytes: seq<Byte>, half: nat, output: array<Byte>, end: nat)
    requires |Copied(bytes, half)| <= half <= end <= output.Length
    modifies output
    ensures output[..] == Splice(old(output[..]), end - |Copied(bytes, half)|, Copied(bytes, half))
  {
    var out := AsArray(bytes);
    if out.Length > half {
      ArrayCopy(out, 1, output, end - (out.Length - 1), out.Length - 1);
      assert out[1..1 + (out.Length - 1)] == bytes[1..];
    } else {
      ArrayCopy(out, 0, output, end - out.Length, out.Length);
      assert out[0..0 + out.Length] == bytes;
    }
  }

  method Pack(out1: seq<Byte>, out2: seq<Byte>, half: nat) returns (out: array<Byte>)
    requires |Copied(out1, half)| <= half && |Copied(out2, half)| <= half
    ensures var (x, y) := (Copied(out1, half), Copied(out2, half));
            fresh(out) && out[..] == (Zeros(half - |x|) + x) + (Zeros(half - |y|) + y)
  {
    BothSpliced(Copied(out1, half), Copied(out2, half), half);
    out := NewArray(2 * half);
    PlaceHalf(out1, half, out, half);
    PlaceHalf(out2, half, out, 2 * half);
  }

  lemma SpliceAll(s: seq<Byte>, part: seq<Byte>)
    requires |s| == |part|
    ensures Splice(s, 0, part) == part
  {
  }

  /** A fresh array holding `length` bytes of `src`. */
  method CopyOfRange(src: array<Byte>, from: nat, length: nat) returns (a: array<Byte>)
    requires from + length <= src.Length
    ensures fresh(a) && a[..] == src[from..from + length]
  {
    a := NewArray(length);
    SpliceAll(a[..], src[from..from + length]);
    ArrayCopy(src, from, a, 0, length);
  }

  method AsArray(s: seq<Byte>) returns (a: array<Byte>)
    ensures fresh(a) && a[..] == s
  {
    a := new Byte[|s|](i requires 0 <= i < |s| => s[i]);
  }

  class Engine {
    const p: nat
    const g: int
    const forEncryption: bool
    /** The public number y on encryption, the secret x on decryption. */
    const key: int
    var k: int

    constructor (forEncryption: bool, p: nat, g: int, key: int)
      ensures this.forEncryption == forEncryption && this.p == p && this.g == g && this.key == key
    {
      this.forEncryption, this.p, this.g, this.key, this.k := forEncryption, p, g, key, 0;
    }

    /** Draws until the exponent is in range. */
    method DrawExponent(draws: seq<nat>) returns (draw: nat)
      requires exists i :: 0 <= i < |draws| && InRange(draws[i], p)
      ensures draw == FirstInRange(draws, p)
    {
      var i := 0;
      while !InRange(draws[i], p)
        invariant 0 <= i < |draws|
        invariant exists j :: 0 <= j < |draws[i..]| && InRange(draws[i..][j], p)
        invariant FirstInRange(draws[i..], p) == FirstInRange(draws, p)
        decreases |draws| - i
      {
        ghost var j :| 0 <= j < |draws[i..]| && InRange(draws[i..][j], p);
        assert draws[i..][0] == draws[i] && draws[i..][1..] == draws[i + 1..];
        assert draws[i + 1..][j - 1] == draws[i..][j];
        i := i + 1;
      }
      assert draws[i..][0] == draws[i];
      draw := draws[i];
    }

    /** `draws` are the random numbers that the drawing loop gets to see. */
    method ProcessBlock(data: array<Byte>, offset: nat, length: nat, draws: seq<nat>)
      returns (output: Option<array<Byte>>)
      requires p > 0 && offset + length <= data.Length
      requires forEncryption ==> exists i :: 0 <= i < |draws| && InRange(draws[i], p)
      modifies `k
      ensures var input := old(data[offset..offset + length]);
              var result := if forEncryption then EncryptBlock(p, g, key, input, FirstInRange(draws, p))
                            else DecryptBlock(p, key, input);
              if result.Some? then output.Some? && output.value[..] == result.value else output.None?
      ensures data[..] == old(data[..])
      ensures k == if forEncryption && output.Some? then FirstInRange(draws, p) else old(k)
    {
      var maxLength := if forEncryption then (BitLength(p) + 6) / 8 else 2 * HalfSize(p);
      if length > maxLength { return None; }
      var block := CopyOfRange(data, offset, length);
      if forEncryption {
        if Unsigned(block[..]) >= p { return None; }
        var draw := DrawExponent(draws);
        var out := Encrypted(block[..], draw);
        k := draw;
        return Some(out);
      } else {
        output := Decrypted(block);
      }
    }

    method Encrypted(input: seq<Byte>, draw: nat) returns (out: array<Byte>)
      requires p > 0 && Accepts(p, input)
      ensures fresh(out) && EncryptBlock(p, g, key, input, draw) == Some(out[..])
    {
      var gamma := Pow(g, draw) % p;
      var phi := Masked(p, key, Unsigned(input), draw);
      FitsHalf(gamma, p);
      FitsHalf(phi, p);
      CopiedIsAligned(gamma, HalfSize(p));
      CopiedIsAligned(phi, HalfSize(p));
      out := Pack(ToByteArray(gamma), ToByteArray(phi), HalfSize(p));
    }

    method Decrypted(data: array<Byte>) returns (output: Option<array<Byte>>)
      requires p > 0 && data.Length <= 2 * HalfSize(p)
      ensures var result := DecryptBlock(p, key, data[..]);
              if result.Some? then output.Some? && output.value[..] == result.value else output.None?
      ensures data[..] == old(data[..])
    {
      var h := data.Length / 2;
      var in1 := CopyOfRange(data, 0, h);
      var in2 := CopyOfRange(data, h, h);
      assert in1[..] == data[..][..h] && in2[..] == data[..][h..2 * h];
      var m := Recover(p, key, Unsigned(in1[..]), Unsigned(in2[..]));
      if m.None? { return None; }
      var out := AsArray(Minimal(m.value));
      return Some(out);
    }
  }
}
