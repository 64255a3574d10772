/** Counters and codecs on byte arrays. */
module ByteUtil {
  import opened NumberTheory
  import opened ModPower
  import opened Bytes

  /** The number of byte strings of length n. */
  function Weight(n: nat): (w: nat)
    ensures w > 0
  {
    PowPositive(256, n);
    Pow(256, n)
  }

  // ----- increment -----

  /** One more, modulo 256^n. */
  function Successor(s: seq<Byte>): (t: seq<Byte>)
    ensures |t| == |s|
  {
    if s == [] then []
    else
      var n := |s| - 1;
      if s[n] == 255 then Successor(s[..n]) + [0] else s[..n] + [s[n] + 1]
  }

  lemma {:induction false} SuccessorValue(s: seq<Byte>)
    ensures Unsigned(Successor(s)) == (Unsigned(s) + 1) % Weight(|s|)
  {
    if s != [] {
      var n := |s| - 1;
      var t := Successor(s);
      UnsignedBound(s[..n]);
      if s[n] == 255 {
        SuccessorValue(s[..n]);
        assert t[..n] == Successor(s[..n]);
        CarryValue(Unsigned(s[..n]), Pow(256, n));
      } else {
        assert t[..n] == s[..n];
        DivModUnique(Unsigned(s) + 1, 0, Unsigned(s) + 1, 256 * Pow(256, n));
      }
    } else {
      DivModUnique(1, 1, 0, 1);
    }
  }

  lemma CarryValue(u: nat, q: nat)
    requires u < q
    ensures 256 * ((u + 1) % q) == (256 * u + 256) % (256 * q)
  {
    if u + 1 == q {
      DivModUnique(q, 1, 0, q);
      DivModUnique(256 * q, 1, 0, 256 * q);
    } else {
      DivModUnique(u + 1, 0, u + 1, q);
      DivModUnique(256 * u + 256, 0, 256 * u + 256, 256 * q);
    }
  }

  ghost predicate AllFull(s: seq<Byte>) {
    forall i :: 0 <= i < |s| ==> s[i] == 255
  }

  /** The carry stops at the last byte that is not full. */
  lemma {:induction false} SuccessorCarry(s: seq<Byte>, i: int)
    requires -1 <= i < |s| && AllFull(s[i + 1..]) && (i >= 0 ==> s[i] != 255)
    ensures Successor(s) == if i < 0 then Zeros(|s|) else s[..i] + [s[i] + 1] + Zeros(|s| - i - 1)
  {
    var n := |s| - 1;
    if i < n {
      assert s[i + 1..][n - i - 1] == s[n];
      assert s[..n][i + 1..] == s[i + 1..][..n - i - 1];
      SuccessorCarry(s[..n], i);
      assert Zeros(n - i - 1) + [0] == Zeros(n - i);
      assert i >= 0 ==> s[..n][..i] == s[..i];
    }
  }

  /** The loop of `increment`: clears the full bytes at the end and adds one to the byte before them. */
  method Carry(bytes: array<Byte>) returns (i: int)
    requires bytes.Length > 0
    modifies bytes
    ensures -1 <= i < bytes.Length && (i >= 0 ==> bytes[i] != 0)
    ensures bytes[..] == Successor(old(bytes[..]))
    ensures i < 0 ==> bytes[..] == Zeros(bytes.Length)
  {
    ghost var s := bytes[..];
    i := bytes.Length - 1;
    while i >= 0
      invariant -1 <= i < bytes.Length
      invariant bytes[..] == s[..i + 1] + Zeros(bytes.Length - i - 1)
      invariant AllFull(s[i + 1..])
    {
      assert bytes[i] == bytes[..][i] == s[i];
      bytes[i] := if bytes[i] == 255 then 0 else bytes[i] + 1;
      if bytes[i] != 0 {
        break;
      }
      i := i - 1;
    }
    SuccessorCarry(s, i);
  }

  /** `increment`: adds one modulo 256^n and returns false exactly when it wraps around. */
  method Increment(bytes: array<Byte>) returns (more: bool)
    requires bytes.Length > 0
    modifies bytes
    ensures bytes[..] == Successor(old(bytes[..]))
    ensures Unsigned(bytes[..]) == (Unsigned(old(bytes[..])) + 1) % Weight(bytes.Length)
    ensures more <==> Unsigned(bytes[..]) != 0
  {
    SuccessorValue(bytes[..]);
    var i := Carry(bytes);
    more := i >= 0 || bytes[0] != 0;
    if i >= 0 {
      NonzeroByte(bytes[..], i);
    } else {
      ZerosValue(bytes.Length);
      assert bytes[0] == bytes[..][0];
    }
  }

  lemma ZerosValue(n: nat)
    ensures Unsigned(Zeros(n)) == 0
  {
    UnsignedZeros(n, []);
    assert Zeros(n) + [] == Zeros(n);
  }

  lemma {:induction false} NonzeroByte(s: seq<Byte>, i: nat)
    requires i < |s| && s[i] != 0
    ensures Unsigned(s) > 0
  {
    if i < |s| - 1 { NonzeroByte(s[..|s| - 1], i); }
  }

  /** The array after k calls of `increment` from all zeros. */
  function Counter(n: nat, k: nat): (s: seq<Byte>)
    ensures |s| == n
  {
    if k == 0 then Zeros(n) else Successor(Counter(n, k - 1))
  }

  /** After k calls the array holds k, until it holds zero again after 256^n calls. */
  lemma {:induction false} CounterValue(n: nat, k: nat)
    requires k <= Weight(n)
    ensures Unsigned(Counter(n, k)) == k % Weight(n)
  {
    if k == 0 {
      ZerosValue(n);
      DivModUnique(0, 0, 0, Weight(n));
    } else {
      CounterValue(n, k - 1);
      SuccessorValue(Counter(n, k - 1));
      DivModUnique(k - 1, 0, k - 1, Weight(n));
    }
  }

  /** Counting from all zeros visits every array of n bytes exactly once before `increment` returns false. */
  lemma CounterVisits(n: nat, s: seq<Byte>)
    requires |s| == n
    ensures Unsigned(s) < Weight(n) && Counter(n, Unsigned(s)) == s
    ensures forall k :: 0 <= k < Weight(n) && Counter(n, k) == s ==> k == Unsigned(s)
    ensures Counter(n, Weight(n)) == Zeros(n)
  {
    UnsignedBound(s);
    CounterHolds(n, Unsigned(s));
    UnsignedInjective(Counter(n, Unsigned(s)), s);
    forall k | 0 <= k < Weight(n) && Counter(n, k) == s ensures k == Unsigned(s) {
      CounterHolds(n, k);
    }
    CounterValue(n, Weight(n));
    DivModUnique(Weight(n), 1, 0, Weight(n));
    ZerosValue(n);
    UnsignedInjective(Counter(n, Weight(n)), Zeros(n));
  }

  lemma CounterHolds(n: nat, k: nat)
    requires k < Weight(n)
    ensures Unsigned(Counter(n, k)) == k
  {
    CounterValue(n, k);
    DivModUnique(k, 0, k, Weight(n));
  }

  // ----- big integers in a fixed number of bytes -----

  /** `bigIntegerToBytes(b, numBytes)`. */
  function BigIntegerToBytes(b: int, numBytes: nat): (s: seq<Byte>)
    ensures |s| == numBytes
  {
    var biBytes := ToByteArray(b);
    var start := if |biBytes| == numBytes + 1 then 1 else 0;
    var length := if |biBytes| <= numBytes then |biBytes| else numBytes;
    Zeros(numBytes - length) + biBytes[start..start + length]
  }

  /** The number comes back exactly when it is not negative and fits. */
  lemma BigIntegerRoundTrip(b: int, numBytes: nat)
    ensures Unsigned(BigIntegerToBytes(b, numBytes)) == b <==> 0 <= b < Pow(256, numBytes)
  {
    UnsignedBound(BigIntegerToBytes(b, numBytes));
    if 0 <= b < Pow(256, numBytes) {
      MinimalLength(b, numBytes);
      SignByte(b);
      CopiedValue(ToByteArray(b), Minimal(b), numBytes);
    }
  }

  lemma UnsignedSplit(s: seq<Byte>, n: nat)
    requires n <= |s|
    ensures Weight(|s| - n) > 0 && Unsigned(s[..n]) == Unsigned(s) / Weight(|s| - n)
    ensures Unsigned(s[n..]) == Unsigned(s) % Weight(|s| - n)
  {
    assert s == s[..n] + s[n..];
    UnsignedConcat(s[..n], s[n..]);
    UnsignedBound(s[n..]);
    DivModUnique(Unsigned(s), Unsigned(s[..n]), Unsigned(s[n..]), Weight(|s| - n));
  }

  /** The two's complement bytes, read without the sign. */
  lemma TwosComplement(b: int)
    ensures Unsigned(ToByteArray(b)) == b % Weight(|ToByteArray(b)|)
  {
    var s := ToByteArray(b);
    UnsignedBound(s);
    var q := if s[0] >= 128 then -1 else 0;
    DivModUnique(b, q, Unsigned(s), Weight(|s|));
  }

  /**
   * Negative or too large numbers, too: with room for them the two's complement bytes are set behind zeros; when there
   * is one byte too many the first one is lost, and when there are more of them the last ones.
   */
  lemma BigIntegerExactly(b: int, numBytes: nat)
    ensures var length := |ToByteArray(b)|;
            Unsigned(BigIntegerToBytes(b, numBytes)) ==
            if length <= numBytes + 1 then b % Weight(length) % Weight(numBytes)
            else b % Weight(length) / Weight(length - numBytes)
  {
    var s := ToByteArray(b);
    TwosComplement(b);
    if |s| <= numBytes {
      assert s[0..0 + |s|] == s;
      UnsignedZeros(numBytes - |s|, s);
      UnsignedBound(BigIntegerToBytes(b, numBytes));
      DivModUnique(Unsigned(s), 0, Unsigned(s), Weight(numBytes));
    } else if |s| == numBytes + 1 {
      assert s[1..1 + numBytes] == s[1..];
      UnsignedZeros(0, s[1..]);
      UnsignedSplit(s, 1);
    } else {
      assert s[0..0 + numBytes] == s[..numBytes];
      UnsignedZeros(0, s[..numBytes]);
      UnsignedSplit(s, numBytes);
    }
  }

  /** Either form of a number keeps its value when it is copied to the end of the array. */
  lemma CopiedValue(biBytes: seq<Byte>, minimal: seq<Byte>, numBytes: nat)
    requires |minimal| <= numBytes
    requires biBytes == minimal || (biBytes == [0] + minimal && biBytes[1..] == minimal)
    ensures var start := if |biBytes| == numBytes + 1 then 1 else 0;
            var length := if |biBytes| <= numBytes then |biBytes| else numBytes;
            Unsigned(Zeros(numBytes - length) + biBytes[start..start + length]) == Unsigned(minimal)
  {
    if |biBytes| == numBytes + 1 {
      assert biBytes[1..1 + numBytes] == minimal;
      UnsignedZeros(0, minimal);
    } else {
      assert biBytes[0..0 + |biBytes|] == biBytes;
      UnsignedZeros(numBytes - |biBytes|, biBytes);
      if biBytes != minimal {
        UnsignedZeros(1, minimal);
        assert Zeros(1) + minimal == biBytes;
      }
    }
  }

  // ----- 32-bit integers -----

  type Int = i: int | -0x8000_0000 <= i < 0x8000_0000

  /** The bit pattern of an int as a number, and back. */
  function Pattern(i: Int): nat {
    if i < 0 then i + 0x1_0000_0000 else i
  }

  function FromPattern(n: nat): (i: Int) {
    var low := n % 0x1_0000_0000;
    if low >= 0x8000_0000 then low - 0x1_0000_0000 else low
  }

  /** The first loop of `intToBytesNoLeadZeroes` counts the bytes. */
  method CountBytes(n: nat) returns (length: nat)
    ensures length == |Minimal(n)|
  {
    length := 0;
    var tmpVal := n;
    while tmpVal != 0
      invariant tmpVal >= 0 && length + |Minimal(tmpVal)| == |Minimal(n)|
      decreases tmpVal
    {
      tmpVal, length := tmpVal / 256, length + 1;
    }
  }

  lemma NextByte(val: nat, whole: seq<Byte>, count: nat)
    requires val > 0 && count == |Minimal(val)| <= |whole| && Minimal(val) == whole[..count]
    ensures count > 0 && whole[count - 1] == val % 256
    ensures Minimal(val / 256) == whole[..count - 1]
  {
    MinimalLast(val);
    assert whole[count - 1] == whole[..count][count - 1];
    assert whole[..count][..count - 1] == whole[..count - 1];
  }

  /** `intToBytesNoLeadZeroes`: the second loop writes the bytes from the right. */
  method IntToBytesNoLeadZeroes(value: Int) returns (result: array<Byte>)
    ensures fresh(result) && result[..] == Minimal(Pattern(value))
  {
    var length := CountBytes(Pattern(value));
    result := new Byte[length](i => 0);
    var val := Pattern(value);
    ghost var whole := Minimal(val);
    var index := result.Length - 1;
    while val != 0
      invariant val >= 0 && index + 1 == |Minimal(val)| <= result.Length == |whole|
      invariant Minimal(val) == whole[..index + 1]
      invariant forall j :: index < j < result.Length ==> result[j] == whole[j]
      decreases val
    {
      NextByte(val, whole, index + 1);
      result[index] := val % 256;
      val, index := val / 256, index - 1;
    }
  }

  /** `byteArrayToInt` gives the int back, and no shorter array has its pattern as number. */
  lemma IntRoundTrip(value: Int, other: seq<Byte>)
    ensures FromPattern(Unsigned(Minimal(Pattern(value)))) == value
    ensures Unsigned(other) == Pattern(value) ==> |other| >= |Minimal(Pattern(value))|
  {
    SamePattern(value);
    NoShorter(Pattern(value), other);
  }

  lemma SamePattern(value: Int)
    ensures FromPattern(Pattern(value)) == value
  {
  }

  lemma NoShorter(n: nat, other: seq<Byte>)
    ensures Unsigned(other) == n ==> |other| >= |Minimal(n)|
  {
    UnsignedBound(other);
    if Unsigned(other) == n {
      MinimalLength(n, |other|);
    }
  }

  /** Byte j of an int, counted from the least significant one: `(byte) ((ii >> 8j) & 0xFF)`. */
  function ByteOf(i: Int, j: nat): Byte
    requires j < 4
  {
    Shifted(i, j) % 256
  }

  /** `ii >> 8j`, which keeps the sign. */
  function Shifted(i: int, j: nat): int
    decreases j
  {
    if j == 0 then i else Shifted(i / 256, j - 1)
  }

  /** The four masked and shifted bytes put together; their bits do not overlap. */
  function Assemble(b0: Byte, b1: Byte, b2: Byte, b3: Byte): Int {
    FromPattern(b0 + 256 * (b1 + 256 * (b2 + 256 * b3)))
  }

  lemma AssembleBytes(i: Int)
    ensures Assemble(ByteOf(i, 0), ByteOf(i, 1), ByteOf(i, 2), ByteOf(i, 3)) == i
  {
    var b0, i1 := i % 256, i / 256;
    var b1, i2 := i1 % 256, i1 / 256;
    var b2, high := i2 % 256, i2 / 256;
    var b3 := high % 256;
    assert i == b0 + 256 * (b1 + 256 * (b2 + 256 * high));
    ShiftsOfNested(b0, b1, b2, high);
    HighByte(i, b0, b1, b2, high);
    AssembleValue(b0, b1, b2, b3, high);
  }

  /** The high byte of an int carries its sign. */
  lemma HighByte(i: Int, b0: Byte, b1: Byte, b2: Byte, high: int)
    requires i == b0 + 256 * (b1 + 256 * (b2 + 256 * high))
    ensures high == if high % 256 >= 128 then high % 256 - 256 else high % 256
  {
    assert -128 <= high < 128;
  }

  /** The bytes of an int are those of its pattern, the most significant one first or last. */
  lemma BytesOfPattern(i: Int)
    ensures Unsigned(BytesOf(i, true)) == Pattern(i)
    ensures forall k :: 0 <= k < 4 ==> BytesOf(i, false)[k] == BytesOf(i, true)[3 - k]
  {
    var b := BytesOf(i, true);
    BytesValue(b[0], b[1], b[2], b[3]);
    AssembleBytes(i);
    SamePattern(i);
    assert b == [b[0], b[1], b[2], b[3]];
    AssembledPattern(b[3], b[2], b[1], b[0]);
  }

  lemma BytesValue(b3: Byte, b2: Byte, b1: Byte, b0: Byte)
    ensures Unsigned([b3, b2, b1, b0]) == b0 + 256 * (b1 + 256 * (b2 + 256 * b3))
  {
    OneByte(b3);
    assert [b3, b2][..1] == [b3];
    assert Unsigned([b3, b2]) == 256 * b3 + b2;
    assert [b3, b2, b1][..2] == [b3, b2];
    assert Unsigned([b3, b2, b1]) == 256 * (256 * b3 + b2) + b1;
    assert [b3, b2, b1, b0][..3] == [b3, b2, b1];
  }

  lemma AssembledPattern(b0: Byte, b1: Byte, b2: Byte, b3: Byte)
    ensures Pattern(Assemble(b0, b1, b2, b3)) == b0 + 256 * (b1 + 256 * (b2 + 256 * b3))
  {
  }

  lemma BytesOfAssembled(b0: Byte, b1: Byte, b2: Byte, b3: Byte)
    ensures var i := Assemble(b0, b1, b2, b3);
            ByteOf(i, 0) == b0 && ByteOf(i, 1) == b1 && ByteOf(i, 2) == b2 && ByteOf(i, 3) == b3
  {
    var high := if b3 >= 128 then b3 - 256 else b3;
    AssembleValue(b0, b1, b2, b3, high);
    ShiftsOfNested(b0, b1, b2, high);
  }

  lemma AssembleValue(b0: Byte, b1: Byte, b2: Byte, b3: Byte, high: int)
    requires high == if b3 >= 128 then b3 - 256 else b3
    ensures Assemble(b0, b1, b2, b3) == b0 + 256 * (b1 + 256 * (b2 + 256 * high))
    ensures high % 256 == b3
  {
  }

  lemma ShiftsOfNested(b0: Byte, b1: Byte, b2: Byte, high: int)
    ensures var i := b0 + 256 * (b1 + 256 * (b2 + 256 * high));
            i % 256 == b0 && Shifted(i, 0) == i && Shifted(i, 1) % 256 == b1 && Shifted(i, 2) % 256 == b2
            && Shifted(i, 3) == high
  {
    var i2 := b2 + 256 * high;
    var i1 := b1 + 256 * i2;
    var i := b0 + 256 * i1;
    LastByte(b0, i1);
    LastByte(b1, i2);
    LastByte(b2, high);
    assert Shifted(i, 1) == Shifted(i1, 0);
    assert Shifted(i, 2) == Shifted(i1, 1) == Shifted(i2, 0);
    assert Shifted(i, 3) == Shifted(i1, 2) == Shifted(i2, 1) == Shifted(high, 0);
  }

  lemma LastByte(b: Byte, rest: int)
    ensures (b + 256 * rest) / 256 == rest && (b + 256 * rest) % 256 == b
  {
  }

  function BytesOf(i: Int, bigEndian: bool): (b: seq<Byte>)
    ensures |b| == 4
  {
    if bigEndian then [ByteOf(i, 3), ByteOf(i, 2), ByteOf(i, 1), ByteOf(i, 0)]
    else [ByteOf(i, 0), ByteOf(i, 1), ByteOf(i, 2), ByteOf(i, 3)]
  }

  function IntOf(b: seq<Byte>, bigEndian: bool): Int
    requires |b| == 4
  {
    if bigEndian then Assemble(b[3], b[2], b[1], b[0]) else Assemble(b[0], b[1], b[2], b[3])
  }

  /** `intsToBytes`. */
  function IntsToBytes(arr: seq<Int>, bigEndian: bool): (b: seq<Byte>)
    ensures |b| == 4 * |arr|
  {
    if arr == [] then [] else BytesOf(arr[0], bigEndian) + IntsToBytes(arr[1..], bigEndian)
  }

  /** `bytesToInts`; up to three bytes at the end are not read. */
  function BytesToInts(b: seq<Byte>, bigEndian: bool): (arr: seq<Int>)
    ensures |arr| == |b| / 4
  {
    if |b| < 4 then [] else [IntOf(b[..4], bigEndian)] + BytesToInts(b[4..], bigEndian)
  }

  lemma {:induction false} IntsRoundTrip(arr: seq<Int>, bigEndian: bool)
    ensures BytesToInts(IntsToBytes(arr, bigEndian), bigEndian) == arr
  {
    if arr != [] {
      var b := IntsToBytes(arr, bigEndian);
      assert b[..4] == BytesOf(arr[0], bigEndian) && b[4..] == IntsToBytes(arr[1..], bigEndian);
      AssembleBytes(arr[0]);
      IntsRoundTrip(arr[1..], bigEndian);
    }
  }

  /** The other way round exactly when the length is a multiple of four. */
  lemma {:induction false} BytesRoundTrip(b: seq<Byte>, bigEndian: bool)
    ensures IntsToBytes(BytesToInts(b, bigEndian), bigEndian) == b <==> |b| % 4 == 0
  {
    if |b| >= 4 {
      BytesRoundTrip(b[4..], bigEndian);
      WordRoundTrip(b[..4], bigEndian);
      var arr := BytesToInts(b, bigEndian);
      assert arr[1..] == BytesToInts(b[4..], bigEndian);
      assert b == b[..4] + b[4..];
    }
  }

  lemma WordRoundTrip(word: seq<Byte>, bigEndian: bool)
    requires |word| == 4
    ensures BytesOf(IntOf(word, bigEndian), bigEndian) == word
  {
    if bigEndian { BytesOfAssembled(word[3], word[2], word[1], word[0]); }
    else { BytesOfAssembled(word[0], word[1], word[2], word[3]); }
  }

  lemma {:induction false} IntsToBytesAppend(arr: seq<Int>, x: Int, bigEndian: bool)
    ensures IntsToBytes(arr + [x], bigEndian) == IntsToBytes(arr, bigEndian) + BytesOf(x, bigEndian)
  {
    if arr == [] {
      assert [x][1..] == [];
      assert BytesOf(x, bigEndian) + [] == BytesOf(x, bigEndian);
    } else {
      assert (arr + [x])[1..] == arr[1..] + [x];
      IntsToBytesAppend(arr[1..], x, bigEndian);
    }
  }

  /** The loops of `intsToBytes`, one for each byte order. */
  method WriteInts(arr: array<Int>, b: array<Byte>, bigEndian: bool)
    requires b.Length == 4 * arr.Length
    modifies b
    ensures b[..] == IntsToBytes(arr[..], bigEndian)
  {
    var off := 0;
    for i := 0 to arr.Length
      invariant off == 4 * i && b[..off] == IntsToBytes(arr[..i], bigEndian)
    {
      IntsToBytesAppend(arr[..i], arr[i], bigEndian);
      assert arr[..i + 1] == arr[..i] + [arr[i]];
      WriteInt(arr[i], b, off, bigEndian);
      off := off + 4;
    }
    assert arr[..arr.Length] == arr[..];
  }

  /** The body of either loop. */
  method WriteInt(ii: Int, b: array<Byte>, off: nat, bigEndian: bool)
    requires off + 4 <= b.Length
    modifies b
    ensures b[..off + 4] == old(b[..off]) + BytesOf(ii, bigEndian)
    ensures b[off + 4..] == old(b[off + 4..])
  {
    if bigEndian {
      b[off], b[off + 1], b[off + 2], b[off + 3] := ByteOf(ii, 3), ByteOf(ii, 2), ByteOf(ii, 1), ByteOf(ii, 0);
    } else {
      b[off], b[off + 1], b[off + 2], b[off + 3] := ByteOf(ii, 0), ByteOf(ii, 1), ByteOf(ii, 2), ByteOf(ii, 3);
    }
  }

  lemma NextInt(before: seq<Int>, rest: seq<Byte>, bigEndian: bool)
    requires |rest| >= 4
    ensures before + BytesToInts(rest, bigEndian)
         == (before + [IntOf(rest[..4], bigEndian)]) + BytesToInts(rest[4..], bigEndian)
  {
  }

  /** The loops of `bytesToInts`. */
  method ReadInts(b: array<Byte>, arr: array<Int>, bigEndian: bool)
    requires arr.Length == b.Length / 4
    modifies arr
    ensures arr[..] == BytesToInts(b[..], bigEndian)
    ensures b[..] == old(b[..])
  {
    for i := 0 to arr.Length
      invariant b[..] == old(b[..])
      invariant arr[..i] + BytesToInts(b[4 * i..], bigEndian) == BytesToInts(b[..], bigEndian)
    {
      var word := b[4 * i..4 * i + 4];
      ghost var before, rest := arr[..i], b[4 * i..];
      arr[i] := if bigEndian then Assemble(word[3], word[2], word[1], word[0])
                else Assemble(word[0], word[1], word[2], word[3]);
      assert rest[..4] == word && rest[4..] == b[4 * (i + 1)..];
      assert arr[..i + 1] == before + [arr[i]];
      NextInt(before, rest, bigEndian);
    }
    assert BytesToInts(b[4 * arr.Length..], bigEndian) == [];
  }
}
