/** `BigInteger.xor`: exclusive or on the infinite two's complement form of signed integers. */
module SignedXor {
  import opened ModPower

  function Magnitude(a: int): nat {
    if a >= 0 then a else -a - 1
  }

  function Xor(a: int, b: int): int
    decreases Magnitude(a) + Magnitude(b)
  {
    if Magnitude(a) == 0 && Magnitude(b) == 0 then
      if a == b then 0 else -1
    else
      2 * Xor(a / 2, b / 2) + (a + b) % 2
  }

  /** `challenges = 0; for (c : challenge) challenges = challenges.xor(c)`, as a function. */
  function XorFold(acc: int, s: seq<int>): int
    decreases |s|
  {
    if s == [] then acc else XorFold(Xor(acc, s[0]), s[1..])
  }

  /** Bit `i` of the two's complement form. */
  function Bit(a: int, i: nat): int
    decreases i
  {
    if i == 0 then a % 2 else Bit(a / 2, i - 1)
  }

  /** What the last bits and the halves say about bit i. */
  lemma BitFromHalves(x: int, a: int, b: int, i: nat)
    requires x % 2 == (a + b) % 2
    requires i > 0 ==> Bit(x / 2, i - 1) == (Bit(a / 2, i - 1) + Bit(b / 2, i - 1)) % 2
    ensures Bit(x, i) == (Bit(a, i) + Bit(b, i)) % 2
  {
  }

  lemma XorStep(a: int, b: int)
    ensures Xor(a, b) / 2 == Xor(a / 2, b / 2)
    ensures Xor(a, b) % 2 == (a + b) % 2
  {
  }

  /** `Xor` is the bitwise exclusive or, ... */
  lemma {:induction false} XorBit(a: int, b: int, i: nat)
    ensures Bit(Xor(a, b), i) == (Bit(a, i) + Bit(b, i)) % 2
    decreases i
  {
    XorStep(a, b);
    if i > 0 { XorBit(a / 2, b / 2, i - 1); }
    BitFromHalves(Xor(a, b), a, b, i);
  }

  /** ... and bits determine the number. */
  lemma {:induction false} BitsDetermine(a: int, b: int)
    requires forall i: nat :: Bit(a, i) == Bit(b, i)
    ensures a == b
    decreases Magnitude(a) + Magnitude(b)
  {
    assert Bit(a, 0) == Bit(b, 0);
    if Magnitude(a) + Magnitude(b) > 0 {
      forall i: nat ensures Bit(a / 2, i) == Bit(b / 2, i) {
        assert Bit(a, i + 1) == Bit(b, i + 1);
      }
      BitsDetermine(a / 2, b / 2);
    }
  }

  // ----- an abelian group in which every element is its own inverse -----

  lemma XorCommutes(a: int, b: int)
    ensures Xor(a, b) == Xor(b, a)
  {
    forall i: nat ensures Bit(Xor(a, b), i) == Bit(Xor(b, a), i) {
      XorBit(a, b, i);
      XorBit(b, a, i);
    }
    BitsDetermine(Xor(a, b), Xor(b, a));
  }

  lemma XorAssociates(a: int, b: int, c: int)
    ensures Xor(Xor(a, b), c) == Xor(a, Xor(b, c))
  {
    forall i: nat ensures Bit(Xor(Xor(a, b), c), i) == Bit(Xor(a, Xor(b, c)), i) {
      XorBit3(a, b, c, i);
    }
    BitsDetermine(Xor(Xor(a, b), c), Xor(a, Xor(b, c)));
  }

  lemma XorBit3(a: int, b: int, c: int, i: nat)
    ensures Bit(Xor(Xor(a, b), c), i) == Bit(Xor(a, Xor(b, c)), i)
  {
    var x, y, z := Bit(a, i), Bit(b, i), Bit(c, i);
    var ab, bc := Xor(a, b), Xor(b, c);
    var xy, yz := Bit(ab, i), Bit(bc, i);
    XorBit(a, b, i);
    XorBit(b, c, i);
    XorBit(ab, c, i);
    XorBit(a, bc, i);
    Parity3(x, y, z, xy, yz);
  }

  lemma Parity3(x: int, y: int, z: int, xy: int, yz: int)
    requires xy == (x + y) % 2 && yz == (y + z) % 2
    ensures (xy + z) % 2 == (x + yz) % 2
  {
  }

  lemma {:induction false} XorZero(a: int)
    ensures Xor(0, a) == a && Xor(a, 0) == a
    decreases Magnitude(a)
  {
    if Magnitude(a) > 0 { XorZero(a / 2); }
  }

  lemma {:induction false} XorSelf(a: int)
    ensures Xor(a, a) == 0
    decreases Magnitude(a)
  {
    if Magnitude(a) > 0 { XorSelf(a / 2); }
  }

  /** The second application of the same mask undoes the first. */
  lemma XorUndo(a: int, b: int)
    ensures Xor(Xor(a, b), b) == a
  {
    XorAssociates(a, b, b);
    XorSelf(b);
    XorZero(a);
  }

  /** The challenge chosen to close a fold makes it come out at the target. */
  lemma XorFoldCloses(target: int, x: int, y: int, z: int)
    ensures XorFold(0, [Xor(target, Xor(y, Xor(x, z))), x, y, z]) == target
  {
    var rest := Xor(y, Xor(x, z));
    var first := Xor(target, rest);
    var s := [first, x, y, z];
    assert s[1..] == [x, y, z] && s[1..][1..] == [y, z] && s[1..][1..][1..] == [z] && s[1..][1..][1..][1..] == [];
    calc {
      XorFold(0, s);
      { XorZero(first); }
      XorFold(first, [x, y, z]);
      XorFold(Xor(first, x), [y, z]);
      XorFold(Xor(Xor(first, x), y), [z]);
      Xor(Xor(Xor(first, x), y), z);
      { XorAssociates(Xor(first, x), y, z); }
      Xor(Xor(first, x), Xor(y, z));
      { XorAssociates(first, x, Xor(y, z)); }
      Xor(first, Xor(x, Xor(y, z)));
      { XorAssociates(x, y, z); XorCommutes(x, y); XorAssociates(y, x, z); }
      Xor(first, rest);
      { XorUndo(target, rest); }
      target;
    }
  }

  /** Numbers of k + 1 bits, sign included, are closed under `Xor`. */
  lemma {:induction false} XorRange(a: int, b: int, k: nat)
    requires -Pow(2, k) <= a < Pow(2, k) && -Pow(2, k) <= b < Pow(2, k)
    ensures -Pow(2, k) <= Xor(a, b) < Pow(2, k)
    decreases k
  {
    if k > 0 {
      XorRange(a / 2, b / 2, k - 1);
      XorStep(a, b);
    }
  }
}
