/** `Sender.getIdentificationData`: the first 125 characters of the public key in decimal. */
module Identity {
  import opened Wrappers
  import opened NumberTheory
  import opened ModPower
  import opened Bytes

  const IDENTIFICATION_LENGTH := 125

  function Decimal(n: nat): (s: string)
    ensures |s| > 0 && forall i :: 0 <= i < |s| ==> '0' <= s[i] <= '9'
  {
    var digit := ('0' as int + n % 10) as char;
    if n < 10 then [digit] else Decimal(n / 10) + [digit]
  }

  /** `BigInteger.toString()`. */
  function ToString(n: int): (s: string)
    ensures |s| > 0 && forall i :: 0 <= i < |s| ==> '-' <= s[i] <= '9'
  {
    if n >= 0 then Decimal(n) else "-" + Decimal(-n)
  }

  /** `None`: the key is too short and `substring` throws. */
  function IdentificationData(y: int): (r: Option<seq<Byte>>)
    ensures r.Some? ==> |r.value| == IDENTIFICATION_LENGTH && '-' as int <= r.value[0] < 128
  {
    var s := ToString(y);
    if |s| < IDENTIFICATION_LENGTH then None
    else Some(seq(IDENTIFICATION_LENGTH, i requires 0 <= i < |s| => s[i] as Byte))
  }

  /** The identification number is positive, so reading it signed or unsigned makes no difference. */
  lemma IdentificationPositive(y: int)
    requires IdentificationData(y).Some?
    ensures Signed(IdentificationData(y).value) == Unsigned(IdentificationData(y).value) > 0
  {
    UnsignedNonzero(IdentificationData(y).value);
  }

  // ----- what an identification says about the key -----

  lemma {:induction false} DecimalLong(n: nat, k: nat)
    requires n >= Pow(10, k)
    ensures |Decimal(n)| > k
  {
    if k > 0 {
      PowPositive(10, k - 1);
      DecimalLong(n / 10, k - 1);
    }
  }

  lemma {:induction false} DecimalShort(n: nat, k: nat)
    requires k > 0 && n < Pow(10, k)
    ensures |Decimal(n)| <= k
  {
    assert Pow(10, 1) == 10 * Pow(10, 0);
    if n >= 10 { DecimalShort(n / 10, k - 1); }
  }

  lemma {:induction false} DecimalInjective(a: nat, b: nat)
    requires Decimal(a) == Decimal(b)
    ensures a == b
  {
    var s, t := Decimal(a), Decimal(b);
    assert s[|s| - 1] == t[|t| - 1] && s[..|s| - 1] == t[..|t| - 1];
    if a >= 10 && b >= 10 {
      assert s[..|s| - 1] == Decimal(a / 10) && t[..|t| - 1] == Decimal(b / 10);
      DecimalInjective(a / 10, b / 10);
    }
  }

  /** The number that decimal digits stand for. */
  function Reading(s: string): (n: int) {
    if s == "" then 0 else 10 * Reading(s[..|s| - 1]) + (s[|s| - 1] as int - '0' as int)
  }

  lemma {:induction false} DecimalReads(n: nat)
    ensures Reading(Decimal(n)) == n
  {
    var s := Decimal(n);
    if n >= 10 {
      assert s[..|s| - 1] == Decimal(n / 10);
      DecimalReads(n / 10);
    } else {
      assert s[..0] == "" && Reading(s[..0]) == 0;
    }
  }

  /** Different numbers are written differently, negative ones too. */
  lemma ToStringInjective(a: int, b: int)
    ensures ToString(a) == ToString(b) <==> a == b
  {
    if ToString(a) == ToString(b) {
      assert (a < 0 <==> ToString(a)[0] == '-') && (b < 0 <==> ToString(b)[0] == '-');
      if a >= 0 {
        DecimalInjective(a, b);
      } else {
        assert ToString(a)[1..] == Decimal(-a) && ToString(b)[1..] == Decimal(-b);
        DecimalInjective(-a, -b);
      }
    }
  }

  lemma DivideTwice(n: nat, q: nat)
    requires q > 0
    ensures (n / 10) / q == n / (10 * q)
  {
    var h := n / 10;
    assert n == 10 * h + n % 10 && h == q * (h / q) + h % q;
    var r := 10 * (h % q) + n % 10;
    assert n == (h / q) * (10 * q) + r;
    DivModUnique(n, h / q, r, 10 * q);
  }

  /** The leading digits are those of a quotient. */
  lemma {:induction false} LeadingDigits(n: nat, k: nat)
    requires |Decimal(n)| > k
    ensures Pow(10, k) > 0 && Decimal(n)[..|Decimal(n)| - k] == Decimal(n / Pow(10, k))
  {
    PowPositive(10, k);
    if k == 0 {
      assert n / 1 == n && Pow(10, 0) == 1;
      assert Decimal(n)[..|Decimal(n)|] == Decimal(n);
    } else {
      PowPositive(10, k - 1);
      LeadingDigits(n / 10, k - 1);
      DivideTwice(n, Pow(10, k - 1));
      assert Decimal(n)[..|Decimal(n)| - 1] == Decimal(n / 10);
      assert Decimal(n)[..|Decimal(n)| - k] == Decimal(n / 10)[..|Decimal(n / 10)| - (k - 1)];
    }
  }

  lemma IdentificationPrefix(y: int, y': int)
    requires IdentificationData(y).Some? && IdentificationData(y').Some?
    ensures IdentificationData(y) == IdentificationData(y')
            <==> ToString(y)[..IDENTIFICATION_LENGTH] == ToString(y')[..IDENTIFICATION_LENGTH]
  {
    var (s, t) := (ToString(y), ToString(y'));
    var (data, data') := (IdentificationData(y).value, IdentificationData(y').value);
    if data == data' {
      forall i | 0 <= i < IDENTIFICATION_LENGTH ensures s[i] == t[i] {
        assert data[i] == data'[i];
      }
    } else if s[..IDENTIFICATION_LENGTH] == t[..IDENTIFICATION_LENGTH] {
      forall i | 0 <= i < IDENTIFICATION_LENGTH ensures data[i] == data'[i] {
        assert s[..IDENTIFICATION_LENGTH][i] == t[..IDENTIFICATION_LENGTH][i];
      }
    }
  }

  /** The number of digits behind those that count. */
  function Behind(y: nat): nat
    requires |Decimal(y)| >= IDENTIFICATION_LENGTH
  {
    |Decimal(y)| - IDENTIFICATION_LENGTH
  }

  /**
   * A key has an identification exactly when it has enough digits, and two keys have the same one exactly when the
   * numbers made of their leading digits are the same, whatever comes behind and however much of it.
   */
  lemma IdentificationExactly(y: nat, y': nat)
    ensures IdentificationData(y).Some? <==> y >= Pow(10, IDENTIFICATION_LENGTH - 1)
    ensures IdentificationData(y).Some? && IdentificationData(y').Some? ==>
              && Pow(10, Behind(y)) > 0 && Pow(10, Behind(y')) > 0
              && (IdentificationData(y) == IdentificationData(y')
                  <==> y / Pow(10, Behind(y)) == y' / Pow(10, Behind(y')))
  {
    LongExactly(y, IDENTIFICATION_LENGTH - 1);
    if IdentificationData(y).Some? && IdentificationData(y').Some? {
      IdentificationPrefix(y, y');
      LeadingDigits(y, Behind(y));
      LeadingDigits(y', Behind(y'));
      var lead, lead' := y / Pow(10, Behind(y)), y' / Pow(10, Behind(y'));
      if Decimal(lead) == Decimal(lead') { DecimalInjective(lead, lead'); }
    }
  }

  lemma LongExactly(n: nat, k: nat)
    requires k > 0
    ensures |Decimal(n)| > k <==> n >= Pow(10, k)
  {
    if n >= Pow(10, k) { DecimalLong(n, k); } else { DecimalShort(n, k); }
  }
}
