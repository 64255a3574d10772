/** Cipher block chaining with a trailing pad count (`SerpentEncrypter`), section 6.2 of NIST SP 800-38A. */
module SerpentCbc {
  import opened Wrappers
  import opened ModPower
  import opened SignedXor

  /** A Java byte. */
  type SignedByte = b: int | -128 <= b < 128

  const BLOCK_SIZE := 16

  type Block = s: seq<SignedByte> | |s| == BLOCK_SIZE witness seq(BLOCK_SIZE, i => 0)

  /** The block function under a fixed key; Serpent itself is not part of this model. */
  datatype Cipher = Cipher(enc: Block -> Block, dec: Block -> Block)

  ghost predicate Inverts(c: Cipher) {
    forall b: Block :: c.dec(c.enc(b)) == b
  }

  function XorByte(a: SignedByte, b: SignedByte): SignedByte {
    assert Pow(2, 0) == 1 && Pow(2, 1) == 2 && Pow(2, 2) == 4 && Pow(2, 3) == 8 && Pow(2, 4) == 16;
    assert Pow(2, 5) == 32 && Pow(2, 6) == 64 && Pow(2, 7) == 128;
    XorRange(a, b, 7);
    Xor(a, b)
  }

  /** The two's complement bit i of a byte; the bits from 7 on are its sign. */
  lemma XorByteBit(a: SignedByte, b: SignedByte, i: nat)
    ensures Bit(XorByte(a, b), i) == (Bit(a, i) + Bit(b, i)) % 2
  {
    XorBit(a, b, i);
  }

  function XorBlock(a: Block, b: Block): Block {
    seq(BLOCK_SIZE, i requires 0 <= i < BLOCK_SIZE => XorByte(a[i], b[i]))
  }

  lemma XorBlockUndo(a: Block, b: Block)
    ensures XorBlock(XorBlock(a, b), a) == b
  {
    forall i | 0 <= i < BLOCK_SIZE ensures XorBlock(XorBlock(a, b), a)[i] == b[i] {
      XorCommutes(a[i], b[i]);
      XorUndo(b[i], a[i]);
    }
  }

  /** The n-th block, filled up with zeros. */
  function BlockAt(n: nat, s: seq<SignedByte>): Block {
    seq(BLOCK_SIZE, k requires 0 <= k < BLOCK_SIZE => if n * BLOCK_SIZE + k < |s| then s[n * BLOCK_SIZE + k] else 0)
  }

  function BlockCount(length: nat): nat {
    (length + BLOCK_SIZE - 1) / BLOCK_SIZE
  }

  /** The chain of cipher blocks: the initialisation vector, then one block for each block of the plaintext. */
  function Chain(c: Cipher, iv: Block, plain: seq<SignedByte>, n: nat): (blocks: seq<Block>)
    ensures |blocks| == n + 1 && blocks[0] == iv
    ensures forall i :: 0 <= i < n ==> blocks[i + 1] == c.enc(XorBlock(blocks[i], BlockAt(i, plain)))
  {
    if n == 0 then [iv]
    else
      var before := Chain(c, iv, plain, n - 1);
      before + [c.enc(XorBlock(before[n - 1], BlockAt(n - 1, plain)))]
  }

  function Flatten(blocks: seq<Block>): (s: seq<SignedByte>)
    ensures |s| == BLOCK_SIZE * |blocks|
    ensures forall i, k :: 0 <= i < |blocks| && 0 <= k < BLOCK_SIZE ==> s[BLOCK_SIZE * i + k] == blocks[i][k]
  {
    if blocks == [] then []
    else
      var n := |blocks| - 1;
      var head := Flatten(blocks[..n]);
      head + blocks[n]
  }

  function PadCount(length: nat): (n: SignedByte)
    ensures 0 <= n < BLOCK_SIZE && length + n == BLOCK_SIZE * BlockCount(length)
  {
    BLOCK_SIZE * BlockCount(length) - length
  }

  /** `encrypt`. */
  function Encrypt(c: Cipher, iv: Block, plain: seq<SignedByte>): seq<SignedByte> {
    Flatten(Chain(c, iv, plain, BlockCount(|plain|))) + [PadCount(|plain|)]
  }

  /** The decrypted blocks 1..n of a ciphertext, concatenated. */
  function Opened(c: Cipher, cypher: seq<SignedByte>, n: nat): (s: seq<SignedByte>)
    ensures |s| == BLOCK_SIZE * n
  {
    if n == 0 then []
    else Opened(c, cypher, n - 1) + XorBlock(c.dec(BlockAt(n, cypher)), BlockAt(n - 1, cypher))
  }

  /** `decrypt`: as many bytes as the trailing count leaves, zeros beyond the last block; throws on bad sizes. */
  function Decrypt(c: Cipher, cypher: seq<SignedByte>): Option<seq<SignedByte>> {
    if cypher == [] then None
    else
      var size := |cypher| - cypher[|cypher| - 1] - BLOCK_SIZE - 1;
      if size < 0 then None
      else
        Some(Fit(Opened(c, cypher, DataBlocks(|cypher|)), size))
  }

  /** The first `size` bytes, with zeros behind when there are fewer. */
  function Fit(s: seq<SignedByte>, size: nat): (r: seq<SignedByte>)
    ensures |r| == size
    ensures forall i :: 0 <= i < size ==> r[i] == if i < |s| then s[i] else 0
  {
    seq(size, i => if 0 <= i < |s| then s[i] else 0)
  }

  /** How many i >= 1 satisfy i * 16 < length - 1. */
  function DataBlocks(length: nat): nat {
    if length <= BLOCK_SIZE + 1 then 0 else (length - 2) / BLOCK_SIZE
  }

  // ----- the format -----

  /**
   * Byte k of cipher block n + 1 is that byte of the block function, applied to the plain block n in which every bit
   * was added to the cipher block before; the blocks follow each other, and the last byte counts the padding.
   */
  lemma EncryptedFormat(c: Cipher, iv: Block, plain: seq<SignedByte>, n: nat, input: Block)
    requires n < BlockCount(|plain|)
    requires forall k, i: nat :: 0 <= k < BLOCK_SIZE ==>
               Bit(input[k], i) == (Bit(BlockAt(n, Encrypt(c, iv, plain))[k], i) + Bit(BlockAt(n, plain)[k], i)) % 2
    ensures BlockAt(0, Encrypt(c, iv, plain)) == iv
    ensures BlockAt(n + 1, Encrypt(c, iv, plain)) == c.enc(input)
    ensures var cypher := Encrypt(c, iv, plain);
            && |cypher| == BLOCK_SIZE * (BlockCount(|plain|) + 1) + 1
            && cypher[|cypher| - 1] == BLOCK_SIZE * BlockCount(|plain|) - |plain|
  {
    ChainBlock(c, iv, plain, 0);
    ChainBlock(c, iv, plain, n);
    ChainBlock(c, iv, plain, n + 1);
    var before, current := BlockAt(n, Encrypt(c, iv, plain)), BlockAt(n, plain);
    forall k | 0 <= k < BLOCK_SIZE ensures input[k] == XorBlock(before, current)[k] {
      forall i: nat ensures Bit(input[k], i) == Bit(XorByte(before[k], current[k]), i) {
        XorByteBit(before[k], current[k], i);
      }
      BitsDetermine(input[k], XorByte(before[k], current[k]));
    }
    assert input == XorBlock(before, current);
  }

  // ----- the round trip -----

  lemma ChainBlock(c: Cipher, iv: Block, plain: seq<SignedByte>, i: nat)
    requires i <= BlockCount(|plain|)
    ensures BlockAt(i, Encrypt(c, iv, plain)) == Chain(c, iv, plain, BlockCount(|plain|))[i]
  {
    var blocks := Chain(c, iv, plain, BlockCount(|plain|));
    forall k | 0 <= k < BLOCK_SIZE ensures BlockAt(i, Encrypt(c, iv, plain))[k] == blocks[i][k] {
      assert Flatten(blocks)[BLOCK_SIZE * i + k] == blocks[i][k];
    }
  }

  /** Opening the first n blocks gives the plaintext back, with zeros behind its end. */
  lemma {:induction false} OpenedPlain(c: Cipher, iv: Block, plain: seq<SignedByte>, n: nat)
    requires Inverts(c) && n <= BlockCount(|plain|)
    ensures var s := Opened(c, Encrypt(c, iv, plain), n);
            forall i :: 0 <= i < BLOCK_SIZE * n ==> s[i] == if i < |plain| then plain[i] else 0
  {
    if n > 0 {
      OpenedPlain(c, iv, plain, n - 1);
      var cypher := Encrypt(c, iv, plain);
      var blocks := Chain(c, iv, plain, BlockCount(|plain|));
      ChainBlock(c, iv, plain, n - 1);
      ChainBlock(c, iv, plain, n);
      XorBlockUndo(blocks[n - 1], BlockAt(n - 1, plain));
      assert blocks[n - 1 + 1] == c.enc(XorBlock(blocks[n - 1], BlockAt(n - 1, plain)));
      assert XorBlock(c.dec(BlockAt(n, cypher)), BlockAt(n - 1, cypher)) == BlockAt(n - 1, plain);
    }
  }

  /** Decryption inverts encryption for every plaintext, the empty one included, and every initialisation vector. */
  lemma RoundTrip(c: Cipher, iv: Block, plain: seq<SignedByte>)
    requires Inverts(c)
    ensures Decrypt(c, Encrypt(c, iv, plain)) == Some(plain)
  {
    var n := BlockCount(|plain|);
    var cypher := Encrypt(c, iv, plain);
    assert |cypher| == BLOCK_SIZE * (n + 1) + 1;
    assert DataBlocks(|cypher|) == n;
    OpenedPlain(c, iv, plain, n);
    assert Fit(Opened(c, cypher, n), |plain|) == plain;
  }

  lemma {:induction false} OpenedAt(c: Cipher, cypher: seq<SignedByte>, n: nat, i: nat)
    requires i < BLOCK_SIZE * n
    ensures var b, k := i / BLOCK_SIZE + 1, i % BLOCK_SIZE;
            Opened(c, cypher, n)[i] == XorByte(c.dec(BlockAt(b, cypher))[k], BlockAt(b - 1, cypher)[k])
  {
    if i < BLOCK_SIZE * (n - 1) { OpenedAt(c, cypher, n - 1, i); }
  }

  /**
   * Any bytes at all, whoever made them: decryption returns exactly when the trailing count leaves a size that is not
   * negative. Then every byte from a block that begins before the count is opened with the block before, and any
   * bytes beyond are zero.
   */
  lemma DecryptedExactly(c: Cipher, cypher: seq<SignedByte>, i: nat)
    ensures var plain := Decrypt(c, cypher);
            && (plain.Some? <==> cypher != [] && |cypher| >= BLOCK_SIZE + 1 + cypher[|cypher| - 1])
            && (plain.Some? ==> |plain.value| == |cypher| - BLOCK_SIZE - 1 - cypher[|cypher| - 1])
            && (plain.Some? && i < |plain.value| ==>
                  var b, k := i / BLOCK_SIZE + 1, i % BLOCK_SIZE;
                  plain.value[i] == if BLOCK_SIZE * b < |cypher| - 1
                                    then XorByte(c.dec(BlockAt(b, cypher))[k], BlockAt(b - 1, cypher)[k]) else 0)
  {
    var n := DataBlocks(|cypher|);
    if i < BLOCK_SIZE * n { OpenedAt(c, cypher, n, i); }
    GuardIsData(i / BLOCK_SIZE + 1, |cypher|);
  }

  // ----- the loops -----

  lemma GuardIsCount(i: nat, length: nat)
    ensures i * BLOCK_SIZE < length <==> i < BlockCount(length)
  {
  }

  lemma FlattenNext(blocks: seq<Block>, b: nat)
    requires b < |blocks|
    ensures Flatten(blocks[..b + 1]) == Flatten(blocks[..b]) + blocks[b]
  {
    assert blocks[..b + 1][..b] == blocks[..b];
  }

  lemma GuardIsData(i: nat, length: nat)
    requires i > 0
    ensures i * BLOCK_SIZE < length - 1 <==> i < DataBlocks(length) + 1
  {
  }

  class SerpentEncrypter {
    const cipher: Cipher

    constructor (cipher: Cipher)
      ensures this.cipher == cipher
    {
      this.cipher := cipher;
    }

    method GetBlock(n: nat, blocks: array<SignedByte>) returns (res: array<SignedByte>)
      ensures fresh(res) && res[..] == BlockAt(n, blocks[..])
    {
      res := new SignedByte[BLOCK_SIZE](i => 0);
      var i, k := n * BLOCK_SIZE, 0;
      var j := n * BLOCK_SIZE + BLOCK_SIZE;
      while i < j
        invariant i == n * BLOCK_SIZE + k && 0 <= k <= BLOCK_SIZE
        invariant res[..k] == BlockAt(n, blocks[..])[..k]
      {
        res[k] := if i >= blocks.Length then 0 else blocks[i];
        i, k := i + 1, k + 1;
      }
    }

    method EncryptBlock(previous: Block, current: array<SignedByte>) returns (block: Block)
      requires current.Length == BLOCK_SIZE
      ensures block == cipher.enc(XorBlock(previous, current[..]))
    {
      var res := new SignedByte[BLOCK_SIZE](i => 0);
      for i := 0 to BLOCK_SIZE
        invariant res[..i] == XorBlock(previous, current[..])[..i]
      {
        res[i] := XorByte(previous[i], current[i]);
      }
      assert res[..] == XorBlock(previous, current[..]);
      block := cipher.enc(res[..]);
    }

    method DecryptBlock(previous: array<SignedByte>, current: array<SignedByte>) returns (res: array<SignedByte>)
      requires previous.Length == BLOCK_SIZE && current.Length == BLOCK_SIZE
      ensures fresh(res) && res[..] == XorBlock(cipher.dec(current[..]), previous[..])
    {
      var plainText: Block := cipher.dec(current[..]);
      res := new SignedByte[BLOCK_SIZE](i requires 0 <= i < BLOCK_SIZE => plainText[i]);
      for i := 0 to BLOCK_SIZE
        invariant res[..i] == XorBlock(plainText, previous[..])[..i]
        invariant res[i..] == plainText[i..]
      {
        assert res[i] == res[i..][0] == plainText[i];
        res[i] := XorByte(res[i], previous[i]);
        assert res[i + 1..] == plainText[i..][1..];
      }
    }

    method NextBlock(previous: Block, i: nat, plainText: array<SignedByte>) returns (block: Block)
      ensures block == cipher.enc(XorBlock(previous, BlockAt(i, plainText[..])))
    {
      var current := GetBlock(i, plainText);
      block := EncryptBlock(previous, current);
    }

    /** The growing list of cipher blocks. */
    method MakeChain(plainText: array<SignedByte>, iv: Block) returns (blocks: seq<Block>)
      ensures blocks == Chain(cipher, iv, plainText[..], BlockCount(plainText.Length))
    {
      blocks := [iv];
      var i := 0;
      while i * BLOCK_SIZE < plainText.Length
        invariant 0 <= i <= BlockCount(plainText.Length)
        invariant blocks == Chain(cipher, iv, plainText[..], i)
        decreases plainText.Length - i * BLOCK_SIZE
      {
        GuardIsCount(i, plainText.Length);
        var block := NextBlock(blocks[|blocks| - 1], i, plainText);
        blocks := blocks + [block];
        i := i + 1;
      }
      GuardIsCount(i, plainText.Length);
    }

    method EncryptBytes(plainText: array<SignedByte>, iv: Block) returns (res: array<SignedByte>)
      ensures fresh(res) && res[..] == Encrypt(cipher, iv, plainText[..])
    {
      var blocks := MakeChain(plainText, iv);
      var added := (|blocks| - 1) * BLOCK_SIZE - plainText.Length;
      assert added == PadCount(plainText.Length);
      res := JoinBlocks(blocks, added);
    }

    /** One array for all blocks and the trailing count. */
    method JoinBlocks(blocks: seq<Block>, added: SignedByte) returns (res: array<SignedByte>)
      ensures fresh(res) && res[..] == Flatten(blocks) + [added]
    {
      res := new SignedByte[|blocks| * BLOCK_SIZE + 1](i => 0);
      res[res.Length - 1] := added;
      var k := 0;
      for b := 0 to |blocks|
        invariant k == BLOCK_SIZE * b && res[..k] == Flatten(blocks[..b])
        invariant res[res.Length - 1] == added
      {
        k := PutBlock(blocks[b], res, k);
        FlattenNext(blocks, b);
      }
      assert blocks[..|blocks|] == blocks;
    }

    method PutBlock(b: Block, res: array<SignedByte>, start: nat) returns (k: nat)
      requires start + BLOCK_SIZE < res.Length
      modifies res
      ensures k == start + BLOCK_SIZE
      ensures res[..k] == old(res[..start]) + b && res[k..] == old(res[k..])
    {
      k := start;
      for i := 0 to BLOCK_SIZE
        invariant k == start + i && res[..k] == old(res[..start]) + b[..i]
        invariant res[start + BLOCK_SIZE..] == old(res[start + BLOCK_SIZE..])
      {
        res[k] := b[i];
        k := k + 1;
      }
    }

    method DecryptBytes(cypher: array<SignedByte>) returns (plain: Option<array<SignedByte>>)
      ensures var result := Decrypt(cipher, cypher[..]);
              if result.Some? then plain.Some? && plain.value[..] == result.value else plain.None?
      ensures cypher[..] == old(cypher[..])
    {
      if cypher.Length == 0 { return None; }
      var added := cypher[cypher.Length - 1];
      if cypher.Length - added - BLOCK_SIZE - 1 < 0 { return None; }
      var res := new SignedByte[cypher.Length - added - BLOCK_SIZE - 1](i => 0);
      var k, i := 0, 1;
      while i * BLOCK_SIZE < cypher.Length - 1
        invariant 1 <= i <= DataBlocks(cypher.Length) + 1
        invariant k == Least(BLOCK_SIZE * (i - 1), res.Length)
        invariant res[..] == Fit(Opened(cipher, cypher[..], i - 1), res.Length)
        decreases cypher.Length - i * BLOCK_SIZE
      {
        GuardIsData(i, cypher.Length);
        var plainText := OpenBlock(i, cypher);
        k := CopyBlock(plainText[..], res, k, Opened(cipher, cypher[..], i - 1));
        i := i + 1;
      }
      GuardIsData(i, cypher.Length);
      return Some(res);
    }

    method OpenBlock(i: nat, cypher: array<SignedByte>) returns (plainText: array<SignedByte>)
      requires i > 0
      ensures fresh(plainText)
      ensures plainText[..] == XorBlock(cipher.dec(BlockAt(i, cypher[..])), BlockAt(i - 1, cypher[..]))
    {
      var previous := GetBlock(i - 1, cypher);
      var current := GetBlock(i, cypher);
      plainText := DecryptBlock(previous, current);
    }

    /** Appends one block to the plaintext, up to the end of the array. */
    method CopyBlock(plainText: Block, res: array<SignedByte>, start: nat, ghost before: seq<SignedByte>)
      returns (k: nat)
      requires start == Least(|before|, res.Length) && res[..] == Fit(before, res.Length)
      modifies res
      ensures k == Least(|before| + BLOCK_SIZE, res.Length)
      ensures res[..] == Fit(before + plainText, res.Length)
    {
      k := start;
      var j := 0;
      while j < |plainText| && k < res.Length
        invariant 0 <= j <= BLOCK_SIZE && k == Least(|before| + j, res.Length)
        invariant res[..] == Fit(before + plainText[..j], res.Length)
        decreases BLOCK_SIZE - j
      {
        res[k] := plainText[j];
        j, k := j + 1, k + 1;
      }
      if j < BLOCK_SIZE {
        assert Fit(before + plainText[..j], res.Length) == Fit(before + plainText, res.Length);
      } else {
        assert plainText[..j] == plainText;
      }
    }
  }

  function Least(a: int, b: int): int {
    if a <= b then a else b
  }
}
