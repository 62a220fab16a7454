/**
 * Cipher block chaining over an abstract block cipher, with the padding libencrypt.c gets from EVP.
 * Chaining is as in section 6.2 of NIST SP 800-38A, padding as in section 6.3 of RFC 5652.
 */
module Cbc {
  import opened Bytes

  /** Block size of every AES variant. */
  const BLOCK: nat := 16

  /** One keyed block cipher with its initialisation vector. */
  datatype Cipher = Cipher(enc: seq<Byte> -> seq<Byte>, dec: seq<Byte> -> seq<Byte>, iv: seq<Byte>)

  /** All that is assumed of the cipher: it maps blocks to blocks and decryption inverts encryption. */
  ghost predicate Lawful(c: Cipher) {
    && |c.iv| == BLOCK
    && (forall b: seq<Byte> {:trigger c.enc(b)} :: |b| == BLOCK ==> |c.enc(b)| == BLOCK && c.dec(c.enc(b)) == b)
    && (forall b: seq<Byte> {:trigger c.dec(b)} :: |b| == BLOCK ==> |c.dec(b)| == BLOCK)
  }

  function Xor(a: seq<Byte>, b: seq<Byte>): (x: seq<Byte>)
    requires |a| == |b|
    ensures |x| == |a|
  {
    seq(|a|, i requires 0 <= i < |a| => XorByte(a[i], b[i]))
  }

  lemma XorCancels(a: seq<Byte>, b: seq<Byte>)
    requires |a| == |b|
    ensures Xor(Xor(a, b), b) == a
  {
    forall i | 0 <= i < |a| ensures Xor(Xor(a, b), b)[i] == a[i] {
      assert XorByte(XorByte(a[i], b[i]), b[i]) == a[i];
    }
  }

  /** Whole-message CBC encryption of a whole number of blocks, chained after `chain`. */
  function Encrypt(c: Cipher, chain: seq<Byte>, p: seq<Byte>): (q: seq<Byte>)
    requires Lawful(c) && |chain| == BLOCK && |p| % BLOCK == 0
    ensures |q| == |p|
    decreases |p|
  {
    if p == [] then [] else
      var q0 := c.enc(Xor(p[..BLOCK], chain));
      q0 + Encrypt(c, q0, p[BLOCK..])
  }

  function Decrypt(c: Cipher, chain: seq<Byte>, q: seq<Byte>): (p: seq<Byte>)
    requires Lawful(c) && |chain| == BLOCK && |q| % BLOCK == 0
    ensures |p| == |q|
    decreases |q|
  {
    if q == [] then [] else
      Xor(c.dec(q[..BLOCK]), chain) + Decrypt(c, q[..BLOCK], q[BLOCK..])
  }

  /** The block that the block after q is chained to. */
  function Chain(chain: seq<Byte>, q: seq<Byte>): (b: seq<Byte>)
    requires |chain| == BLOCK && |q| % BLOCK == 0
    ensures |b| == BLOCK
  {
    if q == [] then chain else q[|q| - BLOCK..]
  }

  lemma ChainAppend(chain: seq<Byte>, a: seq<Byte>, b: seq<Byte>)
    requires |chain| == BLOCK && |a| % BLOCK == 0 && |b| % BLOCK == 0
    ensures Chain(chain, a + b) == Chain(Chain(chain, a), b)
  {
    if b == [] {
      assert a + b == a;
    } else {
      AtLeastOneBlock(|b|);
      assert (a + b)[|a + b| - BLOCK..] == b[|b| - BLOCK..];
    }
  }

  lemma AtLeastOneBlock(n: nat)
    requires n > 0 && n % BLOCK == 0
    ensures n >= BLOCK
  {
  }

  lemma {:induction false} DecryptEncrypt(c: Cipher, chain: seq<Byte>, p: seq<Byte>)
    requires Lawful(c) && |chain| == BLOCK && |p| % BLOCK == 0
    ensures Decrypt(c, chain, Encrypt(c, chain, p)) == p
    decreases |p|
  {
    if p != [] {
      var x := Xor(p[..BLOCK], chain);
      var q0 := c.enc(x);
      var q := Encrypt(c, chain, p);
      assert q[..BLOCK] == q0 && q[BLOCK..] == Encrypt(c, q0, p[BLOCK..]);
      XorCancels(p[..BLOCK], chain);
      DecryptEncrypt(c, q0, p[BLOCK..]);
      assert p == p[..BLOCK] + p[BLOCK..];
    }
  }

  /** Encrypting in two goes, the second chained after the first, is encrypting at once. */
  lemma {:induction false} EncryptAppend(c: Cipher, chain: seq<Byte>, a: seq<Byte>, b: seq<Byte>)
    requires Lawful(c) && |chain| == BLOCK && |a| % BLOCK == 0 && |b| % BLOCK == 0
    ensures Encrypt(c, chain, a + b)
         == Encrypt(c, chain, a) + Encrypt(c, Chain(chain, Encrypt(c, chain, a)), b)
    decreases |a|
  {
    if a == [] {
      assert a + b == b;
    } else {
      hide Xor, Chain;
      var q0 := c.enc(Xor(a[..BLOCK], chain));
      var rest := Encrypt(c, q0, a[BLOCK..]);
      PeelBlock(a, b);
      EncryptAppend(c, q0, a[BLOCK..], b);
      ChainAppend(chain, q0, rest);
      OneChain(chain, q0);
    }
  }

  lemma OneChain(chain: seq<Byte>, q: seq<Byte>)
    requires |chain| == |q| == BLOCK
    ensures Chain(chain, q) == q
  {
  }

  lemma PeelBlock(a: seq<Byte>, b: seq<Byte>)
    requires a != [] && |a| % BLOCK == 0
    ensures |a| >= BLOCK && (|a| - BLOCK) % BLOCK == 0
    ensures (a + b)[..BLOCK] == a[..BLOCK] && (a + b)[BLOCK..] == a[BLOCK..] + b
    ensures a == a[..BLOCK] + a[BLOCK..]
  {
  }

  /** Decrypting in two goes, the second chained after the first, is decrypting at once. */
  lemma {:induction false} DecryptAppend(c: Cipher, chain: seq<Byte>, a: seq<Byte>, b: seq<Byte>)
    requires Lawful(c) && |chain| == BLOCK && |a| % BLOCK == 0 && |b| % BLOCK == 0
    ensures Decrypt(c, chain, a + b) == Decrypt(c, chain, a) + Decrypt(c, Chain(chain, a), b)
    decreases |a|
  {
    if a == [] {
      assert a + b == b;
    } else {
      hide Xor, Chain;
      PeelBlock(a, b);
      DecryptAppend(c, a[..BLOCK], a[BLOCK..], b);
      ChainAppend(chain, a[..BLOCK], a[BLOCK..]);
      OneChain(chain, a[..BLOCK]);
    }
  }

  /** The ROUND_UP macro for m == BLOCK: one whole block more than n rounded down. */
  function RoundUp(n: nat): (r: nat)
    ensures r % BLOCK == 0 && n < r <= n + BLOCK
  {
    (n + BLOCK) / BLOCK * BLOCK
  }

  function Pad(p: seq<Byte>): (q: seq<Byte>)
    ensures |q| == RoundUp(|p|)
  {
    var n := BLOCK - |p| % BLOCK;
    p + seq(n, i => n as Byte)
  }

  /** The check and removal of padding that the final decryption call does. */
  function Unpad(q: seq<Byte>): Option<seq<Byte>> {
    if |q| == 0 || |q| % BLOCK != 0 then None else
      var n := q[|q| - 1] as nat;
      if 1 <= n <= BLOCK && forall i :: |q| - n <= i < |q| ==> q[i] == q[|q| - 1]
      then Some(q[..|q| - n]) else None
  }

  lemma UnpadPad(p: seq<Byte>)
    ensures Unpad(Pad(p)) == Some(p)
  {
    var n := BLOCK - |p| % BLOCK;
    var q := Pad(p);
    assert q[|q| - 1] == n as Byte;
    assert q[..|q| - n] == p;
  }

  /** What one lib__write call appends to the dump file. */
  function Frame(c: Cipher, p: seq<Byte>): (q: seq<Byte>)
    requires Lawful(c)
    ensures |q| == RoundUp(|p|)
  {
    Encrypt(c, c.iv, Pad(p))
  }

  datatype FrameRead = End | Corrupt | Plain(data: seq<Byte>, rest: seq<Byte>)

  /** What one lib__read call for `count` bytes makes of a file, when file reads are full. */
  function ReadFrame(c: Cipher, file: seq<Byte>, count: nat): FrameRead
    requires Lawful(c)
  {
    var n := if RoundUp(count) <= |file| then RoundUp(count) else |file|;
    if count == 0 || n == 0 then End
    else if n % BLOCK != 0 then Corrupt
    else match Unpad(Decrypt(c, c.iv, file[..n]))
      case None => Corrupt
      case Some(p) => Plain(p, file[n..])
  }

  /** A read of the written count returns the written bytes and consumes exactly the written frame. */
  lemma ReadFrameRoundTrip(c: Cipher, p: seq<Byte>, rest: seq<Byte>)
    requires Lawful(c) && p != []
    ensures ReadFrame(c, Frame(c, p) + rest, |p|) == Plain(p, rest)
  {
    var q := Frame(c, p);
    assert (q + rest)[..|q|] == q && (q + rest)[|q|..] == rest;
    DecryptEncrypt(c, c.iv, Pad(p));
    UnpadPad(p);
  }

  /** A frame cut at a block boundary is the encryption of the message so far: the padding is in the last block. */
  lemma FramePrefix(c: Cipher, p: seq<Byte>, q: nat)
    requires Lawful(c) && q < RoundUp(|p|) && q % BLOCK == 0
    ensures q <= |p| && Frame(c, p)[..q] == Encrypt(c, c.iv, p[..q])
  {
    BlockBelow(|p|, q);
    assert Pad(p) == p[..q] + Pad(p)[q..];
    EncryptAppend(c, c.iv, p[..q], Pad(p)[q..]);
  }

  lemma BlockBelow(n: nat, q: nat)
    requires q < RoundUp(n) && q % BLOCK == 0
    ensures q <= n && (RoundUp(n) - q) % BLOCK == 0
  {
  }

  /**
   * lib__read of a frame that lost its end: nothing left is the end of the file, a cut inside a block is an error,
   * and a cut between blocks is taken for the end of the message if the bytes before it happen to end in valid
   * padding.
   */
  lemma CutFrame(c: Cipher, p: seq<Byte>, q: nat)
    requires Lawful(c) && p != [] && q < RoundUp(|p|)
    ensures q % BLOCK == 0 ==> q <= |p|
    ensures ReadFrame(c, Frame(c, p)[..q], |p|)
         == if q == 0 then End
            else if q % BLOCK != 0 then Corrupt
            else match Unpad(p[..q]) case None => Corrupt case Some(x) => Plain(x, [])
  {
    if q % BLOCK == 0 {
      FramePrefix(c, p, q);
      DecryptEncrypt(c, c.iv, p[..q]);
      assert Frame(c, p)[..q][..q] == Frame(c, p)[..q] && Frame(c, p)[..q][q..] == [];
    }
  }

  /** The byte that tells how much padding a whole frame of a read of `count` bytes carries. */
  function PaddingByte(c: Cipher, file: seq<Byte>, count: nat): Byte
    requires Lawful(c) && RoundUp(count) <= |file|
  {
    Decrypt(c, c.iv, file[..RoundUp(count)])[RoundUp(count) - 1]
  }

  /**
   * How much lib__read stores: on any file less than a block more than asked for, and no more than asked for exactly
   * when the frame carries the padding that its write put there, or more.
   */
  lemma StoredWithinIff(c: Cipher, file: seq<Byte>, count: nat)
    requires Lawful(c) && ReadFrame(c, file, count).Plain?
    ensures |ReadFrame(c, file, count).data| < RoundUp(count)
    ensures RoundUp(count) > |file| ==> |ReadFrame(c, file, count).data| <= count
    ensures RoundUp(count) <= |file| ==>
              (|ReadFrame(c, file, count).data| <= count
               <==> PaddingByte(c, file, count) as nat >= BLOCK - count % BLOCK)
  {
    hide Decrypt;
    var n := if RoundUp(count) <= |file| then RoundUp(count) else |file|;
    UnpadLength(Decrypt(c, c.iv, file[..n]), count);
  }

  /** One input of that kind: a frame of 31 bytes, read with a count of 16, is stored as a whole. */
  lemma StoresMore(c: Cipher, p: seq<Byte>)
    requires Lawful(c) && |p| == 31
    ensures ReadFrame(c, Frame(c, p), 16) == Plain(p, [])
  {
    assert Frame(c, p) + [] == Frame(c, p);
    ReadFrameRoundTrip(c, p, []);
    assert RoundUp(16) == RoundUp(31) == 32;
  }

  /** Removing the padding takes off as many bytes as the last byte says. */
  lemma UnpadLength(q: seq<Byte>, count: nat)
    requires Unpad(q).Some? && |q| <= RoundUp(count)
    ensures |Unpad(q).value| == |q| - q[|q| - 1] as nat < |q|
    ensures |q| < RoundUp(count) ==> |Unpad(q).value| <= count
    ensures |q| == RoundUp(count) ==> (|Unpad(q).value| <= count <==> q[|q| - 1] as nat >= BLOCK - count % BLOCK)
  {
    RoundUpIs(count);
    if |q| < RoundUp(count) {
      BlockBelow(count, |q|);
    }
  }

  lemma RoundUpIs(n: nat)
    ensures RoundUp(n) == n - n % BLOCK + BLOCK
  {
  }

  /** The file that a sequence of lib__write calls leaves. */
  function WriteAll(c: Cipher, bufs: seq<seq<Byte>>): seq<Byte>
    requires Lawful(c)
  {
    if bufs == [] then [] else Frame(c, bufs[0]) + WriteAll(c, bufs[1..])
  }

  /** A sequence of lib__read calls with these counts: the data of each, and what is left of the file. */
  function ReadAll(c: Cipher, file: seq<Byte>, counts: seq<nat>): Option<(seq<seq<Byte>>, seq<Byte>)>
    requires Lawful(c)
  {
    if counts == [] then Some(([], file)) else
      match ReadFrame(c, file, counts[0])
      case Plain(p, rest) =>
        (match ReadAll(c, rest, counts[1..])
         case Some((ps, left)) => Some(([p] + ps, left))
         case None => None)
      case _ => None
  }

  function Lengths(bufs: seq<seq<Byte>>): (ns: seq<nat>)
    ensures |ns| == |bufs|
  {
    seq(|bufs|, i requires 0 <= i < |bufs| => |bufs[i]|)
  }

  lemma ReadAllStep(c: Cipher, file: seq<Byte>, counts: seq<nat>, p: seq<Byte>, rest: seq<Byte>,
                    ps: seq<seq<Byte>>, left: seq<Byte>)
    requires Lawful(c) && counts != [] && ReadFrame(c, file, counts[0]) == Plain(p, rest)
    requires ReadAll(c, rest, counts[1..]) == Some((ps, left))
    ensures ReadAll(c, file, counts) == Some(([p] + ps, left))
  {
  }

  /** Any sequence of positive-length writes is read back, call by call, by reads with the same counts. */
  lemma {:induction false} ReadAllWriteAll(c: Cipher, bufs: seq<seq<Byte>>, rest: seq<Byte>)
    requires Lawful(c) && forall i :: 0 <= i < |bufs| ==> bufs[i] != []
    ensures ReadAll(c, WriteAll(c, bufs) + rest, Lengths(bufs)) == Some((bufs, rest))
    decreases bufs
  {
    if bufs == [] {
      assert WriteAll(c, bufs) + rest == rest;
    } else {
      var tail := WriteAll(c, bufs[1..]) + rest;
      assert WriteAll(c, bufs) + rest == Frame(c, bufs[0]) + tail;
      ReadFrameRoundTrip(c, bufs[0], tail);
      assert Lengths(bufs)[0] == |bufs[0]| && Lengths(bufs)[1..] == Lengths(bufs[1..]);
      ReadAllWriteAll(c, bufs[1..], rest);
      ReadAllStep(c, Frame(c, bufs[0]) + tail, Lengths(bufs), bufs[0], tail, bufs[1..], rest);
      assert bufs == [bufs[0]] + bufs[1..];
    }
  }
}
