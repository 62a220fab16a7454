/** libencrypt.c: the read and write hooks that encrypt the dump file. */
module LibEncrypt {
  import opened Arithmetic
  import opened Bytes
  import opened Cbc

  const IO_SIZE: nat := 4096

  /** The bytes of n that an update has encrypted: all whole blocks. */
  function Whole(n: nat): (k: nat)
    ensures k <= n < k + BLOCK && k % BLOCK == 0
  {
    n - n % BLOCK
  }

  /** The bytes of n that a decrypting update has returned: the last whole block is held back while
      it may turn out to be the padding. */
  function HeldBack(n: nat): (k: nat)
    ensures k <= n && k % BLOCK == 0
  {
    if n == 0 then 0 else (n - 1) / BLOCK * BLOCK
  }

  /** Feeding in two goes holds back the same bytes as feeding at once. */
  lemma HeldBackSum(n: nat, m: nat)
    ensures HeldBack(n + m) == HeldBack(n) + HeldBack(n - HeldBack(n) + m)
  {
    if n > 0 {
      var a, r := (n - 1) / BLOCK, (n - 1) % BLOCK;
      assert n + m - 1 == a * BLOCK + (r + m);
      assert (n + m - 1) / BLOCK == a + (r + m) / BLOCK;
    }
  }

  /** What an encrypting update adds: the whole blocks of the held bytes and the new ones. */
  lemma EncryptStep(c: Cipher, fed: seq<Byte>, data: seq<Byte>)
    requires Lawful(c)
    ensures var done := fed[..Whole(|fed|)];
            var all := fed[Whole(|fed|)..] + data;
            var now := Encrypt(c, c.iv, done);
            var add := Encrypt(c, Chain(c.iv, now), all[..Whole(|all|)]);
            && (fed + data)[Whole(|fed + data|)..] == all[Whole(|all|)..]
            && Encrypt(c, c.iv, (fed + data)[..Whole(|fed + data|)]) == now + add
  {
    hide Encrypt, Chain;
    var done := fed[..Whole(|fed|)];
    var all := fed[Whole(|fed|)..] + data;
    assert fed + data == done + all;
    assert Whole(|fed + data|) == |done| + Whole(|all|);
    assert (done + all)[..|done| + Whole(|all|)] == done + all[..Whole(|all|)];
    EncryptAppend(c, c.iv, done, all[..Whole(|all|)]);
  }

  /** How a decrypting update splits what it has been fed. */
  lemma FedSplit(fed: seq<Byte>, data: seq<Byte>, done: seq<Byte>, all: seq<Byte>)
    requires done == fed[..HeldBack(|fed|)] && all == fed[HeldBack(|fed|)..] + data
    ensures HeldBack(|fed + data|) == |done| + HeldBack(|all|)
    ensures (fed + data)[..HeldBack(|fed + data|)] == done + all[..HeldBack(|all|)]
    ensures (fed + data)[HeldBack(|fed + data|)..] == all[HeldBack(|all|)..]
  {
    HeldBackSum(|fed|, |data|);
    assert fed + data == done + all;
  }

  /** An EVP context initialised for encryption. */
  class EncryptCtx {
    const cipher: Cipher
    var chain: seq<Byte>
    var held: seq<Byte>
    ghost var fed: seq<Byte>
    ghost var produced: seq<Byte>

    ghost predicate Valid()
      reads this
    {
      && Lawful(cipher)
      && held == fed[Whole(|fed|)..]
      && produced == Encrypt(cipher, cipher.iv, fed[..Whole(|fed|)])
      && chain == Chain(cipher.iv, produced)
    }

    constructor (c: Cipher)
      requires Lawful(c)
      ensures Valid() && cipher == c && fed == [] && produced == []
    {
      cipher, chain, held, fed, produced := c, c.iv, [], [], [];
    }

    /** EVP_EncryptUpdate. */
    method Update(data: seq<Byte>) returns (out: seq<Byte>)
      requires Valid()
      modifies this
      ensures Valid()
      ensures fed == old(fed) + data && produced == old(produced) + out
    {
      var all := held + data;
      var k := Whole(|all|);
      out := Encrypt(cipher, chain, all[..k]);
      EncryptStep(cipher, fed, data);
      ChainAppend(cipher.iv, produced, out);
      chain, held := Chain(chain, out), all[k..];
      fed, produced := fed + data, produced + out;
    }

    /** EVP_EncryptFinal_ex: the padded last block. */
    method Final() returns (out: seq<Byte>)
      requires Valid()
      ensures produced + out == Encrypt(cipher, cipher.iv, Pad(fed))
    {
      var n := BLOCK - |held| % BLOCK;
      var last := held + seq(n, i => n as Byte);
      PadSplit(fed);
      out := Encrypt(cipher, chain, last);
      EncryptAppend(cipher, cipher.iv, fed[..Whole(|fed|)], last);
    }
  }

  /** Padding a message only completes its last, partial block. */
  lemma PadSplit(p: seq<Byte>)
    ensures var held := p[Whole(|p|)..];
            var n := BLOCK - |held| % BLOCK;
            |held + seq(n, i => n as Byte)| == BLOCK
            && Pad(p) == p[..Whole(|p|)] + (held + seq(n, i => n as Byte))
  {
    var held := p[Whole(|p|)..];
    assert |held| % BLOCK == |p| % BLOCK;
    assert p == p[..Whole(|p|)] + held;
  }

  /** An EVP context initialised for decryption. */
  class DecryptCtx {
    const cipher: Cipher
    var chain: seq<Byte>
    var held: seq<Byte>
    ghost var fed: seq<Byte>
    ghost var produced: seq<Byte>

    ghost predicate Valid()
      reads this
    {
      && Lawful(cipher)
      && held == fed[HeldBack(|fed|)..]
      && produced == Decrypt(cipher, cipher.iv, fed[..HeldBack(|fed|)])
      && chain == Chain(cipher.iv, fed[..HeldBack(|fed|)])
    }

    constructor (c: Cipher)
      requires Lawful(c)
      ensures Valid() && cipher == c && fed == [] && produced == []
    {
      cipher, chain, held, fed, produced := c, c.iv, [], [], [];
    }

    /** EVP_DecryptUpdate. */
    method Update(data: seq<Byte>) returns (out: seq<Byte>)
      requires Valid()
      modifies this
      ensures Valid()
      ensures fed == old(fed) + data && produced == old(produced) + out
    {
      var all := held + data;
      var k := HeldBack(|all|);
      out := Decrypt(cipher, chain, all[..k]);
      FedSplit(fed, data, fed[..HeldBack(|fed|)], all);
      DecryptAppend(cipher, cipher.iv, fed[..HeldBack(|fed|)], all[..k]);
      ChainAppend(cipher.iv, fed[..HeldBack(|fed|)], all[..k]);
      chain, held := Chain(chain, all[..k]), all[k..];
      fed, produced := fed + data, produced + out;
    }

    /** EVP_DecryptFinal_ex: fails unless whole blocks were fed and the last one ends in padding. */
    method Final() returns (out: Option<seq<Byte>>)
      requires Valid()
      ensures |fed| % BLOCK != 0 ==> out == None
      ensures |fed| % BLOCK == 0 ==>
                match Unpad(Decrypt(cipher, cipher.iv, fed))
                case None => out == None
                case Some(p) => out.Some? && produced + out.value == p
    {
      if |held| != BLOCK {
        return None;
      }
      var last := Decrypt(cipher, chain, held);
      out := Unpad(last);
      assert fed == fed[..HeldBack(|fed|)] + held;
      DecryptAppend(cipher, cipher.iv, fed[..HeldBack(|fed|)], held);
      UnpadLastBlock(produced, last);
    }
  }

  /** Padding is at most one block, so only the last block decides it. */
  lemma UnpadLastBlock(a: seq<Byte>, b: seq<Byte>)
    requires |a| % BLOCK == 0 && |b| == BLOCK
    ensures match Unpad(b)
            case None => Unpad(a + b) == None
            case Some(p) => Unpad(a + b) == Some(a + p)
  {
    var q := a + b;
    var n := b[BLOCK - 1] as nat;
    assert q[|q| - 1] == b[BLOCK - 1];
    if 1 <= n <= BLOCK {
      if forall i :: BLOCK - n <= i < BLOCK ==> b[i] == b[BLOCK - 1] {
        forall i | |q| - n <= i < |q| ensures q[i] == q[|q| - 1] {
          assert q[i] == b[i - |a|];
        }
        assert q[..|q| - n] == a + b[..BLOCK - n];
      } else {
        var i :| BLOCK - n <= i < BLOCK && b[i] != b[BLOCK - 1];
        assert q[|a| + i] == b[i];
      }
    }
  }

  /** The size lib__write picks for the piece at p reaches the next piece or the end. */
  lemma PieceSize(p: nat, count: nat)
    requires p % IO_SIZE == 0 && p < count
    ensures p + (if p > count - IO_SIZE then count % IO_SIZE else IO_SIZE)
         == Min(p + IO_SIZE, count)
  {
  }

  /** lib__write: encrypts buf in pieces of IO_SIZE and appends the pieces to the file. */
  method LibWrite(c: Cipher, buf: seq<Byte>) returns (ret: int, out: seq<Byte>)
    requires Lawful(c)
    ensures ret == |buf|
    ensures out == Frame(c, buf)
  {
    hide Encrypt, Chain, Whole;
    var ctx := new EncryptCtx(c);
    out := [];
    var p := 0;
    while p < |buf|
      invariant 0 <= p && p % IO_SIZE == 0
      invariant p < |buf| + IO_SIZE
      invariant ctx.Valid() && ctx.cipher == c
      invariant ctx.fed == buf[..Min(p, |buf|)]
      invariant out == ctx.produced
    {
      var size := if p > |buf| - IO_SIZE then |buf| % IO_SIZE else IO_SIZE;
      PieceSize(p, |buf|);
      assert buf[..p] + buf[p..p + size] == buf[..p + size];
      var enc := ctx.Update(buf[p..p + size]);
      out := out + enc;
      p := p + IO_SIZE;
    }
    assert ctx.fed == buf;
    var last := ctx.Final();
    out := out + last;
    ret := |buf|;
  }

  /** When the read loop stops, it has read the whole frame or the whole file. */
  lemma ReadLoopExhausts(count: nat, n: nat, size: nat)
    requires count > 0 && n <= RoundUp(count) && n <= size
    requires n % BLOCK == 0 || n == size
    requires HeldBack(n) >= count || n == RoundUp(count) || n == size
    ensures n == if RoundUp(count) <= size then RoundUp(count) else size
  {
    if n < size && HeldBack(n) >= count {
      assert n == n / BLOCK * BLOCK;
      assert HeldBack(n) == n - BLOCK;
      assert n >= count + BLOCK;
    }
  }

  /** A read stops at a block boundary or at the end of the file. */
  lemma PieceBoundary(n: nat, todo: nat, size: nat, got: nat)
    requires n <= todo && n <= size && todo % BLOCK == 0 && (n % BLOCK == 0 || n == size)
    requires got == Min(Min(todo - n, IO_SIZE), size - n)
    ensures (n + got) % BLOCK == 0 || n + got == size
    ensures got == 0 ==> n == todo || n == size
  {
  }

  /** The number of bytes a read of `count` takes from a file of the given size. */
  function FrameBytes(count: nat, size: nat): (n: nat) {
    if count == 0 then 0 else if RoundUp(count) <= size then RoundUp(count) else size
  }

  /** The loop of lib__read; it ends although an update may return no byte at all. */
  method ReadLoop(ctx: DecryptCtx, file: seq<Byte>, count: nat)
    returns (bytesRead: nat, stored: seq<Byte>, rest: seq<Byte>)
    requires ctx.Valid() && ctx.fed == [] && ctx.produced == []
    modifies ctx
    ensures bytesRead == FrameBytes(count, |file|)
    ensures ctx.Valid() && ctx.fed == file[..bytesRead] && ctx.produced == stored
    ensures rest == file[bytesRead..] && |stored| <= count
  {
    var todo := RoundUp(count);
    bytesRead, stored := 0, [];
    while |stored| < count
      invariant bytesRead <= todo && bytesRead <= |file|
      invariant count == 0 ==> bytesRead == 0
      invariant ctx.Valid() && ctx.produced == stored && |stored| == HeldBack(bytesRead)
      invariant ctx.fed == file[..bytesRead]
      invariant bytesRead % BLOCK == 0 || bytesRead == |file|
      decreases todo - bytesRead
    {
      var got := Min(Min(todo - bytesRead, IO_SIZE), |file| - bytesRead);
      PieceBoundary(bytesRead, todo, |file|, got);
      if got == 0 {
        break;
      }
      var data := file[bytesRead..bytesRead + got];
      assert file[..bytesRead + got] == file[..bytesRead] + data;
      var dec := ctx.Update(data);
      bytesRead, stored := bytesRead + got, stored + dec;
    }
    rest := file[bytesRead..];
    if count > 0 {
      ReadLoopExhausts(count, bytesRead, |file|);
    }
    HeldBackBound(count, bytesRead);
  }

  /** While the last block is held back, no more than was asked for has been stored. */
  lemma HeldBackBound(count: nat, n: nat)
    requires n <= RoundUp(count)
    ensures HeldBack(n) <= count
  {
    if n > 0 {
      BlockBelow(count, HeldBack(n));
    }
  }

  /** lib__read on a file whose reads are full: `stored` is all that is copied to the caller's buffer. */
  method LibRead(c: Cipher, file: seq<Byte>, count: nat)
    returns (ret: int, stored: seq<Byte>, rest: seq<Byte>)
    requires Lawful(c)
    ensures match ReadFrame(c, file, count)
            case End => ret == 0 && stored == [] && rest == file
            case Corrupt => ret == -1
            case Plain(p, r) => ret == count && stored == p && rest == r
    ensures ret == count ==> |stored| < RoundUp(count)
    ensures ret == -1 ==> |stored| <= count
  {
    var ctx := new DecryptCtx(c);
    var bytesRead: nat;
    bytesRead, stored, rest := ReadLoop(ctx, file, count);
    if bytesRead == 0 {
      assert stored == [];
      return 0, [], file;
    }
    var last := ctx.Final();
    if last == None {
      return -1, stored, rest;
    }
    stored := stored + last.value;
    ret := count;
    StoredWithinIff(c, file, count);
  }
}
