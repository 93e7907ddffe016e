/** CBC chaining over a keyed block permutation (section 6.2 of NIST SP 800-38A): the copying and the
    in-place forms, and the laws of the mode. */
module AesCbc {
  import opened Wrappers

  const BLOCK_SIZE: nat := 16

  type Block = b: seq<Byte> | |b| == BLOCK_SIZE witness seq(16, _ => 0)

  /** An expanded key schedule: the block function of one key and its inverse. */
  datatype KeySchedule = KeySchedule(encrypt: Block -> Block, decrypt: Block -> Block)

  ghost predicate Permutation(key: KeySchedule) {
    && (forall b: Block :: key.decrypt(key.encrypt(b)) == b)
    && (forall b: Block :: key.encrypt(key.decrypt(b)) == b)
  }

  datatype Result<+T> = Ok(value: T) | Unaligned(length: nat)

  function Xor(a: Block, b: Block): Block {
    seq(BLOCK_SIZE, i requires 0 <= i < BLOCK_SIZE => a[i] ^ b[i])
  }

  predicate Aligned(data: seq<Byte>) {
    |data| % BLOCK_SIZE == 0
  }

  /** The blocks of aligned data. */
  function BlockAt(data: seq<Byte>, i: nat): Block
    requires BLOCK_SIZE * (i + 1) <= |data|
  {
    data[BLOCK_SIZE * i..BLOCK_SIZE * (i + 1)]
  }

  // ----- specification -----

  function Encrypted(key: KeySchedule, iv: Block, data: seq<Byte>): (r: seq<Byte>)
    requires Aligned(data)
    ensures |r| == |data|
    decreases |data|
  {
    if data == [] then []
    else
      var c := key.encrypt(Xor(data[..BLOCK_SIZE], iv));
      c + Encrypted(key, c, data[BLOCK_SIZE..])
  }

  function Decrypted(key: KeySchedule, iv: Block, data: seq<Byte>): (r: seq<Byte>)
    requires Aligned(data)
    ensures |r| == |data|
    decreases |data|
  {
    if data == [] then []
    else
      Xor(key.decrypt(data[..BLOCK_SIZE]), iv) + Decrypted(key, data[..BLOCK_SIZE], data[BLOCK_SIZE..])
  }

  // ----- laws -----

  lemma XorCancels(a: Block, b: Block)
    ensures Xor(Xor(a, b), b) == a
  {
    forall i | 0 <= i < BLOCK_SIZE
      ensures (a[i] ^ b[i]) ^ b[i] == a[i]
    {
    }
  }

  lemma {:induction false} DecryptUndoesEncrypt(key: KeySchedule, iv: Block, data: seq<Byte>)
    requires Permutation(key) && Aligned(data)
    ensures Decrypted(key, iv, Encrypted(key, iv, data)) == data
    decreases |data|
  {
    if data != [] {
      var p: Block := data[..BLOCK_SIZE];
      var c := key.encrypt(Xor(p, iv));
      var rest := Encrypted(key, c, data[BLOCK_SIZE..]);
      var out := Encrypted(key, iv, data);
      assert out[..BLOCK_SIZE] == c && out[BLOCK_SIZE..] == rest;
      XorCancels(p, iv);
      DecryptUndoesEncrypt(key, c, data[BLOCK_SIZE..]);
      assert data == p + data[BLOCK_SIZE..];
    }
  }

  lemma {:induction false} EncryptUndoesDecrypt(key: KeySchedule, iv: Block, data: seq<Byte>)
    requires Permutation(key) && Aligned(data)
    ensures Encrypted(key, iv, Decrypted(key, iv, data)) == data
    decreases |data|
  {
    if data != [] {
      var c: Block := data[..BLOCK_SIZE];
      var p := Xor(key.decrypt(c), iv);
      var rest := Decrypted(key, c, data[BLOCK_SIZE..]);
      var out := Decrypted(key, iv, data);
      assert out[..BLOCK_SIZE] == p && out[BLOCK_SIZE..] == rest;
      XorCancels(key.decrypt(c), iv);
      EncryptUndoesDecrypt(key, c, data[BLOCK_SIZE..]);
      assert data == c + data[BLOCK_SIZE..];
    }
  }

  /** The block chaining continues from: the last ciphertext block, or the IV before the first. */
  function LastBlock(iv: Block, data: seq<Byte>): Block
    requires Aligned(data)
  {
    if data == [] then iv else data[|data| - BLOCK_SIZE..]
  }

  /** Encrypting in two pieces, the second chained on the first, is encrypting at once. */
  lemma {:induction false} EncryptConcat(key: KeySchedule, iv: Block, a: seq<Byte>, b: seq<Byte>)
    requires Aligned(a) && Aligned(b)
    ensures Aligned(a + b)
    ensures Encrypted(key, iv, a + b)
         == Encrypted(key, iv, a) + Encrypted(key, LastBlock(iv, Encrypted(key, iv, a)), b)
    decreases |a|
  {
    if a == [] {
      assert a + b == b;
    } else {
      var c := key.encrypt(Xor(a[..BLOCK_SIZE], iv));
      var more := Encrypted(key, c, a[BLOCK_SIZE..]);
      assert (a + b)[..BLOCK_SIZE] == a[..BLOCK_SIZE] && (a + b)[BLOCK_SIZE..] == a[BLOCK_SIZE..] + b;
      EncryptConcat(key, c, a[BLOCK_SIZE..], b);
      assert LastBlock(iv, c + more) == LastBlock(c, more);
      assert c + (more + Encrypted(key, LastBlock(c, more), b)) == (c + more) + Encrypted(key, LastBlock(c, more), b);
    }
  }

  lemma TailBlock(data: seq<Byte>, i: nat)
    requires i > 0 && BLOCK_SIZE * (i + 1) <= |data|
    ensures BlockAt(data[BLOCK_SIZE..], i - 1) == BlockAt(data, i)
  {
  }

  /** The chaining equation of encryption: C[i] = E(P[i] xor C[i-1]), with C[-1] the IV. */
  lemma {:induction false} EncryptChains(key: KeySchedule, iv: Block, data: seq<Byte>, i: nat)
    requires Aligned(data) && BLOCK_SIZE * (i + 1) <= |data|
    ensures
      var out := Encrypted(key, iv, data);
      BlockAt(out, i) == key.encrypt(Xor(BlockAt(data, i), if i == 0 then iv else BlockAt(out, i - 1)))
    decreases i
  {
    var c := key.encrypt(Xor(data[..BLOCK_SIZE], iv));
    var rest := Encrypted(key, c, data[BLOCK_SIZE..]);
    var out := Encrypted(key, iv, data);
    assert BlockAt(out, 0) == c;
    assert out[BLOCK_SIZE..] == rest;
    if i > 0 {
      EncryptChains(key, c, data[BLOCK_SIZE..], i - 1);
      TailBlock(data, i);
      TailBlock(out, i);
      if i > 1 {
        TailBlock(out, i - 1);
      }
    }
  }

  /** The chaining equation of decryption: P[i] = D(C[i]) xor C[i-1]. */
  lemma {:induction false} DecryptChains(key: KeySchedule, iv: Block, data: seq<Byte>, i: nat)
    requires Aligned(data) && BLOCK_SIZE * (i + 1) <= |data|
    ensures BlockAt(Decrypted(key, iv, data), i)
         == Xor(key.decrypt(BlockAt(data, i)), if i == 0 then iv else BlockAt(data, i - 1))
    decreases i
  {
    var out := Decrypted(key, iv, data);
    var rest := Decrypted(key, data[..BLOCK_SIZE], data[BLOCK_SIZE..]);
    assert out[BLOCK_SIZE..] == rest;
    if i == 0 {
      assert BlockAt(out, 0) == Xor(key.decrypt(data[..BLOCK_SIZE]), iv);
    } else {
      DecryptChains(key, data[..BLOCK_SIZE], data[BLOCK_SIZE..], i - 1);
      TailBlock(data, i);
      TailBlock(out, i);
      if i > 1 {
        TailBlock(data, i - 1);
      }
    }
  }

  /** Two ciphertexts that differ in block `i` only decrypt alike everywhere but in blocks `i` and
      `i + 1`; block `i` does differ, and block `i + 1` differs by exactly the change. */
  lemma DamageIsLocal(key: KeySchedule, iv: Block, a: seq<Byte>, b: seq<Byte>, i: nat, j: nat)
    requires Permutation(key) && Aligned(a) && |b| == |a| && BLOCK_SIZE * (i + 1) <= |a|
    requires forall n :: 0 <= n && BLOCK_SIZE * (n + 1) <= |a| && n != i ==> BlockAt(a, n) == BlockAt(b, n)
    requires BlockAt(a, i) != BlockAt(b, i)
    requires BLOCK_SIZE * (j + 1) <= |a|
    ensures
      var x, y := BlockAt(Decrypted(key, iv, a), j), BlockAt(Decrypted(key, iv, b), j);
      && (j != i && j != i + 1 ==> x == y)
      && (j == i ==> x != y)
      && (j == i + 1 ==> Xor(x, y) == Xor(BlockAt(a, i), BlockAt(b, i)))
  {
    DecryptChains(key, iv, a, j);
    DecryptChains(key, iv, b, j);
    if j == i {
      var mask := if i == 0 then iv else BlockAt(a, i - 1);
      XorCancels(key.decrypt(BlockAt(a, i)), mask);
      XorCancels(key.decrypt(BlockAt(b, i)), mask);
      assert key.encrypt(key.decrypt(BlockAt(a, i))) != key.encrypt(key.decrypt(BlockAt(b, i)));
    } else if j == i + 1 {
      SharedMaskCancels(key.decrypt(BlockAt(a, j)), BlockAt(a, i), BlockAt(b, i));
    }
  }

  lemma SharedMaskCancels(d: Block, a: Block, b: Block)
    ensures Xor(Xor(d, a), Xor(d, b)) == Xor(a, b)
  {
    forall k | 0 <= k < BLOCK_SIZE
      ensures (d[k] ^ a[k]) ^ (d[k] ^ b[k]) == a[k] ^ b[k]
    {
    }
  }

  // ----- the cipher object -----

  /** `xor_blocks`. */
  method XorBlocks(a: Block, b: Block) returns (r: Block)
    ensures r == Xor(a, b)
  {
    var buffer := new Byte[BLOCK_SIZE](_ => 0);
    for i := 0 to BLOCK_SIZE
      invariant forall j :: 0 <= j < i ==> buffer[j] == a[j] ^ b[j]
    {
      buffer[i] := a[i] ^ b[i];
    }
    r := buffer[..];
  }

  class AesCbc {
    const key: KeySchedule
    const iv: Block

    constructor (key: KeySchedule, iv: Block)
      ensures this.key == key && this.iv == iv
    {
      this.key := key;
      this.iv := iv;
    }

    method Encrypt(data: seq<Byte>) returns (r: Result<seq<Byte>>)
      ensures r == if Aligned(data) then Ok(Encrypted(key, iv, data)) else Unaligned(|data|)
    {
      if |data| % BLOCK_SIZE != 0 {
        return Unaligned(|data|);
      }
      var result: seq<Byte> := [];
      var prev: Block := iv;
      var i := 0;
      while i < |data|
        invariant EncryptedUpTo(key, iv, data, i, result, prev)
      {
        EncryptNext(key, iv, data, i, result, prev);
        var xored := XorBlocks(data[i..i + BLOCK_SIZE], prev);
        prev := key.encrypt(xored);
        result := result + prev;
        i := i + BLOCK_SIZE;
      }
      EncryptDone(key, iv, data, i, result, prev);
      r := Ok(result);
    }

    method Decrypt(data: seq<Byte>) returns (r: Result<seq<Byte>>)
      ensures r == if Aligned(data) then Ok(Decrypted(key, iv, data)) else Unaligned(|data|)
    {
      if |data| % BLOCK_SIZE != 0 {
        return Unaligned(|data|);
      }
      var result: seq<Byte> := [];
      var prev: Block := iv;
      var i := 0;
      while i < |data|
        invariant DecryptedUpTo(key, iv, data, i, result, prev)
      {
        DecryptNext(key, iv, data, i, result, prev);
        var plaintext := XorBlocks(key.decrypt(data[i..i + BLOCK_SIZE]), prev);
        prev := data[i..i + BLOCK_SIZE];
        result := result + plaintext;
        i := i + BLOCK_SIZE;
      }
      DecryptDone(key, iv, data, i, result, prev);
      r := Ok(result);
    }

    /** The array ends up holding what `Encrypt` returns for its old contents. */
    method EncryptInPlace(data: array<Byte>) returns (ok: bool)
      modifies data
      ensures ok <==> Aligned(old(data[..]))
      ensures data[..] == if Aligned(old(data[..])) then Encrypted(key, iv, old(data[..])) else old(data[..])
    {
      ok := data.Length % BLOCK_SIZE == 0;
      if !ok {
        return;
      }
      ghost var was := data[..];
      var prev: Block := iv;
      var i := 0;
      while i < data.Length
        invariant 0 <= i <= data.Length && |was| == data.Length
        invariant EncryptedUpTo(key, iv, was, i, data[..i], prev)
        invariant data[i..] == was[i..]
      {
        EncryptNext(key, iv, was, i, data[..i], prev);
        assert data[i..i + BLOCK_SIZE] == data[i..][..BLOCK_SIZE] == was[i..i + BLOCK_SIZE];
        ghost var before, rest := data[..i], data[i + BLOCK_SIZE..];
        prev := EncryptBlockAt(data, i, prev);
        assert data[..i + BLOCK_SIZE] == before + prev && data[i + BLOCK_SIZE..] == rest;
        i := i + BLOCK_SIZE;
      }
      EncryptDone(key, iv, was, i, data[..i], prev);
      assert data[..i] == data[..];
    }

    /** The array ends up holding what `Decrypt` returns for its old contents, although each step
        overwrites the ciphertext block the next one chains on. */
    method DecryptInPlace(data: array<Byte>) returns (ok: bool)
      modifies data
      ensures ok <==> Aligned(old(data[..]))
      ensures data[..] == if Aligned(old(data[..])) then Decrypted(key, iv, old(data[..])) else old(data[..])
    {
      ok := data.Length % BLOCK_SIZE == 0;
      if !ok {
        return;
      }
      ghost var was := data[..];
      var prev: Block := iv;
      var i := 0;
      while i < data.Length
        invariant 0 <= i <= data.Length && |was| == data.Length
        invariant DecryptedUpTo(key, iv, was, i, data[..i], prev)
        invariant data[i..] == was[i..]
      {
        DecryptNext(key, iv, was, i, data[..i], prev);
        ghost var before, rest := data[..i], data[i + BLOCK_SIZE..];
        assert data[i..i + BLOCK_SIZE] == data[i..][..BLOCK_SIZE] == was[i..i + BLOCK_SIZE];
        var current: Block := data[i..i + BLOCK_SIZE];
        ghost var plaintext := DecryptBlockAt(data, i, prev);
        assert data[..i + BLOCK_SIZE] == before + plaintext && data[i + BLOCK_SIZE..] == rest;
        prev := current;
        i := i + BLOCK_SIZE;
      }
      DecryptDone(key, iv, was, i, data[..i], prev);
      assert data[..i] == data[..];
    }

    method EncryptBlockAt(data: array<Byte>, at: nat, prev: Block) returns (block: Block)
      requires at + BLOCK_SIZE <= data.Length
      modifies data
      ensures block == key.encrypt(Xor(old(data[at..at + BLOCK_SIZE]), prev))
      ensures data[..] == old(data[..at]) + block + old(data[at + BLOCK_SIZE..])
    {
      XorIntoArray(data, at, prev);
      assert data[at..at + BLOCK_SIZE] == Xor(old(data[at..at + BLOCK_SIZE]), prev);
      block := key.encrypt(data[at..at + BLOCK_SIZE]);
      StoreBlock(data, at, block);
    }

    method DecryptBlockAt(data: array<Byte>, at: nat, prev: Block) returns (ghost block: Block)
      requires at + BLOCK_SIZE <= data.Length
      modifies data
      ensures block == Xor(key.decrypt(old(data[at..at + BLOCK_SIZE])), prev)
      ensures data[..] == old(data[..at]) + block + old(data[at + BLOCK_SIZE..])
    {
      var decrypted := key.decrypt(data[at..at + BLOCK_SIZE]);
      StoreBlock(data, at, decrypted);
      assert data[at..at + BLOCK_SIZE] == decrypted;
      XorIntoArray(data, at, prev);
      block := Xor(decrypted, prev);
    }
  }

  // ----- what the loops keep -----

  ghost predicate EncryptedUpTo(key: KeySchedule, iv: Block, data: seq<Byte>, i: nat, result: seq<Byte>, prev: Block) {
    && Aligned(data) && i <= |data| && i % BLOCK_SIZE == 0
    && Encrypted(key, iv, data) == result + Encrypted(key, prev, data[i..])
  }

  lemma EncryptNext(key: KeySchedule, iv: Block, data: seq<Byte>, i: nat, result: seq<Byte>, prev: Block)
    requires EncryptedUpTo(key, iv, data, i, result, prev) && i < |data|
    ensures i + BLOCK_SIZE <= |data|
    ensures
      var c := key.encrypt(Xor(data[i..i + BLOCK_SIZE], prev));
      EncryptedUpTo(key, iv, data, i + BLOCK_SIZE, result + c, c)
  {
    EncryptedStep(key, prev, data, i);
    var c: seq<Byte> := key.encrypt(Xor(data[i..i + BLOCK_SIZE], prev));
    Regroup(result, c, Encrypted(key, c, data[i + BLOCK_SIZE..]));
  }

  lemma EncryptDone(key: KeySchedule, iv: Block, data: seq<Byte>, i: nat, result: seq<Byte>, prev: Block)
    requires EncryptedUpTo(key, iv, data, i, result, prev) && i == |data|
    ensures result == Encrypted(key, iv, data)
  {
    assert data[i..] == [];
  }

  ghost predicate DecryptedUpTo(key: KeySchedule, iv: Block, data: seq<Byte>, i: nat, result: seq<Byte>, prev: Block) {
    && Aligned(data) && i <= |data| && i % BLOCK_SIZE == 0
    && Decrypted(key, iv, data) == result + Decrypted(key, prev, data[i..])
  }

  lemma DecryptNext(key: KeySchedule, iv: Block, data: seq<Byte>, i: nat, result: seq<Byte>, prev: Block)
    requires DecryptedUpTo(key, iv, data, i, result, prev) && i < |data|
    ensures i + BLOCK_SIZE <= |data|
    ensures
      var c: Block := data[i..i + BLOCK_SIZE];
      DecryptedUpTo(key, iv, data, i + BLOCK_SIZE, result + Xor(key.decrypt(c), prev), c)
  {
    DecryptedStep(key, prev, data, i);
    var c: Block := data[i..i + BLOCK_SIZE];
    Regroup(result, Xor(key.decrypt(c), prev), Decrypted(key, c, data[i + BLOCK_SIZE..]));
  }

  lemma DecryptDone(key: KeySchedule, iv: Block, data: seq<Byte>, i: nat, result: seq<Byte>, prev: Block)
    requires DecryptedUpTo(key, iv, data, i, result, prev) && i == |data|
    ensures result == Decrypted(key, iv, data)
  {
    assert data[i..] == [];
  }

  lemma Regroup(a: seq<Byte>, b: seq<Byte>, c: seq<Byte>)
    ensures a + (b + c) == (a + b) + c
  {
  }

  lemma EncryptedStep(key: KeySchedule, prev: Block, data: seq<Byte>, i: nat)
    requires Aligned(data) && i < |data| && i % BLOCK_SIZE == 0
    ensures i + BLOCK_SIZE <= |data| && Aligned(data[i..]) && Aligned(data[i + BLOCK_SIZE..])
    ensures
      var c := key.encrypt(Xor(data[i..i + BLOCK_SIZE], prev));
      Encrypted(key, prev, data[i..]) == c + Encrypted(key, c, data[i + BLOCK_SIZE..])
  {
    assert data[i..][..BLOCK_SIZE] == data[i..i + BLOCK_SIZE];
    assert data[i..][BLOCK_SIZE..] == data[i + BLOCK_SIZE..];
  }

  lemma DecryptedStep(key: KeySchedule, prev: Block, data: seq<Byte>, i: nat)
    requires Aligned(data) && i < |data| && i % BLOCK_SIZE == 0
    ensures i + BLOCK_SIZE <= |data| && Aligned(data[i..]) && Aligned(data[i + BLOCK_SIZE..])
    ensures
      var c := data[i..i + BLOCK_SIZE];
      Decrypted(key, prev, data[i..]) == Xor(key.decrypt(c), prev) + Decrypted(key, c, data[i + BLOCK_SIZE..])
  {
    assert data[i..][..BLOCK_SIZE] == data[i..i + BLOCK_SIZE];
    assert data[i..][BLOCK_SIZE..] == data[i + BLOCK_SIZE..];
  }

  /** `block[j] ^= mask[j]` over one block of the array. */
  method XorIntoArray(data: array<Byte>, at: nat, mask: Block)
    requires at + BLOCK_SIZE <= data.Length
    modifies data
    ensures data[..] == old(data[..at]) + Xor(old(data[at..at + BLOCK_SIZE]), mask) + old(data[at + BLOCK_SIZE..])
  {
    for j := 0 to BLOCK_SIZE
      invariant forall k :: 0 <= k < data.Length ==>
        data[k] == if at <= k < at + j then old(data[k]) ^ mask[k - at] else old(data[k])
    {
      data[at + j] := data[at + j] ^ mask[j];
    }
  }

  method StoreBlock(data: array<Byte>, at: nat, block: Block)
    requires at + BLOCK_SIZE <= data.Length
    modifies data
    ensures data[..] == old(data[..at]) + block + old(data[at + BLOCK_SIZE..])
  {
    for j := 0 to BLOCK_SIZE
      invariant forall k :: 0 <= k < data.Length ==>
        data[k] == if at <= k < at + j then block[k - at] else old(data[k])
    {
      data[at + j] := block[j];
    }
  }
}
