/** Cipher block chaining (section 6.2 of NIST SP 800-38A) over any permutation of blocks. */
module BlockChaining {
  import opened Bytes

  const BLOCK := 16

  type Block = b: Bytes | |b| == BLOCK witness seq(BLOCK, _ => 0)

  /** The two directions of one keyed permutation. */
  datatype Permutation = Permutation(forward: Block -> Block, backward: Block -> Block)

  ghost predicate Inverse(p: Permutation) {
    && (forall b: Block :: p.backward(p.forward(b)) == b)
    && (forall b: Block :: p.forward(p.backward(b)) == b)
  }

  function Encrypt(p: Permutation, iv: Block, data: Bytes): (c: Bytes)
    requires |data| % BLOCK == 0
    ensures |c| == |data|
    decreases |data|
  {
    if data == [] then []
    else
      var c := p.forward(Xor(data[..BLOCK], iv));
      c + Encrypt(p, c, data[BLOCK..])
  }

  function Decrypt(p: Permutation, iv: Block, data: Bytes): (d: Bytes)
    requires |data| % BLOCK == 0
    ensures |d| == |data|
    decreases |data|
  {
    if data == [] then []
    else Xor(p.backward(data[..BLOCK]), iv) + Decrypt(p, data[..BLOCK], data[BLOCK..])
  }

  function BlockAt(data: Bytes, i: nat): Block
    requires BLOCK * (i + 1) <= |data|
  {
    data[BLOCK * i..BLOCK * (i + 1)]
  }

  lemma {:induction false} BlockOfTail(data: Bytes, i: nat)
    requires i > 0 && BLOCK * (i + 1) <= |data|
    ensures BlockAt(data, i) == BlockAt(data[BLOCK..], i - 1)
  {
  }

  /** Section 6.2 of NIST SP 800-38A, block by block: each plain block is combined with the cipher block
      before it, and the first one with the initialisation vector. */
  lemma {:induction false} CipherBlock(p: Permutation, iv: Block, data: Bytes, i: nat)
    requires |data| % BLOCK == 0 && BLOCK * (i + 1) <= |data|
    ensures var c := Encrypt(p, iv, data);
      BlockAt(c, i) == p.forward(Xor(BlockAt(data, i), if i == 0 then iv else BlockAt(c, i - 1)))
    decreases i
  {
    var first := p.forward(Xor(data[..BLOCK], iv));
    var c, rest := Encrypt(p, iv, data), Encrypt(p, first, data[BLOCK..]);
    assert c == first + rest && c[..BLOCK] == first && c[BLOCK..] == rest;
    if i > 0 {
      CipherBlock(p, first, data[BLOCK..], i - 1);
      BlockOfTail(data, i);
      BlockOfTail(c, i);
      if i > 1 {
        BlockOfTail(c, i - 1);
      }
    }
  }

  /** And back: what the inverse gives is combined with the same predecessor. */
  lemma {:induction false} PlainBlock(p: Permutation, iv: Block, data: Bytes, i: nat)
    requires |data| % BLOCK == 0 && BLOCK * (i + 1) <= |data|
    ensures var d := Decrypt(p, iv, data);
      BlockAt(d, i) == Xor(p.backward(BlockAt(data, i)), if i == 0 then iv else BlockAt(data, i - 1))
    decreases i
  {
    var first: Block := data[..BLOCK];
    var d, rest := Decrypt(p, iv, data), Decrypt(p, first, data[BLOCK..]);
    assert d == Xor(p.backward(first), iv) + rest && d[BLOCK..] == rest;
    if i > 0 {
      PlainBlock(p, first, data[BLOCK..], i - 1);
      BlockOfTail(data, i);
      BlockOfTail(d, i);
      if i > 1 {
        BlockOfTail(data, i - 1);
      }
    }
  }

  lemma {:induction false} DecryptOfEncrypt(p: Permutation, iv: Block, data: Bytes)
    requires Inverse(p) && |data| % BLOCK == 0
    ensures Decrypt(p, iv, Encrypt(p, iv, data)) == data
    decreases |data|
  {
    if data != [] {
      var first: Block := Xor(data[..BLOCK], iv);
      var c := p.forward(first);
      var all := Encrypt(p, iv, data);
      assert all[..BLOCK] == c && all[BLOCK..] == Encrypt(p, c, data[BLOCK..]);
      DecryptOfEncrypt(p, c, data[BLOCK..]);
      XorCancels(data[..BLOCK], iv);
      assert data == data[..BLOCK] + data[BLOCK..];
    }
  }

  lemma {:induction false} EncryptOfDecrypt(p: Permutation, iv: Block, data: Bytes)
    requires Inverse(p) && |data| % BLOCK == 0
    ensures Encrypt(p, iv, Decrypt(p, iv, data)) == data
    decreases |data|
  {
    if data != [] {
      var c: Block := data[..BLOCK];
      var all := Decrypt(p, iv, data);
      assert all[..BLOCK] == Xor(p.backward(c), iv) && all[BLOCK..] == Decrypt(p, c, data[BLOCK..]);
      EncryptOfDecrypt(p, c, data[BLOCK..]);
      XorCancels(p.backward(c), iv);
      assert data == data[..BLOCK] + data[BLOCK..];
    }
  }
}
