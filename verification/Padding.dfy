/** The padding of section 6.3 of RFC 5652, for blocks of 16 bytes. */
module Padding {
  import opened Bytes
  import opened Options

  const BLOCK_SIZE := 16

  function PadLength(s: Bytes): (k: int)
    ensures 1 <= k <= BLOCK_SIZE && (|s| + k) % BLOCK_SIZE == 0
  {
    BLOCK_SIZE - |s| % BLOCK_SIZE
  }

  function Pad(s: Bytes): (p: Bytes)
    ensures |p| % BLOCK_SIZE == 0 && |p| > 0
  {
    s + seq(PadLength(s), _ => PadLength(s))
  }

  /** `None` where the library raises an error. */
  function Unpad(p: Bytes): Option<Bytes> {
    if p == [] || |p| % BLOCK_SIZE != 0 then None
    else
      var k := p[|p| - 1];
      if k < 1 || k > BLOCK_SIZE || p[|p| - k..] != seq(k, _ => k) then None
      else Some(p[..|p| - k])
  }

  /** The padding written out: 1 to 16 bytes up to the next multiple of 16, each of them their number. */
  lemma {:induction false} PaddedBytes(s: Bytes)
    ensures var p, k := Pad(s), 16 - |s| % 16;
      && |p| == |s| + k && p[..|s|] == s && forall i :: |s| <= i < |p| ==> p[i] == k
  {
  }

  /** Unpadding accepts exactly the padded strings, and gives back what was padded. */
  lemma {:induction false} UnpadIff(p: Bytes, s: Bytes)
    ensures Unpad(p) == Some(s) <==> p == Pad(s)
  {
    if p == Pad(s) {
      var k := PadLength(s);
      assert p[|p| - 1] == k && p[|p| - k..] == seq(k, _ => k) && p[..|p| - k] == s;
    }
    if Unpad(p) == Some(s) {
      var k := p[|p| - 1];
      assert p == p[..|p| - k] + p[|p| - k..];
      assert PadLength(s) == k;
    }
  }
}
