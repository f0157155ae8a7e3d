/** The key families of the shared store: `vanguard:<family>:<subject>`. */
module Keys {
  const RATE_PREFIX := "vanguard:ratelimit:"
  const BAN_PREFIX := "vanguard:blacklist:"
  const VIOLATION_PREFIX := "vanguard:violations:"
  const NONCE_PREFIX := "vanguard:nonce:"

  function RateKey(ip: string): string { RATE_PREFIX + ip }
  function BanKey(ip: string): string { BAN_PREFIX + ip }
  function ViolationKey(ip: string): string { VIOLATION_PREFIX + ip }
  function NonceKey(client: string, nonce: string): string { NONCE_PREFIX + client + ":" + nonce }

  /** No key of one family is a key of another, whatever the ids are. */
  lemma {:induction false} FamiliesDisjoint(a: string, b: string, c: string, client: string, nonce: string)
    ensures RateKey(a) != BanKey(b) && RateKey(a) != ViolationKey(c) && BanKey(b) != ViolationKey(c)
    ensures NonceKey(client, nonce) != RateKey(a)
    ensures NonceKey(client, nonce) != BanKey(b)
    ensures NonceKey(client, nonce) != ViolationKey(c)
  {
    assert RateKey(a)[9] == 'r';
    assert BanKey(b)[9] == 'b';
    assert ViolationKey(c)[9] == 'v';
    assert NonceKey(client, nonce)[9] == 'n';
  }

  /** Within a family with one subject, different subjects have different keys. */
  lemma {:induction false} SubjectsDistinct(a: string, b: string)
    requires a != b
    ensures RateKey(a) != RateKey(b) && BanKey(a) != BanKey(b) && ViolationKey(a) != ViolationKey(b)
  {
    assert RateKey(a)[|RATE_PREFIX|..] == a && RateKey(b)[|RATE_PREFIX|..] == b;
    assert BanKey(a)[|BAN_PREFIX|..] == a && BanKey(b)[|BAN_PREFIX|..] == b;
    assert ViolationKey(a)[|VIOLATION_PREFIX|..] == a && ViolationKey(b)[|VIOLATION_PREFIX|..] == b;
  }

  /** `longer` is `shorter`, a colon and `middle`; the second nonce starts with that middle part. */
  predicate Shifted(longer: (string, string), shorter: (string, string), middle: string) {
    longer.0 == shorter.0 + ":" + middle && shorter.1 == middle + ":" + longer.1
  }

  /** Exactly when two different (client, nonce) pairs share a key: one colon was moved from the
      client part to the nonce part. */
  lemma {:induction false} NonceKeyCollisions(p: (string, string), q: (string, string))
    requires p != q
    ensures NonceKey(p.0, p.1) == NonceKey(q.0, q.1)
       <==> exists middle :: Shifted(p, q, middle) || Shifted(q, p, middle)
  {
    if NonceKey(p.0, p.1) == NonceKey(q.0, q.1) {
      assert NonceKey(p.0, p.1)[|NONCE_PREFIX|..] == p.0 + ":" + p.1;
      assert NonceKey(q.0, q.1)[|NONCE_PREFIX|..] == q.0 + ":" + q.1;
      if |p.0| > |q.0| {
        SplitLonger(p, q);
      } else if |p.0| < |q.0| {
        SplitLonger(q, p);
      } else {
        SplitEqual(p, q);
      }
    }
    forall middle | Shifted(p, q, middle) || Shifted(q, p, middle)
      ensures NonceKey(p.0, p.1) == NonceKey(q.0, q.1)
    {
      var (longer, shorter) := if Shifted(p, q, middle) then (p, q) else (q, p);
      assert NonceKey(longer.0, longer.1) == NONCE_PREFIX + shorter.0 + ":" + middle + ":" + longer.1;
      assert NonceKey(shorter.0, shorter.1) == NONCE_PREFIX + shorter.0 + ":" + (middle + ":" + longer.1);
    }
  }

  lemma {:induction false} SplitLonger(longer: (string, string), shorter: (string, string))
    requires |longer.0| > |shorter.0|
    requires longer.0 + ":" + longer.1 == shorter.0 + ":" + shorter.1
    ensures Shifted(longer, shorter, longer.0[|shorter.0| + 1..])
  {
    var text, n, m := longer.0 + ":" + longer.1, |shorter.0|, |longer.0|;
    assert text == shorter.0 + ":" + shorter.1;
    assert text[..n] == shorter.0 && text[n] == ':' && text[n + 1..] == shorter.1;
    assert text[..m] == longer.0 && text[m] == ':' && text[m + 1..] == longer.1;
    assert longer.0 == text[..n] + [text[n]] + text[n + 1..m];
    assert longer.0[n + 1..] == text[n + 1..m];
    assert text[n + 1..] == text[n + 1..m] + [text[m]] + text[m + 1..];
  }

  lemma {:induction false} SplitEqual(p: (string, string), q: (string, string))
    requires |p.0| == |q.0|
    requires p.0 + ":" + p.1 == q.0 + ":" + q.1
    ensures p == q
  {
    assert (p.0 + ":" + p.1)[..|p.0|] == p.0 && (q.0 + ":" + q.1)[..|p.0|] == q.0;
    assert (p.0 + ":" + p.1)[|p.0| + 1..] == p.1 && (q.0 + ":" + q.1)[|p.0| + 1..] == q.1;
  }

  /** Colon-free clients (or colon-free nonces) therefore never share a key. */
  lemma {:induction false} NonceKeyInjective(p: (string, string), q: (string, string))
    requires (':' !in p.0 && ':' !in q.0) || (':' !in p.1 && ':' !in q.1)
    requires NonceKey(p.0, p.1) == NonceKey(q.0, q.1)
    ensures p == q
  {
    ShiftedHasColons(p, q);
    ShiftedHasColons(q, p);
    if p != q {
      NonceKeyCollisions(p, q);
    }
  }

  lemma {:induction false} ShiftedHasColons(longer: (string, string), shorter: (string, string))
    ensures forall middle :: Shifted(longer, shorter, middle) ==> ':' in longer.0 && ':' in shorter.1
  {
    forall middle | Shifted(longer, shorter, middle)
      ensures ':' in longer.0 && ':' in shorter.1
    {
      assert longer.0[|shorter.0|] == ':' && shorter.1[|middle|] == ':';
    }
  }
}
