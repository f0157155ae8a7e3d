/** Session tokens: printed, padded, chained, encoded and signed; and read back.

    Texts are their UTF-8 bytes.  The block cipher, the signature, the printing of the clock and the
    check that bytes are UTF-8 are parameters; `Lawful` and `Printable` are all that is used of them. */
module TokenAuth {
  import opened Options
  import opened Bytes
  import opened Padding
  import CBC = BlockChaining
  import B64 = Base64Url

  datatype Parts = Parts(
    cipher: CBC.Permutation, sign: Bytes -> Bytes,
    printTime: real -> Bytes, parseTime: Bytes -> Option<real>, isText: Bytes -> bool)

  /** The cipher is a permutation, and hexadecimal signatures have no dot. */
  ghost predicate Lawful(parts: Parts) {
    CBC.Inverse(parts.cipher) && forall payload: Bytes :: DOT !in parts.sign(payload)
  }

  /** A clock reading, as a floating-point number, is printed without a colon and read back exactly. */
  predicate Printable(parts: Parts, t: real) {
    COLON !in parts.printTime(t) && parts.parseTime(parts.printTime(t)) == Some(t)
  }

  datatype ClientToken = ClientToken(clientId: Bytes, sessionId: Bytes, issuedAt: real, signature: Bytes)

  /** `f"{client_id}:{session_id}:{time}"`. */
  function Raw(client: Bytes, session: Bytes, time: Bytes): Bytes {
    client + [COLON] + (session + [COLON] + time)
  }

  function Payload(parts: Parts, iv: CBC.Block, raw: Bytes): Bytes {
    iv + CBC.Encrypt(parts.cipher, iv, Pad(raw))
  }

  function EncryptToken(parts: Parts, iv: CBC.Block, now: real, client: Bytes, session: Bytes): Bytes {
    var payload := Payload(parts, iv, Raw(client, session, parts.printTime(now)));
    B64.Encode(payload) + [DOT] + parts.sign(payload)
  }

  /** The decrypted text of a payload; `None` for a bad length, bad padding or bytes that are no text. */
  function Decrypted(parts: Parts, payload: Bytes): Option<Bytes> {
    if |payload| < CBC.BLOCK || (|payload| - CBC.BLOCK) % CBC.BLOCK != 0 then None
    else
      var raw := Unpad(CBC.Decrypt(parts.cipher, payload[..CBC.BLOCK], payload[CBC.BLOCK..]));
      if raw.Some? && parts.isText(raw.value) then raw else None
  }

  /** The fields of a decrypted text: exactly three, and the last one a time. */
  function Fields(parts: Parts, raw: Bytes, signature: Bytes): Option<ClientToken> {
    var fields := Split(raw, COLON);
    if |fields| != 3 || parts.parseTime(fields[2]).None? then None
    else Some(ClientToken(fields[0], fields[1], parts.parseTime(fields[2]).value, signature))
  }

  function VerifyToken(parts: Parts, token: Bytes): Option<ClientToken> {
    var halves := Split(token, DOT);
    if |halves| != 2 then None
    else
      var payload, signature := B64.Decode(halves[0]), halves[1];
      if payload.None? || parts.sign(payload.value) != signature then None
      else
        var raw := Decrypted(parts, payload.value);
        if raw.None? then None else Fields(parts, raw.value, signature)
  }

  // ----- the layers, one by one -----

  lemma {:induction false} HalvesOfToken(parts: Parts, payload: Bytes)
    requires Lawful(parts)
    ensures Split(B64.Encode(payload) + [DOT] + parts.sign(payload), DOT) == [B64.Encode(payload), parts.sign(payload)]
  {
    B64.EncodedIsPlain(payload);
    SplitAtFirst(B64.Encode(payload), DOT, parts.sign(payload));
    SplitWhole(parts.sign(payload), DOT);
  }

  /** A payload decrypts to a text iff it is that text's payload under its own first block. */
  lemma {:induction false} DecryptedIff(parts: Parts, payload: Bytes, raw: Bytes)
    requires Lawful(parts)
    ensures Decrypted(parts, payload) == Some(raw)
       <==> |payload| >= CBC.BLOCK && parts.isText(raw) && payload == Payload(parts, payload[..CBC.BLOCK], raw)
  {
    if |payload| >= CBC.BLOCK {
      var iv: CBC.Block, body := payload[..CBC.BLOCK], payload[CBC.BLOCK..];
      assert payload == iv + body;
      if payload == Payload(parts, iv, raw) {
        assert body == CBC.Encrypt(parts.cipher, iv, Pad(raw));
        CBC.DecryptOfEncrypt(parts.cipher, iv, Pad(raw));
        UnpadIff(Pad(raw), raw);
      }
      if Decrypted(parts, payload) == Some(raw) {
        UnpadIff(CBC.Decrypt(parts.cipher, iv, body), raw);
        CBC.EncryptOfDecrypt(parts.cipher, iv, body);
      }
    }
  }

  /** A printed text splits into its three fields iff neither id has a colon. */
  lemma {:induction false} FieldsOfRaw(client: Bytes, session: Bytes, time: Bytes)
    requires COLON !in time
    ensures COLON !in client && COLON !in session ==>
      Split(Raw(client, session, time), COLON) == [client, session, time]
    ensures |Split(Raw(client, session, time), COLON)| == 3 ==> COLON !in client && COLON !in session
  {
    var rest := session + [COLON] + time;
    if COLON !in client && COLON !in session {
      SplitAtFirst(client, COLON, rest);
      SplitAtFirst(session, COLON, time);
      SplitWhole(time, COLON);
    }
    PartsCount(Raw(client, session, time), COLON);
    OccurrencesConcat(client + [COLON], rest, COLON);
    OccurrencesConcat(client, [COLON], COLON);
    OccurrencesConcat(session + [COLON], time, COLON);
    OccurrencesConcat(session, [COLON], COLON);
    NoOccurrence(client, COLON);
    NoOccurrence(session, COLON);
    NoOccurrence(time, COLON);
    assert Occurrences([COLON], COLON) == 1;
  }

  // ----- the token written out -----

  lemma {:induction false} ChainOfPayload(parts: Parts, iv: CBC.Block, data: Bytes, i: nat)
    requires |data| % 16 == 0 && 16 * (i + 1) <= |data|
    ensures var payload := iv + CBC.Encrypt(parts.cipher, iv, data);
      payload[16 * (i + 1)..16 * (i + 2)]
      == parts.cipher.forward(Xor(data[16 * i..16 * (i + 1)], payload[16 * i..16 * (i + 1)]))
  {
    hide CBC.Encrypt, Xor;
    var c := CBC.Encrypt(parts.cipher, iv, data);
    CBC.CipherBlock(parts.cipher, iv, data, i);
    assert (iv + c)[16 * (i + 1)..16 * (i + 2)] == CBC.BlockAt(c, i);
    if i > 0 {
      assert (iv + c)[16 * i..16 * (i + 1)] == CBC.BlockAt(c, i - 1);
    } else {
      assert (iv + c)[..16] == iv;
    }
  }

  /** A token is the letters of a payload, a dot and the payload's signature.  The payload starts with the
      initialisation vector; each later block is made from the block before it and the next 16 bytes of
      the text `client:session:time`, filled up with k bytes k. */
  lemma {:induction false} TokenLayout(parts: Parts, iv: CBC.Block, now: real, client: Bytes, session: Bytes)
    returns (payload: Bytes)
    ensures EncryptToken(parts, iv, now, client, session) == B64.Encode(payload) + [46] + parts.sign(payload)
    ensures var text := client + [58] + session + [58] + parts.printTime(now);
      var k := 16 - |text| % 16;
      var padded := text + seq(k, _ => k);
      && |padded| % 16 == 0 && |payload| == 16 + |padded| && payload[..16] == iv
      && forall i :: 0 <= i < |padded| / 16 ==>
           payload[16 * (i + 1)..16 * (i + 2)]
           == parts.cipher.forward(Xor(padded[16 * i..16 * (i + 1)], payload[16 * i..16 * (i + 1)]))
  {
    hide Xor, B64.Encode, CBC.Encrypt;
    var time := parts.printTime(now);
    var raw := Raw(client, session, time);
    assert raw == client + [58] + session + [58] + time;
    var padded := Pad(raw);
    payload := Payload(parts, iv, raw);
    forall i | 0 <= i < |padded| / 16
      ensures payload[16 * (i + 1)..16 * (i + 2)]
           == parts.cipher.forward(Xor(padded[16 * i..16 * (i + 1)], payload[16 * i..16 * (i + 1)]))
    {
      ChainOfPayload(parts, iv, padded, i);
    }
    var k: byte := 16 - |raw| % 16;
    assert padded == raw + seq(k, _ => k);
  }

  // ----- the round trip -----

  /** A fresh token is read back exactly - ids, time and signature - iff neither id contains a colon;
      otherwise it is refused. */
  lemma {:induction false} RoundTrip(parts: Parts, iv: CBC.Block, now: real, client: Bytes, session: Bytes)
    requires Lawful(parts) && Printable(parts, now) && parts.isText(Raw(client, session, parts.printTime(now)))
    ensures var raw := Raw(client, session, parts.printTime(now));
      VerifyToken(parts, EncryptToken(parts, iv, now, client, session))
      == if COLON !in client && COLON !in session
         then Some(ClientToken(client, session, now, parts.sign(Payload(parts, iv, raw))))
         else None
  {
    var time := parts.printTime(now);
    var raw := Raw(client, session, time);
    var payload := Payload(parts, iv, raw);
    hide B64.Encode, B64.Decode, Decrypted, Payload, Split;
    HalvesOfToken(parts, payload);
    B64.DecodeOfEncode(payload);
    PayloadParts(parts, iv, raw);
    DecryptedIff(parts, payload, raw);
    FieldsOfRaw(client, session, time);
  }

  lemma {:induction false} PayloadParts(parts: Parts, iv: CBC.Block, raw: Bytes)
    ensures var payload := Payload(parts, iv, raw);
      |payload| >= CBC.BLOCK && payload[..CBC.BLOCK] == iv
  {
  }

  /** Whatever token is accepted: its signature is the payload's own, and its payload is one that the
      printer would have made from the returned ids - which have no colon - and the returned time. */
  lemma {:induction false} AcceptedIsPrinted(parts: Parts, token: Bytes) returns (iv: CBC.Block, time: Bytes)
    requires Lawful(parts) && VerifyToken(parts, token).Some?
    ensures var t := VerifyToken(parts, token).value;
      var payload := Payload(parts, iv, Raw(t.clientId, t.sessionId, time));
      && COLON !in t.clientId && COLON !in t.sessionId && COLON !in time
      && parts.parseTime(time) == Some(t.issuedAt)
      && t.signature == parts.sign(payload)
      && B64.Decode(Split(token, DOT)[0]) == Some(payload)
      && token == Split(token, DOT)[0] + [DOT] + t.signature
  {
    hide B64.Decode, Decrypted, Payload, Split;
    var halves := Split(token, DOT);
    var payload := B64.Decode(halves[0]).value;
    var raw := Decrypted(parts, payload).value;
    var fields := Split(raw, COLON);
    DecryptedIff(parts, payload, raw);
    iv, time := payload[..CBC.BLOCK], fields[2];
    JoinOfSplit(raw, COLON);
    JoinOfThree(fields[0], fields[1], fields[2]);
    assert fields == [fields[0], fields[1], fields[2]];
    JoinOfSplit(token, DOT);
    assert halves == [halves[0], halves[1]];
    JoinOfTwo(halves[0], halves[1], DOT);
  }

  lemma {:induction false} JoinOfTwo(a: Bytes, b: Bytes, sep: byte)
    ensures Join([a, b], sep) == a + [sep] + b
  {
    assert [a, b][1..] == [b];
  }

  lemma {:induction false} JoinOfThree(a: Bytes, b: Bytes, c: Bytes)
    ensures Join([a, b, c], COLON) == Raw(a, b, c)
  {
    assert [a, b, c][1..] == [b, c];
    JoinOfTwo(b, c, COLON);
  }
}
