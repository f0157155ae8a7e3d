/** The encoding of section 5 of RFC 4648, and the lenient decoder that reads it back. */
module Base64Url {
  import opened Options
  import opened Bytes

  const EQUALS: byte := 61

  /** Four characters carry three bytes; `=` fills up the last four. */
  function Symbol(v: int): byte
    requires 0 <= v < 64
  {
    if v < 26 then 65 + v
    else if v < 52 then 71 + v
    else if v < 62 then v - 4
    else if v == 62 then 45 else 95
  }

  /** The decoder also knows the standard alphabet's `+` and `/`. */
  function Value(c: byte): Option<int> {
    if 65 <= c <= 90 then Some(c - 65)
    else if 97 <= c <= 122 then Some(c - 71)
    else if 48 <= c <= 57 then Some(c + 4)
    else if c == 45 || c == 43 then Some(62)
    else if c == 95 || c == 47 then Some(63)
    else None
  }

  function Encode(s: Bytes): Bytes {
    if s == [] then []
    else if |s| == 1 then [Symbol(s[0] / 4), Symbol(s[0] % 4 * 16), EQUALS, EQUALS]
    else if |s| == 2 then [Symbol(s[0] / 4), Symbol(s[0] % 4 * 16 + s[1] / 16), Symbol(s[1] % 16 * 4), EQUALS]
    else [Symbol(s[0] / 4), Symbol(s[0] % 4 * 16 + s[1] / 16), Symbol(s[1] % 16 * 4 + s[2] / 64), Symbol(s[2] % 64)]
         + Encode(s[3..])
  }

  function Prepend(b: byte, rest: Option<Bytes>): Option<Bytes> {
    if rest.Some? then Some([b] + rest.value) else None
  }

  /** Reads on from position `quad` of a group of four, with the bits `left` over from its last
      character.  Characters outside the alphabet are skipped; enough padding ends the text. */
  function DecodeFrom(text: Bytes, quad: int, left: int, pads: nat): Option<Bytes>
    requires 0 <= quad < 4
    requires (quad == 1 ==> 0 <= left < 64) && (quad == 2 ==> 0 <= left < 16) && (quad == 3 ==> 0 <= left < 4)
    decreases |text|
  {
    if text == [] then (if quad == 0 then Some([]) else None)
    else if text[0] == EQUALS then
      if quad < 2 then DecodeFrom(text[1..], quad, left, pads)
      else if quad + pads + 1 >= 4 then Some([])
      else DecodeFrom(text[1..], quad, left, pads + 1)
    else match Value(text[0])
      case None => DecodeFrom(text[1..], quad, left, pads)
      case Some(v) =>
        if quad == 0 then DecodeFrom(text[1..], 1, v, 0)
        else if quad == 1 then Prepend(left * 4 + v / 16, DecodeFrom(text[1..], 2, v % 16, 0))
        else if quad == 2 then Prepend(left * 16 + v / 4, DecodeFrom(text[1..], 3, v % 4, 0))
        else Prepend(left * 64 + v, DecodeFrom(text[1..], 0, 0, 0))
  }

  /** A text that is not ASCII is an error before any decoding. */
  function Decode(text: Bytes): Option<Bytes> {
    if exists i :: 0 <= i < |text| && text[i] >= 128 then None else DecodeFrom(text, 0, 0, 0)
  }

  lemma {:induction false} SymbolValue(v: int)
    requires 0 <= v < 64
    ensures Value(Symbol(v)) == Some(v) && Symbol(v) != EQUALS && Symbol(v) != DOT && Symbol(v) < 128
  {
  }

  lemma {:induction false} ReadSymbol(v: int, rest: Bytes, quad: int, left: int)
    requires 0 <= v < 64 && 0 <= quad < 4
    requires (quad == 1 ==> 0 <= left < 64) && (quad == 2 ==> 0 <= left < 16) && (quad == 3 ==> 0 <= left < 4)
    ensures DecodeFrom([Symbol(v)] + rest, quad, left, 0)
         == if quad == 0 then DecodeFrom(rest, 1, v, 0)
            else if quad == 1 then Prepend(left * 4 + v / 16, DecodeFrom(rest, 2, v % 16, 0))
            else if quad == 2 then Prepend(left * 16 + v / 4, DecodeFrom(rest, 3, v % 4, 0))
            else Prepend(left * 64 + v, DecodeFrom(rest, 0, 0, 0))
  {
    SymbolValue(v);
    assert ([Symbol(v)] + rest)[1..] == rest;
    hide Symbol, Value, Prepend;
  }

  lemma {:induction false} ReadFour(a: int, b: int, c: int, d: int, rest: Bytes)
    requires 0 <= a < 64 && 0 <= b < 64 && 0 <= c < 64 && 0 <= d < 64
    ensures DecodeFrom([Symbol(a), Symbol(b), Symbol(c), Symbol(d)] + rest, 0, 0, 0)
         == Prepend(a * 4 + b / 16, Prepend(b % 16 * 16 + c / 4, Prepend(c % 4 * 64 + d, DecodeFrom(rest, 0, 0, 0))))
  {
    hide Symbol, Value, Prepend, DecodeFrom;
    var r3 := [Symbol(d)] + rest;
    var r2 := [Symbol(c)] + r3;
    var r1 := [Symbol(b)] + r2;
    assert [Symbol(a), Symbol(b), Symbol(c), Symbol(d)] + rest == [Symbol(a)] + r1;
    ReadSymbol(a, r1, 0, 0);
    ReadSymbol(b, r2, 1, a);
    ReadSymbol(c, r3, 2, b % 16);
    ReadSymbol(d, rest, 3, c % 4);
  }

  lemma {:induction false} PrependLast(b: byte)
    ensures Prepend(b, Some([])) == Some([b])
  {
    assert [b] + [] == [b];
  }

  lemma {:induction false} ReadPadded(a: int, b: int)
    requires 0 <= a < 64 && 0 <= b < 64
    ensures DecodeFrom([Symbol(a), Symbol(b), EQUALS, EQUALS], 0, 0, 0) == Some([a * 4 + b / 16])
  {
    hide Symbol, Value;
    var pad: Bytes := [EQUALS, EQUALS];
    assert [Symbol(a), Symbol(b), EQUALS, EQUALS] == [Symbol(a)] + ([Symbol(b)] + pad);
    ReadSymbol(a, [Symbol(b)] + pad, 0, 0);
    ReadSymbol(b, pad, 1, a);
    assert pad[1..] == [EQUALS];
    assert DecodeFrom(pad, 2, b % 16, 0) == Some([]);
    PrependLast(a * 4 + b / 16);
  }

  lemma {:induction false} ReadOnePad(a: int, b: int, c: int)
    requires 0 <= a < 64 && 0 <= b < 64 && 0 <= c < 64
    ensures DecodeFrom([Symbol(a), Symbol(b), Symbol(c), EQUALS], 0, 0, 0)
      == Some([a * 4 + b / 16, b % 16 * 16 + c / 4])
  {
    hide Symbol, Value;
    var pad: Bytes := [EQUALS];
    assert [Symbol(a), Symbol(b), Symbol(c), EQUALS] == [Symbol(a)] + ([Symbol(b)] + ([Symbol(c)] + pad));
    ReadSymbol(a, [Symbol(b)] + ([Symbol(c)] + pad), 0, 0);
    ReadSymbol(b, [Symbol(c)] + pad, 1, a);
    ReadSymbol(c, pad, 2, b % 16);
    assert DecodeFrom(pad, 3, c % 4, 0) == Some([]);
    PrependLast(b % 16 * 16 + c / 4);
    assert [a * 4 + b / 16, b % 16 * 16 + c / 4] == [a * 4 + b / 16] + [b % 16 * 16 + c / 4];
  }

  /** Three bytes are regrouped into four six-bit values without loss. */
  lemma {:induction false} SixBits(x: byte, y: byte, z: byte)
    ensures var (a, b, c, d) := (x / 4, x % 4 * 16 + y / 16, y % 16 * 4 + z / 64, z % 64);
      && 0 <= a < 64 && 0 <= b < 64 && 0 <= c < 64 && 0 <= d < 64
      && a * 4 + b / 16 == x && b % 16 * 16 + c / 4 == y && c % 4 * 64 + d == z
  {
  }

  lemma {:induction false} ReadThree(x: byte, y: byte, z: byte, rest: Bytes, s: Bytes)
    requires DecodeFrom(rest, 0, 0, 0) == Some(s)
    ensures DecodeFrom([Symbol(x / 4), Symbol(x % 4 * 16 + y / 16), Symbol(y % 16 * 4 + z / 64), Symbol(z % 64)] + rest,
      0, 0, 0)
         == Some([x, y, z] + s)
  {
    hide Symbol, Value, DecodeFrom;
    SixBits(x, y, z);
    ReadFour(x / 4, x % 4 * 16 + y / 16, y % 16 * 4 + z / 64, z % 64, rest);
    assert [x] + ([y] + ([z] + s)) == [x, y, z] + s;
  }

  lemma {:induction false} ReadEncoded(s: Bytes)
    ensures DecodeFrom(Encode(s), 0, 0, 0) == Some(s)
    decreases |s|
  {
    hide Symbol, Value, DecodeFrom;
    if s == [] {
      NothingRead();
    } else if |s| == 1 {
      ReadPadded(s[0] / 4, s[0] % 4 * 16);
      assert s == [s[0]];
    } else if |s| == 2 {
      ReadOnePad(s[0] / 4, s[0] % 4 * 16 + s[1] / 16, s[1] % 16 * 4);
      assert s == [s[0], s[1]];
    } else {
      ReadEncoded(s[3..]);
      ReadThree(s[0], s[1], s[2], Encode(s[3..]), s[3..]);
      assert s == [s[0], s[1], s[2]] + s[3..];
    }
  }

  lemma {:induction false} NothingRead()
    ensures DecodeFrom([], 0, 0, 0) == Some([])
  {
  }

  /** The encoding is ASCII and has no dot. */
  lemma {:induction false} EncodedIsPlain(s: Bytes)
    ensures forall i :: 0 <= i < |Encode(s)| ==> Encode(s)[i] < 128 && Encode(s)[i] != DOT
    decreases |s|
  {
    if |s| > 2 {
      EncodedIsPlain(s[3..]);
    }
  }

  // ----- the letters written out -----

  /** The alphabet of RFC 4648, section 5. */
  const ALPHABET := "ABCDEFGHIJKLMNOPQRSTUVWXYZ" + "abcdefghijklmnopqrstuvwxyz" + "0123456789-_"

  lemma {:induction false} CapitalIsLetter(v: int)
    requires 0 <= v < 26
    ensures Symbol(v) as char == "ABCDEFGHIJKLMNOPQRSTUVWXYZ"[v]
  {
  }

  lemma {:induction false} SmallIsLetter(v: int)
    requires 26 <= v < 52
    ensures Symbol(v) as char == "abcdefghijklmnopqrstuvwxyz"[v - 26]
  {
  }

  lemma {:induction false} SymbolIsLetter(v: int)
    requires 0 <= v < 64
    ensures Symbol(v) as char == ALPHABET[v]
  {
    if v < 26 {
      CapitalIsLetter(v);
    } else if v < 52 {
      SmallIsLetter(v);
    } else {
      assert Symbol(v) as char == "0123456789-_"[v - 52];
    }
  }

  lemma {:induction false} UpperTwelve(x: byte, y: byte, z: byte)
    ensures (x * 65536 + y * 256 + z) / 262144 == x / 4
    ensures (x * 65536 + y * 256 + z) / 4096 % 64 == x % 4 * 16 + y / 16
  {
    var low, high := y % 16 * 256 + z, x / 4 * 64 + (x % 4 * 16 + y / 16);
    assert x * 65536 + y * 256 + z == high * 4096 + low;
    assert (x * 65536 + y * 256 + z) / 4096 == high;
  }

  lemma {:induction false} LowerTwelve(x: byte, y: byte, z: byte)
    ensures (x * 65536 + y * 256 + z) / 64 % 64 == y % 16 * 4 + z / 64
    ensures (x * 65536 + y * 256 + z) % 64 == z % 64
  {
    var high := (x * 16 + y / 16) * 64 + (y % 16 * 4 + z / 64);
    assert x * 65536 + y * 256 + z == high * 64 + z % 64;
    assert (x * 65536 + y * 256 + z) / 64 == high;
  }

  /** Byte k of a string, and zero beyond its end: the encoding fills up with zero bits. */
  function ByteAt(s: Bytes, k: nat): byte {
    if k < |s| then s[k] else 0
  }

  /** The three bytes from 3 * g on, as one number of 24 bits. */
  function Group(s: Bytes, g: nat): (bits: int)
    ensures 0 <= bits < 16777216
  {
    ByteAt(s, 3 * g) * 65536 + ByteAt(s, 3 * g + 1) * 256 + ByteAt(s, 3 * g + 2)
  }

  lemma {:induction false} EncodedLength(s: Bytes)
    ensures |Encode(s)| == 4 * ((|s| + 2) / 3)
    decreases |s|
  {
    if |s| > 2 {
      EncodedLength(s[3..]);
    }
  }

  lemma {:induction false} FirstLetters(s: Bytes)
    requires s != []
    ensures var e, bits := Encode(s), Group(s, 0);
      && |e| >= 4 && e[0] == Symbol(bits / 262144) && e[1] == Symbol(bits / 4096 % 64)
      && e[2] == (if |s| > 1 then Symbol(bits / 64 % 64) else EQUALS)
      && e[3] == (if |s| > 2 then Symbol(bits % 64) else EQUALS)
  {
    hide Symbol;
    UpperTwelve(ByteAt(s, 0), ByteAt(s, 1), ByteAt(s, 2));
    LowerTwelve(ByteAt(s, 0), ByteAt(s, 1), ByteAt(s, 2));
  }

  lemma {:induction false} LaterLetters(s: Bytes, g: nat, k: nat)
    requires g > 0 && 3 * g < |s| && k < 4
    ensures |Encode(s)| >= 4 * g + 4 && |Encode(s[3..])| >= 4 * (g - 1) + 4
    ensures Encode(s)[4 * g + k] == Encode(s[3..])[4 * (g - 1) + k]
    ensures Group(s, g) == Group(s[3..], g - 1)
  {
    hide Symbol;
    EncodedLength(s);
    EncodedLength(s[3..]);
  }

  lemma {:induction false} GroupSymbols(s: Bytes, g: nat)
    requires 3 * g < |s|
    ensures var e, bits := Encode(s), Group(s, g);
      && |e| >= 4 * g + 4 && e[4 * g] == Symbol(bits / 262144) && e[4 * g + 1] == Symbol(bits / 4096 % 64)
      && e[4 * g + 2] == (if 3 * g + 1 < |s| then Symbol(bits / 64 % 64) else EQUALS)
      && e[4 * g + 3] == (if 3 * g + 2 < |s| then Symbol(bits % 64) else EQUALS)
    decreases g
  {
    hide Symbol, Encode, Group;
    if g == 0 {
      FirstLetters(s);
    } else {
      GroupSymbols(s[3..], g - 1);
      LaterLetters(s, g, 0);
      LaterLetters(s, g, 1);
      LaterLetters(s, g, 2);
      LaterLetters(s, g, 3);
    }
  }

  /** Section 5 of RFC 4648: the 24 bits of three bytes are written as four letters of six bits, highest
      first; letters that would carry no bit of the string are `=`. */
  lemma {:induction false} EncodedLetters(s: Bytes, g: nat)
    requires 3 * g < |s|
    ensures var e := Encode(s);
      var bits: int := ByteAt(s, 3 * g) * 65536 + ByteAt(s, 3 * g + 1) * 256 + ByteAt(s, 3 * g + 2);
      && |e| == 4 * ((|s| + 2) / 3)
      && e[4 * g] as char == ALPHABET[bits / 262144]
      && e[4 * g + 1] as char == ALPHABET[bits / 4096 % 64]
      && e[4 * g + 2] as char == (if 3 * g + 1 < |s| then ALPHABET[bits / 64 % 64] else '=')
      && e[4 * g + 3] as char == (if 3 * g + 2 < |s| then ALPHABET[bits % 64] else '=')
  {
    hide Symbol, Encode, ByteAt;
    var bits := Group(s, g);
    EncodedLength(s);
    GroupSymbols(s, g);
    SymbolIsLetter(bits / 262144);
    SymbolIsLetter(bits / 4096 % 64);
    SymbolIsLetter(bits / 64 % 64);
    SymbolIsLetter(bits % 64);
  }

  /** Decoding undoes encoding, for every byte string. */
  lemma {:induction false} DecodeOfEncode(s: Bytes)
    ensures Decode(Encode(s)) == Some(s)
  {
    EncodedIsPlain(s);
    ReadEncoded(s);
  }

  // ----- texts that are no encodings -----

  /** A character that is no letter of either alphabet and no `=` is skipped. */
  predicate Foreign(c: byte) {
    (forall i :: 0 <= i < |ALPHABET| ==> c as char != ALPHABET[i]) && c as char !in {'+', '/', '='}
  }

  lemma {:induction false} ForeignHasNoValue(c: byte)
    requires Foreign(c)
    ensures Value(c).None? && c != EQUALS
  {
    assert |ALPHABET| == 64;
    assert c != 43 && c != 47 && c != 61;
    if Value(c).Some? {
      SymbolIsLetter(Value(c).value);
    }
  }

  lemma {:induction false} SkipsForeign(a: Bytes, c: byte, b: Bytes, quad: int, left: int, pads: nat)
    requires 0 <= quad < 4 && Value(c).None? && c != EQUALS
    requires (quad == 1 ==> 0 <= left < 64) && (quad == 2 ==> 0 <= left < 16) && (quad == 3 ==> 0 <= left < 4)
    ensures DecodeFrom(a + [c] + b, quad, left, pads) == DecodeFrom(a + b, quad, left, pads)
    decreases |a|
  {
    hide Value, Prepend;
    if a == [] {
      assert ([c] + b)[1..] == b && a + [c] + b == [c] + b && a + b == b;
    } else {
      assert (a + [c] + b)[1..] == a[1..] + [c] + b && (a + b)[1..] == a[1..] + b;
      var x, rest := a[0], a[1..];
      if x == EQUALS {
        SkipsForeign(rest, c, b, quad, left, pads);
        SkipsForeign(rest, c, b, quad, left, pads + 1);
      } else if Value(x).None? {
        SkipsForeign(rest, c, b, quad, left, pads);
      } else {
        ValueIsSix(x);
        var v := Value(x).value;
        SkipsForeign(rest, c, b, (quad + 1) % 4,
                     if quad == 0 then v else if quad == 1 then v % 16 else if quad == 2 then v % 4 else 0, 0);
      }
    }
  }

  lemma {:induction false} ValueIsSix(c: byte)
    requires Value(c).Some?
    ensures 0 <= Value(c).value < 64
  {
  }

  /** Foreign ASCII characters can be anywhere and change nothing. */
  lemma {:induction false} ForeignIsSkipped(a: Bytes, c: byte, b: Bytes)
    requires Foreign(c) && c < 128
    ensures Decode(a + [c] + b) == Decode(a + b)
  {
    ForeignHasNoValue(c);
    SkipsForeign(a, c, b, 0, 0, 0);
    hide DecodeFrom, Value, Foreign;
    var long, short := a + [c] + b, a + b;
    if exists i :: 0 <= i < |long| && long[i] >= 128 {
      var i :| 0 <= i < |long| && long[i] >= 128;
      assert short[if i < |a| then i else i - 1] >= 128;
    }
    if exists i :: 0 <= i < |short| && short[i] >= 128 {
      var i :| 0 <= i < |short| && short[i] >= 128;
      assert long[if i < |a| then i else i + 1] >= 128;
    }
  }

  // ----- the other alphabet, and missing or superfluous characters -----

  lemma {:induction false} SameLetter(a: Bytes, c: byte, d: byte, b: Bytes, quad: int, left: int, pads: nat)
    requires 0 <= quad < 4 && Value(c).Some? && Value(c) == Value(d)
    requires (quad == 1 ==> 0 <= left < 64) && (quad == 2 ==> 0 <= left < 16) && (quad == 3 ==> 0 <= left < 4)
    ensures DecodeFrom(a + [c] + b, quad, left, pads) == DecodeFrom(a + [d] + b, quad, left, pads)
    decreases |a|
  {
    if a == [] {
      LetterIsNoPad(c);
      LetterIsNoPad(d);
      hide Value, Prepend;
      assert ([c] + b)[1..] == b && a + [c] + b == [c] + b && ([d] + b)[1..] == b && a + [d] + b == [d] + b;
    } else {
      hide Value, Prepend;
      assert (a + [c] + b)[1..] == a[1..] + [c] + b && (a + [d] + b)[1..] == a[1..] + [d] + b;
      var x, rest := a[0], a[1..];
      if x == EQUALS {
        SameLetter(rest, c, d, b, quad, left, pads);
        SameLetter(rest, c, d, b, quad, left, pads + 1);
      } else if Value(x).None? {
        SameLetter(rest, c, d, b, quad, left, pads);
      } else {
        ValueIsSix(x);
        var v := Value(x).value;
        SameLetter(rest, c, d, b, (quad + 1) % 4,
                   if quad == 0 then v else if quad == 1 then v % 16 else if quad == 2 then v % 4 else 0, 0);
      }
    }
  }

  lemma {:induction false} LetterIsNoPad(c: byte)
    requires Value(c).Some?
    ensures c != EQUALS
  {
  }

  /** The last two letters of the standard alphabet are read like those of the URL-safe one. */
  lemma {:induction false} StandardLetters(a: Bytes, b: Bytes)
    ensures Decode(a + ['+' as byte] + b) == Decode(a + ['-' as byte] + b)
    ensures Decode(a + ['/' as byte] + b) == Decode(a + ['_' as byte] + b)
  {
    assert '+' as int == 43 && '-' as int == 45 && '/' as int == 47 && '_' as int == 95;
    SameAscii(a, 43, 45, b);
    SameAscii(a, 47, 95, b);
    SameLetter(a, 43, 45, b, 0, 0, 0);
    SameLetter(a, 47, 95, b, 0, 0, 0);
    hide DecodeFrom, Value;
  }

  lemma {:induction false} SameAscii(a: Bytes, c: byte, d: byte, b: Bytes)
    requires c < 128 && d < 128
    ensures (exists i :: 0 <= i < |a + [c] + b| && (a + [c] + b)[i] >= 128)
       <==> (exists i :: 0 <= i < |a + [d] + b| && (a + [d] + b)[i] >= 128)
  {
    var x, y := a + [c] + b, a + [d] + b;
    assert forall i :: 0 <= i < |x| && i != |a| ==> x[i] == y[i];
  }

  lemma {:induction false} NoMore(quad: int, left: int)
    requires 0 < quad < 4
    requires (quad == 1 ==> 0 <= left < 64) && (quad == 2 ==> 0 <= left < 16) && (quad == 3 ==> 0 <= left < 4)
    ensures DecodeFrom([], quad, left, 0) == None
    ensures quad == 2 ==> DecodeFrom([EQUALS], quad, left, 0) == None
  {
    var one: Bytes := [EQUALS];
    assert one[1..] == [];
  }

  lemma {:induction false} CutGroup(a: int, b: int, c: int, d: byte, k: nat)
    requires 0 <= a < 64 && 0 <= b < 64 && 0 <= c < 64 && 1 <= k <= 3
    ensures DecodeFrom([Symbol(a), Symbol(b), Symbol(c), d][..4 - k], 0, 0, 0) == None
    ensures DecodeFrom([Symbol(a), Symbol(b), EQUALS, EQUALS][..4 - k], 0, 0, 0) == None
  {
    hide Symbol, Value, DecodeFrom;
    var all: Bytes := [Symbol(a), Symbol(b), Symbol(c), d];
    var padded: Bytes := [Symbol(a), Symbol(b), EQUALS, EQUALS];
    ReadSymbol(a, [], 0, 0);
    NoMore(1, a);
    if k == 3 {
      assert all[..1] == [Symbol(a)] + [] && padded[..1] == [Symbol(a)] + [];
    } else {
      ReadSymbol(a, [Symbol(b)], 0, 0);
      ReadSymbol(b, [], 1, a);
      NoMore(2, b % 16);
      assert [Symbol(b)] + [] == [Symbol(b)];
      if k == 2 {
        assert all[..2] == [Symbol(a)] + [Symbol(b)] && padded[..2] == [Symbol(a)] + [Symbol(b)];
      } else {
        ReadSymbol(a, [Symbol(b)] + [Symbol(c)], 0, 0);
        ReadSymbol(b, [Symbol(c)], 1, a);
        ReadSymbol(c, [], 2, b % 16);
        NoMore(3, c % 4);
        assert [Symbol(c)] + [] == [Symbol(c)];
        assert all[..3] == [Symbol(a)] + ([Symbol(b)] + [Symbol(c)]);
        var pad: Bytes := [EQUALS];
        ReadSymbol(a, [Symbol(b)] + pad, 0, 0);
        ReadSymbol(b, pad, 1, a);
        assert padded[..3] == [Symbol(a)] + ([Symbol(b)] + pad);
      }
    }
  }

  lemma {:induction false} ReadCut(s: Bytes, k: nat)
    requires s != [] && 1 <= k <= 3
    ensures |Encode(s)| >= 4 && DecodeFrom(Encode(s)[..|Encode(s)| - k], 0, 0, 0) == None
    decreases |s|
  {
    hide Symbol, Value, DecodeFrom;
    if |s| == 1 {
      CutGroup(s[0] / 4, s[0] % 4 * 16, 0, 0, k);
    } else if |s| == 2 {
      CutGroup(s[0] / 4, s[0] % 4 * 16 + s[1] / 16, s[1] % 16 * 4, EQUALS, k);
    } else {
      var (a, b, c, d) := (s[0] / 4, s[0] % 4 * 16 + s[1] / 16, s[1] % 16 * 4 + s[2] / 64, s[2] % 64);
      SixBits(s[0], s[1], s[2]);
      if |s| == 3 {
        CutGroup(a, b, c, Symbol(d), k);
        assert s[3..] == [] && Encode(s[3..]) == [];
        assert Encode(s) == [Symbol(a), Symbol(b), Symbol(c), Symbol(d)];
      } else {
        ReadCut(s[3..], k);
        var rest := Encode(s[3..]);
        ReadFour(a, b, c, d, rest[..|rest| - k]);
        assert Encode(s)[..|Encode(s)| - k] == [Symbol(a), Symbol(b), Symbol(c), Symbol(d)] + rest[..|rest| - k];
      }
    }
  }

  /** An encoding that misses its last one to three characters is refused. */
  lemma {:induction false} CutIsRefused(s: Bytes, k: nat)
    requires s != [] && 1 <= k <= 3
    ensures |Encode(s)| >= 4 && Decode(Encode(s)[..|Encode(s)| - k]) == None
  {
    ReadCut(s, k);
    hide DecodeFrom, Encode;
  }
}
