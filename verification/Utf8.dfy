/** `utf8_next` of src/oled.c against section 4 of RFC 3629. Text is a C string: bytes other
    than NUL, with a NUL standing after the last one. */
module Utf8 {
  import opened Options

  type Byte = bv8
  type Text = seq<Byte>

  predicate NoNul(s: Text) {
    forall i :: 0 <= i < |s| ==> s[i] != 0
  }

  /** Reading a C string; one may look at the terminator and no further. */
  function At(s: Text, i: nat): Byte
    requires i <= |s|
  {
    if i < |s| then s[i] else 0
  }

  // ---------------------------------------------------------------- the decoder

  datatype Decoded = End | Malformed | Char(cp: bv32, length: nat)

  predicate Continues(b: Byte) {
    (b & 0xC0) == 0x80
  }

  function Decode2(a: Byte, b: Byte): bv32 {
    (((a & 0x1F) as bv32) << 6) | ((b & 0x3F) as bv32)
  }

  function Decode3(a: Byte, b: Byte, c: Byte): bv32 {
    (((a & 0x0F) as bv32) << 12) | (((b & 0x3F) as bv32) << 6) | ((c & 0x3F) as bv32)
  }

  function Decode4(a: Byte, b: Byte, c: Byte, d: Byte): bv32 {
    (((a & 0x07) as bv32) << 18) | (((b & 0x3F) as bv32) << 12) | (((c & 0x3F) as bv32) << 6) | ((d & 0x3F) as bv32)
  }

  /** `utf8_next`. */
  function Next(s: Text): (r: Decoded)
    requires NoNul(s)
    ensures r.Char? ==> 1 <= r.length <= 4 && r.length <= |s|
  {
    var a := At(s, 0);
    if a == 0 then End
    else if a < 0x80 then Char(a as bv32, 1)
    else if (a & 0xE0) == 0xC0 then
      if At(s, 1) == 0 || !Continues(At(s, 1)) then Malformed
      else
        var cp := Decode2(a, s[1]);
        if cp < 0x80 then Malformed else Char(cp, 2)
    else if (a & 0xF0) == 0xE0 then
      if At(s, 1) == 0 || At(s, 2) == 0 || !Continues(At(s, 1)) || !Continues(At(s, 2)) then Malformed
      else
        var cp := Decode3(a, s[1], s[2]);
        if cp < 0x800 || (0xD800 <= cp && cp <= 0xDFFF) then Malformed else Char(cp, 3)
    else if (a & 0xF8) == 0xF0 then
      if At(s, 1) == 0 || At(s, 2) == 0 || At(s, 3) == 0
         || !Continues(At(s, 1)) || !Continues(At(s, 2)) || !Continues(At(s, 3)) then Malformed
      else
        var cp := Decode4(a, s[1], s[2], s[3]);
        if cp < 0x10000 || cp > 0x10FFFF then Malformed else Char(cp, 4)
    else Malformed
  }

  // ---------------------------------------------------------------- RFC 3629

  predicate Tail(b: Byte) {
    0x80 <= b && b <= 0xBF
  }

  predicate Within(b: Byte, lo: Byte, hi: Byte) {
    lo <= b && b <= hi
  }

  /** UTF8-char of section 4, without the NUL. */
  predicate Utf8Char(s: Text) {
    || (|s| == 1 && Within(s[0], 0x01, 0x7F))
    || (|s| == 2 && Within(s[0], 0xC2, 0xDF) && Tail(s[1]))
    || (|s| == 3 && Tail(s[2]) &&
        (|| (s[0] == 0xE0 && Within(s[1], 0xA0, 0xBF))
         || (Within(s[0], 0xE1, 0xEC) && Tail(s[1]))
         || (s[0] == 0xED && Within(s[1], 0x80, 0x9F))
         || (Within(s[0], 0xEE, 0xEF) && Tail(s[1]))))
    || (|s| == 4 && Tail(s[2]) && Tail(s[3]) &&
        (|| (s[0] == 0xF0 && Within(s[1], 0x90, 0xBF))
         || (Within(s[0], 0xF1, 0xF3) && Tail(s[1]))
         || (s[0] == 0xF4 && Within(s[1], 0x80, 0x8F))))
  }

  /** Unicode scalar values other than NUL. */
  predicate Scalar(cp: bv32) {
    0 < cp && cp <= 0x10FFFF && !(0xD800 <= cp && cp <= 0xDFFF)
  }

  /** The encoder of section 3. */
  function Encode(cp: bv32): (s: Text)
    requires Scalar(cp)
    ensures 1 <= |s| <= 4
  {
    if cp < 0x80 then [Low(cp)]
    else if cp < 0x800 then [0xC0 | Low(cp >> 6), Trail(cp)]
    else if cp < 0x10000 then [0xE0 | Low(cp >> 12), Trail(cp >> 6), Trail(cp)]
    else [0xF0 | Low(cp >> 18), Trail(cp >> 12), Trail(cp >> 6), Trail(cp)]
  }

  function Low(x: bv32): Byte {
    (x & 0xFF) as bv8
  }

  function Trail(x: bv32): Byte {
    0x80 | ((x & 0x3F) as bv8)
  }

  // ---------------------------------------------------------------- decoder and RFC agree

  lemma TailBits(b: Byte)
    ensures Continues(b) <==> Tail(b)
    ensures Continues(b) ==> b != 0
  {
  }

  lemma LeadBits(a: Byte)
    ensures (a & 0xE0) == 0xC0 <==> Within(a, 0xC0, 0xDF)
    ensures (a & 0xF0) == 0xE0 <==> Within(a, 0xE0, 0xEF)
    ensures (a & 0xF8) == 0xF0 <==> Within(a, 0xF0, 0xF7)
  {
  }

  lemma Range2(a: Byte, b: Byte)
    requires Within(a, 0xC0, 0xDF) && Tail(b)
    ensures Decode2(a, b) >= 0x80 <==> Within(a, 0xC2, 0xDF)
    ensures Decode2(a, b) < 0x800
  {
  }

  lemma Range3(a: Byte, b: Byte, c: Byte)
    requires Within(a, 0xE0, 0xEF) && Tail(b) && Tail(c)
    ensures Decode3(a, b, c) >= 0x800 <==> (a != 0xE0 || Within(b, 0xA0, 0xBF))
    ensures (0xD800 <= Decode3(a, b, c) && Decode3(a, b, c) <= 0xDFFF) <==> (a == 0xED && Within(b, 0xA0, 0xBF))
    ensures Decode3(a, b, c) < 0x10000
  {
  }

  lemma Range4(a: Byte, b: Byte, c: Byte, d: Byte)
    requires Within(a, 0xF0, 0xF7) && Tail(b) && Tail(c) && Tail(d)
    ensures Decode4(a, b, c, d) >= 0x10000 <==> (a != 0xF0 || Within(b, 0x90, 0xBF))
    ensures Decode4(a, b, c, d) <= 0x10FFFF <==> (a < 0xF4 || (a == 0xF4 && Within(b, 0x80, 0x8F)))
  {
  }

  lemma Inverse2(a: Byte, b: Byte)
    requires Within(a, 0xC0, 0xDF) && Tail(b)
    ensures 0xC0 | Low(Decode2(a, b) >> 6) == a && Trail(Decode2(a, b)) == b
  {
  }

  lemma Inverse3(a: Byte, b: Byte, c: Byte)
    requires Within(a, 0xE0, 0xEF) && Tail(b) && Tail(c)
    ensures var cp := Decode3(a, b, c);
      0xE0 | Low(cp >> 12) == a && Trail(cp >> 6) == b && Trail(cp) == c
  {
  }

  lemma Inverse4(a: Byte, b: Byte, c: Byte, d: Byte)
    requires Within(a, 0xF0, 0xF7) && Tail(b) && Tail(c) && Tail(d)
    ensures var cp := Decode4(a, b, c, d);
      0xF0 | Low(cp >> 18) == a && Trail(cp >> 12) == b && Trail(cp >> 6) == c && Trail(cp) == d
  {
  }

  lemma Forward1(cp: bv32)
    requires 0 < cp < 0x80
    ensures Within(Low(cp), 0x01, 0x7F) && Low(cp) as bv32 == cp
  {
  }

  lemma Forward2(cp: bv32)
    requires 0x80 <= cp < 0x800
    ensures Within(0xC0 | Low(cp >> 6), 0xC0, 0xDF) && Tail(Trail(cp))
    ensures Decode2(0xC0 | Low(cp >> 6), Trail(cp)) == cp
  {
  }

  lemma Forward3(cp: bv32)
    requires 0x800 <= cp < 0x10000
    ensures Within(0xE0 | Low(cp >> 12), 0xE0, 0xEF) && Tail(Trail(cp >> 6)) && Tail(Trail(cp))
    ensures Decode3(0xE0 | Low(cp >> 12), Trail(cp >> 6), Trail(cp)) == cp
  {
  }

  lemma Forward4(cp: bv32)
    requires 0x10000 <= cp <= 0x10FFFF
    ensures Within(0xF0 | Low(cp >> 18), 0xF0, 0xF7)
    ensures Tail(Trail(cp >> 12)) && Tail(Trail(cp >> 6)) && Tail(Trail(cp))
    ensures Decode4(0xF0 | Low(cp >> 18), Trail(cp >> 12), Trail(cp >> 6), Trail(cp)) == cp
  {
  }

  /** The bytes the branch for length 2 lets through. */
  predicate Sound2(a: Byte, b: Byte) {
    && Within(a, 0xC0, 0xDF) && Tail(b)
    && var cp := Decode2(a, b); cp >= 0x80
  }

  lemma Shape2(s: Text)
    requires NoNul(s) && Next(s).Char? && Next(s).length == 2
    ensures Sound2(s[0], s[1]) && Next(s).cp == Decode2(s[0], s[1])
  {
    hide Decode2;
    LeadBits(s[0]);
    TailBits(s[1]);
  }

  lemma Grammar2(a: Byte, b: Byte)
    requires Sound2(a, b)
    ensures Utf8Char([a, b]) && Scalar(Decode2(a, b))
  {
    Range2(a, b);
    hide Decode2;
  }

  lemma Recode2(a: Byte, b: Byte)
    requires Sound2(a, b)
    ensures Scalar(Decode2(a, b)) && Encode(Decode2(a, b)) == [a, b]
  {
    Range2(a, b);
    Inverse2(a, b);
    hide Decode2, Low, Trail;
  }

  lemma Accepted2(s: Text)
    requires NoNul(s) && Next(s).Char? && Next(s).length == 2
    ensures Utf8Char(s[..2]) && Scalar(Next(s).cp) && Encode(Next(s).cp) == s[..2]
  {
    hide Next, Decode2, Utf8Char, Encode, Sound2, Scalar;
    Shape2(s);
    Grammar2(s[0], s[1]);
    Recode2(s[0], s[1]);
    assert s[..2] == [s[0], s[1]];
  }

  /** The bytes the branch for length 3 lets through. */
  predicate Sound3(a: Byte, b: Byte, c: Byte) {
    && Within(a, 0xE0, 0xEF) && Tail(b) && Tail(c)
    && var cp := Decode3(a, b, c); cp >= 0x800 && !(0xD800 <= cp && cp <= 0xDFFF)
  }

  lemma Shape3(s: Text)
    requires NoNul(s) && Next(s).Char? && Next(s).length == 3
    ensures Sound3(s[0], s[1], s[2]) && Next(s).cp == Decode3(s[0], s[1], s[2])
  {
    hide Decode3;
    LeadBits(s[0]);
    TailBits(s[1]);
    TailBits(s[2]);
  }

  lemma Grammar3(a: Byte, b: Byte, c: Byte)
    requires Sound3(a, b, c)
    ensures Utf8Char([a, b, c]) && Scalar(Decode3(a, b, c))
  {
    Range3(a, b, c);
    hide Decode3;
  }

  lemma Recode3(a: Byte, b: Byte, c: Byte)
    requires Sound3(a, b, c)
    ensures Scalar(Decode3(a, b, c)) && Encode(Decode3(a, b, c)) == [a, b, c]
  {
    Range3(a, b, c);
    Inverse3(a, b, c);
    hide Decode3, Low, Trail;
  }

  lemma Accepted3(s: Text)
    requires NoNul(s) && Next(s).Char? && Next(s).length == 3
    ensures Utf8Char(s[..3]) && Scalar(Next(s).cp) && Encode(Next(s).cp) == s[..3]
  {
    hide Next, Decode3, Utf8Char, Encode, Sound3, Scalar;
    Shape3(s);
    Grammar3(s[0], s[1], s[2]);
    Recode3(s[0], s[1], s[2]);
    assert s[..3] == [s[0], s[1], s[2]];
  }

  /** The bytes the branch for length 4 lets through. */
  predicate Sound4(a: Byte, b: Byte, c: Byte, d: Byte) {
    && Within(a, 0xF0, 0xF7) && Tail(b) && Tail(c) && Tail(d)
    && var cp := Decode4(a, b, c, d); 0x10000 <= cp && cp <= 0x10FFFF
  }

  lemma Shape4(s: Text)
    requires NoNul(s) && Next(s).Char? && Next(s).length == 4
    ensures Sound4(s[0], s[1], s[2], s[3]) && Next(s).cp == Decode4(s[0], s[1], s[2], s[3])
  {
    hide Decode4;
    LeadBits(s[0]);
    TailBits(s[1]);
    TailBits(s[2]);
    TailBits(s[3]);
  }

  lemma Grammar4(a: Byte, b: Byte, c: Byte, d: Byte)
    requires Sound4(a, b, c, d)
    ensures Utf8Char([a, b, c, d]) && Scalar(Decode4(a, b, c, d))
  {
    Range4(a, b, c, d);
    hide Decode4;
  }

  lemma Recode4(a: Byte, b: Byte, c: Byte, d: Byte)
    requires Sound4(a, b, c, d)
    ensures Scalar(Decode4(a, b, c, d)) && Encode(Decode4(a, b, c, d)) == [a, b, c, d]
  {
    Range4(a, b, c, d);
    Inverse4(a, b, c, d);
    hide Decode4, Low, Trail;
  }

  lemma Accepted4(s: Text)
    requires NoNul(s) && Next(s).Char? && Next(s).length == 4
    ensures Utf8Char(s[..4]) && Scalar(Next(s).cp) && Encode(Next(s).cp) == s[..4]
  {
    hide Next, Decode4, Utf8Char, Encode, Sound4, Scalar;
    Shape4(s);
    Grammar4(s[0], s[1], s[2], s[3]);
    Recode4(s[0], s[1], s[2], s[3]);
    assert s[..4] == [s[0], s[1], s[2], s[3]];
  }

  /** What is accepted is a UTF8-char, and it is the encoding of the code point returned. */
  lemma AcceptedIsUtf8(s: Text)
    requires NoNul(s) && Next(s).Char?
    ensures var r := Next(s);
      Utf8Char(s[..r.length]) && Scalar(r.cp) && Encode(r.cp) == s[..r.length]
  {
    hide Next, Utf8Char, Scalar, Encode;
    if Next(s).length == 1 {
      Shape1(s);
    } else if Next(s).length == 2 {
      Accepted2(s);
    } else if Next(s).length == 3 {
      Accepted3(s);
    } else {
      Accepted4(s);
    }
  }

  lemma Shape1(s: Text)
    requires NoNul(s) && Next(s).Char? && Next(s).length == 1
    ensures Utf8Char(s[..1]) && Scalar(Next(s).cp) && Encode(Next(s).cp) == s[..1]
  {
  }

  /** Every text that starts with a UTF8-char is accepted, with that length. */
  lemma Utf8IsAccepted(s: Text, n: nat)
    requires NoNul(s) && n <= |s| && Utf8Char(s[..n])
    ensures Next(s).Char? && Next(s).length == n
  {
    var c := s[..n];
    assert forall i :: 0 <= i < n ==> c[i] == s[i];
    LeadBits(s[0]);
    if n == 2 {
      TailBits(s[1]);
      Range2(s[0], s[1]);
    } else if n == 3 {
      TailBits(s[1]);
      TailBits(s[2]);
      Range3(s[0], s[1], s[2]);
    } else if n == 4 {
      TailBits(s[1]);
      TailBits(s[2]);
      TailBits(s[3]);
      Range4(s[0], s[1], s[2], s[3]);
    }
  }

  /** `utf8_next` accepts exactly the sequences of section 4 of RFC 3629. */
  lemma AcceptsExactly(s: Text)
    requires NoNul(s)
    ensures Next(s).Char? <==> exists n :: 0 <= n <= |s| && Utf8Char(s[..n])
    ensures Next(s).End? <==> s == []
  {
    if Next(s).Char? {
      AcceptedIsUtf8(s);
    }
    if n :| 0 <= n <= |s| && Utf8Char(s[..n]) {
      Utf8IsAccepted(s, n);
    }
  }

  lemma EncodeIsUtf8(cp: bv32)
    requires Scalar(cp)
    ensures Utf8Char(Encode(cp)) && NoNul(Encode(cp))
  {
    var s := Encode(cp);
    if cp < 0x80 {
      Forward1(cp);
    } else if cp < 0x800 {
      Forward2(cp);
      Range2(s[0], s[1]);
    } else if cp < 0x10000 {
      Forward3(cp);
      Range3(s[0], s[1], s[2]);
    } else {
      Forward4(cp);
      Range4(s[0], s[1], s[2], s[3]);
    }
  }

  /** Decoding is the inverse of encoding, for every scalar value and whatever follows. */
  lemma DecodesEncoding(cp: bv32, rest: Text)
    requires Scalar(cp) && NoNul(rest)
    ensures NoNul(Encode(cp) + rest) && Next(Encode(cp) + rest) == Char(cp, |Encode(cp)|)
  {
    var c := Encode(cp);
    var s := c + rest;
    EncodeIsUtf8(cp);
    assert s[..|c|] == c;
    Utf8IsAccepted(s, |c|);
    if cp < 0x80 {
      Forward1(cp);
    } else if cp < 0x800 {
      Forward2(cp);
    } else if cp < 0x10000 {
      Forward3(cp);
    } else {
      Forward4(cp);
    }
  }

  // ---------------------------------------------------------------- whole texts

  function DecodeAll(s: Text): Option<seq<bv32>>
    requires NoNul(s)
    decreases |s|
  {
    match Next(s)
    case End => Some([])
    case Malformed => None
    case Char(cp, n) =>
      match DecodeAll(s[n..])
      case None => None
      case Some(rest) => Some([cp] + rest)
  }

  function EncodeAll(cps: seq<bv32>): Text
    requires Scalars(cps)
  {
    if cps == [] then [] else Encode(cps[0]) + EncodeAll(cps[1..])
  }

  /** Any sequence of scalar values is recovered from its encoding. */
  lemma {:induction false} EncodeThenDecode(cps: seq<bv32>)
    requires Scalars(cps)
    ensures NoNul(EncodeAll(cps)) && DecodeAll(EncodeAll(cps)) == Some(cps)
  {
    hide Encode, Next, Scalar;
    if cps == [] {
      AcceptsExactly([]);
    } else {
      var tail := cps[1..];
      EncodeThenDecode(tail);
      var rest := EncodeAll(tail);
      DecodesEncoding(cps[0], rest);
      var s := Encode(cps[0]) + rest;
      assert EncodeAll(cps) == s;
      assert s[|Encode(cps[0])|..] == rest;
      assert DecodeAll(s) == Some([cps[0]] + tail);
      assert [cps[0]] + tail == cps;
    }
  }

  predicate Scalars(cps: seq<bv32>) {
    forall i :: 0 <= i < |cps| ==> Scalar(cps[i])
  }

  lemma EncodeAllCons(cp: bv32, rest: seq<bv32>)
    requires Scalar(cp) && Scalars(rest)
    ensures Scalars([cp] + rest) && EncodeAll([cp] + rest) == Encode(cp) + EncodeAll(rest)
  {
  }

  lemma DecodeAllSteps(s: Text)
    requires NoNul(s) && DecodeAll(s).Some? && s != []
    ensures Next(s).Char?
    ensures var r := Next(s);
      DecodeAll(s[r.length..]).Some? && DecodeAll(s).value == [r.cp] + DecodeAll(s[r.length..]).value
  {
  }

  lemma NothingDecodes()
    ensures DecodeAll([]) == Some([]) && Scalars([]) && EncodeAll([]) == []
  {
  }

  /** Repeated decoding ends with the one code point sequence the text encodes, or an error. */
  lemma {:induction false} DecodeThenEncode(s: Text)
    requires NoNul(s) && DecodeAll(s).Some?
    ensures Scalars(DecodeAll(s).value) && EncodeAll(DecodeAll(s).value) == s
    decreases |s|
  {
    hide Encode, Scalar, Next, DecodeAll, EncodeAll, Utf8Char, Scalars;
    if s == [] {
      NothingDecodes();
    } else {
      DecodeAllSteps(s);
      var r := Next(s);
      AcceptedIsUtf8(s);
      DecodeThenEncode(s[r.length..]);
      EncodeAllCons(r.cp, DecodeAll(s[r.length..]).value);
      assert s == s[..r.length] + s[r.length..];
    }
  }
}
