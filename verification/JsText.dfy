/** Strings as sequences of UTF-16 code units, and their UTF-8 form as `TextEncoder` writes it and a fatal `TextDecoder`
    reads it. */
module JsText {
  import opened Common

  type Unit = x: int | 0 <= x < 0x1_0000
  type Text = seq<Unit>
  type Byte = x: int | 0 <= x < 256
  type Scalar = x: int | 0 <= x < 0xD800 || 0xE000 <= x < 0x11_0000

  const REPLACEMENT: Scalar := 0xFFFD
  const BOM: Unit := 0xFEFF

  // ---- UTF-16 ----

  predicate High(u: Unit) { 0xD800 <= u < 0xDC00 }

  predicate Low(u: Unit) { 0xDC00 <= u < 0xE000 }

  /** Every surrogate is part of a pair. */
  predicate WellFormed(text: Text) {
    if text == [] then true
    else if High(text[0]) then |text| > 1 && Low(text[1]) && WellFormed(text[2..])
    else !Low(text[0]) && WellFormed(text[1..])
  }

  // The scalar values of a string; a lone surrogate reads as U+FFFD.
  function ToScalars(text: Text): seq<Scalar> {
    if text == [] then []
    else if High(text[0]) && |text| > 1 && Low(text[1]) then
      [0x1_0000 + (text[0] - 0xD800) * 0x400 + (text[1] - 0xDC00)] + ToScalars(text[2..])
    else [if High(text[0]) || Low(text[0]) then REPLACEMENT else text[0]] + ToScalars(text[1..])
  }

  function Units(s: Scalar): Text {
    if s < 0x1_0000 then [s] else [0xD800 + (s - 0x1_0000) / 0x400, 0xDC00 + (s - 0x1_0000) % 0x400]
  }

  function FromScalars(scalars: seq<Scalar>): Text {
    if scalars == [] then [] else Units(scalars[0]) + FromScalars(scalars[1..])
  }

  lemma {:induction false} ScalarsRoundTrip(scalars: seq<Scalar>)
    ensures ToScalars(FromScalars(scalars)) == scalars && WellFormed(FromScalars(scalars))
  {
    if scalars != [] {
      var s, text := scalars[0], FromScalars(scalars);
      ScalarsRoundTrip(scalars[1..]);
      if s < 0x1_0000 {
        assert text[1..] == FromScalars(scalars[1..]);
      } else {
        assert text[2..] == FromScalars(scalars[1..]);
      }
    }
  }

  /** A string is what its scalar values spell exactly when it has no lone surrogate. */
  lemma {:induction false} TextRoundTrip(text: Text)
    ensures FromScalars(ToScalars(text)) == text <==> WellFormed(text)
  {
    if text == [] {
    } else if High(text[0]) && |text| > 1 && Low(text[1]) {
      TextRoundTrip(text[2..]);
      PairRoundTrip(text);
    } else {
      TextRoundTrip(text[1..]);
      var s := ToScalars(text)[0];
      assert ToScalars(text)[1..] == ToScalars(text[1..]);
      assert text == [text[0]] + text[1..];
      assert FromScalars(ToScalars(text)) == [s] + FromScalars(ToScalars(text[1..]));
    }
  }

  lemma {:induction false} PairRoundTrip(text: Text)
    requires |text| > 1 && High(text[0]) && Low(text[1])
    ensures FromScalars(ToScalars(text)) == text <==> FromScalars(ToScalars(text[2..])) == text[2..]
  {
    var s := ToScalars(text)[0];
    assert ToScalars(text)[1..] == ToScalars(text[2..]);
    assert Units(s) == text[..2];
    assert FromScalars(ToScalars(text)) == text[..2] + FromScalars(ToScalars(text[2..]));
    assert text == text[..2] + text[2..];
    if FromScalars(ToScalars(text)) == text {
      assert FromScalars(ToScalars(text))[2..] == FromScalars(ToScalars(text[2..]));
    }
  }

  // ---- UTF-8 ----

  function EncodeScalar(s: Scalar): (r: seq<Byte>)
    ensures 1 <= |r| <= 4
  {
    if s < 0x80 then [s]
    else if s < 0x800 then [0xC0 + s / 64, Continuation(s)]
    else if s < 0x1_0000 then [0xE0 + s / 64 / 64, Continuation(s / 64), Continuation(s)]
    else [0xF0 + s / 64 / 64 / 64, Continuation(s / 64 / 64), Continuation(s / 64), Continuation(s)]
  }

  // A continuation byte carries the low six bits.
  function Continuation(n: nat): (b: Byte)
    ensures Tail(b)
  {
    0x80 + n % 64
  }

  predicate Tail(b: Byte) { 0x80 <= b < 0xC0 }

  // The bits so far, with those of one more continuation byte.
  function Extend(n: nat, b: Byte): nat
    requires Tail(b)
  {
    n * 64 + (b as int - 0x80)
  }

  function EncodeScalars(scalars: seq<Scalar>): seq<Byte> {
    if scalars == [] then [] else EncodeScalar(scalars[0]) + EncodeScalars(scalars[1..])
  }

  /** `TextEncoder.encode` */
  function Encode(text: Text): seq<Byte> {
    EncodeScalars(ToScalars(text))
  }

  // The first scalar value of a byte sequence and its width, if it is well formed.
  datatype Lead = Lead(scalar: Scalar, width: nat)

  function First(b: seq<Byte>): (r: Option<Lead>)
    requires b != []
    ensures r.Some? ==> 1 <= r.value.width <= |b|
  {
    var b0: int := b[0];
    if b0 < 0x80 then Some(Lead(b0, 1))
    else if 0xC2 <= b0 < 0xE0 then
      if |b| >= 2 && Tail(b[1]) then Some(Lead(Extend(b0 - 0xC0, b[1]), 2)) else None
    else if 0xE0 <= b0 < 0xF0 then
      if |b| >= 3 && Tail(b[1]) && Tail(b[2]) && (b0 == 0xE0 ==> b[1] >= 0xA0) && (b0 == 0xED ==> b[1] < 0xA0) then
        Some(Lead(Extend(Extend(b0 - 0xE0, b[1]), b[2]), 3))
      else None
    else if 0xF0 <= b0 < 0xF5 then
      if |b| >= 4 && Tail(b[1]) && Tail(b[2]) && Tail(b[3])
        && (b0 == 0xF0 ==> b[1] >= 0x90) && (b0 == 0xF4 ==> b[1] < 0x90)
      then
        Some(Lead(Extend(Extend(Extend(b0 - 0xF0, b[1]), b[2]), b[3]), 4))
      else None
    else None
  }

  function DecodeScalars(b: seq<Byte>): Option<seq<Scalar>>
    decreases |b|
  {
    if b == [] then Some([])
    else
      match First(b)
      case None => None
      case Some(Lead(scalar, width)) =>
        match DecodeScalars(b[width..])
        case None => None
        case Some(rest) => Some([scalar] + rest)
  }

  // The bytes of U+FEFF.
  const BOM_BYTES: seq<Byte> := [0xEF, 0xBB, 0xBF]

  function StripBom(b: seq<Byte>): seq<Byte> {
    if BOM_BYTES <= b then b[3..] else b
  }

  /** A fatal `TextDecoder.decode`: a leading byte order mark is dropped, malformed input is an error. */
  function Decode(b: seq<Byte>): Option<Text> {
    match DecodeScalars(StripBom(b))
    case None => None
    case Some(scalars) => Some(FromScalars(scalars))
  }

  lemma ExtendContinuation(n: nat)
    ensures Extend(n / 64, Continuation(n)) == n
  {
  }

  lemma SplitExtended(n: nat, b: Byte)
    requires Tail(b)
    ensures Extend(n, b) / 64 == n && Continuation(Extend(n, b)) == b
  {
  }

  lemma FirstOfEncoded(s: Scalar, rest: seq<Byte>)
    ensures First(EncodeScalar(s) + rest) == Some(Lead(s, |EncodeScalar(s)|))
  {
    ExtendContinuation(s);
    if s >= 0x800 {
      ExtendContinuation(s / 64);
      if s >= 0x1_0000 {
        ExtendContinuation(s / 64 / 64);
      }
    }
  }

  lemma EncodedOfFirst(b: seq<Byte>)
    requires b != [] && First(b).Some?
    ensures EncodeScalar(First(b).value.scalar) == b[..First(b).value.width]
  {
    var width, b0: nat := First(b).value.width, b[0];
    if width == 2 {
      SplitExtended(b0 - 0xC0, b[1]);
    } else if width == 3 {
      SplitExtended(b0 - 0xE0, b[1]);
      SplitExtended(Extend(b0 - 0xE0, b[1]), b[2]);
    } else if width == 4 {
      SplitExtended(b0 - 0xF0, b[1]);
      SplitExtended(Extend(b0 - 0xF0, b[1]), b[2]);
      SplitExtended(Extend(Extend(b0 - 0xF0, b[1]), b[2]), b[3]);
    }
  }

  lemma {:induction false} Utf8RoundTrip(scalars: seq<Scalar>)
    ensures DecodeScalars(EncodeScalars(scalars)) == Some(scalars)
  {
    if scalars != [] {
      Utf8RoundTrip(scalars[1..]);
      DecodePush(scalars[0], EncodeScalars(scalars[1..]), scalars[1..]);
      assert [scalars[0]] + scalars[1..] == scalars;
    }
  }

  lemma {:induction false} DecodePush(s: Scalar, bytes: seq<Byte>, rest: seq<Scalar>)
    requires DecodeScalars(bytes) == Some(rest)
    ensures DecodeScalars(EncodeScalar(s) + bytes) == Some([s] + rest)
  {
    FirstOfEncoded(s, bytes);
    DropFront(EncodeScalar(s), bytes);
  }

  lemma {:induction false} PushScalar(s: Scalar, rest: seq<Scalar>)
    ensures EncodeScalars([s] + rest) == EncodeScalar(s) + EncodeScalars(rest)
  {
    assert ([s] + rest)[1..] == rest;
  }

  lemma {:induction false} Utf8Onto(b: seq<Byte>)
    requires DecodeScalars(b).Some?
    ensures EncodeScalars(DecodeScalars(b).value) == b
    decreases |b|
  {
    if b != [] {
      var width := First(b).value.width;
      Utf8Onto(b[width..]);
      EncodedOfFirst(b);
      PushScalar(First(b).value.scalar, DecodeScalars(b[width..]).value);
      Halves(b, width);
    }
  }

  lemma FirstIsBom(b: seq<Byte>)
    requires b != []
    ensures First(b) == Some(Lead(0xFEFF, 3)) <==> BOM_BYTES <= b
  {
    if First(b) == Some(Lead(0xFEFF, 3)) {
      EncodedOfFirst(b);
    }
  }

  lemma {:induction false} BomFirst(scalars: seq<Scalar>)
    ensures BOM_BYTES <= EncodeScalars(scalars) <==> scalars != [] && scalars[0] == 0xFEFF
  {
    if scalars != [] {
      FirstOfEncoded(scalars[0], EncodeScalars(scalars[1..]));
      FirstIsBom(EncodeScalars(scalars));
    }
  }

  /** Replacing lone surrogates keeps the length. */
  lemma {:induction false} LengthKept(text: Text)
    ensures |FromScalars(ToScalars(text))| == |text|
  {
    if text == [] {
    } else if High(text[0]) && |text| > 1 && Low(text[1]) {
      LengthKept(text[2..]);
      assert ToScalars(text)[1..] == ToScalars(text[2..]);
    } else {
      LengthKept(text[1..]);
      assert ToScalars(text)[1..] == ToScalars(text[1..]);
    }
  }

  /** Decoding the encoding of a string returns it exactly when the string has no lone surrogate and does not start
      with a byte order mark. */
  lemma {:induction false} DecodeEncode(text: Text)
    ensures Decode(Encode(text)) == Some(text) <==> WellFormed(text) && !(text != [] && text[0] == BOM)
  {
    var scalars := ToScalars(text);
    BomFirst(scalars);
    if text != [] && text[0] == BOM {
      assert scalars == [0xFEFF] + ToScalars(text[1..]);
      StrippedDecodes(scalars);
      LengthKept(text[1..]);
    } else {
      Utf8RoundTrip(scalars);
      TextRoundTrip(text);
      if text != [] {
        FirstScalar(text);
      }
    }
  }

  lemma {:induction false} FirstScalar(text: Text)
    requires text != []
    ensures ToScalars(text) != [] && (ToScalars(text)[0] == 0xFEFF <==> text[0] == BOM)
  {
  }

  lemma {:induction false} StrippedDecodes(scalars: seq<Scalar>)
    requires scalars != [] && scalars[0] == 0xFEFF
    ensures DecodeScalars(StripBom(EncodeScalars(scalars))) == Some(scalars[1..])
  {
    BomFirst(scalars);
    assert EncodeScalars(scalars)[3..] == EncodeScalars(scalars[1..]);
    Utf8RoundTrip(scalars[1..]);
  }

  /** What the decoder accepts is, apart from a byte order mark in front, the encoding of what it returns. */
  lemma EncodeDecode(b: seq<Byte>)
    requires Decode(b).Some?
    ensures WellFormed(Decode(b).value) && Encode(Decode(b).value) == StripBom(b)
  {
    ScalarsRoundTrip(DecodeScalars(StripBom(b)).value);
    Utf8Onto(StripBom(b));
  }
}
