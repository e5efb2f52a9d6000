/** The URL-safe base64 of section 5 of RFC 4648 without padding, as `btoa` and `atob` with their character replacements
    produce and read it: bytes are regrouped into sextets, and each sextet is one digit. */
module Base64Url {
  import opened Common
  import opened JsText

  type Sextet = x: int | 0 <= x < 64

  // ---- The alphabet: A-Z, a-z, 0-9, '-' and '_' ----

  function Digit(v: Sextet): Unit {
    if v < 26 then 65 + v
    else if v < 52 then 97 + (v - 26)
    else if v < 62 then 48 + (v - 52)
    else if v == 62 then 45
    else 95
  }

  predicate IsDigit(u: Unit) {
    65 <= u <= 90 || 97 <= u <= 122 || 48 <= u <= 57 || u == 45 || u == 95
  }

  function Value(u: Unit): (v: Sextet)
    requires IsDigit(u)
    ensures Digit(v) == u
  {
    if 65 <= u <= 90 then u - 65
    else if 97 <= u <= 122 then u - 97 + 26
    else if 48 <= u <= 57 then u - 48 + 52
    else if u == 45 then 62
    else 63
  }

  predicate AllDigits(key: Text) {
    forall i | 0 <= i < |key| :: IsDigit(key[i])
  }

  function Digits(s: seq<Sextet>): (key: Text)
    ensures |key| == |s|
  {
    seq(|s|, i requires 0 <= i < |s| => Digit(s[i]))
  }

  function Values(key: Text): (s: seq<Sextet>)
    requires AllDigits(key)
    ensures |s| == |key|
  {
    seq(|key|, i requires 0 <= i < |key| => Value(key[i]))
  }

  lemma DigitIsDigit(v: Sextet)
    ensures IsDigit(Digit(v)) && Value(Digit(v)) == v
  {
  }

  lemma ValuesOfDigits(s: seq<Sextet>)
    ensures AllDigits(Digits(s)) && Values(Digits(s)) == s
  {
    forall i | 0 <= i < |s| ensures IsDigit(Digits(s)[i]) && Value(Digits(s)[i]) == s[i] {
      DigitIsDigit(s[i]);
    }
  }

  lemma DigitsOfValues(key: Text)
    requires AllDigits(key)
    ensures Digits(Values(key)) == key
  {
  }

  // ---- Bytes as sextets ----

  // The two sextets in the middle of a group: the bits of two neighbouring bytes.
  function Second(b0: Byte, b1: Byte): Sextet {
    b0 % 4 * 16 + b1 / 16
  }

  function Third(b1: Byte, b2: Byte): Sextet {
    b1 % 16 * 4 + b2 / 64
  }

  // The bytes of a group: the bits of two neighbouring sextets.
  function ByteOne(v0: Sextet, v1: Sextet): Byte {
    v0 * 4 + v1 / 16
  }

  function ByteTwo(v1: Sextet, v2: Sextet): Byte {
    v1 % 16 * 16 + v2 / 4
  }

  function ByteThree(v2: Sextet, v3: Sextet): Byte {
    v2 % 4 * 64 + v3
  }

  function FourSextets(b0: Byte, b1: Byte, b2: Byte): (s: seq<Sextet>)
    ensures |s| == 4
  {
    [b0 / 4, Second(b0, b1), Third(b1, b2), b2 % 64]
  }

  function ThreeBytes(v0: Sextet, v1: Sextet, v2: Sextet, v3: Sextet): (b: seq<Byte>)
    ensures |b| == 3
  {
    [ByteOne(v0, v1), ByteTwo(v1, v2), ByteThree(v2, v3)]
  }

  lemma FourMore(n: nat)
    ensures (4 + n) % 4 == n % 4
  {
  }

  function Sextets(b: seq<Byte>): (s: seq<Sextet>)
    ensures |s| % 4 != 1 && (b == [] <==> s == [])
  {
    if b == [] then []
    else if |b| == 1 then [b[0] / 4, Second(b[0], 0)]
    else if |b| == 2 then [b[0] / 4, Second(b[0], b[1]), Third(b[1], 0)]
    else
      var rest := Sextets(b[3..]);
      FourMore(|rest|);
      FourSextets(b[0], b[1], b[2]) + rest
  }

  // Bits left over after the last whole byte are dropped.
  function Bytes(s: seq<Sextet>): seq<Byte>
    requires |s| % 4 != 1
  {
    if s == [] then []
    else if |s| == 2 then [ByteOne(s[0], s[1])]
    else if |s| == 3 then [ByteOne(s[0], s[1]), ByteTwo(s[1], s[2])]
    else ThreeBytes(s[0], s[1], s[2], s[3]) + Bytes(s[4..])
  }

  /** The unpadded digits of a byte sequence. */
  function EncodeBytes(b: seq<Byte>): (key: Text)
    ensures AllDigits(key) && |key| % 4 != 1 && (b == [] <==> key == [])
  {
    ValuesOfDigits(Sextets(b));
    Digits(Sextets(b))
  }

  /** `atob` of the padded key. */
  function DecodeBytes(key: Text): seq<Byte>
    requires AllDigits(key) && |key| % 4 != 1
  {
    Bytes(Values(key))
  }

  /** The pad bits of section 3.5 of RFC 4648 are zero. */
  predicate ZeroPadBits(key: Text)
    requires AllDigits(key) && |key| % 4 != 1
  {
    ZeroRest(Values(key))
  }

  // The bits that belong to no byte.
  predicate ZeroRest(s: seq<Sextet>) {
    && (|s| % 4 == 2 ==> s[|s| - 1] % 16 == 0)
    && (|s| % 4 == 3 ==> s[|s| - 1] % 4 == 0)
  }

  // ---- The arithmetic of one group ----

  lemma BytesOfSextets(b0: Byte, b1: Byte, b2: Byte)
    ensures ByteOne(b0 / 4, Second(b0, b1)) == b0
    ensures ByteTwo(Second(b0, b1), Third(b1, b2)) == b1
    ensures ByteThree(Third(b1, b2), b2 % 64) == b2
  {
  }

  lemma SextetsOfBytes(v0: Sextet, v1: Sextet, v2: Sextet, v3: Sextet)
    ensures ByteOne(v0, v1) / 4 == v0
    ensures Second(ByteOne(v0, v1), ByteTwo(v1, v2)) == v1
    ensures Third(ByteTwo(v1, v2), ByteThree(v2, v3)) == v2
    ensures ByteThree(v2, v3) % 64 == v3
  {
  }

  // What is left of the last sextet of a short group.
  lemma RestDropped(v0: Sextet, v1: Sextet)
    ensures Second(ByteOne(v0, v1), 0) == v1 - v1 % 16
  {
  }

  lemma RestOfThreeDropped(v1: Sextet, v2: Sextet)
    ensures Third(ByteTwo(v1, v2), 0) == v2 - v2 % 4
  {
  }

  // ---- Round trips ----

  lemma BytesRoundTrip(b: seq<Byte>)
    ensures DecodeBytes(EncodeBytes(b)) == b
  {
    ValuesOfDigits(Sextets(b));
    SextetsRoundTrip(b);
  }

  lemma {:induction false} SextetsRoundTrip(b: seq<Byte>)
    ensures Bytes(Sextets(b)) == b
    decreases |b|
  {
    if |b| >= 3 {
      SextetsRoundTrip(b[3..]);
      BytesOfGroup(b[0], b[1], b[2], Sextets(b[3..]));
      assert b == [b[0], b[1], b[2]] + b[3..];
    } else if b != [] {
      ShortRoundTrip(b);
    }
  }

  lemma {:induction false} ShortRoundTrip(b: seq<Byte>)
    requires |b| == 1 || |b| == 2
    ensures Bytes(Sextets(b)) == b
  {
    if |b| == 2 {
      BytesOfPair(b[0], b[1]);
    } else {
      BytesOfOne(b[0]);
    }
  }

  lemma BytesOfPair(b0: Byte, b1: Byte)
    ensures Bytes([b0 / 4, Second(b0, b1), Third(b1, 0)]) == [b0, b1]
  {
    BytesOfSextets(b0, b1, 0);
    BytesOfTriple(b0 / 4, Second(b0, b1), Third(b1, 0));
  }

  lemma BytesOfTriple(v0: Sextet, v1: Sextet, v2: Sextet)
    ensures Bytes([v0, v1, v2]) == [ByteOne(v0, v1), ByteTwo(v1, v2)]
  {
  }

  lemma BytesOfOne(b0: Byte)
    ensures Bytes([b0 / 4, Second(b0, 0)]) == [b0]
  {
    BytesOfSextets(b0, 0, 0);
  }

  lemma {:induction false} BytesOfGroup(b0: Byte, b1: Byte, b2: Byte, rest: seq<Sextet>)
    requires |rest| % 4 != 1
    ensures |FourSextets(b0, b1, b2) + rest| % 4 != 1
    ensures Bytes(FourSextets(b0, b1, b2) + rest) == [b0, b1, b2] + Bytes(rest)
  {
    BytesOfFour(b0 / 4, Second(b0, b1), Third(b1, b2), b2 % 64, rest);
    BytesOfSextets(b0, b1, b2);
  }

  lemma {:induction false} BytesOfFour(v0: Sextet, v1: Sextet, v2: Sextet, v3: Sextet, rest: seq<Sextet>)
    requires |rest| % 4 != 1
    ensures |[v0, v1, v2, v3] + rest| % 4 != 1
    ensures Bytes([v0, v1, v2, v3] + rest) == ThreeBytes(v0, v1, v2, v3) + Bytes(rest)
  {
    DropFront([v0, v1, v2, v3], rest);
  }

  /** Encoding what a key decodes to returns the key exactly when its pad bits are zero. */
  lemma CanonicalIffZeroPadBits(key: Text)
    requires AllDigits(key) && |key| % 4 != 1
    ensures EncodeBytes(DecodeBytes(key)) == key <==> ZeroPadBits(key)
  {
    DigitsOfValues(key);
    ValuesOfDigits(Sextets(Bytes(Values(key))));
    CanonicalIffZeroRest(Values(key));
  }

  lemma {:induction false} CanonicalIffZeroRest(s: seq<Sextet>)
    requires |s| % 4 != 1
    ensures Sextets(Bytes(s)) == s <==> ZeroRest(s)
    decreases |s|
  {
    if |s| >= 4 {
      CanonicalIffZeroRest(s[4..]);
      SextetsOfGroup(s[0], s[1], s[2], s[3], Bytes(s[4..]));
      SameTails([s[0], s[1], s[2], s[3]], Sextets(Bytes(s[4..])), s[4..]);
      assert s == [s[0], s[1], s[2], s[3]] + s[4..];
      RestAtEnd(s);
    } else if s != [] {
      ShortCanonical(s);
    }
  }

  lemma {:induction false} ShortCanonical(s: seq<Sextet>)
    requires |s| == 2 || |s| == 3
    ensures Sextets(Bytes(s)) == s <==> ZeroRest(s)
  {
    if |s| == 3 {
      TripleCanonical(s[0], s[1], s[2]);
      assert s == [s[0], s[1], s[2]];
    } else {
      PairCanonical(s[0], s[1]);
      assert s == [s[0], s[1]];
    }
  }

  lemma {:induction false} SextetsOfGroup(v0: Sextet, v1: Sextet, v2: Sextet, v3: Sextet, rest: seq<Byte>)
    ensures Sextets(ThreeBytes(v0, v1, v2, v3) + rest) == [v0, v1, v2, v3] + Sextets(rest)
  {
    SextetsOfThree(ByteOne(v0, v1), ByteTwo(v1, v2), ByteThree(v2, v3), rest);
    SextetsOfBytes(v0, v1, v2, v3);
  }

  lemma {:induction false} SextetsOfThree(b0: Byte, b1: Byte, b2: Byte, rest: seq<Byte>)
    ensures Sextets([b0, b1, b2] + rest) == FourSextets(b0, b1, b2) + Sextets(rest)
  {
    DropFront([b0, b1, b2], rest);
  }

  lemma TripleCanonical(v0: Sextet, v1: Sextet, v2: Sextet)
    ensures Sextets(Bytes([v0, v1, v2])) == [v0, v1, v2] <==> v2 % 4 == 0
  {
    SextetsOfBytes(v0, v1, v2, 0);
    RestOfThreeDropped(v1, v2);
  }

  lemma PairCanonical(v0: Sextet, v1: Sextet)
    ensures Sextets(Bytes([v0, v1])) == [v0, v1] <==> v1 % 16 == 0
  {
    SextetsOfBytes(v0, v1, 0, 0);
    RestDropped(v0, v1);
  }

  lemma RestAtEnd(s: seq<Sextet>)
    requires |s| % 4 != 1 && |s| >= 4
    ensures |s[4..]| % 4 != 1 && (ZeroRest(s) <==> ZeroRest(s[4..]))
  {
    assert |s[4..]| % 4 == |s| % 4;
  }

  lemma SameTails(front: seq<Sextet>, a: seq<Sextet>, b: seq<Sextet>)
    ensures front + a == front + b <==> a == b
  {
    DropFront(front, a);
    DropFront(front, b);
  }
}
