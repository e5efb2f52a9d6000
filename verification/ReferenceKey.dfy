/** The stable reference keys of the composer: ids of skills and agents as base64url text. Unicode normalization is a
    function parameter. */
module ReferenceKey {
  import opened Common
  import opened JsText
  import opened Base64Url

  datatype Kind = Skill | Agent

  ghost predicate Idempotent(nfc: Text -> Text) {
    forall x: Text :: nfc(nfc(x)) == nfc(x)
  }

  /** The URL-safe base64 of a string's UTF-8 form. */
  function EncodeText(text: Text): Text {
    EncodeBytes(Encode(text))
  }

  /** `stableComposerReferenceKey` */
  function Key(nfc: Text -> Text, stableId: Text, kind: Kind): Text {
    EncodeText(if kind == Skill then nfc(stableId) else stableId)
  }

  /** `stableComposerReferenceId` */
  function Id(nfc: Text -> Text, key: Text, kind: Kind): Option<Text> {
    if key == [] || !AllDigits(key) || |key| % 4 == 1 then None
    else
      match Decode(DecodeBytes(key))
      case None => None
      case Some(stableId) =>
        if stableId == [] || (kind == Skill && stableId != nfc(stableId)) then None
        else if EncodeText(stableId) == key then Some(stableId)
        else None
  }

  // ---- Which ids have a key ----

  /** The ids that survive the codec. */
  predicate ValidId(nfc: Text -> Text, stableId: Text, kind: Kind) {
    && stableId != []
    && WellFormed(stableId)
    && stableId[0] != BOM
    && (kind == Skill ==> nfc(stableId) == stableId)
  }

  lemma EncodeNonEmpty(text: Text)
    requires text != []
    ensures Encode(text) != [] && EncodeText(text) != []
  {
  }

  lemma IdOfEncoded(nfc: Text -> Text, stableId: Text, kind: Kind)
    requires ValidId(nfc, stableId, kind)
    ensures Id(nfc, EncodeText(stableId), kind) == Some(stableId)
  {
    EncodeNonEmpty(stableId);
    BytesRoundTrip(Encode(stableId));
    DecodeEncode(stableId);
  }

  lemma IdIsValid(nfc: Text -> Text, key: Text, kind: Kind)
    ensures Id(nfc, key, kind).Some? ==>
      ValidId(nfc, Id(nfc, key, kind).value, kind) && EncodeText(Id(nfc, key, kind).value) == key
  {
    if Id(nfc, key, kind).Some? {
      var b, stableId := DecodeBytes(key), Id(nfc, key, kind).value;
      EncodeDecode(b);
      BytesRoundTrip(Encode(stableId));
      assert Encode(stableId) == b;
      DecodeEncode(stableId);
    }
  }

  /** The codec is a bijection: a key is accepted with an id exactly when the id is valid and the key is its
      encoding. */
  lemma AcceptedIffEncoded(nfc: Text -> Text, key: Text, kind: Kind, stableId: Text)
    ensures Id(nfc, key, kind) == Some(stableId) <==> ValidId(nfc, stableId, kind) && key == Key(nfc, stableId, kind)
  {
    if Id(nfc, key, kind) == Some(stableId) {
      IdIsValid(nfc, key, kind);
    }
    if ValidId(nfc, stableId, kind) {
      IdOfEncoded(nfc, stableId, kind);
    }
  }

  /** Decoding the key of an id returns the id exactly when it is not empty, has no lone surrogate, does not start
      with a byte order mark and, for a skill, is normalized. */
  lemma IdOfKey(nfc: Text -> Text, stableId: Text, kind: Kind)
    ensures Id(nfc, Key(nfc, stableId, kind), kind) == Some(stableId) <==> ValidId(nfc, stableId, kind)
  {
    AcceptedIffEncoded(nfc, Key(nfc, stableId, kind), kind, stableId);
  }

  /** A skill id that is not normalized comes back normalized. */
  lemma SkillIdOfKey(nfc: Text -> Text, stableId: Text)
    requires Idempotent(nfc)
    ensures Id(nfc, Key(nfc, stableId, Skill), Skill) == Some(nfc(stableId)) <==> ValidId(nfc, nfc(stableId), Skill)
  {
    AcceptedIffEncoded(nfc, Key(nfc, stableId, Skill), Skill, nfc(stableId));
  }

  /** Two valid ids with the same key are the same id. */
  lemma KeysDiffer(nfc: Text -> Text, a: Text, b: Text, kind: Kind)
    requires ValidId(nfc, a, kind) && ValidId(nfc, b, kind)
    ensures Key(nfc, a, kind) == Key(nfc, b, kind) <==> a == b
  {
    IdOfKey(nfc, a, kind);
    IdOfKey(nfc, b, kind);
  }

  // ---- Which keys are accepted ----

  /** Canonical base64url text, in the sense of section 3.5 of RFC 4648. */
  predicate Canonical(key: Text) {
    AllDigits(key) && |key| % 4 != 1 && ZeroPadBits(key)
  }

  /** A key is accepted exactly when it is canonical base64url of a non-empty, strictly valid UTF-8 text that has no
      byte order mark in front and, for a skill, is normalized: bad lengths, foreign characters and non-zero pad bits
      are rejected. */
  lemma AcceptedIffCanonical(nfc: Text -> Text, key: Text, kind: Kind)
    ensures Id(nfc, key, kind).Some? <==>
      && key != [] && Canonical(key)
      && !(BOM_BYTES <= DecodeBytes(key))
      && DecodeScalars(DecodeBytes(key)).Some?
      && (kind == Skill ==>
        nfc(FromScalars(DecodeScalars(DecodeBytes(key)).value)) == FromScalars(DecodeScalars(DecodeBytes(key)).value))
  {
    if AllDigits(key) && |key| % 4 != 1 && key != [] {
      CanonicalIffZeroPadBits(key);
      var b := DecodeBytes(key);
      if Decode(b).Some? {
        EncodeDecode(b);
        SameBytes(key);
        StripBomLength(b);
      }
    }
  }

  lemma StripBomLength(b: seq<Byte>)
    ensures StripBom(b) == b <==> !(BOM_BYTES <= b)
  {
    if BOM_BYTES <= b {
      assert |StripBom(b)| == |b| - 3;
    }
  }

  // The re-encoded text is the key exactly when nothing was dropped: no byte order mark and no pad bits.
  lemma SameBytes(key: Text)
    requires key != [] && AllDigits(key) && |key| % 4 != 1
    ensures EncodeBytes(StripBom(DecodeBytes(key))) == key
      <==> StripBom(DecodeBytes(key)) == DecodeBytes(key) && ZeroPadBits(key)
  {
    var b := DecodeBytes(key);
    CanonicalIffZeroPadBits(key);
    BytesRoundTrip(StripBom(b));
  }
}
