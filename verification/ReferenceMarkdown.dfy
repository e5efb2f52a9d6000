/** References in plain text: each is printed as a Markdown link and found again in pasted text by one regular
    expression. */
module ReferenceMarkdown {
  import opened Common
  import opened JsText
  import opened Base64Url
  import opened ReferenceKey
  import opened ComposerFragments

  // How ids become keys and keys ids.
  datatype Codec = Codec(key: (Text, Kind) -> Text, id: (Text, Kind) -> Option<Text>)

  /** The codec of the program. */
  function StableCodec(nfc: Text -> Text): Codec {
    Codec((stableId, kind) => Key(nfc, stableId, kind), (key, kind) => Id(nfc, key, kind))
  }

  const OPEN: Unit := 91
  const CLOSE: Unit := 93
  const BACKSLASH: Unit := 92
  const LEFT: Unit := 40
  const RIGHT: Unit := 41
  const SLASH: Unit := 47
  const DOLLAR: Unit := 36
  const CR: Unit := 13
  const LF: Unit := 10

  // "taskboard://composer-reference/v1/"
  const PREFIX: Text := [116, 97, 115, 107, 98, 111, 97, 114, 100, 58, 47, 47, 99, 111, 109, 112, 111, 115, 101,
    114, 45, 114, 101, 102, 101, 114, 101, 110, 99, 101, 47, 118, 49, 47]
  // "skill", "agent" and "/SKILL.md"
  const SKILL_WORD: Text := [115, 107, 105, 108, 108]
  const AGENT_WORD: Text := [97, 103, 101, 110, 116]
  const SKILL_FILE: Text := [47, 83, 75, 73, 76, 76, 46, 109, 100]

  // ---- Labels ----

  predicate Special(u: Unit) { u == BACKSLASH || u == OPEN || u == CLOSE }

  predicate LineBreak(u: Unit) { u == CR || u == LF }

  /** `escapedComposerReferenceLabel` */
  function Escape(name: Text): Text {
    if name == [] then []
    else (if Special(name[0]) then [BACKSLASH, name[0]] else [name[0]]) + Escape(name[1..])
  }

  // The reverse replacement: an escaping backslash goes.
  function Unescape(s: Text): Text {
    if s == [] then []
    else if s[0] == BACKSLASH && |s| > 1 && Special(s[1]) then [s[1]] + Unescape(s[2..])
    else [s[0]] + Unescape(s[1..])
  }

  lemma {:induction false} UnescapeEscape(name: Text)
    ensures Unescape(Escape(name)) == name
  {
    if name != [] {
      UnescapeEscape(name[1..]);
      var head := if Special(name[0]) then [BACKSLASH, name[0]] else [name[0]];
      assert Escape(name)[|head|..] == Escape(name[1..]);
      assert name == [name[0]] + name[1..];
    }
  }

  // ---- Links ----

  function Word(kind: Kind): Text {
    if kind == Skill then SKILL_WORD else AGENT_WORD
  }

  function Target(kind: Kind, key: Text): Text {
    PREFIX + Word(kind) + [SLASH] + key
  }

  // The default of the `markdown` parameter.
  function Link(kind: Kind, key: Text, name: Text): Text {
    [OPEN] + Escape(name) + [CLOSE, LEFT] + Target(kind, key) + [RIGHT]
  }

  /** `composerStableReference` without its last argument. */
  function StableReference(kind: Kind, stableId: Text, name: Text, key: Text): Reference {
    Reference(kind, stableId, key, name, Link(kind, key, name))
  }

  // ---- Matching ----

  // How much of the text the label part of the pattern takes: escaped specials, and anything but a closing bracket, a
  // backslash or a line break. The part that follows starts with a closing bracket, so nothing is ever given back.
  function LabelEnd(s: Text): (n: nat)
    ensures n <= |s|
  {
    if s == [] then 0
    else if s[0] == BACKSLASH then if |s| > 1 && Special(s[1]) then 2 + LabelEnd(s[2..]) else 0
    else if s[0] == CLOSE || LineBreak(s[0]) then 0
    else 1 + LabelEnd(s[1..])
  }

  // Where the first closing parenthesis stands, or the end.
  function FirstRight(s: Text): (n: nat)
    ensures n <= |s| && RIGHT !in s[..n]
    ensures n < |s| ==> s[n] == RIGHT
  {
    if s == [] || s[0] == RIGHT then 0
    else
      var n := 1 + FirstRight(s[1..]);
      assert s[..n] == [s[0]] + s[1..][..n - 1];
      n
  }

  datatype Goal = SkillPath | Stable(kind: Kind, key: Text)

  function KeyPart(s: Text, kind: Kind): Option<Goal> {
    var front := PREFIX + Word(kind) + [SLASH];
    if front <= s && |front| < |s| && AllDigits(s[|front|..]) then Some(Stable(kind, s[|front|..])) else None
  }

  // What stands between the parentheses: a path to a skill file, or a stable reference.
  function GoalOf(s: Text): Option<Goal> {
    if |s| > |SKILL_FILE| && s[0] == SLASH && s[|s| - |SKILL_FILE|..] == SKILL_FILE
      && (forall i | 0 <= i < |s| :: !LineBreak(s[i]))
    then Some(SkillPath)
    else if KeyPart(s, Skill).Some? then KeyPart(s, Skill)
    else KeyPart(s, Agent)
  }

  datatype Match = Match(markdownLabel: Text, goal: Goal, length: nat)

  // The two parts of a link: what stands between the brackets, and what stands between the parentheses behind them.
  datatype Brackets = Brackets(text: Text, target: Text)

  function BracketsHere(s: Text): (r: Option<Brackets>)
    ensures r.Some? ==> |r.value.text| + |r.value.target| + 4 <= |s| && s[0] == OPEN
  {
    if s == [] || s[0] != OPEN then None
    else
      var close := 1 + LabelEnd(s[1..]);
      if close == 1 || close + 1 >= |s| || s[close] != CLOSE || s[close + 1] != LEFT then None
      else
        var tail := s[close + 2..];
        var right := FirstRight(tail);
        if right == |tail| then None else Some(Brackets(s[1..close], tail[..right]))
  }

  // The match of the pattern at the start of a text.
  function MatchHere(s: Text): (r: Option<Match>)
    ensures r.Some? ==> 0 < r.value.length <= |s| && s[0] == OPEN
  {
    match BracketsHere(s)
    case None => None
    case Some(Brackets(text, target)) =>
      match GoalOf(target)
      case None => None
      case Some(goal) => Some(Match(text, goal, |text| + |target| + 4))
  }

  datatype Place = Place(skip: nat, here: Match)

  // The first match at or after the start.
  function NextMatch(s: Text): (r: Option<Place>)
    ensures r.Some? ==> r.value.skip < |s| && MatchHere(s[r.value.skip..]) == Some(r.value.here)
  {
    if s == [] then None
    else if MatchHere(s).Some? then Some(Place(0, MatchHere(s).value))
    else
      match NextMatch(s[1..])
      case None => None
      case Some(Place(skip, here)) =>
        assert s[1..][skip..] == s[skip + 1..];
        Some(Place(skip + 1, here))
  }

  // ---- Parsing ----

  /** The reference a match stands for, if its id can be told: a stable key must decode, and a path to a skill file
      counts when its label is a dollar sign and a name. */
  function ReferenceOf(codec: Codec, skills: map<Text, Text>, here: Match, whole: Text): Option<Reference> {
    var name := Unescape(here.markdownLabel);
    match here.goal
    case Stable(kind, key) =>
      (match codec.id(key, kind)
       case None => None
       case Some(stableId) => Some(Reference(kind, stableId, key, name, whole)))
    case SkillPath =>
      if |name| > 1 && name[0] == DOLLAR then
        var id := name[1..];
        Some(StableReference(Skill, id, if id in skills then skills[id] else id, codec.key(id, Skill)))
      else None
  }

  // The first match at or after a position. There is none past the end.
  function NextReference(codec: Codec, skills: map<Text, Text>, text: Text, at: nat): Option<Found> {
    if at > |text| then None
    else
      match NextMatch(text[at..])
      case None => None
      case Some(place) => Some(FoundAtPlace(codec, skills, text[at..], at, place))
  }

  function FoundAtPlace(codec: Codec, skills: map<Text, Text>, rest: Text, at: nat, place: Place): Found
    requires place.skip + place.here.length <= |rest|
  {
    var end := place.skip + place.here.length;
    Found(at + place.skip, at + end, ReferenceOf(codec, skills, place.here, rest[place.skip..end]))
  }

  function ReferencePattern(codec: Codec, skills: map<Text, Text>): Pattern {
    (text: Text, at: nat) => NextReference(codec, skills, text, at)
  }

  // What an id without a listed reference is printed as.
  function Fallback(codec: Codec, skills: map<Text, Text>): Text -> Option<Reference> {
    (id: Text) =>
      if id in skills then Some(StableReference(Skill, id, skills[id], codec.key(id, Skill))) else None
  }

  lemma PatternAdvances(codec: Codec, skills: map<Text, Text>)
    ensures Advances(ReferencePattern(codec, skills))
  {
    var next := ReferencePattern(codec, skills);
    forall text: Text, at: nat ensures next(text, at).Some? ==>
      at <= next(text, at).value.index < next(text, at).value.end <= |text| {
      NextAdvances(codec, skills, text, at);
    }
  }

  lemma NextAdvances(codec: Codec, skills: map<Text, Text>, text: Text, at: nat)
    ensures var found := NextReference(codec, skills, text, at);
      found.Some? ==> at <= found.value.index < found.value.end <= |text|
  {
  }

  /** `composerFragmentFromPlainText` */
  method FromPlainText(codec: Codec, text: Text, skills: map<Text, Text>) returns (fragment: Option<Fragment>)
    ensures Advances(ReferencePattern(codec, skills))
    ensures fragment == FragmentOf(Scan(ReferencePattern(codec, skills), text, 0, 0))
  {
    PatternAdvances(codec, skills);
    fragment := Collect(ReferencePattern(codec, skills), text);
  }

  // ---- Matching a printed link ----

  predicate PlainName(name: Text) {
    name != [] && forall i | 0 <= i < |name| :: !LineBreak(name[i])
  }

  lemma {:induction false} EscapedLabel(name: Text, rest: Text)
    requires forall i | 0 <= i < |name| :: !LineBreak(name[i])
    requires rest != [] && rest[0] == CLOSE
    ensures LabelEnd(Escape(name) + rest) == |Escape(name)|
  {
    var s := Escape(name) + rest;
    if name == [] {
      assert s == rest;
    } else {
      EscapedLabel(name[1..], rest);
      if Special(name[0]) {
        assert s[2..] == Escape(name[1..]) + rest;
      } else {
        assert s[1..] == Escape(name[1..]) + rest;
      }
    }
  }

  lemma {:induction false} FirstRightAfter(s: Text, rest: Text)
    requires RIGHT !in s && rest != [] && rest[0] == RIGHT
    ensures FirstRight(s + rest) == |s|
  {
    if s == [] {
      assert s + rest == rest;
    } else {
      assert (s + rest)[1..] == s[1..] + rest;
      FirstRightAfter(s[1..], rest);
    }
  }

  lemma TargetHasNoRight(kind: Kind, key: Text)
    requires AllDigits(key)
    ensures RIGHT !in Target(kind, key)
  {
    assert RIGHT !in PREFIX && RIGHT !in Word(kind) && RIGHT !in key;
  }

  lemma GoalOfTarget(kind: Kind, key: Text)
    requires key != [] && AllDigits(key)
    ensures GoalOf(Target(kind, key)) == Some(Stable(kind, key))
  {
    var s := Target(kind, key);
    var front := PREFIX + Word(kind) + [SLASH];
    assert s == front + key;
    assert s[|front|..] == key && front <= s;
    assert s[0] == PREFIX[0] != SLASH;
    if kind == Agent {
      assert s[|PREFIX|] == AGENT_WORD[0] != SKILL_WORD[0];
      assert (PREFIX + Word(Skill) + [SLASH])[|PREFIX|] == SKILL_WORD[0];
    }
  }

  // The parts of a text that starts with a link.
  lemma LinkSlices(name: Text, target: Text, rest: Text)
    ensures var s := [OPEN] + name + [CLOSE, LEFT] + target + [RIGHT] + rest;
      && s[1..] == name + ([CLOSE, LEFT] + target + [RIGHT] + rest)
      && s[1..1 + |name|] == name && s[1 + |name|] == CLOSE && s[2 + |name|] == LEFT
      && s[3 + |name|..] == target + ([RIGHT] + rest)
      && s[3 + |name|..][..|target|] == target
  {
  }

  lemma {:induction false} BracketsOf(text: Text, target: Text, rest: Text)
    requires text != [] && RIGHT !in target
    requires LabelEnd(text + ([CLOSE, LEFT] + target + [RIGHT] + rest)) == |text|
    ensures BracketsHere([OPEN] + text + [CLOSE, LEFT] + target + [RIGHT] + rest) == Some(Brackets(text, target))
  {
    LinkSlices(text, target, rest);
    FirstRightAfter(target, [RIGHT] + rest);
  }

  lemma {:induction false} LinkBrackets(kind: Kind, key: Text, name: Text, rest: Text)
    requires PlainName(name) && AllDigits(key)
    ensures BracketsHere(Link(kind, key, name) + rest) == Some(Brackets(Escape(name), Target(kind, key)))
  {
    EscapedLabel(name, [CLOSE, LEFT] + Target(kind, key) + [RIGHT] + rest);
    TargetHasNoRight(kind, key);
    BracketsOf(Escape(name), Target(kind, key), rest);
  }

  lemma {:induction false} LinkLength(kind: Kind, key: Text, name: Text)
    ensures |Link(kind, key, name)| == |Escape(name)| + |Target(kind, key)| + 4
  {
  }

  // The target of a link stands for its kind and key.
  lemma {:induction false} TargetMatches(s: Text, text: Text, kind: Kind, key: Text, length: nat)
    requires BracketsHere(s) == Some(Brackets(text, Target(kind, key))) && key != [] && AllDigits(key)
    requires length == |text| + |Target(kind, key)| + 4
    ensures MatchHere(s) == Some(Match(text, Stable(kind, key), length))
  {
    GoalOfTarget(kind, key);
  }

  lemma {:induction false} LinkMatches(kind: Kind, key: Text, name: Text, rest: Text)
    requires PlainName(name) && key != [] && AllDigits(key)
    ensures MatchHere(Link(kind, key, name) + rest)
      == Some(Match(Escape(name), Stable(kind, key), |Link(kind, key, name)|))
  {
    LinkBrackets(kind, key, name, rest);
    LinkLength(kind, key, name);
    TargetMatches(Link(kind, key, name) + rest, Escape(name), kind, key, |Link(kind, key, name)|);
  }

  // ---- Round trip ----

  /** A reference as the composer makes it: its key stands for its id, and its Markdown is the link of its label. */
  ghost predicate Genuine(codec: Codec, reference: Reference) {
    && codec.id(reference.referenceKey, reference.kind) == Some(reference.stableId)
    && reference.referenceKey != [] && AllDigits(reference.referenceKey)
    && PlainName(reference.name)
    && reference.markdown == Link(reference.kind, reference.referenceKey, reference.name)
  }

  function NotOpen(): Unit -> bool {
    (u: Unit) => u != OPEN
  }

  lemma {:induction false} SkipPlain(plain: Text, rest: Text)
    requires OPEN !in plain && MatchHere(rest).Some?
    ensures NextMatch(plain + rest) == Some(Place(|plain|, MatchHere(rest).value))
  {
    if plain == [] {
      assert plain + rest == rest;
    } else {
      assert (plain + rest)[1..] == plain[1..] + rest;
      SkipPlain(plain[1..], rest);
    }
  }

  lemma {:induction false} NothingInPlain(plain: Text)
    requires OPEN !in plain
    ensures NextMatch(plain) == None
  {
    if plain != [] {
      NothingInPlain(plain[1..]);
    }
  }

  // The match of a genuine reference's Markdown after plain text.
  lemma {:induction false} GenuinePlace(codec: Codec, reference: Reference, before: Text, tail: Text)
    requires Genuine(codec, reference) && AllPlain(NotOpen(), before)
    ensures NextMatch(before + (reference.markdown + tail)) == Some(PlaceOf(before, reference))
  {
    LinkMatches(reference.kind, reference.referenceKey, reference.name, tail);
    assert OPEN !in before;
    SkipPlain(before, reference.markdown + tail);
  }

  lemma GenuineReference(codec: Codec, skills: map<Text, Text>, reference: Reference)
    requires Genuine(codec, reference)
    ensures ReferenceOf(codec, skills, Match(Escape(reference.name), Stable(reference.kind, reference.referenceKey),
      |reference.markdown|), reference.markdown) == Some(reference)
  {
    UnescapeEscape(reference.name);
  }

  // What NextMatch finds for a genuine reference's Markdown.
  function PlaceOf(before: Text, reference: Reference): Place {
    Place(|before|,
      Match(Escape(reference.name), Stable(reference.kind, reference.referenceKey), |reference.markdown|))
  }

  lemma GenuineFound(codec: Codec, skills: map<Text, Text>, reference: Reference, text: Text,
        at: nat,
      before: Text)
    requires Genuine(codec, reference) && AllPlain(NotOpen(), before) && Follows(text, at, before, reference.markdown)
    ensures NextReference(codec, skills, text, at)
      == Some(Found(at + |before|, at + |before| + |reference.markdown|, Some(reference)))
  {
    assert text[at..][|before|..|before| + |reference.markdown|] == reference.markdown;
    PlaceInText(codec, reference, text, at, before);
    PlaceFound(codec, skills, reference, text[at..], at, before);
    NextIs(codec, skills, text, at, PlaceOf(before, reference));
  }

  lemma PlaceInText(codec: Codec, reference: Reference, text: Text, at: nat, before: Text)
    requires Genuine(codec, reference) && AllPlain(NotOpen(), before) && Follows(text, at, before, reference.markdown)
    ensures NextMatch(text[at..]) == Some(PlaceOf(before, reference))
  {
    RestOf(text, at, before, reference.markdown);
    PlaceInRest(codec, reference, text[at..], before, text[at + |before| + |reference.markdown|..]);
  }

  lemma {:induction false} PlaceInRest(codec: Codec, reference: Reference, rest: Text, before: Text, tail: Text)
    requires Genuine(codec, reference) && AllPlain(NotOpen(), before)
    requires rest == before + (reference.markdown + tail)
    ensures NextMatch(rest) == Some(PlaceOf(before, reference))
  {
    GenuinePlace(codec, reference, before, tail);
  }

  lemma PlaceFound(codec: Codec, skills: map<Text, Text>, reference: Reference, rest: Text, at: nat,
      before: Text)
    requires Genuine(codec, reference) && |before| + |reference.markdown| <= |rest|
    requires rest[|before|..|before| + |reference.markdown|] == reference.markdown
    ensures FoundAtPlace(codec, skills, rest, at, PlaceOf(before, reference))
      == Found(at + |before|, at + |before| + |reference.markdown|, Some(reference))
  {
    GenuineReference(codec, skills, reference);
  }

  lemma NextIs(codec: Codec, skills: map<Text, Text>, text: Text, at: nat, place: Place)
    requires at <= |text| && place.skip + place.here.length <= |text[at..]|
    ensures NextMatch(text[at..]) == Some(place) ==>
      NextReference(codec, skills, text, at) == Some(FoundAtPlace(codec, skills, text[at..], at, place))
  {
  }

  lemma RestOf(text: Text, at: nat, before: Text, part: Text)
    requires Follows(text, at, before, part)
    ensures text[at..] == before + (part + text[at + |before| + |part|..])
  {
    assert text[at..] == text[at..at + |before|] + text[at + |before|..at + |before| + |part|]
      + text[at + |before| + |part|..];
  }

  lemma GenuineReadsBack(codec: Codec, skills: map<Text, Text>, references: seq<Reference>)
    requires forall i | 0 <= i < |references| :: Genuine(codec, references[i])
    ensures ReadsBack(ReferencePattern(codec, skills), NotOpen(), references)
  {
    var next := ReferencePattern(codec, skills);
    PatternAdvances(codec, skills);
    forall text: Text, at: nat | at <= |text| && AllPlain(NotOpen(), text[at..]) ensures next(text, at) == None {
      assert OPEN !in text[at..];
      NothingInPlain(text[at..]);
    }
    forall i | 0 <= i < |references| ensures Finds(next, NotOpen(), references[i]) {
      GenuineFinds(codec, skills, references[i]);
    }
  }

  lemma GenuineFinds(codec: Codec, skills: map<Text, Text>, reference: Reference)
    requires Genuine(codec, reference)
    ensures Finds(ReferencePattern(codec, skills), NotOpen(), reference)
  {
    var next := ReferencePattern(codec, skills);
    forall text: Text, at: nat, before: Text
      | AllPlain(NotOpen(), before) && Follows(text, at, before, reference.markdown)
      ensures next(text, at) == Some(Found(at + |before|, at + |before| + |reference.markdown|, Some(reference)))
    {
      GenuineFound(codec, skills, reference, text, at, before);
    }
  }

  /** Printing a fragment and parsing the text returns the fragment: the same message, ids, kinds, keys and labels,
      for every fragment with at least one reference, one marker for each, whose message has no opening bracket and
      whose labels are not empty and have no line break. Brackets and backslashes in labels are free, and the two
      lists of skills may differ. */
  lemma {:induction false} PrintParseRoundTrip(codec: Codec, fragment: Fragment, skills: map<Text, Text>,
      pasteSkills: map<Text, Text>, references: seq<Reference>)
    requires references != [] && Markers(fragment.message) == |references| && OPEN !in fragment.message
    requires fragment.references == Listed(references) && fragment.skillIds == Ids(references)
    requires forall i | 0 <= i < |references| :: Genuine(codec, references[i])
    ensures var next := ReferencePattern(codec, pasteSkills);
      Advances(next)
      && FragmentOf(Scan(next, Printed(fragment, Fallback(codec, skills), fragment.message, 0, 0), 0, 0))
        == Some(fragment)
  {
    GenuineReadsBack(codec, pasteSkills, references);
    assert PlainMessage(NotOpen(), fragment.message);
    FragmentRoundTrip(ReferencePattern(codec, pasteSkills), NotOpen(), fragment, Fallback(codec, skills), references);
  }

  /** What `composerStableReference` makes of a valid id and a label that is not empty and has no line break. */
  ghost predicate Stabled(nfc: Text -> Text, reference: Reference) {
    && ValidId(nfc, reference.stableId, reference.kind) && PlainName(reference.name)
    && reference == StableReference(reference.kind, reference.stableId, reference.name,
      Key(nfc, reference.stableId, reference.kind))
  }

  lemma StabledIsGenuine(nfc: Text -> Text, reference: Reference)
    requires Stabled(nfc, reference)
    ensures Genuine(StableCodec(nfc), reference)
  {
    IdOfKey(nfc, reference.stableId, reference.kind);
    EncodeNonEmpty(reference.stableId);
  }

  /** Whatever text is parsed, every reference carries the key of its id. A stable link has been checked to be the key
      of a valid id of its kind and keeps its own Markdown; a link to a skill file becomes the stable reference of the
      skill that its label names. */
  lemma ParsedReference(nfc: Text -> Text, skills: map<Text, Text>, here: Match, whole: Text,
      reference: Reference)
    requires ReferenceOf(StableCodec(nfc), skills, here, whole) == Some(reference)
    ensures reference.referenceKey == Key(nfc, reference.stableId, reference.kind)
    ensures here.goal.Stable? ==>
      && reference.kind == here.goal.kind && reference.referenceKey == here.goal.key
      && ValidId(nfc, reference.stableId, reference.kind)
      && reference.markdown == whole && reference.name == Unescape(here.markdownLabel)
    ensures here.goal.SkillPath? ==>
      && reference.kind == Skill && reference.stableId != []
      && Unescape(here.markdownLabel) == [DOLLAR] + reference.stableId
      && reference.markdown == Link(Skill, reference.referenceKey, reference.name)
  {
    match here.goal {
      case Stable(kind, key) => AcceptedIffEncoded(nfc, key, kind, reference.stableId);
      case SkillPath =>
        var name := Unescape(here.markdownLabel);
        assert name == [name[0]] + name[1..];
    }
  }

  /** With the program's codec the round trip holds for references to any valid ids. */
  lemma {:induction false} StableRoundTrip(nfc: Text -> Text, fragment: Fragment, skills: map<Text, Text>,
      pasteSkills: map<Text, Text>, references: seq<Reference>)
    requires references != [] && Markers(fragment.message) == |references| && OPEN !in fragment.message
    requires fragment.references == Listed(references) && fragment.skillIds == Ids(references)
    requires forall i | 0 <= i < |references| :: Stabled(nfc, references[i])
    ensures var codec := StableCodec(nfc);
      var next := ReferencePattern(codec, pasteSkills);
      Advances(next)
      && FragmentOf(Scan(next, Printed(fragment, Fallback(codec, skills), fragment.message, 0, 0), 0, 0))
        == Some(fragment)
  {
    var codec := StableCodec(nfc);
    forall i | 0 <= i < |references| ensures Genuine(codec, references[i]) {
      StabledIsGenuine(nfc, references[i]);
    }
    PrintParseRoundTrip(codec, fragment, skills, pasteSkills, references);
  }
}
