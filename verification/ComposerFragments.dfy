/** Composer fragments, a message with one marker for each reference, and the two loops that print a fragment as text
    and collect a fragment from the references found in a text. How references are found is a parameter here. */
module ComposerFragments {
  import opened Common
  import opened JsText
  import opened ReferenceKey

  datatype Reference = Reference(kind: Kind, stableId: Text, referenceKey: Text, name: Text, markdown: Text)

  datatype Fragment = Fragment(message: Text, skillIds: seq<Text>, references: seq<Option<Reference>>)

  const MARKER: Unit := 0xFFFC
  const REPLACED: Unit := 0xFFFD

  // ---- Printing ----

  // `composerFragmentReference`, given what an id without a listed reference stands for.
  function ReferenceAt(fragment: Fragment, fallback: Text -> Option<Reference>, index: nat): Option<Reference> {
    if index < |fragment.references| && fragment.references[index].Some? then fragment.references[index]
    else fallback(if index < |fragment.skillIds| then fragment.skillIds[index] else [])
  }

  function Replacement(fragment: Fragment, fallback: Text -> Option<Reference>, index: nat): Text {
    var reference := ReferenceAt(fragment, fallback, index);
    if reference.Some? then reference.value.markdown else [MARKER]
  }

  // The text printed for a message from position n on, when its next marker has the given index.
  function Printed(fragment: Fragment, fallback: Text -> Option<Reference>, message: Text, n: nat, index: nat): Text
    requires n <= |message|
    decreases |message| - n
  {
    if n == |message| then []
    else if message[n] == MARKER then
      Replacement(fragment, fallback, index) + Printed(fragment, fallback, message, n + 1, index + 1)
    else [message[n]] + Printed(fragment, fallback, message, n + 1, index)
  }

  /** `canonicalComposerFragment`: each marker gives way to its reference's Markdown. */
  method Print(fragment: Fragment, fallback: Text -> Option<Reference>) returns (text: Text)
    ensures text == Printed(fragment, fallback, fragment.message, 0, 0)
  {
    text := [];
    var index: nat := 0;
    for n := 0 to |fragment.message|
      invariant text + Printed(fragment, fallback, fragment.message, n, index)
        == Printed(fragment, fallback, fragment.message, 0, 0)
    {
      if fragment.message[n] == MARKER {
        var replacement := Replacement(fragment, fallback, index);
        Regroup(text, replacement, Printed(fragment, fallback, fragment.message, n + 1, index + 1));
        text := text + replacement;
        index := index + 1;
      } else {
        Regroup(text, [fragment.message[n]], Printed(fragment, fallback, fragment.message, n + 1, index));
        text := text + [fragment.message[n]];
      }
    }
  }

  lemma Regroup(a: Text, b: Text, c: Text)
    ensures a + (b + c) == (a + b) + c
  {
  }

  // ---- Collecting ----

  /** A match: where it starts and ends in the text, and the reference it stands for, if any. */
  datatype Found = Found(index: nat, end: nat, reference: Option<Reference>)

  // A pattern finds the first match at or after a position.
  type Pattern = (Text, nat) -> Option<Found>

  ghost predicate Advances(next: Pattern) {
    forall text: Text, at: nat :: next(text, at).Some? ==>
      at <= next(text, at).value.index < next(text, at).value.end <= |text|
  }

  // Markers of the text itself are neutralized.
  function Clean(s: Text): (r: Text)
    ensures |r| == |s| && MARKER !in r
    ensures forall i | 0 <= i < |s| :: r[i] == if s[i] == MARKER then REPLACED else s[i]
  {
    seq(|s|, i requires 0 <= i < |s| => if s[i] == MARKER then REPLACED else s[i])
  }

  datatype Parsed = Parsed(message: Text, references: seq<Reference>)

  function Joined(before: Text, reference: Reference, rest: Parsed): Parsed {
    Parsed(before + [MARKER] + rest.message, [reference] + rest.references)
  }

  // The message and references of a text from `cursor` on, looking for matches from `at` on. A match without a
  // reference stays text.
  function Scan(next: Pattern, text: Text, cursor: nat, at: nat): Parsed
    requires Advances(next) && cursor <= at <= |text|
    decreases |text| - at
  {
    match next(text, at)
    case None => Parsed(Clean(text[cursor..]), [])
    case Some(Found(index, end, None)) => Scan(next, text, cursor, end)
    case Some(Found(index, end, Some(reference))) =>
      Joined(Clean(text[cursor..index]), reference, Scan(next, text, end, end))
  }

  function Ids(references: seq<Reference>): seq<Text> {
    seq(|references|, i requires 0 <= i < |references| => references[i].stableId)
  }

  function Listed(references: seq<Reference>): seq<Option<Reference>> {
    seq(|references|, i requires 0 <= i < |references| => Some(references[i]))
  }

  function FragmentOf(parsed: Parsed): Option<Fragment> {
    if parsed.references == [] then None
    else Some(Fragment(parsed.message, Ids(parsed.references), Listed(parsed.references)))
  }

  // What has been collected, continued by what is still to come.
  function Continued(message: Text, references: seq<Reference>, rest: Parsed): Parsed {
    Parsed(message + rest.message, references + rest.references)
  }

  /** The loop of `composerFragmentFromPlainText`. */
  method Collect(next: Pattern, text: Text) returns (fragment: Option<Fragment>)
    requires Advances(next)
    ensures fragment == FragmentOf(Scan(next, text, 0, 0))
  {
    ghost var whole := Scan(next, text, 0, 0);
    var skillIds: seq<Text>, references: seq<Reference>, message: Text := [], [], [];
    var cursor: nat, lastIndex: nat := 0, 0;
    var found := next(text, 0);
    while found.Some?
      invariant cursor <= lastIndex <= |text|
      invariant found == next(text, lastIndex) && skillIds == Ids(references)
      invariant whole == Continued(message, references, Scan(next, text, cursor, lastIndex))
      decreases |text| - lastIndex
    {
      var end := found.value.end;
      if found.value.reference.Some? {
        var before, reference := Clean(text[cursor..found.value.index]), found.value.reference.value;
        IdsPush(references, reference);
        ContinueJoined(message, references, before, reference, Scan(next, text, end, end));
        message := message + before;
        message := message + [MARKER];
        skillIds := skillIds + [reference.stableId];
        references := references + [reference];
        cursor := end;
      }
      lastIndex := end;
      found := next(text, lastIndex);
    }
    ContinueLast(message, references, Clean(text[cursor..]));
    if skillIds == [] {
      return None;
    }
    message := message + Clean(text[cursor..]);
    fragment := Some(Fragment(message, skillIds, Listed(references)));
  }

  lemma IdsPush(references: seq<Reference>, reference: Reference)
    ensures Ids(references + [reference]) == Ids(references) + [reference.stableId]
  {
  }

  lemma ContinueJoined(message: Text, references: seq<Reference>, before: Text, reference: Reference,
      rest: Parsed)
    ensures Continued(message, references, Joined(before, reference, rest))
      == Continued(message + before + [MARKER], references + [reference], rest)
  {
    assert message + (before + [MARKER] + rest.message) == message + before + [MARKER] + rest.message;
    assert references + ([reference] + rest.references) == references + [reference] + rest.references;
  }

  lemma ContinueLast(message: Text, references: seq<Reference>, last: Text)
    ensures Continued(message, references, Parsed(last, [])) == Parsed(message + last, references)
    ensures Ids(references) == [] <==> references == []
  {
    assert references + [] == references;
  }

  // ---- Collected fragments are aligned ----

  function Markers(message: Text): nat {
    if message == [] then 0 else (if message[0] == MARKER then 1 else 0) + Markers(message[1..])
  }

  lemma {:induction false} MarkersAppend(a: Text, b: Text)
    ensures Markers(a + b) == Markers(a) + Markers(b)
  {
    if a == [] {
      assert a + b == b;
    } else {
      assert (a + b)[1..] == a[1..] + b;
      MarkersAppend(a[1..], b);
    }
  }

  lemma {:induction false} NoMarkers(s: Text)
    requires MARKER !in s
    ensures Markers(s) == 0
  {
    if s != [] {
      NoMarkers(s[1..]);
    }
  }

  ghost predicate Aligned(parsed: Parsed) {
    Markers(parsed.message) == |parsed.references|
  }

  lemma JoinedAligned(before: Text, reference: Reference, rest: Parsed)
    requires MARKER !in before && Aligned(rest)
    ensures Aligned(Joined(before, reference, rest))
  {
    NoMarkers(before);
    MarkersAppend(before + [MARKER], rest.message);
    MarkersAppend(before, [MARKER]);
    assert Markers([MARKER]) == 1;
  }

  /** For every text, whatever markers it holds itself, the collected message has one marker for each reference. */
  lemma {:induction false} ScanAligned(next: Pattern, text: Text, cursor: nat, at: nat)
    requires Advances(next) && cursor <= at <= |text|
    ensures Aligned(Scan(next, text, cursor, at))
    decreases |text| - at
  {
    match next(text, at) {
      case None => NoMarkers(Clean(text[cursor..]));
      case Some(Found(index, end, None)) => ScanAligned(next, text, cursor, end);
      case Some(Found(index, end, Some(reference))) =>
        ScanAligned(next, text, end, end);
        JoinedAligned(Clean(text[cursor..index]), reference, Scan(next, text, end, end));
    }
  }

  // ---- Round trip ----

  ghost predicate AllPlain(plain: Unit -> bool, s: Text) {
    forall i | 0 <= i < |s| :: plain(s[i])
  }

  // Nothing is found in plain text.
  ghost predicate SkipsPlain(next: Pattern, plain: Unit -> bool) {
    forall text: Text, at: nat | at <= |text| && AllPlain(plain, text[at..]) :: next(text, at) == None
  }

  // After plain text the printed reference is found, whatever follows.
  ghost predicate Finds(next: Pattern, plain: Unit -> bool, reference: Reference) {
    forall text: Text, at: nat, before: Text
      | AllPlain(plain, before) && Follows(text, at, before, reference.markdown) ::
      next(text, at)
        == Some(Found(at + |before|, at + |before| + |reference.markdown|, Some(reference)))
  }

  // From `at` the text goes on with these two parts.
  ghost predicate Follows(text: Text, at: nat, before: Text, part: Text) {
    && at + |before| + |part| <= |text|
    && text[at..at + |before|] == before
    && text[at + |before|..at + |before| + |part|] == part
  }

  /** In plain text nothing is found, and after plain text each printed reference is found, whatever follows. */
  ghost predicate ReadsBack(next: Pattern, plain: Unit -> bool, references: seq<Reference>) {
    && Advances(next) && SkipsPlain(next, plain)
    && (forall i | 0 <= i < |references| :: Finds(next, plain, references[i]))
  }

  // The position of the next marker, or the end.
  function NextMarker(message: Text, n: nat): (k: nat)
    requires n <= |message|
    ensures Clear(message, n, k)
    ensures k < |message| ==> message[k] == MARKER
    decreases |message| - n
  {
    if n == |message| || message[n] == MARKER then n
    else
      var k := NextMarker(message, n + 1);
      assert message[n..k] == [message[n]] + message[n + 1..k];
      k
  }

  // No marker stands between n and k.
  predicate Clear(message: Text, n: nat, k: nat) {
    n <= k <= |message| && MARKER !in message[n..k]
  }

  lemma ClearStep(message: Text, n: nat, k: nat)
    requires Clear(message, n, k) && n < k
    ensures Clear(message, n + 1, k) && message[n] != MARKER && message[n..k] == [message[n]] + message[n + 1..k]
  {
    assert message[n..k] == [message[n]] + message[n + 1..k];
    assert message[n] in message[n..k];
  }

  lemma {:induction false} PrintedPlain(fragment: Fragment, fallback: Text -> Option<Reference>, message: Text, n: nat,
      k: nat, index: nat)
    requires Clear(message, n, k)
    ensures Printed(fragment, fallback, message, n, index)
      == message[n..k] + Printed(fragment, fallback, message, k, index)
    decreases k - n
  {
    if n < k {
      ClearStep(message, n, k);
      PrintedPlain(fragment, fallback, message, n + 1, k, index);
      Regrouped([message[n]], message[n + 1..k], Printed(fragment, fallback, message, k, index));
    } else {
      assert message[n..k] == [];
    }
  }

  lemma PrintedAtMarker(fragment: Fragment, fallback: Text -> Option<Reference>,
      references: seq<Reference>, message: Text, n: nat, k: nat, index: nat)
    requires fragment.references == Listed(references) && index < |references|
    requires Clear(message, n, k) && k < |message| && message[k] == MARKER
    ensures Printed(fragment, fallback, message, n, index)
      == message[n..k] + (references[index].markdown + Printed(fragment, fallback, message, k + 1, index + 1))
  {
    PrintedPlain(fragment, fallback, message, n, k, index);
  }

  lemma CleanPlain(plain: Text)
    requires MARKER !in plain
    ensures Clean(plain) == plain
  {
  }

  // The markers from position n on.
  function Ahead(message: Text, n: nat): nat
    requires n <= |message|
    decreases |message| - n
  {
    if n == |message| then 0 else (if message[n] == MARKER then 1 else 0) + Ahead(message, n + 1)
  }

  lemma {:induction false} AheadIsMarkers(message: Text, n: nat)
    requires n <= |message|
    ensures Ahead(message, n) == Markers(message[n..])
    decreases |message| - n
  {
    if n < |message| {
      AheadIsMarkers(message, n + 1);
      assert message[n..][1..] == message[n + 1..];
    }
  }

  lemma {:induction false} AheadOfMarker(message: Text, n: nat, k: nat)
    requires Clear(message, n, k) && (k < |message| ==> message[k] == MARKER)
    ensures Ahead(message, n) == if k < |message| then 1 + Ahead(message, k + 1) else 0
    decreases k - n
  {
    if n < k {
      ClearStep(message, n, k);
      AheadOfMarker(message, n + 1, k);
    }
  }

  lemma TextSlices(text: Text, at: nat, before: Text, markdown: Text, tail: Text)
    requires at <= |text| && text[at..] == before + (markdown + tail)
    ensures |text| == at + |before| + |markdown| + |tail|
    ensures Follows(text, at, before, markdown)
    ensures text[at + |before| + |markdown|..] == tail
  {
    assert text[at..][..|before|] == before;
    assert text[at..][|before|..|before| + |markdown|] == markdown;
    assert text[at..][|before| + |markdown|..] == tail;
  }

  lemma FoundAt(next: Pattern, plain: Unit -> bool, text: Text, at: nat, before: Text,
      reference: Reference, tail: Text)
    requires Finds(next, plain, reference) && AllPlain(plain, before)
    requires at <= |text| && text[at..] == before + (reference.markdown + tail)
    ensures var index, end := at + |before|, at + |before| + |reference.markdown|;
      next(text, at) == Some(Found(index, end, Some(reference)))
      && end <= |text| && text[at..index] == before && text[end..] == tail
  {
    TextSlices(text, at, before, reference.markdown, tail);
  }

  lemma {:induction false} ScanFound(next: Pattern, text: Text, at: nat, index: nat, end: nat, reference: Reference)
    requires Advances(next) && at <= |text| && next(text, at) == Some(Found(index, end, Some(reference)))
    requires MARKER !in text[at..index]
    ensures Scan(next, text, at, at) == Joined(text[at..index], reference, Scan(next, text, end, end))
  {
    CleanPlain(text[at..index]);
  }

  // The part before a reference and the reference are taken from the text.
  lemma TakeReference(next: Pattern, plain: Unit -> bool, text: Text, at: nat, before: Text,
      reference: Reference, tail: Text) returns (end: nat)
    requires Advances(next) && Finds(next, plain, reference) && AllPlain(plain, before) && MARKER !in before
    requires at <= |text| && text[at..] == before + (reference.markdown + tail)
    ensures end <= |text| && text[end..] == tail
    ensures Scan(next, text, at, at) == Joined(before, reference, Scan(next, text, end, end))
  {
    FoundAt(next, plain, text, at, before, reference, tail);
    end := at + |before| + |reference.markdown|;
    ScanFound(next, text, at, at + |before|, end, reference);
  }

  // What RestRoundTrip says of one position.
  ghost predicate ComesBack(next: Pattern, text: Text, at: nat, message: Text, n: nat, references: seq<Reference>,
      index: nat)
    requires Advances(next)
  {
    at <= |text| && n <= |message| && index <= |references|
    && Scan(next, text, at, at) == Parsed(message[n..], references[index..])
  }

  /** The rest of a message and the references still to be printed come back from the text printed for them, wherever it
      stands at the end of a text. */
  lemma {:induction false} RestRoundTrip(next: Pattern, plain: Unit -> bool, fragment: Fragment,
      fallback: Text -> Option<Reference>, references: seq<Reference>, message: Text, n: nat, index: nat, text: Text,
      at: nat)
    requires ReadsBack(next, plain, references) && PlainMessage(plain, message) && n <= |message|
    requires fragment.references == Listed(references) && index + Ahead(message, n) == |references|
    requires at <= |text| && text[at..] == Printed(fragment, fallback, message, n, index)
    ensures ComesBack(next, text, at, message, n, references, index)
    decreases |message| - n, 1
  {
    var k := NextMarker(message, n);
    AheadOfMarker(message, n, k);
    if k == |message| {
      LastRoundTrip(next, plain, fragment, fallback, references, message, n, text, at);
    } else {
      MarkerRoundTrip(next, plain, fragment, fallback, references, message, n, k, index, text, at);
    }
  }

  lemma {:induction false} MarkerRoundTrip(next: Pattern, plain: Unit -> bool, fragment: Fragment,
      fallback: Text -> Option<Reference>, references: seq<Reference>, message: Text, n: nat, k: nat, index: nat,
      text: Text, at: nat)
    requires ReadsBack(next, plain, references) && PlainMessage(plain, message)
    requires Clear(message, n, k) && k < |message| && message[k] == MARKER
    requires fragment.references == Listed(references) && index + 1 + Ahead(message, k + 1) == |references|
    requires at <= |text| && text[at..] == Printed(fragment, fallback, message, n, index)
    ensures ComesBack(next, text, at, message, n, references, index)
    decreases |message| - n, 0
  {
    var end := AtReference(next, plain, fragment, fallback, references, message, n, k, index, text, at);
    RestRoundTrip(next, plain, fragment, fallback, references, message, k + 1, index + 1, text, end);
    MarkerComesBack(next, text, at, end, message, n, k, references, index);
  }

  lemma AtReference(next: Pattern, plain: Unit -> bool, fragment: Fragment,
      fallback: Text -> Option<Reference>, references: seq<Reference>, message: Text, n: nat, k: nat, index: nat,
      text: Text, at: nat) returns (end: nat)
    requires ReadsBack(next, plain, references) && index < |references|
    requires fragment.references == Listed(references) && Clear(message, n, k) && PlainMessage(plain, message)
    requires k < |message| && message[k] == MARKER
    requires at <= |text| && text[at..] == Printed(fragment, fallback, message, n, index)
    ensures end <= |text| && text[end..] == Printed(fragment, fallback, message, k + 1, index + 1)
    ensures Scan(next, text, at, at) == Joined(message[n..k], references[index], Scan(next, text, end, end))
  {
    PlainPart(plain, message, n, k);
    PrintedAtMarker(fragment, fallback, references, message, n, k, index);
    end := TakeReference(next, plain, text, at, message[n..k], references[index],
      Printed(fragment, fallback, message, k + 1, index + 1));
  }

  lemma {:induction false} MarkerComesBack(next: Pattern, text: Text, at: nat, end: nat, message: Text, n: nat, k: nat,
      references: seq<Reference>, index: nat)
    requires Advances(next) && at <= |text| && index < |references| && n <= k < |message| && message[k] == MARKER
    requires ComesBack(next, text, end, message, k + 1, references, index + 1)
    requires Scan(next, text, at, at) == Joined(message[n..k], references[index], Scan(next, text, end, end))
    ensures ComesBack(next, text, at, message, n, references, index)
  {
    JoinedFront(references, message, n, k, index);
  }

  lemma PlainPart(plain: Unit -> bool, message: Text, n: nat, k: nat)
    requires PlainMessage(plain, message) && Clear(message, n, k)
    ensures AllPlain(plain, message[n..k])
  {
    forall i | 0 <= i < k - n ensures plain(message[n..k][i]) {
      assert message[n..k][i] == message[n + i];
      assert message[n..k][i] in message[n..k];
    }
  }

  lemma {:induction false} LastRoundTrip(next: Pattern, plain: Unit -> bool, fragment: Fragment,
      fallback: Text -> Option<Reference>, references: seq<Reference>, message: Text, n: nat, text: Text, at: nat)
    requires Advances(next) && SkipsPlain(next, plain) && PlainMessage(plain, message) && Clear(message, n, |message|)
    requires at <= |text| && text[at..] == Printed(fragment, fallback, message, n, |references|)
    ensures ComesBack(next, text, at, message, n, references, |references|)
  {
    PrintedPlain(fragment, fallback, message, n, |message|, |references|);
    assert message[n..|message|] == message[n..] && message[n..] + [] == message[n..];
    PlainPart(plain, message, n, |message|);
    assert AllPlain(plain, text[at..]);
    CleanPlain(message[n..]);
  }

  lemma JoinedFront(references: seq<Reference>, message: Text, n: nat, k: nat, index: nat)
    requires index < |references| && n <= k < |message| && message[k] == MARKER
    ensures Joined(message[n..k], references[index], Parsed(message[k + 1..], references[index + 1..]))
      == Parsed(message[n..], references[index..])
  {
    assert message[n..] == message[n..k] + [MARKER] + message[k + 1..];
    assert references[index..] == [references[index]] + references[index + 1..];
  }

  // Everything but the markers is plain text.
  ghost predicate PlainMessage(plain: Unit -> bool, message: Text) {
    forall i | 0 <= i < |message| && message[i] != MARKER :: plain(message[i])
  }

  /** A printed fragment is collected back. */
  lemma {:induction false} FragmentRoundTrip(next: Pattern, plain: Unit -> bool, fragment: Fragment,
      fallback: Text -> Option<Reference>, references: seq<Reference>)
    requires ReadsBack(next, plain, references) && PlainMessage(plain, fragment.message)
    requires references != [] && Markers(fragment.message) == |references|
    requires fragment.references == Listed(references) && fragment.skillIds == Ids(references)
    ensures FragmentOf(Scan(next, Printed(fragment, fallback, fragment.message, 0, 0), 0, 0)) == Some(fragment)
  {
    var text := Printed(fragment, fallback, fragment.message, 0, 0);
    AheadIsMarkers(fragment.message, 0);
    assert text[0..] == text && references[0..] == references && fragment.message[0..] == fragment.message;
    RestRoundTrip(next, plain, fragment, fallback, references, fragment.message, 0, 0, text, 0);
  }
}
