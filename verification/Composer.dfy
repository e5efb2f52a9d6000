/** The composer document: text, skills and agents edited by offsets that count one for each UTF-16 unit of text and one
    for each skill or agent. Editing is splicing on the flattened sequence of these atoms. */
module Composer {
  import opened Common
  import opened JsText

  datatype RefKind = Skill | Agent
  datatype Node = Text(text: seq<Unit>) | Ref(kind: RefKind, candidateRef: string, name: string)
  datatype Atom = Char(unit: Unit) | Whole(kind: RefKind, candidateRef: string, name: string)

  // ---- Atoms ----

  function Chars(text: seq<Unit>): (r: seq<Atom>)
    ensures |r| == |text|
  {
    seq(|text|, i requires 0 <= i < |text| => Char(text[i]))
  }

  function NodeAtoms(node: Node): (r: seq<Atom>)
    ensures |r| == NodeLength(node)
  {
    match node
    case Text(text) => Chars(text)
    case Ref(kind, candidateRef, name) => [Whole(kind, candidateRef, name)]
  }

  function NodeLength(node: Node): nat {
    if node.Text? then |node.text| else 1
  }

  function Flatten(nodes: seq<Node>): seq<Atom> {
    if nodes == [] then [] else Flatten(nodes[..|nodes| - 1]) + NodeAtoms(nodes[|nodes| - 1])
  }

  lemma {:induction false} FlattenAppend(a: seq<Node>, b: seq<Node>)
    ensures Flatten(a + b) == Flatten(a) + Flatten(b)
  {
    if b == [] {
      assert a + b == a;
    } else {
      FrontOfConcatenation(a, b);
      FlattenAppend(a, b[..|b| - 1]);
    }
  }

  lemma FlattenOne(node: Node)
    ensures Flatten([node]) == NodeAtoms(node)
  {
    FlattenPush([], node);
    assert [] + [node] == [node];
  }

  lemma {:induction false} FlattenPush(nodes: seq<Node>, node: Node)
    ensures Flatten(nodes + [node]) == Flatten(nodes) + NodeAtoms(node)
  {
    assert (nodes + [node])[..|nodes|] == nodes;
  }

  // ---- Normal documents ----

  ghost predicate Normal(nodes: seq<Node>) {
    && (forall i | 0 <= i < |nodes| && nodes[i].Text? :: nodes[i].text != [])
    && (forall i | 0 < i < |nodes| :: !(nodes[i - 1].Text? && nodes[i].Text?))
  }

  // One round of the normalizing loop: the kept nodes and the node it takes next.
  function Joined(nodes: seq<Node>, node: Node): seq<Node> {
    if node == Text([]) then nodes
    else if node.Text? && nodes != [] && nodes[|nodes| - 1].Text? then
      nodes[..|nodes| - 1] + [Text(nodes[|nodes| - 1].text + node.text)]
    else nodes + [node]
  }

  lemma JoinedNormal(nodes: seq<Node>, node: Node)
    requires Normal(nodes)
    ensures Normal(Joined(nodes, node))
  {
    if node == Text([]) {
    } else if node.Text? && nodes != [] && nodes[|nodes| - 1].Text? {
      var joined := Joined(nodes, node);
      assert forall i | 0 <= i < |nodes| - 1 :: joined[i] == nodes[i];
    } else {
      assert forall i | 0 <= i < |nodes| :: (nodes + [node])[i] == nodes[i];
    }
  }

  lemma {:induction false} JoinedFlattens(nodes: seq<Node>, node: Node)
    ensures Flatten(Joined(nodes, node)) == Flatten(nodes) + NodeAtoms(node)
  {
    if node == Text([]) {
      assert Chars([]) == [];
    } else if node.Text? && nodes != [] && nodes[|nodes| - 1].Text? {
      var last := nodes[|nodes| - 1];
      FlattenPush(nodes[..|nodes| - 1], Text(last.text + node.text));
      assert Chars(last.text + node.text) == Chars(last.text) + Chars(node.text);
    } else {
      FlattenPush(nodes, node);
    }
  }

  /** `normalizeComposerDocument`: empty text disappears and adjacent text is joined. */
  method Normalize(nodes: seq<Node>) returns (result: seq<Node>)
    ensures Normal(result) && Flatten(result) == Flatten(nodes)
  {
    result := [];
    for n := 0 to |nodes|
      invariant Normal(result) && Flatten(result) == Flatten(nodes[..n])
    {
      var node := nodes[n];
      TakeNext(nodes, n);
      FlattenPush(nodes[..n], node);
      JoinedNormal(result, node);
      JoinedFlattens(result, node);
      if node.Text? {
        if node.text == [] {
          continue;
        }
        if result != [] && result[|result| - 1].Text? {
          result := result[..|result| - 1] + [Text(result[|result| - 1].text + node.text)];
        } else {
          result := result + [Text(node.text)];
        }
      } else {
        result := result + [Ref(node.kind, node.candidateRef, node.name)];
      }
    }
    TakeAll(nodes);
  }

  // ---- The canonical document of an atom sequence ----

  /** Appends one atom to a normal document. */
  function Push(nodes: seq<Node>, atom: Atom): seq<Node> {
    match atom
    case Whole(kind, candidateRef, name) => nodes + [Ref(kind, candidateRef, name)]
    case Char(unit) =>
      if nodes != [] && nodes[|nodes| - 1].Text? then
        nodes[..|nodes| - 1] + [Text(nodes[|nodes| - 1].text + [unit])]
      else nodes + [Text([unit])]
  }

  function Canonical(atoms: seq<Atom>): seq<Node> {
    if atoms == [] then [] else Push(Canonical(atoms[..|atoms| - 1]), atoms[|atoms| - 1])
  }

  function AtomNode(atom: Atom): Node {
    if atom.Char? then Text([atom.unit]) else Ref(atom.kind, atom.candidateRef, atom.name)
  }

  lemma PushIsJoined(nodes: seq<Node>, atom: Atom)
    ensures Push(nodes, atom) == Joined(nodes, AtomNode(atom))
  {
  }

  lemma AtomOfNode(atom: Atom)
    ensures NodeAtoms(AtomNode(atom)) == [atom]
  {
  }

  lemma {:induction false} PushAtom(nodes: seq<Node>, atom: Atom)
    requires Normal(nodes)
    ensures Normal(Push(nodes, atom)) && Flatten(Push(nodes, atom)) == Flatten(nodes) + [atom]
  {
    PushIsJoined(nodes, atom);
    JoinedNormal(nodes, AtomNode(atom));
    JoinedFlattens(nodes, AtomNode(atom));
    AtomOfNode(atom);
  }

  lemma {:induction false} CanonicalIsNormal(atoms: seq<Atom>)
    ensures Normal(Canonical(atoms)) && Flatten(Canonical(atoms)) == atoms
  {
    if atoms == [] {
      assert Canonical(atoms) == [];
    } else {
      assert atoms[..|atoms| - 1] + [atoms[|atoms| - 1]] == atoms;
      CanonicalIsNormal(atoms[..|atoms| - 1]);
      CanonicalStep(atoms);
    }
  }

  lemma {:induction false} CanonicalStep(atoms: seq<Atom>)
    requires atoms != [] && Normal(Canonical(atoms[..|atoms| - 1]))
    ensures Normal(Canonical(atoms))
    ensures Flatten(Canonical(atoms)) == Flatten(Canonical(atoms[..|atoms| - 1])) + [atoms[|atoms| - 1]]
  {
    PushAtom(Canonical(atoms[..|atoms| - 1]), atoms[|atoms| - 1]);
  }

  // A normal document without its last atom.
  function Pop(nodes: seq<Node>): seq<Node>
    requires nodes != []
  {
    var last := nodes[|nodes| - 1];
    if last.Text? && |last.text| > 1 then nodes[..|nodes| - 1] + [Text(last.text[..|last.text| - 1])]
    else nodes[..|nodes| - 1]
  }

  function LastAtom(node: Node): Atom
    requires node != Text([])
  {
    if node.Text? then Char(node.text[|node.text| - 1]) else Whole(node.kind, node.candidateRef, node.name)
  }

  lemma PopNormal(nodes: seq<Node>)
    requires Normal(nodes) && nodes != []
    ensures Normal(Pop(nodes)) && nodes[|nodes| - 1] != Text([])
  {
    assert forall i | 0 <= i < |nodes| - 1 :: Pop(nodes)[i] == nodes[i];
  }

  lemma {:induction false} PopAtom(nodes: seq<Node>)
    requires nodes != [] && nodes[|nodes| - 1] != Text([])
    ensures Flatten(nodes) == Flatten(Pop(nodes)) + [LastAtom(nodes[|nodes| - 1])]
  {
    var last := nodes[|nodes| - 1];
    if last.Text? && |last.text| > 1 {
      FlattenPush(nodes[..|nodes| - 1], Text(last.text[..|last.text| - 1]));
      LastChar(last.text);
    } else {
      assert NodeAtoms(last) == [LastAtom(last)];
    }
  }

  lemma LastChar(text: seq<Unit>)
    requires text != []
    ensures Chars(text) == Chars(text[..|text| - 1]) + [Char(text[|text| - 1])]
  {
  }

  lemma PushPop(nodes: seq<Node>)
    requires Normal(nodes) && nodes != [] && nodes[|nodes| - 1] != Text([])
    ensures Push(Pop(nodes), LastAtom(nodes[|nodes| - 1])) == nodes
  {
    var last := nodes[|nodes| - 1];
    assert nodes[..|nodes| - 1] + [last] == nodes;
    if last.Text? && |last.text| > 1 {
      assert last.text[..|last.text| - 1] + [last.text[|last.text| - 1]] == last.text;
    } else if last.Text? {
      assert [last.text[0]] == last.text;
    }
  }

  /** A normal document is the canonical document of its atoms. */
  lemma {:induction false} NormalIsCanonical(nodes: seq<Node>)
    requires Normal(nodes)
    ensures nodes == Canonical(Flatten(nodes))
    decreases |Flatten(nodes)|
  {
    if nodes != [] {
      PopNormal(nodes);
      PopAtom(nodes);
      PushPop(nodes);
      NormalIsCanonical(Pop(nodes));
      assert Flatten(nodes)[..|Flatten(nodes)| - 1] == Flatten(Pop(nodes));
    }
  }

  /** Normalization is a canonical form: two documents have the same normal form exactly when their atoms agree. */
  lemma {:induction false} SameNormalForm(a: seq<Node>, b: seq<Node>, a': seq<Node>, b': seq<Node>)
    requires Normal(a') && Flatten(a') == Flatten(a)
    requires Normal(b') && Flatten(b') == Flatten(b)
    ensures a' == b' <==> Flatten(a) == Flatten(b)
  {
    NormalIsCanonical(a');
    NormalIsCanonical(b');
  }

  // ---- Splitting ----

  /** `Math.trunc`. */
  function Trunc(x: real): int {
    if x >= 0.0 then x.Floor else -((-x).Floor)
  }

  function Clamp(x: int, hi: nat): nat {
    if x < 0 then 0 else if x > hi then hi else x
  }

  function Length(nodes: seq<Node>): (n: nat)
    ensures n == |Flatten(nodes)|
  {
    if nodes == [] then 0 else Length(nodes[..|nodes| - 1]) + NodeLength(nodes[|nodes| - 1])
  }

  /** The real offset x cuts a document of this length after k units: k is the last whole number up to x that lies
      within the document. */
  predicate Cuts(x: real, length: nat, k: nat) {
    && k <= length
    && (k > 0 ==> k as real <= x)
    && (k < length ==> x < (k + 1) as real)
  }

  lemma ClampCuts(x: real, length: nat)
    ensures Cuts(x, length, Clamp(Trunc(x), length))
  {
    assert x >= 0.0 ==> Trunc(x) as real <= x < (Trunc(x) + 1) as real;
    assert x < 0.0 ==> (Trunc(x) - 1) as real < x <= Trunc(x) as real;
  }

  // Every node is one of the others, or a piece of a text node: references are never split.
  ghost predicate Pieces(nodes: seq<Node>, source: seq<Node>) {
    forall x | x in nodes :: x.Text? || x in source
  }

  // The two halves hold the atoms before and after offset k, in nodes of the document and pieces of its text.
  ghost predicate SplitsAt(before: seq<Node>, after: seq<Node>, nodes: seq<Node>, k: nat) {
    && k <= |Flatten(nodes)|
    && Flatten(before) == Flatten(nodes)[..k]
    && Flatten(after) == Flatten(nodes)[k..]
    && Pieces(before, nodes) && Pieces(after, nodes)
  }

  /** `splitComposerNodes`: the atoms before and after the truncated, clamped offset. */
  method Split(nodes: seq<Node>, requestedOffset: real) returns (before: seq<Node>, after: seq<Node>)
    ensures SplitsAt(before, after, nodes, Clamp(Trunc(requestedOffset), |Flatten(nodes)|))
    ensures Cuts(requestedOffset, |Flatten(nodes)|, |Flatten(before)|)
  {
    var totalLength := Length(nodes);
    var offset: nat := Clamp(Trunc(requestedOffset), totalLength);
    ghost var k := offset;
    before := [];
    for index := 0 to |nodes|
      invariant before == nodes[..index] && |Flatten(nodes[..index])| + offset == k
    {
      var node := nodes[index];
      var nodeLength := NodeLength(node);
      if offset == 0 {
        SplitBetweenNodes(nodes, index, requestedOffset);
        return before, nodes[index..];
      }
      if offset >= nodeLength {
        FlattenNext(nodes, index);
        before := before + [node];
        offset := offset - nodeLength;
        continue;
      }
      SplitInText(nodes, index, offset, requestedOffset);
      return before + [Text(node.text[..offset])], [Text(node.text[offset..])] + nodes[index + 1..];
    }
    TakeAll(nodes);
    SplitBetweenNodes(nodes, |nodes|, requestedOffset);
    return before, nodes[|nodes|..];
  }

  lemma {:induction false} SplitCuts(before: seq<Node>, after: seq<Node>, nodes: seq<Node>, x: real)
    requires SplitsAt(before, after, nodes, Clamp(Trunc(x), |Flatten(nodes)|))
    ensures Cuts(x, |Flatten(nodes)|, |Flatten(before)|)
  {
    ClampCuts(x, |Flatten(nodes)|);
  }

  lemma {:induction false} SplitBetweenNodes(nodes: seq<Node>, index: nat, x: real)
    requires index <= |nodes| && |Flatten(nodes[..index])| == Clamp(Trunc(x), |Flatten(nodes)|)
    ensures SplitsAt(nodes[..index], nodes[index..], nodes, Clamp(Trunc(x), |Flatten(nodes)|))
    ensures Cuts(x, |Flatten(nodes)|, |Flatten(nodes[..index])|)
  {
    SplitBetween(nodes, index);
    SplitCuts(nodes[..index], nodes[index..], nodes, x);
  }

  lemma {:induction false} SplitInText(nodes: seq<Node>, index: nat, offset: nat, x: real)
    requires index < |nodes| && nodes[index].Text? && offset <= |nodes[index].text|
    requires |Flatten(nodes[..index])| + offset == Clamp(Trunc(x), |Flatten(nodes)|)
    ensures var text := nodes[index].text;
      var before, after := nodes[..index] + [Text(text[..offset])], [Text(text[offset..])] + nodes[index + 1..];
      SplitsAt(before, after, nodes, Clamp(Trunc(x), |Flatten(nodes)|)) && Cuts(x, |Flatten(nodes)|, |Flatten(before)|)
  {
    var text := nodes[index].text;
    SplitText(nodes, index, offset);
    SplitCuts(nodes[..index] + [Text(text[..offset])], [Text(text[offset..])] + nodes[index + 1..], nodes, x);
  }

  lemma FlattenNext(nodes: seq<Node>, index: nat)
    requires index < |nodes|
    ensures nodes[..index + 1] == nodes[..index] + [nodes[index]]
    ensures |Flatten(nodes[..index + 1])| == |Flatten(nodes[..index])| + NodeLength(nodes[index])
  {
    TakeNext(nodes, index);
    FlattenPush(nodes[..index], nodes[index]);
  }

  lemma SplitBetween(nodes: seq<Node>, index: nat)
    requires index <= |nodes|
    ensures SplitsAt(nodes[..index], nodes[index..], nodes, |Flatten(nodes[..index])|)
  {
    assert nodes == nodes[..index] + nodes[index..];
    FlattenAppend(nodes[..index], nodes[index..]);
  }

  lemma SplitText(nodes: seq<Node>, index: nat, offset: nat)
    requires index < |nodes| && nodes[index].Text? && offset <= |nodes[index].text|
    ensures SplitsAt(nodes[..index] + [Text(nodes[index].text[..offset])],
      [Text(nodes[index].text[offset..])] + nodes[index + 1..], nodes, |Flatten(nodes[..index])| + offset)
  {
    SplitTextAtoms(nodes, index, offset);
    PiecesAround(nodes, index, Text(nodes[index].text[..offset]), Text(nodes[index].text[offset..]));
  }

  lemma PiecesAround(nodes: seq<Node>, index: nat, left: Node, right: Node)
    requires index < |nodes| && left.Text? && right.Text?
    ensures Pieces(nodes[..index] + [left], nodes) && Pieces([right] + nodes[index + 1..], nodes)
  {
  }

  lemma {:induction false} SplitTextAtoms(nodes: seq<Node>, index: nat, offset: nat)
    requires index < |nodes| && nodes[index].Text? && offset <= |nodes[index].text|
    ensures var k, text := |Flatten(nodes[..index])| + offset, nodes[index].text;
      && k <= |Flatten(nodes)|
      && Flatten(nodes[..index] + [Text(text[..offset])]) == Flatten(nodes)[..k]
      && Flatten([Text(text[offset..])] + nodes[index + 1..]) == Flatten(nodes)[k..]
  {
    var text, earlier, later := nodes[index].text, nodes[..index], nodes[index + 1..];
    FlattenPush(earlier, Text(text[..offset]));
    FlattenFront(Text(text[offset..]), later);
    FlattenMiddle(nodes, index);
    CutChars(Flatten(earlier), text, offset, Flatten(later));
    CutAt(Flatten(earlier) + Chars(text[..offset]), Chars(text[offset..]) + Flatten(later));
  }

  lemma CutAt(front: seq<Atom>, rest: seq<Atom>)
    ensures (front + rest)[..|front|] == front && (front + rest)[|front|..] == rest
  {
  }

  lemma CutChars(earlier: seq<Atom>, text: seq<Unit>, offset: nat, later: seq<Atom>)
    requires offset <= |text|
    ensures earlier + Chars(text) + later == (earlier + Chars(text[..offset])) + (Chars(text[offset..]) + later)
  {
    assert Chars(text) == Chars(text[..offset]) + Chars(text[offset..]);
  }

  lemma {:induction false} FlattenFront(node: Node, later: seq<Node>)
    ensures Flatten([node] + later) == NodeAtoms(node) + Flatten(later)
  {
    FlattenAppend([node], later);
    FlattenOne(node);
  }

  lemma {:induction false} FlattenMiddle(nodes: seq<Node>, index: nat)
    requires index < |nodes|
    ensures Flatten(nodes) == Flatten(nodes[..index]) + NodeAtoms(nodes[index]) + Flatten(nodes[index + 1..])
  {
    assert nodes == (nodes[..index] + [nodes[index]]) + nodes[index + 1..];
    FlattenAppend(nodes[..index] + [nodes[index]], nodes[index + 1..]);
    FlattenPush(nodes[..index], nodes[index]);
  }

  // ---- Replacing a range ----

  // The atom range that a pair of requested offsets stands for: ordered, truncated and clamped to the document.
  function RangeLow(a: real, b: real, length: nat): nat {
    Clamp(Trunc(if a <= b then a else b), length)
  }

  function RangeHigh(a: real, b: real, length: nat): nat {
    Clamp(Trunc(if a <= b then b else a), length)
  }

  lemma RangeOrdered(a: real, b: real, length: nat)
    ensures RangeLow(a, b, length) == Clamp(Trunc(if a <= b then a else b), RangeHigh(a, b, length))
    ensures RangeLow(a, b, length) <= RangeHigh(a, b, length) <= length
  {
    TruncMonotone(if a <= b then a else b, if a <= b then b else a);
  }

  lemma TruncMonotone(x: real, y: real)
    requires x <= y
    ensures Trunc(x) <= Trunc(y)
  {
    FloorMonotone(x, y);
    FloorMonotone(-y, -x);
  }

  lemma FloorMonotone(x: real, y: real)
    requires x <= y
    ensures x.Floor <= y.Floor
  {
    assert x.Floor as real <= x;
    assert y < (y.Floor + 1) as real;
  }

  function Spliced(atoms: seq<Atom>, low: nat, high: nat, replacement: seq<Atom>): seq<Atom>
    requires low <= high <= |atoms|
  {
    atoms[..low] + replacement + atoms[high..]
  }

  /** `replaceComposerRange`: a splice of the flattened document, normalized. */
  method Replace(nodes: seq<Node>, start: real, end: real, replacement: seq<Node>) returns (result: seq<Node>)
    ensures Normal(result)
    ensures RangeLow(start, end, |Flatten(nodes)|) <= RangeHigh(start, end, |Flatten(nodes)|) <= |Flatten(nodes)|
    ensures Flatten(result) == Spliced(Flatten(nodes), RangeLow(start, end, |Flatten(nodes)|),
      RangeHigh(start, end, |Flatten(nodes)|), Flatten(replacement))
    ensures References(result) == AtomReferences(Flatten(nodes)[..RangeLow(start, end, |Flatten(nodes)|)])
      + References(replacement) + AtomReferences(Flatten(nodes)[RangeHigh(start, end, |Flatten(nodes)|)..])
  {
    RangeOrdered(start, end, |Flatten(nodes)|);
    var normalized := Normalize(nodes);
    var rangeStart := if start <= end then start else end;
    var rangeEnd := if start <= end then end else start;
    var throughEnd, after := Split(normalized, rangeEnd);
    var before, _ := Split(throughEnd, rangeStart);
    SpliceFlattens(Flatten(nodes), RangeLow(start, end, |Flatten(nodes)|), RangeHigh(start, end, |Flatten(nodes)|),
      before, replacement, after);
    result := Normalize(before + replacement + after);
    ReferencesSurvive(nodes, RangeLow(start, end, |Flatten(nodes)|), RangeHigh(start, end, |Flatten(nodes)|),
      replacement, result);
  }

  lemma {:induction false} SpliceFlattens(atoms: seq<Atom>, low: nat, high: nat, before: seq<Node>,
        replacement: seq<Node>,
      after: seq<Node>)
    requires low <= high <= |atoms|
    requires Flatten(before) == atoms[..high][..low] && Flatten(after) == atoms[high..]
    ensures Flatten(before + replacement + after) == Spliced(atoms, low, high, Flatten(replacement))
  {
    FlattenAppend(before + replacement, after);
    FlattenAppend(before, replacement);
    assert atoms[..high][..low] == atoms[..low];
  }

  // ---- Inserting and deleting ----

  /** `insertComposerText`. */
  method InsertText(nodes: seq<Node>, offset: real, text: seq<Unit>) returns (result: seq<Node>)
    ensures Normal(result)
    ensures var at := Clamp(Trunc(offset), |Flatten(nodes)|);
      Flatten(result) == Spliced(Flatten(nodes), at, at, Chars(text))
  {
    FlattenOne(Text(text));
    result := Replace(nodes, offset, offset, [Text(text)]);
  }

  /** `insertComposerSkill` and `insertComposerAgent`: one atom replaces the range. */
  method InsertRef(nodes: seq<Node>, start: real, end: real, kind: RefKind, candidateRef: string, name: string)
    returns (result: seq<Node>)
    ensures Normal(result)
    ensures RangeLow(start, end, |Flatten(nodes)|) <= RangeHigh(start, end, |Flatten(nodes)|) <= |Flatten(nodes)|
    ensures Flatten(result) == Spliced(Flatten(nodes), RangeLow(start, end, |Flatten(nodes)|),
      RangeHigh(start, end, |Flatten(nodes)|), [Whole(kind, candidateRef, name)])
  {
    FlattenOne(Ref(kind, candidateRef, name));
    result := Replace(nodes, start, end, [Ref(kind, candidateRef, name)]);
  }

  /** `deleteComposerRange`. */
  method Delete(nodes: seq<Node>, start: real, end: real) returns (result: seq<Node>)
    ensures Normal(result)
    ensures RangeLow(start, end, |Flatten(nodes)|) <= RangeHigh(start, end, |Flatten(nodes)|) <= |Flatten(nodes)|
    ensures Flatten(result) == Spliced(Flatten(nodes), RangeLow(start, end, |Flatten(nodes)|),
      RangeHigh(start, end, |Flatten(nodes)|), [])
  {
    result := Replace(nodes, start, end, []);
  }

  /** Inserting nodes at an offset and deleting the span they came to occupy restores the normalized document, whatever
      was inserted and wherever. The deletion names the span by the clamped offset and the inserted length. */
  method InsertThenDelete(nodes: seq<Node>, offset: real, inserted: seq<Node>) returns (restored: seq<Node>)
    ensures restored == Canonical(Flatten(nodes)) && Normal(restored)
  {
    var at := Clamp(Trunc(offset), Length(nodes));
    var edited := Replace(nodes, offset, offset, inserted);
    var end := at + Length(inserted);
    SplicedBack(Flatten(nodes), at, Flatten(inserted));
    assert |Flatten(edited)| == |Flatten(nodes)| + |Flatten(inserted)|;
    WholeRange(at, end, |Flatten(edited)|);
    restored := Delete(edited, at as real, end as real);
    NormalIsCanonical(restored);
  }

  // Whole offsets within the document stand for themselves.
  lemma WholeRange(low: nat, high: nat, length: nat)
    requires low <= high <= length
    ensures RangeLow(low as real, high as real, length) == low && RangeHigh(low as real, high as real, length) == high
  {
    TruncWhole(low);
    TruncWhole(high);
  }

  lemma SplicedBack(atoms: seq<Atom>, at: nat, inserted: seq<Atom>)
    requires at <= |atoms|
    ensures Spliced(Spliced(atoms, at, at, inserted), at, at + |inserted|, []) == atoms
  {
  }

  lemma TruncWhole(n: nat)
    ensures Trunc(n as real) == n
  {
    assert (n as real).Floor as real <= n as real < ((n as real).Floor + 1) as real;
  }

  // ---- References ----

  // The references of a document, in order.
  function References(nodes: seq<Node>): seq<Node> {
    if nodes == [] then []
    else
      var last := nodes[|nodes| - 1];
      References(nodes[..|nodes| - 1]) + if last.Ref? then [last] else []
  }

  // The references that atoms stand for, in order.
  function AtomReferences(atoms: seq<Atom>): seq<Node> {
    if atoms == [] then []
    else
      var last := atoms[|atoms| - 1];
      AtomReferences(atoms[..|atoms| - 1])
      + if last.Whole? then [Ref(last.kind, last.candidateRef, last.name)] else []
  }

  lemma {:induction false} AtomReferencesAppend(a: seq<Atom>, b: seq<Atom>)
    ensures AtomReferences(a + b) == AtomReferences(a) + AtomReferences(b)
  {
    if b == [] {
      assert a + b == a;
    } else {
      FrontOfConcatenation(a, b);
      AtomReferencesAppend(a, b[..|b| - 1]);
    }
  }

  lemma {:induction false} TextHasNoReferences(text: seq<Unit>)
    ensures AtomReferences(Chars(text)) == []
  {
    if text != [] {
      assert Chars(text)[..|text| - 1] == Chars(text[..|text| - 1]);
      TextHasNoReferences(text[..|text| - 1]);
    }
  }

  lemma NodeReferences(node: Node)
    ensures AtomReferences(NodeAtoms(node)) == if node.Ref? then [node] else []
  {
    match node {
      case Text(text) => TextHasNoReferences(text);
      case Ref(kind, candidateRef, name) =>
        assert [Whole(kind, candidateRef, name)][..0] == [];
    }
  }

  lemma {:induction false} ReferencesOfAtoms(nodes: seq<Node>)
    ensures References(nodes) == AtomReferences(Flatten(nodes))
  {
    if nodes != [] {
      var front, last := nodes[..|nodes| - 1], nodes[|nodes| - 1];
      ReferencesOfAtoms(front);
      AtomReferencesAppend(Flatten(front), NodeAtoms(last));
      NodeReferences(last);
    }
  }

  /** The references of an edited document are, in order, those in front of the range, those of the replacement and
      those behind the range; with those inside the range they were the references of the document. None is split or
      altered. */
  lemma {:induction false} ReferencesSurvive(nodes: seq<Node>, low: nat, high: nat, replacement: seq<Node>,
      result: seq<Node>)
    requires low <= high <= |Flatten(nodes)|
    requires Flatten(result) == Spliced(Flatten(nodes), low, high, Flatten(replacement))
    ensures References(result)
      == AtomReferences(Flatten(nodes)[..low]) + References(replacement) + AtomReferences(Flatten(nodes)[high..])
    ensures References(nodes) == AtomReferences(Flatten(nodes)[..low]) + AtomReferences(Flatten(nodes)[low..high])
      + AtomReferences(Flatten(nodes)[high..])
  {
    var atoms := Flatten(nodes);
    ReferencesOfAtoms(result);
    ReferencesOfAtoms(nodes);
    ReferencesOfAtoms(replacement);
    ThreeReferences(atoms[..low], Flatten(replacement), atoms[high..]);
    PartReferences(atoms, low, high);
  }

  lemma {:induction false} PartReferences(atoms: seq<Atom>, low: nat, high: nat)
    requires low <= high <= |atoms|
    ensures AtomReferences(atoms)
      == AtomReferences(atoms[..low]) + AtomReferences(atoms[low..high]) + AtomReferences(atoms[high..])
  {
    assert atoms == atoms[..low] + atoms[low..high] + atoms[high..];
    ThreeReferences(atoms[..low], atoms[low..high], atoms[high..]);
  }

  lemma {:induction false} ThreeReferences(a: seq<Atom>, b: seq<Atom>, c: seq<Atom>)
    ensures AtomReferences(a + b + c) == AtomReferences(a) + AtomReferences(b) + AtomReferences(c)
  {
    AtomReferencesAppend(a + b, c);
    AtomReferencesAppend(a, b);
  }
}
