/** The byte stream that identifies a skill directory: the files below it, sorted by path, each framed by its path, a
    NUL byte and its length. The hash of the stream is not part of the model. */
module SkillDigest {
  import opened Common
  import opened Sorting

  type Byte = x: int | 0 <= x < 256
  type Name = seq<Byte>
  type Path = seq<Name>

  // What a directory enumeration yields, in its order.
  datatype Entries = Nil | More(name: Name, entry: Entry, rest: Entries)
  datatype Entry = File(contents: seq<Byte>) | Dir(entries: Entries) | Symlink | Special

  // ---- Path order ----

  predicate LexLe<T(==)>(le: (T, T) -> bool, a: seq<T>, b: seq<T>) {
    a == [] || (b != [] && if a[0] == b[0] then LexLe(le, a[1..], b[1..]) else le(a[0], b[0]))
  }

  predicate ByteLe(a: Byte, b: Byte) { a <= b }

  predicate NameLe(a: Name, b: Name) { LexLe(ByteLe, a, b) }

  /** The order of Rust's `PathBuf`: component by component, and byte by byte within a component. */
  predicate PathLe(a: Path, b: Path) { LexLe(NameLe, a, b) }

  lemma {:induction false} LexTotal<T(!new)>(le: (T, T) -> bool, a: seq<T>, b: seq<T>)
    requires TotalOrder(le)
    ensures LexLe(le, a, b) || LexLe(le, b, a)
  {
    if a != [] && b != [] && a[0] == b[0] {
      LexTotal(le, a[1..], b[1..]);
    }
  }

  lemma {:induction false} LexAntisymmetric<T(!new)>(le: (T, T) -> bool, a: seq<T>, b: seq<T>)
    requires TotalOrder(le) && LexLe(le, a, b) && LexLe(le, b, a)
    ensures a == b
  {
    if a != [] && b != [] {
      LexAntisymmetric(le, a[1..], b[1..]);
      assert a == [a[0]] + a[1..] && b == [b[0]] + b[1..];
    }
  }

  lemma {:induction false} LexTransitive<T(!new)>(le: (T, T) -> bool, a: seq<T>, b: seq<T>, c: seq<T>)
    requires TotalOrder(le) && LexLe(le, a, b) && LexLe(le, b, c)
    ensures LexLe(le, a, c)
  {
    if a != [] && a[0] == b[0] == c[0] {
      LexTransitive(le, a[1..], b[1..], c[1..]);
    }
  }

  lemma LexIsOrder<T(!new)>(le: (T, T) -> bool, lexLe: (seq<T>, seq<T>) -> bool)
    requires TotalOrder(le) && forall a, b :: lexLe(a, b) == LexLe(le, a, b)
    ensures TotalOrder(lexLe)
  {
    forall a, b ensures lexLe(a, b) || lexLe(b, a) {
      LexTotal(le, a, b);
    }
    forall a, b | lexLe(a, b) && lexLe(b, a) ensures a == b {
      LexAntisymmetric(le, a, b);
    }
    forall a, b, c | lexLe(a, b) && lexLe(b, c) ensures lexLe(a, c) {
      LexTransitive(le, a, b, c);
    }
  }

  lemma PathLeIsOrder()
    ensures TotalOrder(PathLe)
  {
    LexIsOrder(ByteLe, NameLe);
    LexIsOrder(NameLe, PathLe);
  }

  // ---- Collecting ----

  function Size(entries: Entries): nat {
    match entries
    case Nil => 0
    case More(_, entry, rest) => 1 + (if entry.Dir? then Size(entry.entries) else 0) + Size(rest)
  }

  // The files below, in the order they are found.
  function Paths(prefix: Path, entries: Entries): seq<Path>
    decreases entries
  {
    match entries
    case Nil => []
    case More(name, entry, rest) => EntryPaths(prefix + [name], entry) + Paths(prefix, rest)
  }

  function EntryPaths(path: Path, entry: Entry): seq<Path>
    decreases entry
  {
    match entry
    case File(_) => [path]
    case Dir(entries) => Paths(path, entries)
    case Symlink => []
    case Special => []
  }

  /** Only regular files and directories, and some file below every directory. */
  predicate Plain(entries: Entries) {
    match entries
    case Nil => true
    case More(_, entry, rest) => PlainEntry(entry) && Plain(rest)
  }

  predicate PlainEntry(entry: Entry) {
    match entry
    case File(_) => true
    case Dir(entries) => Plain(entries) && Paths([], entries) != []
    case Symlink => false
    case Special => false
  }

  // How many files are found does not depend on where the directory is.
  lemma {:induction false} PathsCount(p: Path, q: Path, entries: Entries)
    ensures |Paths(p, entries)| == |Paths(q, entries)|
    decreases entries
  {
    if entries.More? {
      PathsCount(p, q, entries.rest);
      if entries.entry.Dir? {
        PathsCount(p + [entries.name], q + [entries.name], entries.entry.entries);
      }
    }
  }

  /** The vector that `collect_skill_files` pushes into. */
  class Collector {
    var files: seq<Path>

    constructor ()
      ensures files == []
    {
      files := [];
    }

    /** `collect_skill_files` */
    method Collect(prefix: Path, directory: Entries) returns (ok: bool)
      modifies this
      ensures ok <==> Plain(directory)
      ensures ok ==> files == old(files) + Paths(prefix, directory)
      decreases Size(directory)
    {
      var remaining := directory;
      while remaining.More?
        invariant Size(remaining) <= Size(directory)
        invariant Plain(directory) <==> Plain(remaining)
        invariant files + Paths(prefix, remaining) == old(files) + Paths(prefix, directory)
        decreases Size(remaining)
      {
        var path := prefix + [remaining.name];
        assert files + (EntryPaths(path, remaining.entry) + Paths(prefix, remaining.rest))
          == (files + EntryPaths(path, remaining.entry)) + Paths(prefix, remaining.rest);
        match remaining.entry {
          case Symlink => return false;
          case Special => return false;
          case Dir(entries) =>
            var fileCount := |files|;
            var below := Collect(path, entries);
            if !below {
              return false;
            }
            PathsCount(path, [], entries);
            if |files| == fileCount {
              return false;
            }
          case File(_) => files := files + [path];
        }
        remaining := remaining.rest;
      }
      ok := true;
    }
  }

  // ---- Reading ----

  function Find(entries: Entries, name: Name): Option<Entry> {
    match entries
    case Nil => None
    case More(n, entry, rest) => if n == name then Some(entry) else Find(rest, name)
  }

  function Read(entries: Entries, path: Path): Option<seq<Byte>>
    decreases |path|
  {
    if path == [] then None
    else
      match Find(entries, path[0])
      case None => None
      case Some(File(contents)) => if |path| == 1 then Some(contents) else None
      case Some(Dir(below)) => Read(below, path[1..])
      case Some(Symlink) => None
      case Some(Special) => None
  }

  // No directory lists a name twice.
  predicate UniqueNames(entries: Entries) {
    match entries
    case Nil => true
    case More(name, entry, rest) =>
      Find(rest, name) == None && (entry.Dir? ==> UniqueNames(entry.entries)) && UniqueNames(rest)
  }

  lemma {:induction false} FindStep(entries: Entries, name: Name)
    requires entries.More? && UniqueNames(entries) && Find(entries.rest, name).Some?
    ensures Find(entries, name) == Find(entries.rest, name)
  {
  }

  // Each collected path is the prefix followed by the path of a file that can be read.
  lemma {:induction false} PathsAreFiles(prefix: Path, entries: Entries, path: Path)
    requires UniqueNames(entries) && path in Paths(prefix, entries)
    ensures |prefix| < |path| && path[..|prefix|] == prefix && Read(entries, path[|prefix|..]).Some?
    ensures Find(entries, path[|prefix|]).Some?
    decreases entries
  {
    var below := prefix + [entries.name];
    if path in Paths(prefix, entries.rest) {
      PathsAreFiles(prefix, entries.rest, path);
      FindStep(entries, path[|prefix|]);
      assert path[|prefix|..][0] == path[|prefix|];
    } else if entries.entry.Dir? {
      assert path in Paths(below, entries.entry.entries);
      PathsAreFiles(below, entries.entry.entries, path);
      assert path[..|below|] == below && path[..|prefix|] == below[..|prefix|];
      assert path[|prefix|] == path[..|below|][|prefix|];
      assert path[|prefix|..][1..] == path[|below|..];
    } else {
      assert path == below;
      assert path[|prefix|..] == [entries.name];
    }
  }

  // ---- The stream ----

  datatype Record = Record(path: seq<Byte>, contents: seq<Byte>)

  const SLASH: Byte := 47
  const BACKSLASH: Byte := 92

  function Slashed(bytes: seq<Byte>): (r: seq<Byte>)
    ensures |r| == |bytes| && BACKSLASH !in r
    ensures forall i | 0 <= i < |r| :: r[i] == if bytes[i] == BACKSLASH then SLASH else bytes[i]
  {
    seq(|bytes|, i requires 0 <= i < |bytes| => if bytes[i] == BACKSLASH then SLASH else bytes[i])
  }

  // `to_string_lossy` and the replacement, given the lossy reading of one component.
  function PathText(lossy: Name -> seq<Byte>, path: Path): seq<Byte> {
    if path == [] then []
    else if |path| == 1 then Slashed(lossy(path[0]))
    else PathText(lossy, path[..|path| - 1]) + [SLASH] + Slashed(lossy(path[|path| - 1]))
  }

  // ---- Paths can be read back ----

  // Where the last slash stands, or the end.
  function LastSlash(bytes: seq<Byte>): (k: nat)
    ensures k <= |bytes|
  {
    if bytes == [] then 0
    else if bytes[|bytes| - 1] == SLASH then |bytes| - 1
    else
      var k := LastSlash(bytes[..|bytes| - 1]);
      if k == |bytes| - 1 then |bytes| else k
  }

  function Components(bytes: seq<Byte>): seq<seq<Byte>> {
    var k := LastSlash(bytes);
    if k == |bytes| then [bytes] else Components(bytes[..k]) + [bytes[k + 1..]]
  }

  function Lossy(lossy: Name -> seq<Byte>, path: Path): seq<seq<Byte>> {
    seq(|path|, i requires 0 <= i < |path| => lossy(path[i]))
  }

  lemma {:induction false} NoSlash(bytes: seq<Byte>)
    requires SLASH !in bytes
    ensures LastSlash(bytes) == |bytes|
  {
    if bytes != [] {
      NoSlash(bytes[..|bytes| - 1]);
    }
  }

  lemma {:induction false} SlashBefore(front: seq<Byte>, last: seq<Byte>)
    requires SLASH !in last
    ensures LastSlash(front + [SLASH] + last) == |front|
  {
    var bytes := front + [SLASH] + last;
    if last != [] {
      SlashBefore(front, last[..|last| - 1]);
      assert bytes[..|bytes| - 1] == front + [SLASH] + last[..|last| - 1];
      assert bytes[|bytes| - 1] == last[|last| - 1];
    }
  }

  lemma SlashedPlain(bytes: seq<Byte>)
    requires BACKSLASH !in bytes
    ensures Slashed(bytes) == bytes
  {
  }

  /** A normalized path splits back into the names of its components, when these hold neither slash nor backslash: files
      in different places have different records. */
  lemma {:induction false} PathTextSplits(lossy: Name -> seq<Byte>, path: Path)
    requires path != []
    requires forall i | 0 <= i < |path| :: SLASH !in lossy(path[i]) && BACKSLASH !in lossy(path[i])
    ensures Components(PathText(lossy, path)) == Lossy(lossy, path)
  {
    var last := lossy(path[|path| - 1]);
    SlashedPlain(last);
    if |path| == 1 {
      OneComponent(last);
      assert Lossy(lossy, path) == [last];
    } else {
      var front := path[..|path| - 1];
      PathTextSplits(lossy, front);
      ComponentsPush(PathText(lossy, front), last);
      assert PathText(lossy, path) == PathText(lossy, front) + [SLASH] + last;
      assert Lossy(lossy, path) == Lossy(lossy, front) + [last];
    }
  }

  lemma {:induction false} OneComponent(bytes: seq<Byte>)
    requires SLASH !in bytes
    ensures Components(bytes) == [bytes]
  {
    NoSlash(bytes);
  }

  lemma {:induction false} ComponentsPush(text: seq<Byte>, last: seq<Byte>)
    requires SLASH !in last
    ensures Components(text + [SLASH] + last) == Components(text) + [last]
  {
    SlashBefore(text, last);
    var bytes := text + [SLASH] + last;
    assert bytes[..|text|] == text && bytes[|text| + 1..] == last;
  }

  // ---- Frames ----

  function LittleEndian(n: nat, width: nat): (r: seq<Byte>)
    ensures |r| == width
  {
    if width == 0 then [] else [n % 256] + LittleEndian(n / 256, width - 1)
  }

  function Frame(record: Record): seq<Byte> {
    record.path + [0] + LittleEndian(|record.contents|, 8) + record.contents
  }

  function Encode(records: seq<Record>): seq<Byte> {
    if records == [] then [] else Encode(records[..|records| - 1]) + Frame(records[|records| - 1])
  }

  predicate Readable(entries: Entries, paths: seq<Path>) {
    forall i | 0 <= i < |paths| :: Read(entries, paths[i]).Some?
  }

  function Records(lossy: Name -> seq<Byte>, entries: Entries, paths: seq<Path>): (r: seq<Record>)
    requires Readable(entries, paths)
    ensures |r| == |paths|
  {
    seq(|paths|, i requires 0 <= i < |paths| =>
      Record(PathText(lossy, paths[i]), Read(entries, paths[i]).value))
  }

  function SortedPaths(entries: Entries): (r: seq<Path>)
    ensures UniqueNames(entries) ==> Readable(entries, r)
  {
    var r := StableSort(PathLe, Paths([], entries));
    SortedReadable(entries);
    r
  }

  lemma {:induction false} SortedReadable(entries: Entries)
    ensures UniqueNames(entries) ==> Readable(entries, StableSort(PathLe, Paths([], entries)))
  {
    if UniqueNames(entries) {
      var r := StableSort(PathLe, Paths([], entries));
      SortKeepsMembers(PathLe, Paths([], entries));
      forall i | 0 <= i < |r| ensures Read(entries, r[i]).Some? {
        assert r[i] in r;
        PathsAreFiles([], entries, r[i]);
        assert r[i][0..] == r[i];
      }
    }
  }

  /** The sorted list of files with normalized paths that a directory stands for. */
  function Listing(lossy: Name -> seq<Byte>, entries: Entries): seq<Record>
    requires UniqueNames(entries)
  {
    Records(lossy, entries, SortedPaths(entries))
  }

  /** `skill_directory_digest`, up to the hash: no stream for a directory that is not plain, and otherwise the frames
      of its sorted listing. */
  method Stream(lossy: Name -> seq<Byte>, directory: Entries) returns (stream: Option<seq<Byte>>)
    requires UniqueNames(directory)
    ensures stream == if Plain(directory) then Some(Encode(Listing(lossy, directory))) else None
  {
    var collector := new Collector();
    var plain := collector.Collect([], directory);
    if !plain {
      return None;
    }
    assert [] + Paths([], directory) == Paths([], directory);
    var files := StableSort(PathLe, collector.files);
    assert files == SortedPaths(directory);
    ghost var records := Listing(lossy, directory);
    var digest: seq<Byte> := [];
    for n := 0 to |files|
      invariant digest == Encode(records[..n])
    {
      var contents := Read(directory, files[n]).value;
      EncodePush(records, n);
      digest := digest + PathText(lossy, files[n]);
      digest := digest + [0];
      digest := digest + LittleEndian(|contents|, 8);
      digest := digest + contents;
    }
    assert records[..|files|] == records;
    stream := Some(digest);
  }

  lemma EncodePush(records: seq<Record>, n: nat)
    requires n < |records|
    ensures Encode(records[..n + 1]) == Encode(records[..n]) + records[n].path + [0]
      + LittleEndian(|records[n].contents|, 8) + records[n].contents
  {
    assert records[..n + 1][..n] == records[..n];
  }

  // ---- Unique decoding ----

  function FromLittleEndian(bytes: seq<Byte>): nat {
    if bytes == [] then 0 else bytes[0] + 256 * FromLittleEndian(bytes[1..])
  }

  function Bound(width: nat): nat {
    if width == 0 then 1 else 256 * Bound(width - 1)
  }

  lemma {:induction false} LittleEndianRoundTrip(n: nat, width: nat)
    requires n < Bound(width)
    ensures FromLittleEndian(LittleEndian(n, width)) == n
  {
    if width > 0 {
      LittleEndianRoundTrip(n / 256, width - 1);
      assert LittleEndian(n, width)[1..] == LittleEndian(n / 256, width - 1);
    }
  }

  lemma {:induction false} LittleEndianOnto(bytes: seq<Byte>)
    ensures LittleEndian(FromLittleEndian(bytes), |bytes|) == bytes
  {
    if bytes != [] {
      LittleEndianOnto(bytes[1..]);
      assert FromLittleEndian(bytes) % 256 == bytes[0] && FromLittleEndian(bytes) / 256 == FromLittleEndian(bytes[1..]);
      assert bytes == [bytes[0]] + bytes[1..];
    }
  }

  // Where the first NUL byte stands, or the end.
  function FirstNul(bytes: seq<Byte>): (k: nat)
    ensures k <= |bytes|
    ensures k < |bytes| ==> bytes[k] == 0
    ensures 0 !in bytes[..k]
  {
    if bytes == [] || bytes[0] == 0 then 0
    else
      var k := 1 + FirstNul(bytes[1..]);
      assert bytes[..k] == [bytes[0]] + bytes[1..][..k - 1];
      k
  }

  /** Reads a stream back into records. */
  function Decode(bytes: seq<Byte>): Option<seq<Record>> {
    if bytes == [] then Some([])
    else
      var k := FirstNul(bytes);
      if k + 9 > |bytes| then None
      else
        var length := FromLittleEndian(bytes[k + 1..k + 9]);
        if k + 9 + length > |bytes| then None
        else
          match Decode(bytes[k + 9 + length..])
          case None => None
          case Some(records) => Some([Record(bytes[..k], bytes[k + 9..k + 9 + length])] + records)
  }

  predicate Framed(record: Record) {
    0 !in record.path && |record.contents| < 0x1_0000_0000_0000_0000
  }

  lemma {:induction false} NulEnds(path: seq<Byte>, rest: seq<Byte>)
    requires 0 !in path && rest != [] && rest[0] == 0
    ensures FirstNul(path + rest) == |path|
  {
    if path == [] {
      assert path + rest == rest;
    } else {
      NulEnds(path[1..], rest);
      assert (path + rest)[1..] == path[1..] + rest;
    }
  }

  lemma {:induction false} DecodeFrame(record: Record, rest: seq<Byte>)
    requires Framed(record)
    ensures Decode(Frame(record) + rest) == match Decode(rest)
      case None => None
      case Some(records) => Some([record] + records)
  {
    var length := LittleEndian(|record.contents|, 8);
    NulEnds(record.path, [0] + length + record.contents + rest);
    assert Bound(8) == 0x1_0000_0000_0000_0000;
    LittleEndianRoundTrip(|record.contents|, 8);
    FrameParts(record.path, length, record.contents, rest);
  }

  lemma FrameParts(path: seq<Byte>, length: seq<Byte>, contents: seq<Byte>, rest: seq<Byte>)
    requires |length| == 8
    ensures var k, bytes := |path|, path + [0] + length + contents + rest;
      && bytes == path + ([0] + length + contents + rest)
      && bytes[..k] == path && bytes[k + 1..k + 9] == length
      && bytes[k + 9..k + 9 + |contents|] == contents && bytes[k + 9 + |contents|..] == rest
  {
  }

  lemma {:induction false} EncodeFront(record: Record, records: seq<Record>)
    ensures Encode([record] + records) == Frame(record) + Encode(records)
  {
    if records == [] {
      EncodeOne(record);
      assert [record] + records == [record];
    } else {
      var front, last := records[..|records| - 1], Frame(records[|records| - 1]);
      EncodeFront(record, front);
      FrontOfConcatenation([record], records);
      Regrouped(Frame(record), Encode(front), last);
    }
  }

  lemma EncodeOne(record: Record)
    ensures Encode([record]) == Frame(record)
  {
    assert [record][..0] == [];
  }

  /** The stream determines the list: reading back the frames of records whose paths hold no NUL byte and whose
      lengths fit 64 bits returns those records. */
  lemma {:induction false} DecodeEncode(records: seq<Record>)
    requires forall i | 0 <= i < |records| :: Framed(records[i])
    ensures Decode(Encode(records)) == Some(records)
  {
    if records != [] {
      DecodeEncode(records[1..]);
      assert records == [records[0]] + records[1..];
      EncodeFront(records[0], records[1..]);
      DecodeFrame(records[0], Encode(records[1..]));
    }
  }

  /** A stream that can be read back is the encoding of what it reads back as, so the framing has one form only. */
  lemma {:induction false} EncodeDecode(bytes: seq<Byte>)
    requires Decode(bytes).Some?
    ensures Encode(Decode(bytes).value) == bytes
    decreases |bytes|
  {
    if bytes != [] {
      var k := FirstNul(bytes);
      var length := FromLittleEndian(bytes[k + 1..k + 9]);
      var rest := bytes[k + 9 + length..];
      EncodeDecode(rest);
      EncodeFront(Record(bytes[..k], bytes[k + 9..k + 9 + length]), Decode(rest).value);
      FrameDecode(bytes, k, length);
    }
  }

  lemma FrameDecode(bytes: seq<Byte>, k: nat, length: nat)
    requires k + 9 + length <= |bytes| && bytes[k] == 0 && length == FromLittleEndian(bytes[k + 1..k + 9])
    ensures Frame(Record(bytes[..k], bytes[k + 9..k + 9 + length])) + bytes[k + 9 + length..] == bytes
  {
    LittleEndianOnto(bytes[k + 1..k + 9]);
    assert bytes == bytes[..k] + [0] + bytes[k + 1..k + 9] + bytes[k + 9..k + 9 + length] + bytes[k + 9 + length..];
  }

  /** Two directories feed the hash the same bytes exactly when their sorted listings agree. */
  lemma {:induction false} SameStreamIsSameListing(lossy: Name -> seq<Byte>, a: Entries, b: Entries)
    requires UniqueNames(a) && UniqueNames(b)
    requires forall i | 0 <= i < |Listing(lossy, a)| :: Framed(Listing(lossy, a)[i])
    requires forall i | 0 <= i < |Listing(lossy, b)| :: Framed(Listing(lossy, b)[i])
    ensures Encode(Listing(lossy, a)) == Encode(Listing(lossy, b)) <==> Listing(lossy, a) == Listing(lossy, b)
  {
    DecodeEncode(Listing(lossy, a));
    DecodeEncode(Listing(lossy, b));
  }

  // ---- Enumeration order ----

  function Remove(entries: Entries, name: Name): Entries {
    match entries
    case Nil => Nil
    case More(n, entry, rest) => if n == name then rest else More(n, entry, Remove(rest, name))
  }

  /** The same directory listed in another order, at every level. */
  predicate Rearranged(a: Entries, b: Entries)
    decreases a
  {
    match a
    case Nil => b.Nil?
    case More(name, entry, rest) =>
      match Find(b, name)
      case None => false
      case Some(other) => SameEntry(entry, other) && Rearranged(rest, Remove(b, name))
  }

  predicate SameEntry(x: Entry, y: Entry)
    decreases x
  {
    if x.Dir? then y.Dir? && Rearranged(x.entries, y.entries) else x == y
  }

  lemma {:induction false} RemovePaths(prefix: Path, b: Entries, name: Name)
    requires Find(b, name).Some?
    ensures multiset(Paths(prefix, b))
      == multiset(EntryPaths(prefix + [name], Find(b, name).value)) + multiset(Paths(prefix, Remove(b, name)))
  {
    if b.name != name {
      RemovePaths(prefix, b.rest, name);
    }
  }

  lemma {:induction false} RemovePlain(b: Entries, name: Name)
    requires Find(b, name).Some?
    ensures Plain(b) <==> PlainEntry(Find(b, name).value) && Plain(Remove(b, name))
  {
    if b.name != name {
      RemovePlain(b.rest, name);
    }
  }

  lemma {:induction false} RemoveFind(b: Entries, name: Name, other: Name)
    requires other != name
    ensures Find(Remove(b, name), other) == Find(b, other)
  {
    if b.More? && b.name != name {
      RemoveFind(b.rest, name, other);
    }
  }

  lemma {:induction false} SamePaths(prefix: Path, a: Entries, b: Entries)
    requires Rearranged(a, b)
    ensures multiset(Paths(prefix, a)) == multiset(Paths(prefix, b))
    decreases a
  {
    if a.More? {
      RemovePaths(prefix, b, a.name);
      SamePaths(prefix, a.rest, Remove(b, a.name));
      if a.entry.Dir? {
        SamePaths(prefix + [a.name], a.entry.entries, Find(b, a.name).value.entries);
      }
    }
  }

  lemma {:induction false} SamePlain(a: Entries, b: Entries)
    requires Rearranged(a, b)
    ensures Plain(a) <==> Plain(b)
    decreases a
  {
    if a.More? {
      RemovePlain(b, a.name);
      SamePlain(a.rest, Remove(b, a.name));
      if a.entry.Dir? {
        SamePlain(a.entry.entries, Find(b, a.name).value.entries);
        SamePaths([], a.entry.entries, Find(b, a.name).value.entries);
        assert |multiset(Paths([], a.entry.entries))| == |Paths([], a.entry.entries)|;
      }
    }
  }

  lemma {:induction false} SameFind(a: Entries, b: Entries, name: Name)
    requires Rearranged(a, b) && UniqueNames(b)
    ensures Find(a, name).Some? <==> Find(b, name).Some?
    ensures Find(a, name).Some? ==> SameEntry(Find(a, name).value, Find(b, name).value)
    decreases a
  {
    if a.More? && a.name != name {
      RemoveFind(b, a.name, name);
      RemoveUnique(b, a.name);
      SameFind(a.rest, Remove(b, a.name), name);
    }
  }

  lemma {:induction false} RemoveUnique(b: Entries, name: Name)
    requires UniqueNames(b)
    ensures UniqueNames(Remove(b, name))
  {
    if b.More? && b.name != name {
      RemoveUnique(b.rest, name);
      RemoveFind(b.rest, name, b.name);
    }
  }

  lemma {:induction false} FoundUnique(b: Entries, name: Name)
    requires UniqueNames(b) && Find(b, name).Some? && Find(b, name).value.Dir?
    ensures UniqueNames(Find(b, name).value.entries)
  {
    if b.name != name {
      FoundUnique(b.rest, name);
    }
  }

  lemma {:induction false} SameRead(a: Entries, b: Entries, path: Path)
    requires Rearranged(a, b) && UniqueNames(b)
    ensures Read(a, path) == Read(b, path)
    decreases |path|
  {
    if path != [] {
      SameFind(a, b, path[0]);
      if Find(a, path[0]).Some? && Find(a, path[0]).value.Dir? {
        FoundUnique(b, path[0]);
        SameRead(Find(a, path[0]).value.entries, Find(b, path[0]).value.entries, path[1..]);
      }
    }
  }

  /** The stream does not depend on the order in which directories are enumerated: neither does whether there is one. */
  lemma {:induction false} OrderDoesNotMatter(lossy: Name -> seq<Byte>, a: Entries, b: Entries)
    requires UniqueNames(a) && UniqueNames(b) && Rearranged(a, b)
    ensures Plain(a) <==> Plain(b)
    ensures Listing(lossy, a) == Listing(lossy, b)
  {
    SamePlain(a, b);
    SamePaths([], a, b);
    PathLeIsOrder();
    StableSortSorted(PathLe, Paths([], a));
    StableSortSorted(PathLe, Paths([], b));
    SortedIsUnique(PathLe, SortedPaths(a), SortedPaths(b));
    forall i | 0 <= i < |SortedPaths(a)| ensures Listing(lossy, a)[i] == Listing(lossy, b)[i] {
      SameRead(a, b, SortedPaths(a)[i]);
    }
  }
}
