/** Reading a tarred bag in one forward pass (util/fileutil/tar_file_iterator.go), and the
    names that tie a tar entry to its GenericFile (models/generic_file.go). */
module TarFiles {
  import opened Options
  import opened Text

  datatype Kind = Regular | Directory | Other

  /** What one step of the tar reader finds: a header with its data, or damage. The reader
      does not get past damage: it reports the same error at every further step. */
  datatype Item = Header(name: string, kind: Kind, content: string) | Unreadable

  // ----- names -----

  function TopDir(name: string): string {
    Split(name)[0]
  }

  /** The entry name without its first component. */
  function RelPath(name: string): string {
    Join(Split(name)[1..])
  }

  function Identifier(objIdentifier: string, relPath: string): string {
    objIdentifier + "/" + relPath
  }

  function OriginalPath(identifier: string, objIdentifier: string): string {
    RemoveFirst(identifier, objIdentifier + "/")
  }

  function InstitutionIdentifier(identifier: string): Option<string> {
    var parts := Split(identifier);
    if |parts| < 2 then None else Some(parts[0])
  }

  function OriginalPathWithBagName(identifier: string): Option<string> {
    var inst := InstitutionIdentifier(identifier);
    if inst.None? then None else Some(RemoveFirst(identifier, inst.value + "/"))
  }

  function StripTar(fileName: string): string {
    if |fileName| >= 4 && fileName[|fileName| - 4..] == ".tar" then fileName[..|fileName| - 4] else fileName
  }

  function DigitsEnd(s: string, from: nat): (i: nat)
    requires from <= |s|
    ensures from <= i <= |s|
    decreases |s| - from
  {
    if from < |s| && '0' <= s[from] <= '9' then DigitsEnd(s, from + 1) else from
  }

  /** `s` matches `^\.b\d+\.of\d+$`. */
  predicate IsPartNumber(s: string) {
    && ".b" <= s
    && var i := DigitsEnd(s, 2);
       && 2 < i
       && ".of" <= s[i..]
       && i + 3 < DigitsEnd(s, i + 3) == |s|
  }

  /** Where the part number of a multipart bag name starts, or |name|. */
  function PartNumberStart(name: string, from: nat): (i: nat)
    requires from <= |name|
    ensures from <= i <= |name|
    ensures i < |name| ==> IsPartNumber(name[i..])
    ensures forall j :: from <= j < i ==> !IsPartNumber(name[j..])
    decreases |name| - from
  {
    if from == |name| || IsPartNumber(name[from..]) then from else PartNumberStart(name, from + 1)
  }

  predicate IsMultipart(fileName: string) {
    var name := StripTar(fileName);
    PartNumberStart(name, 0) < |name|
  }

  function CleanBagName(fileName: string): string {
    var name := StripTar(fileName);
    name[..PartNumberStart(name, 0)]
  }

  /** The path that was put into an identifier comes out again, also when the object
      identifier occurs a second time inside the path. */
  lemma OriginalPathOfIdentifier(objIdentifier: string, relPath: string)
    ensures OriginalPath(Identifier(objIdentifier, relPath), objIdentifier) == relPath
  {
    RemoveLeadingPrefix(objIdentifier + "/", relPath);
  }

  lemma IdentifierInjective(objIdentifier: string, p: string, q: string)
    requires Identifier(objIdentifier, p) == Identifier(objIdentifier, q)
    ensures p == q
  {
    OriginalPathOfIdentifier(objIdentifier, p);
    OriginalPathOfIdentifier(objIdentifier, q);
  }

  lemma NameIsTopDirAndRelPath(name: string)
    requires '/' in name
    ensures name == TopDir(name) + "/" + RelPath(name)
  {
    JoinSplit(name);
    assert |Split(name)| > 1;
  }

  lemma LookupNameIsBagAndPath(institution: string, bag: string, rel: string)
    requires '/' !in institution
    ensures OriginalPathWithBagName(Identifier(institution + "/" + bag, rel)) == Some(bag + "/" + rel)
  {
    var tail := bag + "/" + rel;
    assert Identifier(institution + "/" + bag, rel) == institution + "/" + tail;
    SplitAfterHead(institution, tail);
    RemoveLeadingPrefix(institution + "/", tail);
    assert '/' in institution + "/" + tail;
  }

  lemma SamePathSameFolder(bag: string, dir: string, name: string)
    requires TopDir(name) == dir && bag <= dir
    ensures bag + "/" + RelPath(name) == name <==> '/' in name && bag == dir
  {
    var tail := bag + "/" + RelPath(name);
    assert tail[|bag|] == '/';
    if '/' in name {
      NameIsTopDirAndRelPath(name);
      assert bag != dir ==> |bag| < |dir|;
      assert |tail| == |bag| + 1 + |RelPath(name)|;
    }
  }

  // ----- the names of multipart bags -----

  predicate IsNumber(s: string) {
    |s| > 0 && forall i :: 0 <= i < |s| ==> '0' <= s[i] <= '9'
  }

  function PartSuffix(part: string, count: string): string {
    ".b" + part + ".of" + count
  }

  lemma {:induction false} DigitsEndIs(s: string, from: nat, end: nat)
    requires from <= end <= |s| && (forall i :: from <= i < end ==> '0' <= s[i] <= '9')
    requires end < |s| ==> !('0' <= s[end] <= '9')
    ensures DigitsEnd(s, from) == end
    decreases end - from
  {
    if from < end {
      DigitsEndIs(s, from + 1, end);
    }
  }

  lemma {:induction false} DigitsBefore(s: string, from: nat)
    requires from <= |s|
    ensures forall i :: from <= i < DigitsEnd(s, from) ==> '0' <= s[i] <= '9'
    decreases |s| - from
  {
    if from < |s| && '0' <= s[from] <= '9' {
      DigitsBefore(s, from + 1);
    }
  }

  lemma Appended(a: string, b: string)
    ensures (a + b)[|a|..] == b && a <= a + b
    ensures forall i :: 0 <= i < |a| ==> (a + b)[i] == a[i]
  {
  }

  lemma SuffixParts(part: string, count: string)
    ensures var s := PartSuffix(part, count);
            |s| == |part| + 5 + |count| && ".b" <= s && s[2..] == part + (".of" + count)
  {
    assert PartSuffix(part, count) == ".b" + (part + (".of" + count));
    Appended(".b", part + (".of" + count));
  }

  lemma SuffixAt(part: string, count: string)
    ensures var s, n := PartSuffix(part, count), |part|;
            && |s| == n + 5 + |count| && ".b" <= s && s[2 + n..] == ".of" + count
            && (forall i :: 2 <= i < n + 2 ==> s[i] == part[i - 2])
            && (forall i :: n + 5 <= i < |s| ==> s[i] == count[i - n - 5])
  {
    var s, n := PartSuffix(part, count), |part|;
    SuffixParts(part, count);
    Appended(part, ".of" + count);
    assert s[2 + n..] == s[2..][n..];
    forall i | 2 <= i < n + 2 ensures s[i] == part[i - 2] {
      assert s[2..][i - 2] == part[i - 2];
    }
    forall i | n + 5 <= i < |s| ensures s[i] == count[i - n - 5] {
      assert s[2 + n..][i - n - 2] == (".of" + count)[i - n - 2];
    }
  }

  lemma SuffixIsPartNumber(part: string, count: string)
    requires IsNumber(part) && IsNumber(count)
    ensures IsPartNumber(PartSuffix(part, count))
  {
    var s, n := PartSuffix(part, count), |part|;
    SuffixAt(part, count);
    assert s[2 + n] == s[2 + n..][0];
    DigitsEndIs(s, 2, 2 + n);
    DigitsEndIs(s, n + 5, |s|);
  }

  /** A part number has a dot at its start and one other. */
  lemma DotsOfPartNumber(s: string, p: nat, q: nat)
    requires IsPartNumber(s) && 0 < p < q < |s| && s[p] == '.'
    ensures s[q] != '.'
  {
    var i := DigitsEnd(s, 2);
    DigitsBefore(s, 2);
    DigitsBefore(s, i + 3);
    assert s[1] == ".b"[1] == 'b';
    assert s[i..][1] == s[i + 1] && s[i..][2] == s[i + 2];
    assert ".of"[1] == 'o' && ".of"[2] == 'f';
  }

  lemma NoEarlierPart(base: string, part: string, count: string, j: nat)
    requires IsNumber(part) && IsNumber(count) && j < |base|
    ensures !IsPartNumber((base + PartSuffix(part, count))[j..])
  {
    var suffix := PartSuffix(part, count);
    var s, p := (base + suffix)[j..], |base| - j;
    SuffixAt(part, count);
    assert s[p] == suffix[0] == '.';
    assert s[p + 2 + |part|] == suffix[2 + |part|] == suffix[2 + |part|..][0] == '.';
    if IsPartNumber(s) {
      DotsOfPartNumber(s, p, p + 2 + |part|);
      assert false;
    }
  }

  /** The name of one part of a multipart bag, without its part number and extension, is the
      name of the bag, whatever that is. */
  lemma MultipartNameIsCleaned(base: string, part: string, count: string)
    requires IsNumber(part) && IsNumber(count)
    ensures CleanBagName(base + PartSuffix(part, count) + ".tar") == base
    ensures IsMultipart(base + PartSuffix(part, count) + ".tar")
  {
    var name := base + PartSuffix(part, count);
    assert StripTar(name + ".tar") == name;
    assert name[|base|..] == PartSuffix(part, count) && name[..|base|] == base;
    SuffixIsPartNumber(part, count);
    var k := PartNumberStart(name, 0);
    forall j: nat | j < |base| ensures !IsPartNumber(name[j..]) {
      NoEarlierPart(base, part, count, j);
    }
    assert !(k < |base|) && !(|base| < k);
  }

  /** For an entry below the folder that validation demands, the name the storer looks for
      is the entry's own name exactly when the entry lies inside the folder and the tar file
      is not one part of a multipart bag. */
  lemma EntryNameRoundTrip(institution: string, tarName: string, name: string)
    requires '/' !in institution
    requires TopDir(name) == StripTar(tarName)
    ensures OriginalPathWithBagName(Identifier(institution + "/" + CleanBagName(tarName), RelPath(name))) == Some(name)
            <==> '/' in name && !IsMultipart(tarName)
  {
    var bag, dir := CleanBagName(tarName), StripTar(tarName);
    LookupNameIsBagAndPath(institution, bag, RelPath(name));
    SamePathSameFolder(bag, dir, name);
    assert bag == dir <==> !IsMultipart(tarName) by {
      assert |bag| == PartNumberStart(dir, 0);
    }
  }

  // ----- the iterator -----

  /** The items before the first damage. */
  function Intact(items: seq<Item>): (n: nat)
    ensures n <= |items|
    ensures forall i :: 0 <= i < n ==> items[i].Header?
    ensures n < |items| ==> items[n].Unreadable?
  {
    if |items| == 0 || items[0].Unreadable? then 0 else 1 + Intact(items[1..])
  }

  /** The distinct first components, in order of first appearance. */
  function TopDirs(items: seq<Item>): (dirs: seq<string>) {
    if |items| == 0 then []
    else
      var before, last := TopDirs(items[..|items| - 1]), items[|items| - 1];
      if last.Unreadable? || TopDir(last.name) in before then before else before + [TopDir(last.name)]
  }

  lemma {:induction false} TopDirsCollects(items: seq<Item>, d: string)
    ensures d in TopDirs(items) <==> exists i :: 0 <= i < |items| && items[i].Header? && TopDir(items[i].name) == d
  {
    if |items| > 0 {
      var k := |items| - 1;
      TopDirsCollects(items[..k], d);
      assert forall i :: 0 <= i < k ==> items[..k][i] == items[i];
      if items[k].Header? && TopDir(items[k].name) == d {
        assert d in TopDirs(items);
      }
    }
  }

  datatype Step = EndOfFile | ReadFailure | Found(relPath: string, kind: Kind, content: string)

  function StepOf(item: Item): Step {
    match item
    case Unreadable => ReadFailure
    case Header(name, kind, content) => Found(RelPath(name), kind, content)
  }

  class TarFileIterator {
    const items: seq<Item>
    var pos: nat
    var topLevelDirNames: seq<string>

    ghost predicate Valid()
      reads this
    {
      pos <= |items| && topLevelDirNames == TopDirs(items[..pos])
    }

    constructor (archive: seq<Item>)
      ensures Valid() && items == archive && pos == 0
    {
      items, pos, topLevelDirNames := archive, 0, [];
    }

    method Next() returns (step: Step)
      requires Valid()
      modifies this
      ensures Valid()
      ensures old(pos) == |items| ==> step == EndOfFile && pos == old(pos)
      ensures old(pos) < |items| ==>
                step == StepOf(items[old(pos)]) && pos == if step.ReadFailure? then old(pos) else old(pos) + 1
    {
      if pos == |items| {
        return EndOfFile;
      }
      var item := items[pos];
      if item.Header? {
        assert items[..pos + 1][..pos] == items[..pos];
        pos := pos + 1;
        SetTopLevelDirName(item.name);
      }
      step := StepOf(item);
    }

    method SetTopLevelDirName(name: string)
      modifies this`topLevelDirNames
      ensures topLevelDirNames == var old_ := old(topLevelDirNames);
              if TopDir(name) in old_ then old_ else old_ + [TopDir(name)]
    {
      var dir := TopDir(name);
      for i := 0 to |topLevelDirNames|
        invariant dir !in topLevelDirNames[..i]
        invariant topLevelDirNames == old(topLevelDirNames)
      {
        if topLevelDirNames[i] == dir {
          return;
        }
      }
      topLevelDirNames := topLevelDirNames + [dir];
    }

    /** The first entry from the current position on with this name, damage and the end of
        the archive both meaning that there is none. */
    method Find(name: string) returns (content: Option<string>)
      requires pos <= |items|
      modifies this`pos
      ensures pos <= |items|
      ensures content == FindIn(items[old(pos)..], name)
    {
      while pos < |items|
        invariant pos <= |items|
        invariant FindIn(items[pos..], name) == FindIn(items[old(pos)..], name)
      {
        var item := items[pos];
        assert items[pos..][0] == item && items[pos..][1..] == items[pos + 1..];
        if item.Unreadable? {
          return None;
        }
        pos := pos + 1;
        if item.name == name {
          return Some(item.content);
        }
      }
      content := None;
    }
  }

  function FindIn(items: seq<Item>, name: string): Option<string> {
    if |items| == 0 || items[0].Unreadable? then None
    else if items[0].name == name then Some(items[0].content)
    else FindIn(items[1..], name)
  }

  /** Nothing is found exactly when no entry before any damage has that name. */
  lemma {:induction false} FindInNothingIff(items: seq<Item>, name: string)
    ensures FindIn(items, name).None? <==> forall i :: 0 <= i < Intact(items) ==> items[i].name != name
  {
    if |items| > 0 && items[0].Header? {
      FindInNothingIff(items[1..], name);
      assert forall i :: 0 < i < Intact(items) ==> items[i] == items[1..][i - 1];
      if items[0].name != name && FindIn(items, name).Some? {
        var i :| 0 <= i < Intact(items[1..]) && items[1..][i].name == name;
        assert items[i + 1] == items[1..][i];
      }
    }
  }

  lemma {:induction false} FindInReturnsTheEntry(items: seq<Item>, i: nat)
    requires i < Intact(items)
    requires forall j :: 0 <= j < i ==> items[j].name != items[i].name
    ensures FindIn(items, items[i].name) == Some(items[i].content)
    decreases i
  {
    if i > 0 {
      FindInReturnsTheEntry(items[1..], i - 1);
    }
  }

  /** In an undamaged archive with distinct names whose entries lie under the bag's folder,
      the storer's lookup finds the data of every recorded file. */
  lemma EveryRecordedFileIsFound(institution: string, tarName: string, items: seq<Item>, i: nat)
    requires '/' !in institution && !IsMultipart(tarName)
    requires i < Intact(items)
    requires forall j, k :: 0 <= j < k < Intact(items) ==> items[j].name != items[k].name
    requires TopDir(items[i].name) == StripTar(tarName) && '/' in items[i].name
    ensures var obj := institution + "/" + CleanBagName(tarName);
            var name := OriginalPathWithBagName(Identifier(obj, RelPath(items[i].name)));
            name.Some? && FindIn(items, name.value) == Some(items[i].content)
  {
    EntryNameRoundTrip(institution, tarName, items[i].name);
    FindInReturnsTheEntry(items, i);
  }
}
