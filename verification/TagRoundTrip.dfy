/** What reading a tag file computes: the tags of a text as a depositor writes it, with
    padding, continuation lines and blank lines. */
module TagRoundTrip {
  import opened Collections
  import opened Options
  import opened Text
  import opened Manifests
  import opened Tags

  /** A piece of a value, with the white space around it. */
  datatype Padded = Padded(before: string, text: string, after: string)

  /** A tag as it stands in a file: its first line, and the lines that continue it, of which
      those without a text are blank. */
  datatype Written = Written(name: string, first: Padded, more: seq<Padded>)

  function Piece(p: Padded): string {
    p.before + p.text + p.after
  }

  function FirstLine(t: Written): string {
    t.name + ":" + Piece(t.first)
  }

  function Pieces(ps: seq<Padded>): seq<string> {
    if |ps| == 0 then [] else [Piece(ps[0])] + Pieces(ps[1..])
  }

  function LinesOf(ts: seq<Written>): seq<string> {
    if |ts| == 0 then [] else [FirstLine(ts[0])] + Pieces(ts[0].more) + LinesOf(ts[1..])
  }

  function Unlines(lines: seq<string>): string {
    if |lines| == 0 then "" else lines[0] + "\n" + Unlines(lines[1..])
  }

  /** The value of a tag: its pieces with one space between them. */
  function Joined(value: string, more: seq<Padded>): string
    decreases |more|
  {
    if |more| == 0 then value
    else Joined(if more[0].text == "" then value else value + " " + more[0].text, more[1..])
  }

  function Values(ts: seq<Written>): seq<TagLine> {
    if |ts| == 0 then [] else [TagLine(ts[0].name, Joined(ts[0].first.text, ts[0].more))] + Values(ts[1..])
  }

  // ----- texts that can be written -----

  /** Nothing to trim. */
  predicate Trimmed(s: string) {
    |s| > 0 ==> !IsUnicodeSpace(s[0]) && !IsUnicodeSpace(s[|s| - 1])
  }

  predicate Spaced(s: string) {
    |s| > 0 && IsSpace(s[0])
  }

  predicate PlainPiece(p: Padded) {
    IsBlank(p.before) && Trimmed(p.text) && IsBlank(p.after)
  }

  predicate PlainMore(p: Padded) {
    PlainPiece(p) && (p.text != "" ==> Spaced(p.before))
  }

  predicate PlainTag(t: Written) {
    && t.name != "" && ':' !in t.name && (forall i :: 0 <= i < |t.name| ==> !IsUnicodeSpace(t.name[i]))
    && PlainPiece(t.first) && Spaced(t.first.before)
    && forall k :: 0 <= k < |t.more| ==> PlainMore(t.more[k])
  }

  predicate FitLines(lines: seq<string>) {
    forall k :: 0 <= k < |lines| ==> '\n' !in lines[k] && |lines[k]| < MAX_TOKEN
  }

  // ----- trimming -----

  lemma {:induction false} TrimLeftBlank(b: string, s: string)
    requires IsBlank(b)
    ensures TrimLeft(b + s) == TrimLeft(s)
  {
    if |b| > 0 {
      assert (b + s)[1..] == b[1..] + s;
      TrimLeftBlank(b[1..], s);
    } else {
      assert b + s == s;
    }
  }

  lemma {:induction false} TrimRightBlank(s: string, b: string)
    requires IsBlank(b)
    ensures TrimRight(s + b) == TrimRight(s)
    decreases |b|
  {
    if |b| > 0 {
      var n := |b| - 1;
      assert (s + b)[..|s + b| - 1] == s + b[..n];
      TrimRightBlank(s, b[..n]);
    } else {
      assert s + b == s;
    }
  }

  lemma TrimPiece(p: Padded)
    requires PlainPiece(p)
    ensures Trim(Piece(p)) == p.text
  {
    Assoc(p.before, p.text, p.after);
    TrimLeftBlank(p.before, p.text + p.after);
    if p.text == "" {
      assert p.text + p.after == p.after;
      TrimLeftBlank(p.after, "");
      assert p.after + "" == p.after;
    } else {
      assert (p.text + p.after)[0] == p.text[0];
      TrimRightBlank(p.text, p.after);
    }
  }

  /** Dropping a carriage return at the end of a line drops padding at most. */
  lemma DropFromPiece(p: Padded) returns (r: Padded)
    requires PlainPiece(p)
    ensures PlainPiece(r) && r.text == p.text && Piece(r) == DropCR(Piece(p))
    ensures p.text != "" ==> r.before == p.before
    ensures Piece(r) == "" || (p.before != "" && r.before != "" && r.before[0] == p.before[0]) || p.before == ""
  {
    var line := Piece(p);
    if |p.after| > 0 {
      r := p.(after := DropCR(p.after));
      assert line[|line| - 1] == p.after[|p.after| - 1];
      assert DropCR(line) == Piece(r);
    } else if p.text != "" {
      r := p;
      assert line[|line| - 1] == p.text[|p.text| - 1];
    } else {
      assert line == p.before;
      r := Padded(DropCR(p.before), "", "");
      assert Piece(r) == DropCR(p.before);
    }
  }

  // ----- one line -----

  lemma LabelledLine(name: string, rest: string)
    requires name != "" && ':' !in name && (forall i :: 0 <= i < |name| ==> !IsUnicodeSpace(name[i]))
    requires rest == "" || IsSpace(rest[0])
    ensures var line := name + ":" + rest;
            LabelEnd(line) == |name| + 1 && line[..|name| + 1] == name + ":" && line[|name| + 1..] == rest
  {
    var line := name + ":" + rest;
    HalvesAround(name, ':', rest);
    assert forall i :: 0 <= i < |name| ==> line[i] == name[i];
    assert rest != "" ==> line[|name| + 1] == rest[0];
    var w := SpanWord(line, 0);
    assert !(w < |name| + 1) && !(|name| + 1 < w);
  }

  lemma LabelIs(name: string)
    requires name != "" && ':' !in name && (forall i :: 0 <= i < |name| ==> !IsUnicodeSpace(name[i]))
    ensures RemoveFirst(Trim(name + ":"), ":") == name
  {
    assert (name + ":")[0] == name[0] && (name + ":")[|name|] == ':';
    assert Trim(name + ":") == name + ":";
    IndexAfterOther(name, ":");
    assert name + "" == name;
  }

  lemma FirstLineIsRead(t: Written)
    requires PlainTag(t)
    ensures var line := DropCR(FirstLine(t));
            !IsBlank(line) && LabelOf(line) == t.name && ValueOf(line) == t.first.text
  {
    var p := DropFromPiece(t.first);
    var line := DropCR(FirstLine(t));
    assert FirstLine(t)[|FirstLine(t)| - 1] == Piece(t.first)[|Piece(t.first)| - 1];
    assert line == t.name + ":" + Piece(p);
    LabelledLine(t.name, Piece(p));
    LabelIs(t.name);
    TrimPiece(p);
    assert line[0] == t.name[0];
  }

  lemma MoreLineIsRead(p: Padded)
    requires PlainMore(p) && p.text != ""
    ensures var line := DropCR(Piece(p)); !IsBlank(line) && LabelOf(line) == "" && ValueOf(line) == p.text
  {
    var r := DropFromPiece(p);
    var line := Piece(r);
    assert line[0] == p.before[0];
    assert line[|r.before|] == p.text[0];
    assert SpanWord(line, 0) == 0;
    assert line[..0] == "" && line[0..] == line;
    TrimPiece(r);
  }

  lemma BlankLineIsSkipped(p: Padded)
    requires PlainMore(p) && p.text == ""
    ensures IsBlank(DropCR(Piece(p)))
  {
    var r := DropFromPiece(p);
    assert Piece(r) == r.before + r.after;
  }

  // ----- the lines of a file -----

  function Dropped(lines: seq<string>): seq<string> {
    if |lines| == 0 then [] else [DropCR(lines[0])] + Dropped(lines[1..])
  }

  lemma DroppedFirst(line: string, lines: seq<string>)
    ensures Dropped([line] + lines) == [DropCR(line)] + Dropped(lines)
  {
    Halves([line], lines);
  }

  lemma {:induction false} DroppedAppend(a: seq<string>, b: seq<string>)
    ensures Dropped(a + b) == Dropped(a) + Dropped(b)
    decreases |a|
  {
    if |a| == 0 {
      Nothing(b);
      Nothing(Dropped(b));
    } else {
      Cut(a, 0);
      Assoc([a[0]], a[1..], b);
      DroppedFirst(a[0], a[1..] + b);
      DroppedAppend(a[1..], b);
      Assoc([DropCR(a[0])], Dropped(a[1..]), Dropped(b));
      assert a + b == [a[0]] + (a[1..] + b);
    }
  }

  lemma FailsAtFirstLine(line: string, rest: string)
    requires '\n' !in line
    ensures ScanFails(line + "\n" + rest) == (|line| >= MAX_TOKEN || ScanFails(rest))
  {
    FindAfter(line, '\n', rest);
    HalvesAround(line, '\n', rest);
  }

  lemma {:induction false} ScanLines(lines: seq<string>)
    requires FitLines(lines)
    ensures Scan(Unlines(lines)) == Dropped(lines) && !ScanFails(Unlines(lines))
    decreases |lines|
  {
    if |lines| > 0 {
      var rest := Unlines(lines[1..]);
      ScanFirstLine(lines[0], rest);
      FailsAtFirstLine(lines[0], rest);
      ScanLines(lines[1..]);
    }
  }

  lemma {:induction false} MoreLinesAreRead(more: seq<Padded>, rest: seq<string>, current: Option<TagLine>)
    requires forall k :: 0 <= k < |more| ==> PlainMore(more[k])
    ensures TagLines(Dropped(Pieces(more)) + rest, current) ==
            TagLines(rest, if current.None? then None
                           else Some(TagLine(current.value.name, Joined(current.value.value, more))))
    decreases |more|
  {
    var lines := Dropped(Pieces(more));
    if |more| == 0 {
      assert lines + rest == rest;
    } else {
      var line := DropCR(Piece(more[0]));
      DroppedFirst(Piece(more[0]), Pieces(more[1..]));
      Assoc([line], Dropped(Pieces(more[1..])), rest);
      Halves([line], Dropped(Pieces(more[1..])) + rest);
      if more[0].text == "" {
        BlankLineIsSkipped(more[0]);
        MoreLinesAreRead(more[1..], rest, current);
      } else {
        MoreLineIsRead(more[0]);
        MoreLinesAreRead(more[1..], rest, Continued(current, more[0].text));
      }
    }
  }

  lemma WrittenTagIsRead(t: Written, rest: seq<string>, current: Option<TagLine>)
    requires PlainTag(t)
    ensures TagLines([DropCR(FirstLine(t))] + (Dropped(Pieces(t.more)) + rest), current) ==
            Finished(current) + TagLines(rest, Some(TagLine(t.name, Joined(t.first.text, t.more))))
  {
    Halves([DropCR(FirstLine(t))], Dropped(Pieces(t.more)) + rest);
    FirstLineIsRead(t);
    MoreLinesAreRead(t.more, rest, Some(TagLine(t.name, t.first.text)));
  }

  lemma DroppedTags(ts: seq<Written>)
    requires |ts| > 0
    ensures Dropped(LinesOf(ts)) ==
            [DropCR(FirstLine(ts[0]))] + (Dropped(Pieces(ts[0].more)) + Dropped(LinesOf(ts[1..])))
  {
    Assoc([FirstLine(ts[0])], Pieces(ts[0].more), LinesOf(ts[1..]));
    DroppedFirst(FirstLine(ts[0]), Pieces(ts[0].more) + LinesOf(ts[1..]));
    DroppedAppend(Pieces(ts[0].more), LinesOf(ts[1..]));
  }

  lemma {:induction false} WrittenTagsAreRead(ts: seq<Written>, current: Option<TagLine>)
    requires forall k :: 0 <= k < |ts| ==> PlainTag(ts[k])
    ensures TagLines(Dropped(LinesOf(ts)), current) == Finished(current) + Values(ts)
    decreases |ts|
  {
    if |ts| == 0 {
      assert Dropped(LinesOf(ts)) == [];
      Nothing(Finished(current));
    } else {
      var tag := TagLine(ts[0].name, Joined(ts[0].first.text, ts[0].more));
      DroppedTags(ts);
      WrittenTagIsRead(ts[0], Dropped(LinesOf(ts[1..])), current);
      WrittenTagsAreRead(ts[1..], Some(tag));
    }
  }

  /** Reading a tag file gives exactly the tags that were written, in order: labels without
      their colon, values without their padding, each continuation line joined by one space.
      Blank lines, and lines before the first tag, give nothing. */
  lemma TagFileRoundTrip(lead: seq<Padded>, ts: seq<Written>)
    requires forall k :: 0 <= k < |lead| ==> PlainMore(lead[k])
    requires forall k :: 0 <= k < |ts| ==> PlainTag(ts[k])
    requires FitLines(Pieces(lead) + LinesOf(ts))
    ensures var text := Unlines(Pieces(lead) + LinesOf(ts)); ParseTags(text) == Values(ts) && !ScanFails(text)
  {
    var lines := Pieces(lead) + LinesOf(ts);
    ScanLines(lines);
    DroppedAppend(Pieces(lead), LinesOf(ts));
    MoreLinesAreRead(lead, Dropped(LinesOf(ts)), None);
    WrittenTagsAreRead(ts, None);
    Nothing(Values(ts));
  }

  // ----- what a profile asks of a written file -----

  function ValueOfTag(t: Written): string {
    Joined(t.first.text, t.more)
  }

  lemma {:induction false} ValuesAre(ts: seq<Written>)
    ensures |Values(ts)| == |ts|
    ensures forall k :: 0 <= k < |ts| ==> Values(ts)[k] == TagLine(ts[k].name, ValueOfTag(ts[k]))
    decreases |ts|
  {
    if |ts| > 0 {
      ValuesAre(ts[1..]);
    }
  }

  /** The written tags meet what the profile asks of one tag: if it is required, one is there,
      with a value unless it may be empty; and if one is there, some value is an allowed one. */
  predicate WrittenTagOk(ts: seq<Written>, name: string, spec: TagSpec, fold: string -> string) {
    && (spec.required ==> exists k :: 0 <= k < |ts| && ts[k].name == name && (spec.emptyOk || ValueOfTag(ts[k]) != ""))
    && (|spec.allowed| > 0 && (exists k :: 0 <= k < |ts| && ts[k].name == name) ==>
          exists k, j :: 0 <= k < |ts| && ts[k].name == name && 0 <= j < |spec.allowed| &&
                         fold(spec.allowed[j]) == fold(ValueOfTag(ts[k])))
  }

  lemma WrittenTagDecides(ts: seq<Written>, name: string, spec: TagSpec, fold: string -> string)
    ensures TagOk(TagSet(Values(ts)), name, spec, fold) <==> WrittenTagOk(ts, name, spec, fold)
  {
    var tags := Values(ts);
    ValuesAre(ts);
    assert forall k :: 0 <= k < |ts| ==> tags[k] in TagSet(tags);
    forall t | t in TagSet(tags) && t.name == name
      ensures exists k :: 0 <= k < |ts| && ts[k].name == name && ValueOfTag(ts[k]) == t.value
    {
      var k :| 0 <= k < |tags| && tags[k] == t;
      assert ts[k].name == name;
    }
  }

  /** A profile is met by a tag file exactly if it is met by the tags written in it. */
  lemma ProfileOnWrittenTags(lead: seq<Padded>, ts: seq<Written>, specs: map<string, TagSpec>, fold: string -> string)
    requires forall k :: 0 <= k < |lead| ==> PlainMore(lead[k])
    requires forall k :: 0 <= k < |ts| ==> PlainTag(ts[k])
    requires FitLines(Pieces(lead) + LinesOf(ts))
    ensures TagsOk(TagSet(ParseTags(Unlines(Pieces(lead) + LinesOf(ts)))), specs, fold) <==>
            forall name :: name in specs ==> WrittenTagOk(ts, name, specs[name], fold)
  {
    TagFileRoundTrip(lead, ts);
    forall name | name in specs
      ensures TagOk(TagSet(Values(ts)), name, specs[name], fold) <==> WrittenTagOk(ts, name, specs[name], fold)
    {
      WrittenTagDecides(ts, name, specs[name], fold);
    }
  }

  // ----- lines too long for the scanner -----

  /** A line of at least so many characters starts here. */
  predicate LongLineAt(text: string, i: nat) {
    && i + MAX_TOKEN <= |text| && (i == 0 || text[i - 1] == '\n')
    && forall j :: i <= j < i + MAX_TOKEN ==> text[j] != '\n'
  }

  ghost predicate HasLongLine(text: string) {
    exists i: nat :: LongLineAt(text, i)
  }

  lemma LongFirstLine(text: string)
    requires Find(text, '\n', 0) >= MAX_TOKEN
    ensures HasLongLine(text)
  {
    assert LongLineAt(text, 0);
  }

  lemma ShortFirstLine(text: string, n: nat)
    requires n == Find(text, '\n', 0) < MAX_TOKEN && n < |text|
    ensures HasLongLine(text) <==> HasLongLine(text[n + 1..])
  {
    var rest := text[n + 1..];
    if i: nat :| LongLineAt(rest, i) {
      LongLineLater(text, n + 1, i);
    }
    if i: nat :| LongLineAt(text, i) {
      assert !(i <= n < i + MAX_TOKEN);
      LongLineEarlier(text, n + 1, i);
    }
  }

  lemma OneShortLine(text: string)
    requires |text| == Find(text, '\n', 0) < MAX_TOKEN
    ensures !HasLongLine(text)
  {
  }

  /** A tag file cannot be read exactly if it has a line too long for the scanner. */
  lemma {:induction false} ScanFailsIffLongLine(text: string)
    ensures ScanFails(text) <==> HasLongLine(text)
    decreases |text|
  {
    var n := Find(text, '\n', 0);
    if n >= MAX_TOKEN {
      LongFirstLine(text);
    } else if n < |text| {
      ShortFirstLine(text, n);
      ScanFailsIffLongLine(text[n + 1..]);
    } else {
      OneShortLine(text);
    }
  }

  lemma LongLineLater(text: string, from: nat, i: nat)
    requires 0 < from <= |text| && text[from - 1] == '\n' && LongLineAt(text[from..], i)
    ensures LongLineAt(text, from + i)
  {
    var rest := text[from..];
    forall j | from + i <= j < from + i + MAX_TOKEN ensures text[j] != '\n' {
      assert rest[j - from] == text[j];
    }
    if i > 0 {
      assert rest[i - 1] == text[from + i - 1];
    }
  }

  lemma LongLineEarlier(text: string, from: nat, i: nat)
    requires 0 < from <= i && from <= |text| && LongLineAt(text, i)
    ensures LongLineAt(text[from..], i - from)
  {
    var rest := text[from..];
    assert forall j :: 0 <= j < |rest| ==> rest[j] == text[from + j];
  }
}
