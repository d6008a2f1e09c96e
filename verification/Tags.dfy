/** Tag files: lines of labels and values, read with continuation lines, and what a profile
    asks of them (validation/validator.go). */
module Tags {
  import opened Options
  import opened Text
  import opened Manifests

  datatype TagLine = TagLine(name: string, value: string)

  /** What the profile asks of one tag. */
  datatype TagSpec = TagSpec(required: bool, emptyOk: bool, allowed: seq<string>)

  // ----- reading -----

  /** The scanner stops at a line too long for it, which is an error in a tag file. */
  predicate ScanFails(text: string)
    decreases |text|
  {
    text != "" &&
    var n := Find(text, '\n', 0);
    n >= MAX_TOKEN || (n < |text| && ScanFails(text[n + 1..]))
  }

  function TrimLeft(s: string): string {
    if |s| > 0 && IsUnicodeSpace(s[0]) then TrimLeft(s[1..]) else s
  }

  function TrimRight(s: string): string {
    if |s| > 0 && IsUnicodeSpace(s[|s| - 1]) then TrimRight(s[..|s| - 1]) else s
  }

  /** `strings.TrimSpace`. */
  function Trim(s: string): string {
    TrimRight(TrimLeft(s))
  }

  /** How much of the first `n` characters ends with a colon. */
  function ThroughLastColon(s: string, n: nat): (i: nat)
    requires n <= |s|
    ensures i <= n && (i > 0 ==> s[i - 1] == ':') && forall j :: i <= j < n ==> s[j] != ':'
  {
    if n == 0 || s[n - 1] == ':' then n else ThroughLastColon(s, n - 1)
  }

  /** Where the first group of `^(\S*\:)?(\s*.*)?$` ends: at the last colon before any space. */
  function LabelEnd(line: string): (i: nat)
    ensures i <= |line|
  {
    ThroughLastColon(line, SpanWord(line, 0))
  }

  /** The label of a line, which loses its first colon, or "" for a continuation. */
  function LabelOf(line: string): string {
    RemoveFirst(Trim(line[..LabelEnd(line)]), ":")
  }

  function ValueOf(line: string): string {
    Trim(line[LabelEnd(line)..])
  }

  function Finished(current: Option<TagLine>): seq<TagLine> {
    if current.Some? && current.value.name != "" then [current.value] else []
  }

  function Continued(current: Option<TagLine>, value: string): Option<TagLine> {
    if current.Some? then Some(current.value.(value := current.value.value + " " + value)) else None
  }

  function TagLines(lines: seq<string>, current: Option<TagLine>): seq<TagLine>
    decreases |lines|
  {
    if |lines| == 0 then Finished(current)
    else if IsBlank(lines[0]) then TagLines(lines[1..], current)
    else if LabelOf(lines[0]) != "" then
      Finished(current) + TagLines(lines[1..], Some(TagLine(LabelOf(lines[0]), ValueOf(lines[0]))))
    else TagLines(lines[1..], Continued(current, ValueOf(lines[0])))
  }

  function ParseTags(text: string): seq<TagLine> {
    TagLines(Scan(text), None)
  }

  // ----- judging -----

  ghost predicate HasTag(tags: iset<TagLine>, name: string) {
    exists t :: t in tags && t.name == name
  }

  ghost predicate HasValue(tags: iset<TagLine>, name: string) {
    exists t :: t in tags && t.name == name && t.value != ""
  }

  /** Some value is an allowed one, but for case and white space at the ends. */
  ghost predicate HasAllowed(tags: iset<TagLine>, name: string, allowed: seq<string>, fold: string -> string) {
    exists t, k :: t in tags && t.name == name && 0 <= k < |allowed| && fold(allowed[k]) == fold(t.value)
  }

  ghost predicate TagOk(tags: iset<TagLine>, name: string, spec: TagSpec, fold: string -> string) {
    && (spec.required ==> HasTag(tags, name) && (spec.emptyOk || HasValue(tags, name)))
    && (HasTag(tags, name) && |spec.allowed| > 0 ==> HasAllowed(tags, name, spec.allowed, fold))
  }

  ghost predicate TagsOk(tags: iset<TagLine>, specs: map<string, TagSpec>, fold: string -> string) {
    forall name :: name in specs ==> TagOk(tags, name, specs[name], fold)
  }

  ghost function TagSet(tags: seq<TagLine>): iset<TagLine> {
    iset t | t in tags
  }
}
