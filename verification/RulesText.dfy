/**
 SecLang text as the engine reads it: physical lines are trimmed, blank and
 comment lines are ignored, a trailing backslash glues the next line on, and a
 line ending in a backtick opens an action list that runs until a line starting
 with one. The result is a sequence of records, each starting with a directive.
 Everything here looks at whole lines; nothing is streamed.
 */
module RulesText {
  import opened Wire

  const NUL: char := '\0'

  /** The directives the engine refuses outright. */
  const UNSUPPORTED: seq<string> := ["SecRemoteRules"]

  predicate Blank(c: char) {
    c == ' ' || c == '\t' || c == '\r' || c == '\U{0B}' || c == '\U{0C}'
  }

  /** What ends a word: a blank, or the line break kept inside an action list. */
  predicate Break(c: char) {
    Blank(c) || c == '\n'
  }

  // ---------- lines and words ----------

  function FirstLine(text: string): (line: string)
    ensures line <= text && '\n' !in line
    ensures |line| < |text| ==> text[|line|] == '\n'
  {
    if text == "" || text[0] == '\n' then "" else [text[0]] + FirstLine(text[1..])
  }

  function Lines(text: string): (lines: seq<string>)
    ensures lines != []
  {
    var line := FirstLine(text);
    if |line| == |text| then [line] else [line] + Lines(text[|line| + 1..])
  }

  function TrimLeft(line: string): string {
    if line != "" && Blank(line[0]) then TrimLeft(line[1..]) else line
  }

  function TrimRight(line: string): (t: string)
    ensures t <= line
    ensures t != "" ==> !Blank(t[|t| - 1])
    ensures forall k | |t| <= k < |line| :: Blank(line[k])
  {
    if line != "" && Blank(line[|line| - 1]) then TrimRight(line[..|line| - 1]) else line
  }

  function Trim(line: string): string {
    TrimRight(TrimLeft(line))
  }

  /** The first byte of the line that is not blank is a NUL. */
  predicate OpensWithNul(raw: string) {
    TrimLeft(raw) != "" && TrimLeft(raw)[0] == NUL
  }

  /** A NUL may stand anywhere but at the start of a line. */
  predicate NoNulLine(text: string) {
    forall raw | raw in Lines(text) :: !OpensWithNul(raw)
  }

  predicate HasBreak(text: string) {
    exists i | 0 <= i < |text| :: Break(text[i])
  }

  /** The first word: everything before the first break. */
  function Word(text: string): (w: string)
    ensures w <= text
    ensures forall c | c in w :: !Break(c)
    ensures |w| < |text| ==> Break(text[|w|])
  {
    if text == "" || Break(text[0]) then "" else [text[0]] + Word(text[1..])
  }

  // ---------- directives ----------

  function Lower(c: char): char {
    if 'A' <= c <= 'Z' then c - 'A' + 'a' else c
  }

  /** `strncasecmp` over the length of both. */
  predicate EqualsIgnoreCase(a: string, b: string) {
    |a| == |b| && forall i | 0 <= i < |a| :: Lower(a[i]) == Lower(b[i])
  }

  /** The first listed directive the word spells, if any. */
  function RefusedIn(word: string, directives: seq<string>): (d: Option<string>)
    ensures d.Some? ==> d.value in directives && EqualsIgnoreCase(word, d.value)
    ensures d.None? ==> forall x | x in directives :: !EqualsIgnoreCase(word, x)
  {
    if directives == [] then None
    else if EqualsIgnoreCase(word, directives[0]) then Some(directives[0])
    else RefusedIn(word, directives[1..])
  }

  function Refused(word: string): Option<string> {
    RefusedIn(word, UNSUPPORTED)
  }

  // ---------- records ----------

  /** `line` is where the record started. `cut` marks a record with a continuation
      whose backslash was followed by a blank while its first word was still open. */
  datatype Record = Record(line: nat, text: string, cut: bool)

  /** The record being assembled, if any, and whether an action list is open in it. */
  datatype Assembly = Assembly(record: Option<Record>, inTicks: bool)

  const IDLE := Assembly(None, false)

  predicate CutsWord(text: string, raw: string) {
    !HasBreak(text + Trim(raw)) && raw != "" && Blank(raw[|raw| - 1])
  }

  /** One physical line: what is open after it, and the record it completes. */
  function Feed(a: Assembly, n: nat, raw: string): (res: (Assembly, Option<Record>))
    ensures (a.inTicks ==> a.record.Some?) ==> (res.0.inTicks ==> res.0.record.Some?)
  {
    var t := Trim(raw);
    if t == "" || t[0] == '#' then (a, None)
    else
      var r := if a.record.Some? then a.record.value else Record(n, "", false);
      var ticks := if a.inTicks then t[0] != '`' else t[|t| - 1] == '`';
      if ticks then
        (Assembly(Some(r.(text := r.text + t + "\n")), true), None)
      else if t[|t| - 1] == '\\' then
        (Assembly(Some(Record(r.line, r.text + t[..|t| - 1], r.cut || CutsWord(r.text, raw))), false), None)
      else
        (IDLE, Some(r.(text := r.text + t)))
  }

  /** A record left open by a trailing backslash is never evaluated; an action list
      left open is an error, and its record is judged on what it has. */
  function RecordsFrom(a: Assembly, n: nat, lines: seq<string>): seq<Record>
    requires a.inTicks ==> a.record.Some?
    decreases |lines|
  {
    if lines == [] then if a.inTicks then [a.record.value] else []
    else
      var (a', done) := Feed(a, n, lines[0]);
      (if done.Some? then [done.value] else []) + RecordsFrom(a', n + 1, lines[1..])
  }

  function Records(text: string): seq<Record> {
    RecordsFrom(IDLE, 1, Lines(text))
  }

  // ---------- the verdict ----------

  datatype Refusal = Refusal(directive: string, line: nat)

  predicate IsRefused(r: Record) {
    Refused(Word(r.text)).Some?
  }

  function RefusalOf(r: Record): Refusal
    requires IsRefused(r)
  {
    Refusal(Refused(Word(r.text)).value, r.line)
  }

  /** The first record whose directive is refused. */
  function FirstRefusal(rs: seq<Record>): Option<Refusal> {
    if rs == [] then None
    else if IsRefused(rs[0]) then Some(RefusalOf(rs[0]))
    else FirstRefusal(rs[1..])
  }

  function Uncut(rs: seq<Record>): (us: seq<Record>)
    ensures forall u :: u in us <==> u in rs && !u.cut
  {
    if rs == [] then [] else (if rs[0].cut then [] else [rs[0]]) + Uncut(rs[1..])
  }
}
