/**
 The streaming scanner: a bounded state (line counters, three flags, the first
 and last non-blank byte of the line, 32 bytes of the current first word) fed in
 arbitrary chunks. The functions give the effect of one byte, one chunk and the
 end of input; the class keeps the same state in fields and a fixed buffer.
 */
module RulesScan {
  import opened Wire
  import opened RulesText

  const WORD_MAX: nat := 32
  const UINT_RANGE: nat := 0x1_0000_0000

  newtype uint = x: int | 0 <= x < 0x1_0000_0000

  datatype ScanState = ScanState(
    line: nat,
    recLine: nat,
    inRecord: bool,
    inTicks: bool,
    wordDone: bool,
    first: char,
    last: char,
    word: string)

  const START := ScanState(1, 0, false, false, false, NUL, NUL, "")

  /** A physical line is complete: does it end its record, and is that refused? */
  function EndOfLine(s: ScanState): (ScanState, Option<string>) {
    if s.first == NUL || s.first == '#' then (s.(first := NUL, last := NUL), None)
    else
      var ticks := if !s.inTicks && s.last == '`' then true
                   else if s.inTicks && s.first == '`' then false
                   else s.inTicks;
      if ticks then (s.(inTicks := true, first := NUL, last := NUL), None)
      else if s.last == '\\' then
        var word := if !s.wordDone && s.word != "" && s.word[|s.word| - 1] == '\\'
                    then s.word[..|s.word| - 1] else s.word;
        (s.(inTicks := false, first := NUL, last := NUL, word := word), None)
      else
        (s.(inTicks := false, first := NUL, last := NUL, inRecord := false, wordDone := false, word := ""),
         Refused(s.word))
  }

  /** One byte of a line, other than the line feed. */
  function LineByte(s: ScanState, c: char): ScanState {
    if Blank(c) then
      if s.first != NUL && s.first != '#' && s.word != "" then s.(wordDone := true) else s
    else
      var opens := s.first == NUL && c != '#' && !s.inRecord;
      var s1 := s.(first := if s.first == NUL then c else s.first,
                   last := c,
                   inRecord := s.inRecord || opens,
                   recLine := if opens then s.line else s.recLine);
      if s1.first == '#' || s1.wordDone then s1
      else if |s1.word| < WORD_MAX then s1.(word := s1.word + [c])
      else s1.(word := "", wordDone := true)
  }

  /** A chunk, up to and including the line feed that completes a refused record. */
  function ScanText(s: ScanState, p: string): (ScanState, Option<string>)
    decreases |p|
  {
    if p == "" then (s, None)
    else if p[0] == '\n' then
      var (s1, bad) := EndOfLine(s);
      if bad.Some? then (s1, bad) else ScanText(s1.(line := (s1.line + 1) % UINT_RANGE), p[1..])
    else
      ScanText(LineByte(s, p[0]), p[1..])
  }

  /** End of input: the last line may lack its line feed. */
  function ScanDone(s: ScanState): (ScanState, Option<string>) {
    var (s1, bad) := EndOfLine(s);
    (s1, if bad.None? && s1.inTicks then Refused(s1.word) else bad)
  }

  function Report(r: (ScanState, Option<string>)): Option<Refusal> {
    if r.1.Some? then Some(Refusal(r.1.value, r.0.recLine)) else None
  }

  /** Scan a chunk and, if nothing is refused in it, finish. */
  function ScanAll(s: ScanState, text: string): (ScanState, Option<string>) {
    var (s1, bad) := ScanText(s, text);
    if bad.Some? then (s1, bad) else ScanDone(s1)
  }

  /** What is reported for a whole text. */
  function Verdict(text: string): Option<Refusal> {
    Report(ScanAll(START, text))
  }

  // ---------- chunks ----------

  /** Cutting the input anywhere changes nothing. */
  lemma {:induction false} ScanTextConcat(s: ScanState, p: string, q: string)
    ensures ScanText(s, p + q) ==
            var (s1, bad) := ScanText(s, p);
            if bad.Some? then (s1, bad) else ScanText(s1, q)
    decreases |p|
  {
    if p == "" {
      assert p + q == q;
    } else {
      assert (p + q)[1..] == p[1..] + q;
      if p[0] == '\n' {
        ScanTextConcat(EndOfLine(s).0.(line := (EndOfLine(s).0.line + 1) % UINT_RANGE), p[1..], q);
      } else {
        ScanTextConcat(LineByte(s, p[0]), p[1..], q);
      }
    }
  }

  // ---------- the scanner object ----------

  class Scanner {
    var line: uint
    var recLine: uint
    var inRecord: bool
    var inTicks: bool
    var wordDone: bool
    var first: char
    var last: char
    var wlen: nat
    const word: array<char>

    ghost predicate Valid()
      reads this
    {
      word.Length == WORD_MAX && wlen <= WORD_MAX
    }

    ghost function State(): ScanState
      requires Valid()
      reads this, word
    {
      ScanState(line as nat, recLine as nat, inRecord, inTicks, wordDone, first, last, word[..wlen])
    }

    constructor ()
      ensures Valid() && fresh(word)
      ensures State() == START
    {
      line, recLine := 1, 0;
      inRecord, inTicks, wordDone := false, false, false;
      first, last := NUL, NUL;
      wlen := 0;
      word := new char[WORD_MAX];
    }

    /** The collected word against every unsupported directive. */
    method WordRefused() returns (bad: Option<string>)
      requires Valid()
      ensures bad == Refused(word[..wlen])
    {
      var i := 0;
      while i < |UNSUPPORTED|
        invariant 0 <= i <= |UNSUPPORTED|
        invariant Refused(word[..wlen]) == RefusedIn(word[..wlen], UNSUPPORTED[i..])
      {
        var d := UNSUPPORTED[i];
        if EqualsIgnoreCase(word[..wlen], d) {
          return Some(d);
        }
        i := i + 1;
      }
      bad := None;
    }

    method FinishLine() returns (bad: Option<string>)
      requires Valid()
      modifies this
      ensures Valid()
      ensures (State(), bad) == EndOfLine(old(State()))
    {
      if first == NUL || first == '#' {
        first, last := NUL, NUL;
        return None;
      }
      if !inTicks && last == '`' {
        inTicks := true;
      } else if inTicks && first == '`' {
        inTicks := false;
      }
      var cont := false;
      if inTicks {
        cont := true;
      } else if last == '\\' {
        cont := true;
        if !wordDone && wlen > 0 && word[wlen - 1] == '\\' {
          wlen := wlen - 1;
          assert word[..wlen] == old(word[..wlen])[..wlen];
        }
      }
      first, last := NUL, NUL;
      if cont {
        return None;
      }
      bad := WordRefused();
      inRecord, wordDone, wlen := false, false, 0;
    }

    method Feed(c: char)
      requires Valid() && c != '\n'
      modifies this, word
      ensures Valid()
      ensures State() == LineByte(old(State()), c)
    {
      if Blank(c) {
        if first != NUL && first != '#' && wlen > 0 {
          wordDone := true;
        }
        return;
      }
      if first == NUL {
        first := c;
        if c != '#' && !inRecord {
          inRecord := true;
          recLine := line;
        }
      }
      last := c;
      if first == '#' || wordDone {
        return;
      }
      if wlen < WORD_MAX {
        word[wlen] := c;
        wlen := wlen + 1;
        assert word[..wlen] == old(word[..wlen]) + [c];
      } else {
        wlen := 0;
        wordDone := true;
      }
    }

    /** The next chunk of the input. */
    method Scan(p: string) returns (bad: Option<string>)
      requires Valid()
      modifies this, word
      ensures Valid()
      ensures (State(), bad) == ScanText(old(State()), p)
    {
      var i := 0;
      while i < |p|
        invariant 0 <= i <= |p|
        invariant Valid()
        invariant ScanText(old(State()), p) == ScanText(State(), p[i..])
      {
        assert p[i..][1..] == p[i + 1..];
        if p[i] == '\n' {
          bad := FinishLine();
          if bad.Some? {
            return;
          }
          line := if line as nat == UINT_RANGE - 1 then 0 else line + 1;
        } else {
          Feed(p[i]);
        }
        i := i + 1;
      }
      bad := None;
    }

    method Done() returns (bad: Option<string>)
      requires Valid()
      modifies this
      ensures Valid()
      ensures (State(), bad) == ScanDone(old(State()))
    {
      bad := FinishLine();
      if bad.None? && inTicks {
        bad := WordRefused();
      }
    }
  }

  /** Inline rule text, a C string. */
  method CheckRulesText(text: string) returns (r: Option<Refusal>)
    ensures r == Verdict(text)
  {
    var scan := new Scanner();
    var bad := scan.Scan(text);
    if bad.None? {
      bad := scan.Done();
    }
    r := if bad.Some? then Some(Refusal(bad.value, scan.recLine as nat)) else None;
  }

  /** How the reads of a rules file end. */
  datatype ReadEnd = EndOfFile | ReadError

  /** The read loop over a rules file: `chunks` are the buffers the successful reads
      fill, whatever their sizes. The verdict is that of the whole text at once; after a
      read error it is what the text read so far already shows. */
  method CheckRulesFile(chunks: seq<string>, end: ReadEnd) returns (r: Option<Refusal>)
    ensures end == EndOfFile ==> r == Verdict(Concat(chunks))
    ensures end == ReadError ==> r == Report(ScanText(START, Concat(chunks)))
  {
    var scan := new Scanner();
    var i := 0;
    var bad: Option<string> := None;
    while i < |chunks|
      invariant 0 <= i <= |chunks|
      invariant scan.Valid() && fresh(scan) && fresh(scan.word)
      invariant bad == None && ScanText(START, Concat(chunks[..i])) == (scan.State(), None)
    {
      ScanTextConcat(START, Concat(chunks[..i]), chunks[i]);
      ConcatNext(chunks, i);
      bad := scan.Scan(chunks[i]);
      i := i + 1;
      if bad.Some? {
        RefusedInPrefix(chunks, i);
        return Some(Refusal(bad.value, scan.recLine as nat));
      }
    }
    assert chunks[..i] == chunks;
    if end == EndOfFile {
      bad := scan.Done();
    }
    r := if bad.Some? then Some(Refusal(bad.value, scan.recLine as nat)) else None;
  }

  /** A record refused within the first chunks is the verdict on the whole. */
  lemma {:induction false} RefusedInPrefix(chunks: seq<string>, i: nat)
    requires i <= |chunks|
    requires ScanText(START, Concat(chunks[..i])).1.Some?
    ensures ScanText(START, Concat(chunks)) == ScanText(START, Concat(chunks[..i]))
    decreases |chunks| - i
  {
    if i == |chunks| {
      assert chunks[..i] == chunks;
    } else {
      ConcatNext(chunks, i);
      ScanTextConcat(START, Concat(chunks[..i]), chunks[i]);
      RefusedInPrefix(chunks, i + 1);
    }
  }
}
