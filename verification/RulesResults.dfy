/** What the scanner's verdict means on a text no line of which opens with a NUL: sound always,
    complete exactly when the first refused record is not cut. And what it misses otherwise. */
module RulesResults {
  import opened Wire
  import opened RulesText
  import opened RulesScan
  import opened RulesProof

  // ---------- soundness ----------

  /** The `i`-th record is refused, with `f`, and none before it is. */
  predicate FirstAt(rs: seq<Record>, i: nat, f: Refusal) {
    i < |rs| && IsRefused(rs[i]) && f == RefusalOf(rs[i]) && forall k | 0 <= k < i :: !IsRefused(rs[k])
  }

  lemma {:induction false} FirstRefusalIsRecord(rs: seq<Record>) returns (i: nat)
    ensures var f := FirstRefusal(rs);
            if f.Some? then FirstAt(rs, i, f.value) else forall k | 0 <= k < |rs| :: !IsRefused(rs[k])
  {
    i := 0;
    if rs != [] && !IsRefused(rs[0]) {
      hide IsRefused, RefusalOf;
      i := FirstRefusalIsRecord(rs[1..]);
      assert forall k | 0 < k < |rs| :: rs[k] == rs[1..][k - 1];
      i := i + 1;
    }
  }

  /** Whatever is refused really is the directive of a record of the text, reported
      with the line that record starts on. No hypothesis on trailing blanks. */
  lemma RefusalIsSound(text: string)
    requires NoNulLine(text) && Verdict(text).Some?
    ensures exists r | r in Records(text) ::
              IsRefused(r) && !r.cut && Verdict(text).value == Refusal(RefusalOf(r).directive, r.line % UINT_RANGE)
  {
    VerdictIsFirstUncutRefusal(text);
    var us := Uncut(Records(text));
    var i := FirstRefusalIsRecord(us);
    assert us[i] in us;
  }

  /** Once the first word is complete, no later line of the record (a glued
      continuation or a line of an action list) changes the directive. */
  lemma DirectiveIsSettled(a: Assembly, n: nat, raw: string)
    requires a.record.Some? && HasBreak(a.record.value.text)
    ensures var (a', done) := Feed(a, n, raw);
            var r' := if done.Some? then done else a'.record;
            r'.Some? && Word(r'.value.text) == Word(a.record.value.text) && r'.value.line == a.record.value.line
  {
    var acc, t := a.record.value.text, Trim(raw);
    var (a', done) := Feed(a, n, raw);
    if t != "" && t[0] != '#' {
      var r' := if done.Some? then done.value else a'.record.value;
      assert r'.text == acc + (t + "\n") || r'.text == acc + t[..|t| - 1] || r'.text == acc + t by {
        assert acc + t + "\n" == acc + (t + "\n");
      }
      WordAppend(acc, r'.text[|acc|..]);
      assert r'.text == acc + r'.text[|acc|..];
    }
  }

  // ---------- completeness ----------

  /** The first refused record, were it looked for, turns out to be a cut one. */
  predicate FirstRefusedIsCut(rs: seq<Record>) {
    rs != [] && if IsRefused(rs[0]) then rs[0].cut else FirstRefusedIsCut(rs[1..])
  }

  predicate LinesIncrease(rs: seq<Record>, from: nat, below: nat) {
    rs != [] ==> from <= rs[0].line < below && LinesIncrease(rs[1..], rs[0].line + 1, below)
  }

  lemma {:induction false} LinesIncreaseFrom(rs: seq<Record>, from: nat, from': nat, below: nat)
    requires LinesIncrease(rs, from, below) && from' <= from
    ensures LinesIncrease(rs, from', below)
  {
  }

  /** A record keeps the line it started on; a new one starts on this line. */
  lemma FeedStart(a: Assembly, n: nat, raw: string)
    requires a.record.Some? ==> a.record.value.line < n
    ensures var (a', done) := Feed(a, n, raw);
            var start := if a.record.Some? then a.record.value.line else n;
            && (done.Some? ==> done.value.line == start && a'.record.None?)
            && (a'.record.Some? ==> start <= a'.record.value.line < n + 1)
            && (a.record.Some? && done.None? ==> a'.record.Some? && a'.record.value.line == start)
  {
  }

  /** Each record starts on a line of its own. */
  lemma {:induction false} RecordLines(a: Assembly, n: nat, lines: seq<string>)
    requires a.inTicks ==> a.record.Some?
    requires a.record.Some? ==> a.record.value.line < n
    ensures LinesIncrease(RecordsFrom(a, n, lines), if a.record.Some? then a.record.value.line else n, n + |lines|)
    decreases |lines|
  {
    hide Feed, Trim;
    if lines != [] {
      var (a', done) := Feed(a, n, lines[0]);
      FeedStart(a, n, lines[0]);
      RecordLines(a', n + 1, lines[1..]);
      var tail := RecordsFrom(a', n + 1, lines[1..]);
      var from := if a.record.Some? then a.record.value.line else n;
      if done.Some? {
        assert ([done.value] + tail)[1..] == tail;
        LinesIncreaseFrom(tail, n + 1, done.value.line + 1, n + |lines|);
      } else {
        assert [] + tail == tail;
        LinesIncreaseFrom(tail, if a'.record.Some? then a'.record.value.line else n + 1, from, n + |lines|);
      }
    }
  }

  lemma {:induction false} RefusalLine(rs: seq<Record>, from: nat, below: nat)
    requires LinesIncrease(rs, from, below)
    ensures FirstRefusal(rs).Some? ==> from <= FirstRefusal(rs).value.line < below
    ensures FirstRefusal(Uncut(rs)).Some? ==> from <= FirstRefusal(Uncut(rs)).value.line < below
  {
    if rs != [] {
      RefusalLine(rs[1..], rs[0].line + 1, below);
      assert rs == [rs[0]] + rs[1..];
      JudgedFirst(rs[0], rs[1..]);
    }
  }

  lemma {:induction false} CutRecordsDecide(rs: seq<Record>, from: nat, below: nat)
    requires LinesIncrease(rs, from, below)
    ensures FirstRefusal(Uncut(rs)) == FirstRefusal(rs) <==> !FirstRefusedIsCut(rs)
  {
    if rs != [] {
      assert rs == [rs[0]] + rs[1..];
      JudgedFirst(rs[0], rs[1..]);
      CutRecordsDecide(rs[1..], rs[0].line + 1, below);
      RefusalLine(rs[1..], rs[0].line + 1, below);
    }
  }

  lemma {:induction false} LineCount(text: string)
    ensures |Lines(text)| <= |text| + 1
    decreases |text|
  {
    var line := FirstLine(text);
    if |line| < |text| {
      LineCount(text[|line| + 1..]);
    }
  }

  lemma NoWrap(o: Option<Refusal>)
    requires o.Some? ==> o.value.line < UINT_RANGE
    ensures Wrapped(o) == o
  {
  }

  /** The scanner agrees with the whole-text reading exactly when the first refused
      record is not cut. The bound keeps the line counter from wrapping. */
  lemma VerdictIsExactUnlessCut(text: string)
    requires NoNulLine(text) && |text| < UINT_RANGE - 2
    ensures Verdict(text) == FirstRefusal(Records(text)) <==> !FirstRefusedIsCut(Records(text))
  {
    VerdictIsFirstUncutRefusal(text);
    var rs := Records(text);
    LineCount(text);
    RecordLines(IDLE, 1, Lines(text));
    RefusalLine(rs, 1, 1 + |Lines(text)|);
    CutRecordsDecide(rs, 1, 1 + |Lines(text)|);
    NoWrap(FirstRefusal(Uncut(rs)));
  }

  /** No line has a blank after a trailing backslash: something an author can see. */
  predicate CleanContinuations(lines: seq<string>) {
    forall raw | raw in lines :: Trim(raw) != "" && Trim(raw)[|Trim(raw)| - 1] == '\\' ==> raw[|raw| - 1] == '\\'
  }

  lemma {:induction false} CleanMeansUncut(a: Assembly, n: nat, lines: seq<string>)
    requires a.inTicks ==> a.record.Some?
    requires a.record.Some? ==> !a.record.value.cut
    requires CleanContinuations(lines)
    ensures forall r | r in RecordsFrom(a, n, lines) :: !r.cut
    decreases |lines|
  {
    if lines != [] {
      assert lines[0] in lines;
      assert forall raw | raw in lines[1..] :: raw in lines;
      CleanMeansUncut(Feed(a, n, lines[0]).0, n + 1, lines[1..]);
    }
  }

  lemma {:induction false} NothingCut(rs: seq<Record>)
    requires forall r | r in rs :: !r.cut
    ensures Uncut(rs) == rs
  {
    if rs != [] {
      assert rs[0] in rs;
      assert forall r | r in rs[1..] :: r in rs;
      NothingCut(rs[1..]);
      assert rs == [rs[0]] + rs[1..];
    }
  }

  /** Complete, with the right line, for every text with clean continuations. */
  lemma CleanTextsAreChecked(text: string)
    requires NoNulLine(text) && CleanContinuations(Lines(text))
    ensures Verdict(text) == Wrapped(FirstRefusal(Records(text)))
  {
    VerdictIsFirstUncutRefusal(text);
    CleanMeansUncut(IDLE, 1, Lines(text));
    NothingCut(Records(text));
  }

  // ---------- what goes wrong otherwise ----------

  lemma TrimSolid(x: string)
    requires x != "" && !Blank(x[0]) && !Blank(x[|x| - 1])
    ensures Trim(x) == x
  {
  }

  lemma TrimTrailing(x: string, b: char)
    requires x != "" && !Blank(x[0]) && !Blank(x[|x| - 1]) && Blank(b)
    ensures Trim(x + [b]) == x
  {
    assert (x + [b])[..|x|] == x;
  }

  predicate Letters(x: string) {
    forall i | 0 <= i < |x| :: 'a' <= Lower(x[i]) <= 'z'
  }

  lemma FirstOfLines(x: string, rest: string)
    requires '\n' !in x
    ensures Lines(x + ['\n'] + rest) == [x] + Lines(rest)
  {
    var text := x + ['\n'] + rest;
    var line := FirstLine(text);
    assert text[|x|] == '\n' && forall i | 0 <= i < |x| :: text[i] == x[i] && x[i] in x;
    assert |line| == |x| by {
      assert forall i | 0 <= i < |line| :: line[i] in line && text[i] == line[i];
    }
    assert line == x && text[|x| + 1..] == rest;
  }

  lemma OneLine(y: string)
    requires '\n' !in y
    ensures Lines(y) == [y]
  {
    assert FirstLine(y) == y by { assert forall i | 0 <= i < |y| :: y[i] in y; }
  }

  lemma TwoLines(x: string, y: string)
    requires '\n' !in x && '\n' !in y
    ensures Lines(x + ['\n'] + y) == [x, y]
  {
    FirstOfLines(x, y);
    OneLine(y);
  }

  /** Two lines, the first of which does not complete a record. */
  lemma TwoLineRecord(x: string, y: string, a: Assembly, r: Record)
    requires '\n' !in x && '\n' !in y && !a.inTicks
    requires Feed(IDLE, 1, x) == (a, None) && Feed(a, 2, y) == (IDLE, Some(r))
    ensures Records(x + ['\n'] + y) == [r]
  {
    TwoLines(x, y);
    assert [x, y][1..] == [y] && [y][1..] == [];
    assert RecordsFrom(a, 2, [y]) == [r] + RecordsFrom(IDLE, 3, []);
    assert RecordsFrom(IDLE, 1, [x, y]) == [] + RecordsFrom(a, 2, [y]);
  }

  lemma FeedCut(p: string, raw: string)
    requires p != "" && p[0] != '#' && !HasBreak(p)
    requires Trim(raw) == p + ['\\'] && raw != "" && Blank(raw[|raw| - 1])
    ensures Feed(IDLE, 1, raw) == (Assembly(Some(Record(1, p, true)), false), None)
  {
    var t := p + ['\\'];
    assert "" + t == t && "" + t[..|p|] == p;
    SlashTail(p);
    assert CutsWord("", raw);
  }

  lemma FeedLast(a: Assembly, n: nat, q: string)
    requires !a.inTicks && q != "" && Trim(q) == q
    requires q[0] != '#' && q[|q| - 1] != '`' && q[|q| - 1] != '\\'
    ensures Feed(a, n, q) == (IDLE, Some(Current(a, n).(text := Current(a, n).text + q)))
  {
  }

  lemma LettersAreSolid(x: string)
    requires Letters(x) && x != ""
    ensures Trim(x) == x && !HasBreak(x) && !OpensWithNul(x) && '\n' !in x
    ensures 'a' <= Lower(x[0]) <= 'z' && 'a' <= Lower(x[|x| - 1]) <= 'z'
  {
    TrimSolid(x);
  }

  lemma CutDirective(p: string, q: string, b: char)
    requires p != "" && q != "" && Letters(p) && Letters(q) && Blank(b)
    ensures Records(p + ['\\', b] + ['\n'] + q) == [Record(1, p + q, true)]
  {
    hide Letters, Records, Word, HasBreak, Trim, Feed;
    var a := Assembly(Some(Record(1, p, true)), false);
    LettersAreSolid(p);
    LettersAreSolid(q);
    assert p + ['\\', b] == (p + ['\\']) + [b];
    TrimTrailing(p + ['\\'], b);
    FeedCut(p, p + ['\\', b]);
    FeedLast(a, 2, q);
    TwoLineRecord(p + ['\\', b], q, a, Record(1, p + q, true));
  }

  lemma DirectiveRefused()
    ensures var d := UNSUPPORTED[0];
            d != "" && Letters(d) && |d| < WORD_MAX && Word(d) == d && Refused(d) == Some(d)
  {
    var d := UNSUPPORTED[0];
    assert Letters(d);
    WordUnique(d, d);
  }

  lemma CutDirectiveVerdict(d: string, p: string, q: string, b: char)
    requires p != "" && q != "" && p + q == d && Letters(d) && Word(d) == d && Refused(d) == Some(d) && Blank(b)
    ensures var text := p + ['\\', b] + ['\n'] + q;
            FirstRefusal(Records(text)) == Some(Refusal(d, 1)) && Verdict(text) == None
  {
    hide Letters, Records, FirstRefusal, Verdict, Word, Refused, HasBreak, Trim;
    var text := p + ['\\', b] + ['\n'] + q;
    LettersOfParts(p, q, d);
    CutDirective(p, q, b);
    LettersAreSolid(p);
    LettersAreSolid(q);
    SpacedLetters(p, q, b);
    LoneCutRecord(text, Record(1, d, true));
  }

  lemma LettersOfParts(p: string, q: string, d: string)
    requires p + q == d && Letters(d)
    ensures Letters(p) && Letters(q)
  {
    assert forall i | 0 <= i < |p| :: p[i] == d[i];
    assert forall i | 0 <= i < |q| :: q[i] == d[|p| + i];
  }

  lemma SpacedLetters(p: string, q: string, b: char)
    requires p != "" && q != "" && Letters(p) && Letters(q) && Blank(b)
    ensures NoNulLine(p + ['\\', b] + ['\n'] + q)
  {
    LettersAreSolid(p);
    LettersAreSolid(q);
    TwoLines(p + ['\\', b], q);
    assert TrimLeft(p + ['\\', b]) == p + ['\\', b];
  }

  lemma LoneCutRecord(text: string, r: Record)
    requires NoNulLine(text) && Records(text) == [r] && r.cut && IsRefused(r)
    ensures FirstRefusal(Records(text)) == Some(RefusalOf(r)) && Verdict(text) == None
  {
    assert [r] + [] == [r];
    JudgedFirst(r, []);
    VerdictIsFirstUncutRefusal(text);
  }

  /** A CRLF line end, or any blank, after a backslash that splits the directive: the
      record is refused when read whole, yet the scanner lets the text through. */
  lemma BlankAfterBackslashHidesDirective(p: string, q: string, b: char)
    requires p != "" && q != "" && p + q == UNSUPPORTED[0] && Blank(b)
    ensures var text := p + ['\\', b] + ['\n'] + q;
            FirstRefusal(Records(text)) == Some(Refusal(UNSUPPORTED[0], 1)) && Verdict(text) == None
  {
    DirectiveRefused();
    CutDirectiveVerdict(UNSUPPORTED[0], p, q, b);
  }

  /** A NUL that opens a line, which only a file can hold: the line passes for blank, but the
      byte stays in front of the next word. */
  lemma NulHidesDirective()
    ensures var text := [NUL] + ['\n'] + UNSUPPORTED[0];
            FirstRefusal(Records(text)) == Some(Refusal(UNSUPPORTED[0], 2)) && Verdict(text) == None
  {
    DirectiveRefused();
    NulLineIsARecord(UNSUPPORTED[0]);
    NulStaysInWord(UNSUPPORTED[0]);
  }

  lemma NulLineIsARecord(d: string)
    requires d != "" && Letters(d) && Word(d) == d && Refused(d) == Some(d)
    ensures FirstRefusal(Records([NUL] + ['\n'] + d)) == Some(Refusal(d, 2))
  {
    FeedNul();
    FeedLetters(2, d);
    NulWordPasses();
    assert '\n' !in d by { LettersAreSolid(d); }
    RefusedOnSecondLine([NUL], d, Record(1, [NUL], false), Record(2, d, false));
  }

  lemma FeedNul()
    ensures Feed(IDLE, 1, [NUL]) == (IDLE, Some(Record(1, [NUL], false)))
  {
    TrimSolid([NUL]);
    assert "" + [NUL] == [NUL];
    FeedLast(IDLE, 1, [NUL]);
  }

  lemma FeedLetters(n: nat, d: string)
    requires d != "" && Letters(d)
    ensures Feed(IDLE, n, d) == (IDLE, Some(Record(n, d, false)))
  {
    LettersAreSolid(d);
    assert "" + d == d;
    FeedLast(IDLE, n, d);
  }

  lemma NulWordPasses()
    ensures Refused(Word([NUL])) == None
  {
    assert !HasBreak([NUL]);
    WordUnique([NUL], [NUL]);
    assert !EqualsIgnoreCase([NUL], UNSUPPORTED[0]);
  }

  lemma RefusedOnSecondLine(x: string, y: string, r0: Record, r1: Record)
    requires '\n' !in x && '\n' !in y
    requires Feed(IDLE, 1, x) == (IDLE, Some(r0)) && Feed(IDLE, 2, y) == (IDLE, Some(r1))
    requires !IsRefused(r0) && IsRefused(r1)
    ensures FirstRefusal(Records(x + ['\n'] + y)) == Some(RefusalOf(r1))
  {
    TwoLines(x, y);
    assert [x, y][1..] == [y] && [y][1..] == [];
    assert RecordsFrom(IDLE, 2, [y]) == [r1] + RecordsFrom(IDLE, 3, []);
    assert RecordsFrom(IDLE, 1, [x, y]) == [r0] + [r1];
    assert [r0, r1][1..] == [r1];
  }

  lemma NulStaysInWord(d: string)
    requires d != "" && Letters(d)
    ensures Verdict([NUL] + ['\n'] + d) == None
  {
    hide Letters, Word, Refused, Trim, TrimRight;
    var text := [NUL] + ['\n'] + d;
    LettersAreSolid(d);
    var s := LineByte(START, NUL);
    assert text[0] == NUL && text[1..] == ['\n'] + d;
    ScanLineFeed(s, d);
    var s2 := EndOfLine(s).0.(line := 2);
    assert [] + [NUL] == [NUL] && [NUL] + "" == [NUL];
    LoneNul();
    hide HasBreak;
    ScanLine(s2, d, [NUL], false);
    var s3 := ScanText(s2, d).0;
    NulWord(s3, d);
    assert !s3.inTicks;
    assert ScanText(START, text) == ScanText(s2, d);
    assert ScanDone(s3).1 == None;
  }

  lemma LoneNul()
    ensures !HasBreak([NUL]) && Word([NUL]) == [NUL]
  {
    assert !HasBreak([NUL]);
    WordUnique([NUL], [NUL]);
  }

  lemma NulWord(s: ScanState, d: string)
    requires Letters(d) && Tracks(s, [NUL], d, false)
    ensures Refused(s.word) == None
  {
    TracksJudged(s, [NUL], d, false);
    assert !HasBreak([NUL] + d);
    WordUnique([NUL] + d, [NUL] + d);
    assert Lower(([NUL] + d)[0]) != Lower(UNSUPPORTED[0][0]);
  }

  /** Nor is such a text safe from refusals: behind a NUL that opens a line of an action list,
      a backtick ends the list for the scanner alone, which then takes what follows in the
      list for a directive. */
  lemma NulEndsList()
    ensures var text := "x`\n" + ([NUL, '`'] + ['\n'] + UNSUPPORTED[0]);
            FirstRefusal(Records(text)) == None && Verdict(text) == Some(Refusal(UNSUPPORTED[0], 3))
  {
    DirectiveRefused();
    NulListIsOneRecord(UNSUPPORTED[0]);
    NulListIsLeft(UNSUPPORTED[0]);
  }

  lemma FeedListed(a: Assembly, n: nat, t: string)
    requires t != "" && Trim(t) == t && t[0] != '#'
    requires if a.inTicks then t[0] != '`' else t[|t| - 1] == '`'
    ensures Feed(a, n, t) == (Assembly(Some(Current(a, n).(text := Current(a, n).text + t + "\n")), true), None)
  {
  }

  lemma OpenListOfThree(x: string, y: string, z: string, a1: Assembly, a2: Assembly, a3: Assembly)
    requires '\n' !in x && '\n' !in y && '\n' !in z && (a1.inTicks ==> a1.record.Some?)
    requires Feed(IDLE, 1, x) == (a1, None) && Feed(a1, 2, y) == (a2, None) && Feed(a2, 3, z) == (a3, None)
    requires a3.inTicks
    ensures Records(x + ['\n'] + (y + ['\n'] + z)) == [a3.record.value]
  {
    hide Feed;
    FirstOfLines(x, y + ['\n'] + z);
    TwoLines(y, z);
    assert [x] + [y, z] == [x, y, z];
    assert [x, y, z][1..] == [y, z] && [y, z][1..] == [z] && [z][1..] == [];
    assert RecordsFrom(a2, 3, [z]) == [] + [a3.record.value];
    assert RecordsFrom(a1, 2, [y, z]) == [] + RecordsFrom(a2, 3, [z]);
    assert RecordsFrom(IDLE, 1, [x, y, z]) == [] + RecordsFrom(a1, 2, [y, z]);
  }

  lemma NulListIsOneRecord(d: string)
    requires d != "" && Letters(d)
    ensures FirstRefusal(Records("x`\n" + ([NUL, '`'] + ['\n'] + d))) == None
  {
    hide Letters, Word, HasBreak, Refused, Feed, Trim, Records;
    LettersAreSolid(d);
    var nul, r1 := [NUL, '`'], Record(1, "" + "x`" + "\n", false);
    var r2 := r1.(text := r1.text + nul + "\n");
    var r3 := r1.(text := r2.text + d + "\n");
    TrimSolid("x`");
    TrimSolid(nul);
    FeedListed(IDLE, 1, "x`");
    FeedListed(Assembly(Some(r1), true), 2, nul);
    FeedListed(Assembly(Some(r2), true), 3, d);
    OpenListOfThree("x`", nul, d, Assembly(Some(r1), true), Assembly(Some(r2), true), Assembly(Some(r3), true));
    assert "x`\n" == "x`" + ['\n'];
    assert r3.text == "x`" + ("\n" + nul + "\n" + d + "\n");
    ListWordPasses("\n" + nul + "\n" + d + "\n");
  }

  lemma ListWordPasses(rest: string)
    requires rest != "" && rest[0] == '\n'
    ensures Refused(Word("x`" + rest)) == None
  {
    WordUnique("x`" + rest, "x`");
    if Refused("x`").Some? {
      RefusedShape("x`");
    }
  }

  lemma NulListIsLeft(d: string)
    requires d != "" && Letters(d) && Word(d) == d && Refused(d) == Some(d)
    ensures Verdict("x`\n" + ([NUL, '`'] + ['\n'] + d)) == Some(Refusal(d, 3))
  {
    hide Letters, Word, HasBreak, Refused;
    LettersAreSolid(d);
    var head := "x`\n" + ([NUL, '`'] + ['\n']);
    var s := START.(line := 3, recLine := 1);
    assert "x`\n" + ([NUL, '`'] + ['\n'] + d) == head + d;
    ScanNulList();
    ScanTextConcat(START, head, d);
    assert ScanAll(START, head + d) == ScanAll(s, d);
    OneLineRefused(s, 3, d);
  }

  lemma OneLineRefused(s: ScanState, n: nat, d: string)
    requires AtLineStart(s, IDLE, n) && n < UINT_RANGE
    requires d != "" && Letters(d) && Word(d) == d && Refused(d) == Some(d)
    ensures Report(ScanAll(s, d)) == Some(Refusal(d, n))
  {
    hide Letters, Word, HasBreak, Refused, Trim;
    LettersAreSolid(d);
    OneLine(d);
    FeedLetters(n, d);
    ScanFrom(s, IDLE, n, d);
    var r := Record(n, d, false);
    assert [d][1..] == [] && RecordsFrom(IDLE, n, [d]) == [r] + [];
    JudgedFirst(r, []);
  }

  lemma ScanNulList()
    ensures ScanText(START, "x`\n" + ([NUL, '`'] + ['\n'])) == (START.(line := 3, recLine := 1), None)
  {
    var head := "x`\n" + ([NUL, '`'] + ['\n']);
    var s1 := LineByte(LineByte(START, 'x'), '`');
    assert s1.word == "x`" && head == "x`" + (['\n'] + [NUL, '`', '\n']);
    var s2 := EndOfLine(s1).0.(line := 2);
    var s3 := LineByte(LineByte(s2, NUL), '`');
    assert s3.word == ['x', '`', NUL, '`'];
    assert Refused(s3.word) == None by {
      if Refused(s3.word).Some? {
        RefusedShape(s3.word);
      }
    }
    assert EndOfLine(s3) == (START.(line := 2, recLine := 1), None);
    ScanTwo(START, 'x', '`', ['\n'] + [NUL, '`', '\n']);
    ScanLineFeed(s1, [NUL, '`', '\n']);
    assert [NUL, '`', '\n'] == [NUL, '`'] + (['\n'] + []);
    ScanTwo(s2, NUL, '`', ['\n'] + []);
    ScanLineFeed(s3, []);
  }

  lemma ScanTwo(s: ScanState, b: char, c: char, rest: string)
    requires b != '\n' && c != '\n'
    ensures ScanText(s, [b, c] + rest) == ScanText(LineByte(LineByte(s, b), c), rest)
  {
    assert ([b, c] + rest)[1..] == [c] + rest && ([c] + rest)[1..] == rest;
  }
}
