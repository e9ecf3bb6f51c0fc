/**
 Laws of the verdict on rule text that an author could check by eye: letter case,
 what stands first on a line, lines that are ignored, glued or listed. Characters
 are named here as they are written.
 */
module RulesLaws {
  import opened Wire
  import opened RulesText
  import opened RulesScan
  import opened RulesProof
  import opened RulesResults

  const DIRECTIVE: string := "SecRemoteRules"

  // ---------- letter case ----------

  /** The same character, or a letter and its other case. */
  predicate SameLetter(a: char, b: char) {
    || a == b
    || ('a' <= a <= 'z' && b as int == a as int - 32)
    || ('a' <= b <= 'z' && a as int == b as int - 32)
  }

  predicate Recased(x: string, y: string) {
    |x| == |y| && forall i | 0 <= i < |x| :: SameLetter(x[i], y[i])
  }

  lemma {:induction false} RefusedInAnyCase(w: string, w': string, ds: seq<string>)
    requires Recased(w, w')
    ensures RefusedIn(w, ds) == RefusedIn(w', ds)
  {
    if ds != [] {
      assert EqualsIgnoreCase(w, ds[0]) == EqualsIgnoreCase(w', ds[0]) by {
        assert forall i | 0 <= i < |w| :: Lower(w[i]) == Lower(w'[i]);
      }
      RefusedInAnyCase(w, w', ds[1..]);
    }
  }

  /** Two scans of the same text but for case. */
  predicate Alike(s: ScanState, s': ScanState) {
    && s' == s.(first := s'.first, last := s'.last, word := s'.word)
    && SameLetter(s.first, s'.first) && SameLetter(s.last, s'.last) && Recased(s.word, s'.word)
  }

  /** The scanner tells characters apart by these only. */
  lemma SameKind(c: char, c': char)
    requires SameLetter(c, c')
    ensures Blank(c) == Blank(c') && (c == NUL) == (c' == NUL) && (c == '#') == (c' == '#')
    ensures (c == '`') == (c' == '`') && (c == '\\') == (c' == '\\')
  {
  }

  lemma RecasedNext(w: string, w': string, c: char, c': char)
    requires Recased(w, w') && SameLetter(c, c')
    ensures Recased(w + [c], w' + [c'])
  {
  }

  lemma LineBytesAlike(s: ScanState, s': ScanState, c: char, c': char)
    requires Alike(s, s') && SameLetter(c, c')
    ensures Alike(LineByte(s, c), LineByte(s', c'))
  {
    SameKind(c, c');
    SameKind(s.first, s'.first);
    assert (s.word == "") == (s'.word == "") && |s.word| == |s'.word|;
    RecasedNext(s.word, s'.word, c, c');
    hide Recased, SameLetter, Blank;
    assert Recased("", "") by { NothingRecased(); }
  }

  lemma NothingRecased()
    ensures Recased("", "")
  {
  }

  lemma LineEndsAlike(s: ScanState, s': ScanState)
    requires Alike(s, s')
    ensures Alike(EndOfLine(s).0, EndOfLine(s').0) && EndOfLine(s).1 == EndOfLine(s').1
  {
    RefusedInAnyCase(s.word, s'.word, UNSUPPORTED);
    SameKind(s.first, s'.first);
    SameKind(s.last, s'.last);
    RecasedInit(s.word, s'.word);
    NothingRecased();
    assert SameLetter(NUL, NUL);
    hide Recased, SameLetter, RefusedIn;
  }

  lemma RecasedInit(w: string, w': string)
    requires Recased(w, w')
    ensures (w == "") == (w' == "")
    ensures w != "" ==> Recased(w[..|w| - 1], w'[..|w'| - 1]) && (w[|w| - 1] == '\\') == (w'[|w'| - 1] == '\\')
  {
    if w != "" {
      SameKind(w[|w| - 1], w'[|w'| - 1]);
    }
  }

  lemma {:induction false} TextsAlike(s: ScanState, s': ScanState, x: string, y: string)
    requires Alike(s, s') && Recased(x, y)
    ensures Alike(ScanText(s, x).0, ScanText(s', y).0) && ScanText(s, x).1 == ScanText(s', y).1
    decreases |x|
  {
    hide Alike, LineByte, EndOfLine;
    if x != "" {
      assert SameLetter(x[0], y[0]);
      if x[0] == '\n' {
        LineEndsAlike(s, s');
        var s1, s1' := EndOfLine(s).0, EndOfLine(s').0;
        NextLineAlike(s1, s1');
        TextsAlike(s1.(line := (s1.line + 1) % UINT_RANGE), s1'.(line := (s1'.line + 1) % UINT_RANGE), x[1..], y[1..]);
      } else {
        LineBytesAlike(s, s', x[0], y[0]);
        TextsAlike(LineByte(s, x[0]), LineByte(s', y[0]), x[1..], y[1..]);
      }
    }
  }

  lemma NextLineAlike(s: ScanState, s': ScanState)
    requires Alike(s, s')
    ensures Alike(s.(line := (s.line + 1) % UINT_RANGE), s'.(line := (s'.line + 1) % UINT_RANGE))
  {
  }

  /** Texts that differ in the case of letters only get the same verdict, whatever they hold. */
  lemma CaseDoesNotMatter(x: string, y: string)
    requires Recased(x, y)
    ensures Verdict(x) == Verdict(y)
  {
    hide ScanText, EndOfLine;
    TextsAlike(START, START, x, y);
    var s, s' := ScanText(START, x).0, ScanText(START, y).0;
    LineEndsAlike(s, s');
    RefusedInAnyCase(EndOfLine(s).0.word, EndOfLine(s').0.word, UNSUPPORTED);
  }

  lemma RecasedParts(p: string, d: string, d': string, q: string)
    requires Recased(d, d')
    ensures Recased(p + d + q, p + d' + q)
  {
  }

  // ---------- the directive on a line ----------

  /** Blanks, as written. */
  predicate Blanks(x: string) {
    forall i | 0 <= i < |x| :: x[i] in {' ', '\t', '\r', '\U{0B}', '\U{0C}'}
  }

  /** What follows a first word on its line: nothing, or something set off by a blank that
      neither continues the line nor opens a list, nor ends in a blank. */
  predicate Arguments(x: string) {
    && '\n' !in x
    && (x != "" ==> Blanks(x[..1]) && !Blanks(x[|x| - 1..]) && x[|x| - 1] != '\\' && x[|x| - 1] != '`')
  }

  lemma {:induction false} Indented(indent: string, x: string)
    requires Blanks(indent) && x != "" && !Blank(x[0])
    ensures TrimLeft(indent + x) == x
  {
    if indent == "" {
      assert indent + x == x;
    } else {
      assert (indent + x)[1..] == indent[1..] + x;
      Indented(indent[1..], x);
    }
  }

  /** A line that holds the text `x` between blanks. */
  lemma IndentedLine(indent: string, x: string)
    requires Blanks(indent) && x != "" && !Blank(x[0]) && !Blank(x[|x| - 1]) && '\n' !in x && x[0] != NUL
    ensures Trim(indent + x) == x && !OpensWithNul(indent + x) && '\n' !in indent + x
  {
    Indented(indent, x);
  }

  lemma DirectiveWord(args: string)
    requires Arguments(args)
    ensures Word(DIRECTIVE + args) == DIRECTIVE && Refused(DIRECTIVE) == Some(DIRECTIVE)
  {
    var x := DIRECTIVE + args;
    assert !HasBreak(DIRECTIVE);
    assert args != "" ==> x[|DIRECTIVE|] == args[..1][0];
    WordUnique(x, DIRECTIVE);
    assert EqualsIgnoreCase(DIRECTIVE, UNSUPPORTED[0]);
  }

  /** The line completes a refused record, whatever was there before and comes after. */
  lemma DirectiveLine(indent: string, args: string)
    requires Blanks(indent) && Arguments(args)
    ensures var line := indent + DIRECTIVE + args;
            && ScanText(START, line).1 == None
            && EndOfLine(ScanText(START, line).0).1 == Some(DIRECTIVE)
            && EndOfLine(ScanText(START, line).0).0.recLine == 1
  {
    hide Word, Refused, ScanText, EndOfLine, Trim;
    var x := DIRECTIVE + args;
    var line := indent + DIRECTIVE + args;
    assert line == indent + x;
    assert x[|x| - 1] == if args == "" then 's' else args[|args| - 1];
    assert args != "" ==> args[|args| - 1..] == [args[|args| - 1]];
    IndentedLine(indent, x);
    DirectiveWord(args);
    FeedEnd(IDLE, 1, line, x);
    assert "" + x == x;
    FeedLine(START, IDLE, 1, line);
  }

  /** A line that completes a record. */
  lemma FeedEnd(a: Assembly, n: nat, raw: string, t: string)
    requires !a.inTicks && Trim(raw) == t && t != ""
    requires t[0] != '#' && t[|t| - 1] != '`' && t[|t| - 1] != '\\'
    ensures Feed(a, n, raw) == (IDLE, Some(Current(a, n).(text := Current(a, n).text + t)))
  {
  }

  /** The directive in any case, first on the first line, is refused there, whatever follows
      on the line and, `more` or not, in the text. */
  lemma DirectiveIsRefused(indent: string, d: string, args: string, more: bool, rest: string)
    requires Blanks(indent) && Recased(DIRECTIVE, d) && Arguments(args)
    ensures var text := indent + d + args + if more then ['\n'] + rest else "";
            Verdict(text) == Some(Refusal("SecRemoteRules", 1))
  {
    hide ScanText, EndOfLine, Arguments, Blanks, Recased;
    var tail := if more then ['\n'] + rest else "";
    var line := indent + DIRECTIVE + args;
    DirectiveLine(indent, args);
    var s := ScanText(START, line).0;
    if more {
      ScanTextConcat(START, line, tail);
      ScanLineFeed(s, rest);
    } else {
      assert line + "" == line;
    }
    assert Verdict(line + tail) == Some(Refusal(DIRECTIVE, 1));
    RecasedParts(indent, DIRECTIVE, d, args + tail);
    assert indent + DIRECTIVE + (args + tail) == line + tail;
    assert indent + d + (args + tail) == indent + d + args + tail;
    CaseDoesNotMatter(line + tail, indent + d + args + tail);
  }

  /** Nothing else is refused: the record found spells this directive, in some case. */
  lemma OnlyTheDirective(text: string)
    requires NoNulLine(text) && Verdict(text).Some?
    ensures Verdict(text).value.directive == "SecRemoteRules"
    ensures exists r :: r in Records(text) && Recased(Word(r.text), "SecRemoteRules")
  {
    hide Records, Verdict, Word, NoNulLine, RefusedIn;
    RefusalIsSound(text);
    var r :| r in Records(text) && IsRefused(r) && !r.cut &&
             Verdict(text).value == Refusal(RefusalOf(r).directive, r.line % UINT_RANGE);
    OnlyOneListed(Word(r.text));
  }

  lemma OnlyOneListed(w: string)
    requires Refused(w).Some?
    ensures Refused(w) == Some(DIRECTIVE) && Recased(w, DIRECTIVE)
  {
    assert UNSUPPORTED == [DIRECTIVE];
    forall i | 0 <= i < |w| ensures SameLetter(w[i], DIRECTIVE[i]) {
      assert Lower(w[i]) == Lower(DIRECTIVE[i]);
    }
  }

  // ---------- glued lines ----------

  /** Split by a backslash at the end of the line, the directive is refused all the same, on the
      line it starts. */
  lemma GluedDirectiveIsRefused(p: string, q: string, indent: string, args: string)
    requires p != "" && q != "" && Recased(DIRECTIVE, p + q) && Blanks(indent) && Arguments(args)
    ensures Verdict(p + ['\\'] + ['\n'] + (indent + q + args)) == Some(Refusal("SecRemoteRules", 1))
  {
    hide Arguments, Blanks, Recased, Verdict;
    RecasedLength(DIRECTIVE, p + q);
    var p', q' := DIRECTIVE[..|p|], DIRECTIVE[|p|..];
    assert |p| + |q| == |DIRECTIVE| && |p'| == |p| && |q'| == |q| && p' + q' == DIRECTIVE;
    GluedRecord(p', q', indent, args);
    var head, middle := p' + ['\\'] + ['\n'] + (indent + q' + args), p + ['\\'] + ['\n'] + (indent + q + args);
    RecasedPieces(p', q', p, q, ['\\'] + ['\n'] + indent, args);
    Regroup(p', ['\\'], ['\n'], indent, q', args);
    Regroup(p, ['\\'], ['\n'], indent, q, args);
    CaseDoesNotMatter(head, middle);
  }

  lemma Regroup(p: string, a: string, b: string, c: string, q: string, args: string)
    ensures p + a + b + (c + q + args) == p + (a + b + c) + q + args
  {
  }

  lemma RecasedLength(x: string, y: string)
    requires Recased(x, y)
    ensures |x| == |y|
  {
  }

  lemma RecasedPieces(p: string, q: string, p': string, q': string, between: string, after: string)
    requires |p| == |p'| && Recased(p + q, p' + q')
    ensures Recased(p + between + q + after, p' + between + q' + after)
  {
    assert forall i | 0 <= i < |p| :: (p + q)[i] == p[i] && (p' + q')[i] == p'[i];
    assert forall i | 0 <= i < |q| :: (p + q)[|p| + i] == q[i] && (p' + q')[|p| + i] == q'[i];
  }

  lemma GluedRecord(p: string, q: string, indent: string, args: string)
    requires p != "" && q != "" && p + q == DIRECTIVE && Blanks(indent) && Arguments(args)
    ensures Verdict(p + ['\\'] + ['\n'] + (indent + q + args)) == Some(Refusal(DIRECTIVE, 1))
  {
    hide Word, Refused, Feed, Records, FirstRefusal, Uncut, Trim, OpensWithNul;
    var x, y := p + ['\\'], indent + q + args;
    var a := Assembly(Some(Record(1, p, false)), false);
    var r := Record(1, DIRECTIVE + args, false);
    GluedLines(p, q, indent, args);
    TwoLineRecord(x, y, a, r);
    TwoLines(x, y);
    DirectiveWord(args);
    VerdictIsFirstUncutRefusal(x + ['\n'] + y);
    assert [r] + [] == [r];
    JudgedFirst(r, []);
  }

  lemma GluedLines(p: string, q: string, indent: string, args: string)
    requires p != "" && q != "" && p + q == DIRECTIVE && Blanks(indent) && Arguments(args)
    ensures var x, y, a := p + ['\\'], indent + q + args, Assembly(Some(Record(1, p, false)), false);
            && '\n' !in x && '\n' !in y && !OpensWithNul(x) && !OpensWithNul(y)
            && Feed(IDLE, 1, x) == (a, None)
            && Feed(a, 2, y) == (IDLE, Some(Record(1, DIRECTIVE + args, false)))
  {
    hide Trim, OpensWithNul, Feed;
    var x, y := p + ['\\'], indent + q + args;
    DirectiveParts(p, q);
    SlashedSolid(p);
    ArgumentsEnd(q, args);
    assert y == indent + (q + args) && p + (q + args) == DIRECTIVE + args;
    IndentedLine(indent, q + args);
    FeedOpen(x, p);
    FeedEnd(Assembly(Some(Record(1, p, false)), false), 2, y, q + args);
  }

  predicate PlainWord(x: string) {
    x != "" && Letters(x) && '\n' !in x
  }

  lemma DirectiveParts(p: string, q: string)
    requires p != "" && q != "" && p + q == DIRECTIVE
    ensures PlainWord(p) && PlainWord(q)
  {
    assert forall i | 0 <= i < |p| :: p[i] == DIRECTIVE[i];
    assert forall i | 0 <= i < |q| :: q[i] == DIRECTIVE[|p| + i];
  }

  lemma SlashedSolid(p: string)
    requires PlainWord(p)
    ensures var x := p + ['\\'];
            Trim(x) == x && '\n' !in x && !OpensWithNul(x) && x[0] != '#'
  {
    TrimSolid(p + ['\\']);
  }

  lemma ArgumentsEnd(q: string, args: string)
    requires PlainWord(q) && Arguments(args)
    ensures var t := q + args;
            && t != "" && !Blank(t[0]) && t[0] != NUL && t[0] != '#' && '\n' !in t
            && !Blank(t[|t| - 1]) && t[|t| - 1] != '`' && t[|t| - 1] != '\\'
  {
    if args != "" {
      assert args[|args| - 1..] == [args[|args| - 1]];
    }
  }

  lemma FeedOpen(x: string, p: string)
    requires p != "" && x == p + ['\\'] && Trim(x) == x && x[0] != '#'
    ensures Feed(IDLE, 1, x) == (Assembly(Some(Record(1, p, false)), false), None)
  {
    assert "" + x == x && "" + x[..|x| - 1] == p;
  }

  // ---------- ignored lines ----------

  /** A comment, or nothing but blanks. */
  predicate Ignorable(line: string) {
    '\n' !in line && exists i :: 0 <= i <= |line| && Blanks(line[..i]) && (i == |line| || line[i] == '#')
  }

  lemma {:induction false} IgnorableTrims(line: string, i: nat)
    requires i <= |line| && Blanks(line[..i]) && (i == |line| || line[i] == '#')
    ensures TrimLeft(line) == "" || TrimLeft(line)[0] == '#'
  {
    if i > 0 {
      assert line[..i][0] == line[0];
      assert line[1..][..i - 1] == line[..i][1..];
      IgnorableTrims(line[1..], i - 1);
    }
  }

  lemma IgnorableFed(a: Assembly, n: nat, line: string)
    requires Ignorable(line)
    ensures Feed(a, n, line) == (a, None) && !OpensWithNul(line)
  {
    var i :| 0 <= i <= |line| && Blanks(line[..i]) && (i == |line| || line[i] == '#');
    IgnorableTrims(line, i);
    TrimFirst(line);
  }

  /** Two assemblies that differ in line numbers only. */
  predicate SameRecord(a: Assembly, b: Assembly) {
    && a.inTicks == b.inTicks && a.record.Some? == b.record.Some? && (a.inTicks ==> a.record.Some?)
    && (a.record.Some? ==> a.record.value == b.record.value.(line := a.record.value.line))
  }

  lemma FeedSame(a: Assembly, b: Assembly, n: nat, m: nat, raw: string)
    requires SameRecord(a, b)
    ensures var (a', done), (b', done') := Feed(a, n, raw), Feed(b, m, raw);
            && SameRecord(a', b') && done.Some? == done'.Some?
            && (done.Some? ==> done.value == done'.value.(line := done.value.line))
  {
    hide Trim, CutsWord;
  }

  /** What is refused first, without its line. */
  function FirstDirective(a: Assembly, n: nat, lines: seq<string>): Option<string>
    requires a.inTicks ==> a.record.Some?
  {
    var f := FirstRefusal(Uncut(RecordsFrom(a, n, lines)));
    if f.Some? then Some(f.value.directive) else None
  }

  lemma FirstDirectiveNext(a: Assembly, n: nat, lines: seq<string>)
    requires (a.inTicks ==> a.record.Some?) && lines != []
    ensures var (a', done) := Feed(a, n, lines[0]);
            FirstDirective(a, n, lines) ==
            if done.Some? && !done.value.cut && IsRefused(done.value) then Refused(Word(done.value.text))
            else FirstDirective(a', n + 1, lines[1..])
  {
    hide Feed, RecordsFrom, Uncut, FirstRefusal;
    assert lines == [lines[0]] + lines[1..];
    ExpectedLine(a, n, lines[0], lines[1..]);
  }

  lemma {:induction false} DirectiveSame(a: Assembly, b: Assembly, n: nat, m: nat, lines: seq<string>)
    requires SameRecord(a, b)
    ensures FirstDirective(a, n, lines) == FirstDirective(b, m, lines)
    decreases |lines|
  {
    if lines == [] {
      if a.inTicks {
        JudgedFirst(a.record.value, []);
        JudgedFirst(b.record.value, []);
        assert [a.record.value] + [] == [a.record.value] && [b.record.value] + [] == [b.record.value];
      }
    } else {
      hide Feed, FirstDirective, SameRecord;
      SameRecordTicks(a, b);
      FeedSame(a, b, n, m, lines[0]);
      FirstDirectiveNext(a, n, lines);
      FirstDirectiveNext(b, m, lines);
      DirectiveSame(Feed(a, n, lines[0]).0, Feed(b, m, lines[0]).0, n + 1, m + 1, lines[1..]);
    }
  }

  lemma SameRecordTicks(a: Assembly, b: Assembly)
    requires SameRecord(a, b)
    ensures (a.inTicks ==> a.record.Some?) && (b.inTicks ==> b.record.Some?)
  {
  }

  lemma {:induction false} IgnoredBetween(a: Assembly, n: nat, before: seq<string>, line: string, after: seq<string>)
    requires (a.inTicks ==> a.record.Some?) && Ignorable(line)
    ensures FirstDirective(a, n, before + [line] + after) == FirstDirective(a, n, before + after)
    decreases |before|
  {
    hide Feed, FirstDirective, Ignorable;
    if before == [] {
      assert before + [line] + after == [line] + after && ([line] + after)[1..] == after && before + after == after;
      IgnorableFed(a, n, line);
      FirstDirectiveNext(a, n, [line] + after);
      assert Feed(a, n, line).1.None?;
      DirectiveSame(a, a, n + 1, n, after);
    } else {
      var first, rest := before[0], before[1..];
      var with, without := before + [line] + after, before + after;
      assert with[0] == first && with[1..] == rest + [line] + after;
      assert without[0] == first && without[1..] == rest + after;
      FirstDirectiveNext(a, n, with);
      FirstDirectiveNext(a, n, without);
      IgnoredBetween(Feed(a, n, first).0, n + 1, rest, line, after);
    }
  }

  lemma {:induction false} LinesJoin(x: string, y: string)
    ensures Lines(x + ['\n'] + y) == Lines(x) + Lines(y)
    decreases |x|
  {
    var raw := FirstLine(x);
    if |raw| == |x| {
      FirstOfLines(x, y);
      assert raw == x && Lines(x) == [x];
    } else {
      var rest := x[|raw| + 1..];
      assert x == raw + ['\n'] + rest;
      assert x + ['\n'] + y == raw + ['\n'] + (rest + ['\n'] + y);
      FirstOfLines(raw, rest + ['\n'] + y);
      LinesJoin(rest, y);
    }
  }

  lemma NulLinesJoin(x: string, y: string)
    requires NoNulLine(x) && NoNulLine(y)
    ensures NoNulLine(x + ['\n'] + y)
  {
    LinesJoin(x, y);
  }

  lemma DirectiveOf(text: string)
    requires NoNulLine(text)
    ensures var v := Verdict(text);
            (if v.Some? then Some(v.value.directive) else None) == FirstDirective(IDLE, 1, Lines(text))
  {
    VerdictIsFirstUncutRefusal(text);
  }

  /** A comment or a blank line anywhere, within a continued record or an action list too, does
      not change what is refused. */
  lemma IgnoredLinesDoNotMatter(x: string, line: string, y: string)
    requires NoNulLine(x) && NoNulLine(y) && Ignorable(line)
    ensures var v, v' := Verdict(x + ['\n'] + y), Verdict(x + ['\n'] + (line + ['\n'] + y));
            v.Some? == v'.Some? && (v.Some? ==> v.value.directive == v'.value.directive)
  {
    hide FirstDirective, Ignorable, NoNulLine, Verdict, Lines;
    OneIgnorableLine(line);
    NulLinesJoin(x, y);
    NulLinesJoin(line, y);
    NulLinesJoin(x, line + ['\n'] + y);
    LinesJoin(x, y);
    LinesJoin(line, y);
    LinesJoin(x, line + ['\n'] + y);
    assert Lines(x) + ([line] + Lines(y)) == Lines(x) + [line] + Lines(y);
    IgnoredBetween(IDLE, 1, Lines(x), line, Lines(y));
    DirectiveOf(x + ['\n'] + y);
    DirectiveOf(x + ['\n'] + (line + ['\n'] + y));
  }

  lemma OneIgnorableLine(line: string)
    requires Ignorable(line)
    ensures Lines(line) == [line] && NoNulLine(line)
  {
    OneLine(line);
    IgnorableFed(IDLE, 1, line);
  }

  lemma {:induction false} OnlyIgnored(n: nat, lines: seq<string>, tail: seq<string>)
    requires forall l | l in lines :: Ignorable(l)
    ensures RecordsFrom(IDLE, n, lines + tail) == RecordsFrom(IDLE, n + |lines|, tail)
    decreases |lines|
  {
    if lines == [] {
      assert lines + tail == tail;
    } else {
      hide Feed, Ignorable;
      assert (lines + tail)[0] == lines[0] && (lines + tail)[1..] == lines[1..] + tail && lines[0] in lines;
      assert forall l | l in lines[1..] :: l in lines;
      IgnorableFed(IDLE, n, lines[0]);
      OnlyIgnored(n + 1, lines[1..], tail);
    }
  }

  lemma RecordWhereItStands(x: string, line: string, r: Record)
    requires (forall l | l in Lines(x) :: Ignorable(l)) && '\n' !in line && !OpensWithNul(line)
    requires Feed(IDLE, |Lines(x)| + 1, line) == (IDLE, Some(r))
    ensures Records(x + ['\n'] + line) == [r] && NoNulLine(x + ['\n'] + line)
  {
    hide Ignorable, Feed, OpensWithNul;
    var n := |Lines(x)| + 1;
    LinesJoin(x, line);
    OneLine(line);
    OnlyIgnored(1, Lines(x), [line]);
    assert [line][1..] == [] && RecordsFrom(IDLE, n, [line]) == [r] + [];
    forall l | l in Lines(x + ['\n'] + line) ensures !OpensWithNul(l) {
      if l in Lines(x) {
        IgnorableFed(IDLE, 1, l);
      }
    }
  }

  lemma LoneRefusal(text: string, r: Record)
    requires NoNulLine(text) && Records(text) == [r] && !r.cut && IsRefused(r) && r.line < UINT_RANGE
    ensures Verdict(text) == Some(RefusalOf(r))
  {
    hide Records, Verdict;
    VerdictIsFirstUncutRefusal(text);
    JudgedFirst(r, []);
    assert [r] + [] == [r];
  }

  /** Behind any number of comments and blank lines the directive is refused on its own line. */
  lemma DirectiveIsRefusedWhereItStands(x: string, indent: string, d: string, args: string)
    requires (forall l | l in Lines(x) :: Ignorable(l)) && |x| < UINT_RANGE - 2
    requires Blanks(indent) && Recased(DIRECTIVE, d) && Arguments(args)
    ensures Verdict(x + ['\n'] + (indent + d + args)) == Some(Refusal("SecRemoteRules", |Lines(x)| + 1))
  {
    hide Arguments, Blanks, Recased, Ignorable, Records, Word, Refused, Feed, OpensWithNul, Verdict, NoNulLine, Lines;
    var line, n := indent + DIRECTIVE + args, |Lines(x)| + 1;
    var r := Record(n, DIRECTIVE + args, false);
    LineCount(x);
    DirectiveFed(n, indent, args);
    DirectiveWord(args);
    RecordWhereItStands(x, line, r);
    LoneRefusal(x + ['\n'] + line, r);
    RecasedParts(x + ['\n'] + indent, DIRECTIVE, d, args);
    assert x + ['\n'] + indent + DIRECTIVE + args == x + ['\n'] + line;
    assert x + ['\n'] + indent + d + args == x + ['\n'] + (indent + d + args);
    CaseDoesNotMatter(x + ['\n'] + line, x + ['\n'] + (indent + d + args));
  }

  lemma DirectiveFed(n: nat, indent: string, args: string)
    requires Blanks(indent) && Arguments(args)
    ensures var line := indent + DIRECTIVE + args;
            && Feed(IDLE, n, line) == (IDLE, Some(Record(n, DIRECTIVE + args, false)))
            && !OpensWithNul(line) && '\n' !in line
  {
    hide Feed, Trim, OpensWithNul;
    var x := DIRECTIVE + args;
    assert indent + DIRECTIVE + args == indent + x;
    assert x[|x| - 1] == if args == "" then 's' else args[|args| - 1];
    assert args != "" ==> args[|args| - 1..] == [args[|args| - 1]];
    IndentedLine(indent, x);
    FeedEnd(IDLE, n, indent + x, x);
    assert "" + x == x;
  }

  // ---------- action lists ----------

  /** The first character that is no blank. */
  predicate OpensWith(line: string, c: char) {
    exists i :: 0 <= i < |line| && Blanks(line[..i]) && line[i] == c
  }

  lemma {:induction false} OpensWithIs(line: string)
    ensures TrimLeft(line) != "" ==> OpensWith(line, TrimLeft(line)[0])
  {
    if line != "" {
      if Blank(line[0]) {
        OpensWithIs(line[1..]);
        if TrimLeft(line) != "" {
          var c := TrimLeft(line)[0];
          var i :| 0 <= i < |line[1..]| && Blanks(line[1..][..i]) && line[1..][i] == c;
          assert line[..i + 1] == [line[0]] + line[1..][..i] && line[i + 1] == c;
        }
      } else {
        assert Blanks(line[..0]);
      }
    }
  }

  /** An open list of a record with a complete first word. */
  predicate InList(a: Assembly, w: string) {
    a.inTicks && a.record.Some? && HasBreak(a.record.value.text) && Word(a.record.value.text) == w
  }

  lemma ListGoesOn(a: Assembly, n: nat, line: string, w: string)
    requires InList(a, w) && !OpensWith(line, '`')
    ensures Feed(a, n, line).1.None? && InList(Feed(a, n, line).0, w)
  {
    OpensWithIs(line);
    TrimFirst(line);
    DirectiveIsSettled(a, n, line);
    var acc, t := a.record.value.text, Trim(line);
    assert acc + t + "\n" == acc + (t + "\n");
    WordAppend(acc, t + "\n");
  }

  lemma {:induction false} ListIsOneRecord(a: Assembly, n: nat, lines: seq<string>, w: string)
    requires InList(a, w) && Refused(w).None? && forall l | l in lines :: !OpensWith(l, '`')
    ensures FirstDirective(a, n, lines + ["`"]) == None
    decreases |lines|
  {
    hide Feed, FirstDirective, OpensWith, Word, HasBreak, Refused;
    var all := lines + ["`"];
    FirstDirectiveNext(a, n, all);
    if lines == [] {
      assert all == ["`"] && all[1..] == [];
      ListEnds(a, n);
      DirectiveIsSettled(a, n, "`");
      NothingLeft(n + 1);
    } else {
      assert all[0] == lines[0] && all[1..] == lines[1..] + ["`"] && lines[0] in lines;
      assert forall l | l in lines[1..] :: l in lines;
      ListGoesOn(a, n, lines[0], w);
      ListIsOneRecord(Feed(a, n, lines[0]).0, n + 1, lines[1..], w);
    }
  }

  lemma ListEnds(a: Assembly, n: nat)
    requires a.inTicks && a.record.Some?
    ensures Feed(a, n, "`").0 == IDLE && Feed(a, n, "`").1.Some?
  {
    assert Trim("`") == "`" by { TrimSolid("`"); }
  }

  lemma NothingLeft(n: nat)
    ensures FirstDirective(IDLE, n, []) == None
  {
  }

  /** No line of an action list is refused, whatever it says. */
  lemma ListLinesPass(body: string)
    requires forall l | l in Lines(body) :: !OpensWith(l, '`') && !OpensWith(l, NUL)
    ensures Verdict("SecAction `" + ['\n'] + (body + ['\n'] + "`")) == None
  {
    hide OpensWith, FirstDirective, Verdict, Word, HasBreak, Refused, Feed, NoNulLine, Lines, InList, OpensWithNul;
    var head := "SecAction `";
    var lines := Lines(body) + ["`"];
    OneLine("`");
    OneLine(head);
    LinesJoin(body, "`");
    LinesJoin(head, body + ['\n'] + "`");
    var a := Assembly(Some(Record(1, "SecAction `\n", false)), true);
    HeadOpensList();
    assert ([head] + lines)[0] == head && ([head] + lines)[1..] == lines;
    FirstDirectiveNext(IDLE, 1, [head] + lines);
    ListIsOneRecord(a, 2, Lines(body), "SecAction");
    NoneOpensWithNul(head, body);
    DirectiveOf(head + ['\n'] + (body + ['\n'] + "`"));
  }

  lemma HeadOpensList()
    ensures Feed(IDLE, 1, "SecAction `") == (Assembly(Some(Record(1, "SecAction `\n", false)), true), None)
    ensures InList(Assembly(Some(Record(1, "SecAction `\n", false)), true), "SecAction") && Refused("SecAction").None?
  {
    var head := "SecAction `";
    TrimSolid(head);
    FeedListed(IDLE, 1, head);
    assert "" + head + "\n" == "SecAction `\n";
    var text := "SecAction `\n";
    assert text[9] == ' ' && text[..9] == "SecAction";
    assert !HasBreak("SecAction");
    WordUnique(text, "SecAction");
    assert !EqualsIgnoreCase("SecAction", UNSUPPORTED[0]);
  }

  lemma NoneOpensWithNul(head: string, body: string)
    requires head == "SecAction `" && forall l | l in Lines(body) :: !OpensWith(l, NUL)
    ensures NoNulLine(head + ['\n'] + (body + ['\n'] + "`"))
  {
    hide OpensWith;
    OneLine("`");
    OneLine(head);
    assert NoNulLine(head) && NoNulLine("`");
    forall l | l in Lines(body) ensures !OpensWithNul(l) {
      OpensWithIs(l);
    }
    NulLinesJoin(body, "`");
    NulLinesJoin(head, body + ['\n'] + "`");
  }

  // ---------- the end of the text ----------

  lemma PlainDangling(w: string)
    requires PlainWord(w) && w[0] != '#'
    ensures Verdict(w + ['\\']) == None
  {
    hide Verdict, Feed, OpensWithNul, Letters;
    var x := w + ['\\'];
    SlashedSolid(w);
    FeedOpen(x, w);
    OneLine(x);
    assert [x][1..] == [] && RecordsFrom(IDLE, 1, [x]) == [] + [];
    VerdictIsFirstUncutRefusal(x);
  }

  lemma PlainOpenList(w: string)
    requires PlainWord(w) && w[0] != '#' && Refused(w).Some?
    ensures Verdict(w + [' ', '`']) == Some(Refusal(Refused(w).value, 1))
  {
    hide Verdict, Feed, OpensWithNul, Letters, Records, Refused, Trim, Word;
    var x := w + [' ', '`'];
    var r := Record(1, x + "\n", false);
    OpenListSolid(w);
    FeedListed(IDLE, 1, x);
    assert "" + x + "\n" == x + "\n";
    OpenListRecord(x, r);
    OpenListWord(w);
    LoneRefusal(x, r);
  }

  lemma OpenListSolid(w: string)
    requires PlainWord(w) && w[0] != '#'
    ensures var x := w + [' ', '`'];
            Trim(x) == x && !OpensWithNul(x) && '\n' !in x && x[0] != '#' && x[|x| - 1] == '`'
  {
    TrimSolid(w + [' ', '`']);
  }

  lemma OpenListRecord(x: string, r: Record)
    requires '\n' !in x && !OpensWithNul(x) && Feed(IDLE, 1, x) == (Assembly(Some(r), true), None)
    ensures Records(x) == [r] && NoNulLine(x)
  {
    hide Feed, OpensWithNul;
    OneLine(x);
    assert [x][1..] == [] && RecordsFrom(IDLE, 1, [x]) == [] + [r];
  }

  lemma OpenListWord(w: string)
    requires PlainWord(w)
    ensures Word(w + [' ', '`'] + "\n") == w
  {
    var x := w + [' ', '`'] + "\n";
    assert x[|w|] == ' ';
    assert !HasBreak(w);
    WordUnique(x, w);
  }

  lemma RecasedTail(d: string, d': string, q: string)
    requires Recased(d, d')
    ensures Recased(d + q, d' + q)
  {
  }

  /** A record that the text ends in the middle of, after a backslash, is not judged. */
  lemma DanglingDirectivePasses(d: string)
    requires Recased(DIRECTIVE, d)
    ensures Verdict(d + ['\\']) == None
  {
    hide Recased, Verdict;
    PlainDangling(DIRECTIVE);
    RecasedTail(DIRECTIVE, d, ['\\']);
    CaseDoesNotMatter(DIRECTIVE + ['\\'], d + ['\\']);
  }

  /** One whose action list is still open is judged. */
  lemma DirectiveWithOpenListIsRefused(d: string)
    requires Recased(DIRECTIVE, d)
    ensures Verdict(d + [' ', '`']) == Some(Refusal("SecRemoteRules", 1))
  {
    hide Recased, Verdict;
    assert Refused(DIRECTIVE) == Some(DIRECTIVE) by { DirectiveWord(""); }
    PlainOpenList(DIRECTIVE);
    RecasedTail(DIRECTIVE, d, [' ', '`']);
    CaseDoesNotMatter(DIRECTIVE + [' ', '`'], d + [' ', '`']);
  }
}
