/** The streaming scanner reports the first refused record of the text. */
module RulesProof {
  import opened Wire
  import opened RulesText
  import opened RulesScan

  // ---------- words and trimming ----------

  lemma WordUnique(text: string, w: string)
    requires w <= text && !HasBreak(w)
    requires |w| < |text| ==> Break(text[|w|])
    ensures w == Word(text)
  {
    var v := Word(text);
    assert forall i | 0 <= i < |v| :: v[i] in v && v[i] == text[i];
    assert forall i | 0 <= i < |w| :: w[i] == text[i] && !Break(w[i]);
  }

  lemma ClosedWord(x: string, y: string)
    requires HasBreak(x)
    ensures Word(x + y) == Word(x) && HasBreak(x + y)
  {
    hide Word;
    var i :| 0 <= i < |x| && Break(x[i]);
    assert (x + y)[i] == x[i];
    assert |Word(x)| < |x| by {
      assert forall k | 0 <= k < |Word(x)| :: Word(x)[k] in Word(x) && Word(x)[k] == x[k];
    }
    WordUnique(x + y, Word(x));
  }

  lemma OpenWord(x: string, y: string)
    requires !HasBreak(x)
    ensures Word(x) == x && Word(x + y) == x + Word(y) && HasBreak(x + y) == HasBreak(y)
  {
    hide Word;
    WordUnique(x, x);
    assert forall i | 0 <= i < |x| :: (x + y)[i] == x[i];
    assert forall j | 0 <= j < |y| :: (x + y)[|x| + j] == y[j];
    WordUnique(x + y, x + Word(y));
    if HasBreak(y) {
      var j :| 0 <= j < |y| && Break(y[j]);
      assert Break((x + y)[|x| + j]);
    }
  }

  lemma WordAppend(x: string, y: string)
    ensures HasBreak(x) ==> Word(x + y) == Word(x) && HasBreak(x + y)
    ensures !HasBreak(x) ==> Word(x) == x && Word(x + y) == x + Word(y) && HasBreak(x + y) == HasBreak(y)
    ensures Word(x) <= Word(x + y)
  {
    hide Word;
    if HasBreak(x) {
      ClosedWord(x, y);
    } else {
      OpenWord(x, y);
    }
  }

  lemma {:induction false} TrimLeftSnoc(l: string, c: char)
    ensures TrimLeft(l + [c]) == if TrimLeft(l) == "" && Blank(c) then "" else TrimLeft(l) + [c]
  {
    if l == "" {
      assert l + [c] == [c];
    } else {
      assert (l + [c])[1..] == l[1..] + [c];
      TrimLeftSnoc(l[1..], c);
    }
  }

  lemma {:induction false} TrimLeftStart(l: string)
    ensures TrimLeft(l) != "" ==> !Blank(TrimLeft(l)[0])
    ensures forall c | c in TrimLeft(l) :: c in l
    ensures TrimLeft(l) != "" ==> l != "" && l[|l| - 1] == TrimLeft(l)[|TrimLeft(l)| - 1]
  {
    if l != "" && Blank(l[0]) {
      TrimLeftStart(l[1..]);
    }
  }

  lemma TrimRightSnoc(u: string, c: char)
    ensures TrimRight(u + [c]) == if Blank(c) then TrimRight(u) else u + [c]
  {
    assert (u + [c])[..|u|] == u;
  }

  /** A trimmed line keeps its first character. */
  lemma TrimFirst(raw: string)
    ensures TrimLeft(raw) != "" ==> Trim(raw) != "" && Trim(raw)[0] == TrimLeft(raw)[0] && !Blank(Trim(raw)[0])
    ensures TrimLeft(raw) == "" ==> Trim(raw) == ""
  {
    TrimLeftStart(raw);
  }

  // ---------- the collected word ----------

  lemma RefusedShape(w: string)
    requires Refused(w).Some?
    ensures 0 < |w| < WORD_MAX && '`' !in w && '\\' !in w
  {
    var d := UNSUPPORTED[0];
    assert Refused(w) == Some(d);
    assert forall i | 0 <= i < |d| :: 'a' <= Lower(d[i]) <= 'z';
    assert forall i | 0 <= i < |w| :: 'a' <= Lower(w[i]) <= 'z';
  }

  /** No further input turns this word into a refused directive. */
  predicate Spoilt(word: string, done: bool) {
    (done && word == "") || '`' in word || (done && '\\' in word)
  }

  predicate Hopeless(w: string) {
    |w| >= WORD_MAX || '`' in w
  }

  /** How the collected word relates to the record text `acc` plus the part `u` of the
      current line seen so far: it is its first word, or neither can be refused. */
  predicate Tracks(s: ScanState, acc: string, u: string, cut: bool) {
    || (!cut && s.word == Word(acc + u) && s.wordDone == HasBreak(acc + u) && |s.word| <= WORD_MAX)
    || (Spoilt(s.word, s.wordDone) && (cut || Hopeless(Word(acc)) || |Word(acc + u)| > WORD_MAX))
  }

  lemma WordSnoc(x: string, c: char)
    requires c != '\n'
    ensures HasBreak(x + [c]) == (HasBreak(x) || Blank(c))
    ensures Word(x + [c]) == Word(x) + if HasBreak(x) || Blank(c) then "" else [c]
  {
    WordAppend(x, [c]);
    assert HasBreak([c]) == Blank(c) by { assert [c][0] == c; }
    assert Word([c]) == if Blank(c) then "" else [c];
  }

  /** An open word with something in it is not empty. */
  lemma WordStarted(acc: string, u: string)
    requires u != "" && !Break(u[0])
    ensures !HasBreak(acc + u) ==> Word(acc + u) != ""
  {
    WordAppend(acc + u, "");
    assert acc + u + "" == acc + u;
  }

  lemma TracksByte(s: ScanState, c: char, acc: string, u: string, cut: bool)
    requires Tracks(s, acc, u, cut)
    requires c != '\n'
    requires if u == "" then s.first == NUL && !Blank(c) && c != '#' && c != NUL
             else s.first != NUL && s.first != '#' && !Break(u[0])
    ensures Tracks(LineByte(s, c), acc, u + [c], cut)
  {
    assert acc + u + [c] == acc + (u + [c]);
    WordSnoc(acc + u, c);
    if u != "" {
      WordStarted(acc, u);
    }
    hide Word, HasBreak;
    if Blank(c) {
      assert LineByte(s, c) == if s.word != "" then s.(wordDone := true) else s;
    }
  }

  lemma TracksJudged(s: ScanState, acc: string, u: string, cut: bool)
    requires Tracks(s, acc, u, cut)
    ensures Refused(s.word) == if cut then None else Refused(Word(acc + u))
  {
    WordAppend(acc, u);
    if Refused(s.word).Some? {
      RefusedShape(s.word);
    }
    if Refused(Word(acc + u)).Some? {
      RefusedShape(Word(acc + u));
    }
  }

  // ---------- one line ----------

  function Directive(raw: string): string {
    var u := TrimLeft(raw);
    if u != "" && u[0] == '#' then "" else u
  }

  /** The flags and first/last bytes after the part `raw` of a line. */
  predicate MidLine(s0: ScanState, raw: string, s: ScanState) {
    var u := TrimLeft(raw);
    && s.line == s0.line && s.inTicks == s0.inTicks
    && s.first == (if u == "" then NUL else u[0])
    && s.last == (if TrimRight(u) == "" then NUL else TrimRight(u)[|TrimRight(u)| - 1])
    && (if Directive(raw) == "" then s == s0.(first := s.first, last := s.last)
        else s.inRecord && s.recLine == if s0.inRecord then s0.recLine else s0.line)
  }

  lemma MidLineByte(s0: ScanState, l: string, s: ScanState, c: char)
    requires MidLine(s0, l, s) && !OpensWithNul(l + [c]) && s0.first == NUL && s0.last == NUL
    ensures MidLine(s0, l + [c], LineByte(s, c))
  {
    var u := TrimLeft(l);
    TrimLeftSnoc(l, c);
    TrimRightSnoc(u, c);
    TrimLeftStart(l);
    hide TrimLeft, TrimRight;
    assert u == "" ==> "" + [c] == [c];
  }

  lemma DirectiveByte(s0: ScanState, l: string, s: ScanState, c: char, acc: string, cut: bool)
    requires MidLine(s0, l, s) && !OpensWithNul(l + [c]) && c != '\n' && '\n' !in l
    requires Tracks(s, acc, Directive(l), cut)
    ensures Tracks(LineByte(s, c), acc, Directive(l + [c]), cut)
  {
    var u := TrimLeft(l);
    TrimLeftSnoc(l, c);
    TrimLeftStart(l);
    if u == "" {
      assert "" + [c] == [c];
      if !Blank(c) && c != '#' {
        TracksByte(s, c, acc, "", cut);
      }
    } else {
      assert u[0] in u;
      if u[0] != '#' {
        TracksByte(s, c, acc, u, cut);
      }
    }
  }

  lemma {:induction false} ScanLine(s0: ScanState, raw: string, acc: string, cut: bool)
    requires s0.first == NUL && s0.last == NUL
    requires !OpensWithNul(raw) && '\n' !in raw
    requires Tracks(s0, acc, "", cut)
    ensures var (s, bad) := ScanText(s0, raw);
            bad == None && MidLine(s0, raw, s) && Tracks(s, acc, Directive(raw), cut)
    decreases |raw|
  {
    if raw != "" {
      var l, c := raw[..|raw| - 1], raw[|raw| - 1];
      assert raw == l + [c] && c in raw;
      TrimLeftSnoc(l, c);
      ScanLine(s0, l, acc, cut);
      var s := ScanText(s0, l).0;
      ScanTextConcat(s0, l, [c]);
      assert ScanText(s, [c]) == ScanText(LineByte(s, c), [c][1..]);
      MidLineByte(s0, l, s, c);
      DirectiveByte(s0, l, s, c, acc, cut);
    }
  }

  predicate AtLineStart(s: ScanState, a: Assembly, n: nat) {
    && s.first == NUL && s.last == NUL && s.line == n % UINT_RANGE
    && s.inTicks == a.inTicks && s.inRecord == a.record.Some?
    && (a.inTicks ==> a.record.Some? && HasBreak(a.record.value.text))
    && match a.record
       case Some(r) => s.recLine == r.line % UINT_RANGE && Tracks(s, r.text, "", r.cut)
       case None => s.word == "" && !s.wordDone
  }

  /** The word after a continuation drops the backslash it still holds. */
  function Unslashed(s: ScanState): string {
    if !s.wordDone && s.word != "" && s.word[|s.word| - 1] == '\\' then s.word[..|s.word| - 1] else s.word
  }

  lemma SpoiltStays(s: ScanState)
    requires Spoilt(s.word, s.wordDone)
    ensures Spoilt(Unslashed(s), s.wordDone)
  {
    assert Unslashed(s) != s.word ==> s.word == Unslashed(s) + ['\\'];
  }

  lemma BlankTail(x: string, tail: string)
    requires tail != "" ==> Break(tail[0])
    ensures Word(x + tail) == Word(x)
    ensures HasBreak(x + tail) == (HasBreak(x) || tail != "")
  {
    WordAppend(x, tail);
    assert tail != "" ==> Word(tail) == "";
  }

  lemma SlashTail(x: string)
    ensures Word(x + ['\\']) == Word(x) + if HasBreak(x) then [] else ['\\']
    ensures HasBreak(x + ['\\']) == HasBreak(x)
  {
    WordAppend(x, ['\\']);
    assert !HasBreak(['\\']);
    assert Word(['\\']) == ['\\'] by { WordUnique(['\\'], ['\\']); }
  }

  /** Without its trailing blanks a line has the same first word. */
  lemma TrimmedWords(acc: string, u: string)
    ensures Word(acc + u) == Word(acc + TrimRight(u))
    ensures HasBreak(acc + u) == (HasBreak(acc + TrimRight(u)) || u != TrimRight(u))
  {
    var t := TrimRight(u);
    var tail := u[|t|..];
    assert acc + u == (acc + t) + tail;
    assert u == t + tail;
    BlankTail(acc + t, tail);
  }

  /** Nor does dropping the final backslash do more than drop it from an open word. */
  lemma UnslashedWords(acc: string, t: string)
    requires t != "" && t[|t| - 1] == '\\'
    ensures Word(acc) <= Word(acc + t[..|t| - 1])
    ensures HasBreak(acc + t[..|t| - 1]) == HasBreak(acc + t)
    ensures Word(acc + t) == Word(acc + t[..|t| - 1]) + if HasBreak(acc + t) then [] else ['\\']
  {
    hide Word, HasBreak;
    var front := acc + t[..|t| - 1];
    SlashLast(acc, t);
    WordAppend(acc, t[..|t| - 1]);
    SlashTail(front);
  }

  lemma SlashLast(acc: string, t: string)
    requires t != "" && t[|t| - 1] == '\\'
    ensures acc + t == (acc + t[..|t| - 1]) + ['\\']
  {
  }

  lemma TracksContinued(s: ScanState, acc: string, u: string, t: string, cut: bool, cut': bool)
    requires Tracks(s, acc, u, cut)
    requires t == TrimRight(u) && t != "" && t[|t| - 1] == '\\'
    requires cut' == (cut || (!HasBreak(acc + t) && u != t))
    ensures Tracks(s.(word := Unslashed(s)), acc + t[..|t| - 1], "", cut')
  {
    var acc' := acc + t[..|t| - 1];
    assert acc' + "" == acc';
    TrimmedWords(acc, u);
    UnslashedWords(acc, t);
    if Spoilt(s.word, s.wordDone) {
      SpoiltStays(s);
    }
    if !cut' && !HasBreak(acc + t) && s.word == Word(acc + u) {
      assert s.word == Word(acc') + ['\\'];
    }
  }

  lemma TracksInList(s: ScanState, acc: string, u: string, t: string, cut: bool)
    requires Tracks(s, acc, u, cut)
    requires t == TrimRight(u) && t != ""
    requires HasBreak(acc) || t[|t| - 1] == '`'
    ensures Tracks(s, acc + t + "\n", "", cut)
  {
    hide Word, TrimRight, HasBreak;
    var acc' := acc + t + "\n";
    assert acc' + "" == acc';
    assert acc' == acc + (t + "\n");
    TrimmedWords(acc, u);
    BlankTail(acc + t, "\n");
    WordAppend(acc, t + "\n");
    WordAppend(acc, t);
    if !HasBreak(acc + t) {
      OpenWord(acc + t, "");
      assert (acc + t) + "" == acc + t && '`' in t;
    }
  }

  /** The scanner's state at the end of the line `raw` that started in `s`. */
  predicate LineRead(s: ScanState, a: Assembly, n: nat, raw: string, s1: ScanState) {
    var r := Current(a, n);
    && AtLineStart(s, a, n) && !OpensWithNul(raw) && '\n' !in raw
    && MidLine(s, raw, s1) && Tracks(s1, r.text, Directive(raw), r.cut)
  }

  function Current(a: Assembly, n: nat): Record {
    if a.record.Some? then a.record.value else Record(n, "", false)
  }

  lemma ReadLine(s: ScanState, a: Assembly, n: nat, raw: string)
    requires AtLineStart(s, a, n) && !OpensWithNul(raw) && '\n' !in raw
    ensures ScanText(s, raw).1 == None && LineRead(s, a, n, raw, ScanText(s, raw).0)
  {
    var r := Current(a, n);
    assert Word("") == "" && !HasBreak("") && "" + "" == "";
    ScanLine(s, raw, r.text, r.cut);
  }

  /** What the end of a line must achieve: the scanner and the assembly agree again,
      and a record is judged exactly when one is complete. */
  predicate LineEnded(n: nat, s1: ScanState, r: (ScanState, Option<string>), f: (Assembly, Option<Record>)) {
    && r.0.line == s1.line
    && AtLineStart(r.0.(line := (n + 1) % UINT_RANGE), f.0, n + 1)
    && match f.1
       case None => r.1 == None
       case Some(rec) => r.1 == (if rec.cut then None else Refused(Word(rec.text))) && r.0.recLine == rec.line % UINT_RANGE
  }

  lemma EndIgnored(s: ScanState, a: Assembly, n: nat, raw: string, s1: ScanState)
    requires LineRead(s, a, n, raw, s1) && (Trim(raw) == "" || Trim(raw)[0] == '#')
    ensures LineEnded(n, s1, EndOfLine(s1), Feed(a, n, raw))
  {
    TrimFirst(raw);
  }

  lemma EndInList(s: ScanState, a: Assembly, n: nat, raw: string, s1: ScanState)
    requires LineRead(s, a, n, raw, s1) && Trim(raw) != "" && Trim(raw)[0] != '#'
    requires if a.inTicks then Trim(raw)[0] != '`' else Trim(raw)[|Trim(raw)| - 1] == '`'
    ensures LineEnded(n, s1, EndOfLine(s1), Feed(a, n, raw))
  {
    hide Word, LineByte, TrimLeft, TrimRight;
    var r, u, t := Current(a, n), TrimLeft(raw), Trim(raw);
    TrimFirst(raw);
    TrimLeftStart(raw);
    assert t[0] in raw;
    TracksInList(s1, r.text, u, t, r.cut);
    assert HasBreak(r.text + t + "\n") by { assert (r.text + t + "\n")[|r.text + t|] == '\n'; }
  }

  lemma TracksByWord(s: ScanState, s': ScanState, acc: string, cut: bool)
    requires Tracks(s, acc, "", cut) && s'.word == s.word && s'.wordDone == s.wordDone
    ensures Tracks(s', acc, "", cut)
  {
  }

  lemma EndContinued(s: ScanState, a: Assembly, n: nat, raw: string, s1: ScanState)
    requires LineRead(s, a, n, raw, s1) && Trim(raw) != "" && Trim(raw)[0] != '#'
    requires if a.inTicks then Trim(raw)[0] == '`' else Trim(raw)[|Trim(raw)| - 1] != '`'
    requires Trim(raw)[|Trim(raw)| - 1] == '\\'
    ensures LineEnded(n, s1, EndOfLine(s1), Feed(a, n, raw))
  {
    hide Word, HasBreak, LineByte, TrimLeft, TrimRight, Tracks;
    var r, u, t := Current(a, n), TrimLeft(raw), Trim(raw);
    TrimFirst(raw);
    TrimLeftStart(raw);
    assert t[0] in raw;
    assert (raw != "" && Blank(raw[|raw| - 1])) == (u != t);
    TracksContinued(s1, r.text, u, t, r.cut, r.cut || CutsWord(r.text, raw));
    var s2 := EndOfLine(s1).0.(line := (n + 1) % UINT_RANGE);
    TracksByWord(s1.(word := Unslashed(s1)), s2, r.text + t[..|t| - 1], r.cut || CutsWord(r.text, raw));
  }

  lemma EndRecord(s: ScanState, a: Assembly, n: nat, raw: string, s1: ScanState)
    requires LineRead(s, a, n, raw, s1) && Trim(raw) != "" && Trim(raw)[0] != '#'
    requires if a.inTicks then Trim(raw)[0] == '`' else Trim(raw)[|Trim(raw)| - 1] != '`'
    requires Trim(raw)[|Trim(raw)| - 1] != '\\'
    ensures LineEnded(n, s1, EndOfLine(s1), Feed(a, n, raw))
  {
    hide Word, HasBreak, LineByte, TrimLeft, TrimRight, Tracks;
    var r, u, t := Current(a, n), TrimLeft(raw), Trim(raw);
    TrimFirst(raw);
    TrimLeftStart(raw);
    assert t[0] in raw;
    TracksJudged(s1, r.text, u, r.cut);
    TrimmedWords(r.text, u);
    assert EndOfLine(s1).1 == Refused(s1.word);
    assert Feed(a, n, raw) == (IDLE, Some(r.(text := r.text + t)));
  }

  /** A whole line, from one line start to the next. */
  lemma FeedLine(s: ScanState, a: Assembly, n: nat, raw: string)
    requires AtLineStart(s, a, n) && !OpensWithNul(raw) && '\n' !in raw
    ensures ScanText(s, raw).1 == None
    ensures LineEnded(n, s, EndOfLine(ScanText(s, raw).0), Feed(a, n, raw))
  {
    ReadLine(s, a, n, raw);
    var s1, t := ScanText(s, raw).0, Trim(raw);
    if t == "" || t[0] == '#' {
      EndIgnored(s, a, n, raw, s1);
    } else if if a.inTicks then t[0] != '`' else t[|t| - 1] == '`' {
      EndInList(s, a, n, raw, s1);
    } else if t[|t| - 1] == '\\' {
      EndContinued(s, a, n, raw, s1);
    } else {
      EndRecord(s, a, n, raw, s1);
    }
  }

  // ---------- the whole text ----------

  function Wrapped(o: Option<Refusal>): Option<Refusal> {
    match o
    case None => None
    case Some(r) => Some(Refusal(r.directive, r.line % UINT_RANGE))
  }

  function Expected(a: Assembly, n: nat, text: string): Option<Refusal>
    requires a.inTicks ==> a.record.Some?
  {
    Wrapped(FirstRefusal(Uncut(RecordsFrom(a, n, Lines(text)))))
  }

  lemma JudgedFirst(r: Record, tail: seq<Record>)
    ensures FirstRefusal(Uncut([r] + tail)) ==
            if !r.cut && IsRefused(r) then Some(RefusalOf(r)) else FirstRefusal(Uncut(tail))
  {
    assert ([r] + tail)[1..] == tail;
    assert ([r] + Uncut(tail))[1..] == Uncut(tail);
    assert [] + Uncut(tail) == Uncut(tail);
  }

  /** The records from here: those of the first line, if it completes one, and the rest. */
  lemma ExpectedLine(a: Assembly, n: nat, raw: string, lines: seq<string>)
    requires a.inTicks ==> a.record.Some?
    ensures var (a', done) := Feed(a, n, raw);
            var rest := FirstRefusal(Uncut(RecordsFrom(a', n + 1, lines)));
            FirstRefusal(Uncut(RecordsFrom(a, n, [raw] + lines))) ==
            if done.Some? && !done.value.cut && IsRefused(done.value) then Some(RefusalOf(done.value)) else rest
  {
    var (a', done) := Feed(a, n, raw);
    assert ([raw] + lines)[1..] == lines;
    var tail := RecordsFrom(a', n + 1, lines);
    if done.Some? {
      JudgedFirst(done.value, tail);
    } else {
      assert [] + tail == tail;
    }
  }

  /** A list still open at the end of input is judged as its record is. */
  lemma OpenListJudged(s: ScanState, a: Assembly, n: nat)
    requires a.inTicks && a.record.Some? && Tracks(s, a.record.value.text, "", a.record.value.cut)
    ensures var bad := Refused(s.word);
            FirstRefusal(Uncut(RecordsFrom(a, n, []))) ==
            if bad.Some? then Some(Refusal(bad.value, a.record.value.line)) else None
  {
    hide Tracks, Word;
    var r := a.record.value;
    assert r.text + "" == r.text;
    TracksJudged(s, r.text, "", r.cut);
    assert [r] + [] == [r];
    JudgedFirst(r, []);
  }

  lemma ScanLastLine(s: ScanState, a: Assembly, n: nat, text: string)
    requires AtLineStart(s, a, n) && !OpensWithNul(text) && '\n' !in text
    ensures Report(ScanAll(s, text)) == Expected(a, n, text)
  {
    hide Feed, LineByte, Word, HasBreak, Tracks, EndOfLine, ScanText;
    FeedLine(s, a, n, text);
    var (s2, bad) := EndOfLine(ScanText(s, text).0);
    var a' := Feed(a, n, text).0;
    assert FirstLine(text) == text;
    assert Lines(text) == [text] + [];
    ExpectedLine(a, n, text, []);
    if a'.inTicks {
      TracksByWord(s2.(line := (n + 1) % UINT_RANGE), s2, a'.record.value.text, a'.record.value.cut);
      OpenListJudged(s2, a', n + 1);
    }
  }

  lemma NextLine(n: nat)
    ensures (n % UINT_RANGE + 1) % UINT_RANGE == (n + 1) % UINT_RANGE
  {
  }

  /** A chunk that starts with the line feed ending the current line. */
  lemma ScanLineFeed(s: ScanState, rest: string)
    ensures ScanText(s, ['\n'] + rest) ==
            var (s2, bad) := EndOfLine(s);
            if bad.Some? then (s2, bad) else ScanText(s2.(line := (s2.line + 1) % UINT_RANGE), rest)
  {
    assert (['\n'] + rest)[1..] == rest;
  }

  lemma ReportAll(s: ScanState, text: string, s2: ScanState, bad: Option<string>, next: ScanState, rest: string)
    requires ScanText(s, text) == if bad.Some? then (s2, bad) else ScanText(next, rest)
    ensures Report(ScanAll(s, text)) ==
            if bad.Some? then Some(Refusal(bad.value, s2.recLine)) else Report(ScanAll(next, rest))
  {
  }

  /** The first line, and the lines of the rest. */
  lemma LinesOf(text: string)
    ensures var raw := FirstLine(text);
            if |raw| == |text| then Lines(text) == [raw] && (NoNulLine(text) ==> !OpensWithNul(raw))
            else
              var rest := text[|raw| + 1..];
              Lines(text) == [raw] + Lines(rest) && (NoNulLine(text) ==> !OpensWithNul(raw) && NoNulLine(rest))
  {
    hide OpensWithNul;
    var raw := FirstLine(text);
    assert raw in Lines(text);
    if |raw| < |text| {
      assert forall l | l in Lines(text[|raw| + 1..]) :: l in Lines(text);
    }
  }

  /** The scanner over the first line and its line feed. */
  lemma ScanStep(s: ScanState, text: string, n: nat)
    requires |FirstLine(text)| < |text|
    requires ScanText(s, FirstLine(text)).1 == None
    requires EndOfLine(ScanText(s, FirstLine(text)).0).0.line == n % UINT_RANGE
    ensures var raw := FirstLine(text);
            var (s2, bad) := EndOfLine(ScanText(s, raw).0);
            ScanText(s, text) ==
            if bad.Some? then (s2, bad) else ScanText(s2.(line := (n + 1) % UINT_RANGE), text[|raw| + 1..])
  {
    hide EndOfLine, LineByte;
    var raw := FirstLine(text);
    var rest := text[|raw| + 1..];
    assert text == raw + (['\n'] + rest);
    ScanTextConcat(s, raw, ['\n'] + rest);
    ScanLineFeed(ScanText(s, raw).0, rest);
    NextLine(n);
  }

  /** What is expected of the first line, and of the rest. */
  lemma ExpectedStep(a: Assembly, n: nat, text: string)
    requires (a.inTicks ==> a.record.Some?) && |FirstLine(text)| < |text|
    ensures var raw := FirstLine(text);
            var (a', done) := Feed(a, n, raw);
            Expected(a, n, text) ==
            if done.Some? && !done.value.cut && IsRefused(done.value)
            then Some(Refusal(RefusalOf(done.value).directive, done.value.line % UINT_RANGE))
            else Expected(a', n + 1, text[|raw| + 1..])
  {
    hide Feed, RecordsFrom, Uncut, FirstRefusal, IsRefused;
    var raw := FirstLine(text);
    LinesOf(text);
    ExpectedLine(a, n, raw, Lines(text[|raw| + 1..]));
  }

  lemma {:induction false} ScanFrom(s: ScanState, a: Assembly, n: nat, text: string)
    requires AtLineStart(s, a, n) && NoNulLine(text)
    ensures Report(ScanAll(s, text)) == Expected(a, n, text)
    decreases |text|
  {
    hide Tracks, Feed, EndOfLine, Word, HasBreak, NoNulLine, OpensWithNul, ScanText, ScanAll, Expected, Report;
    var raw := FirstLine(text);
    LinesOf(text);
    if |raw| == |text| {
      assert raw == text;
      ScanLastLine(s, a, n, text);
    } else {
      var rest := text[|raw| + 1..];
      FeedLine(s, a, n, raw);
      var (s2, bad) := EndOfLine(ScanText(s, raw).0);
      var next, a' := s2.(line := (n + 1) % UINT_RANGE), Feed(a, n, raw).0;
      ScanStep(s, text, n);
      ExpectedStep(a, n, text);
      ScanFrom(next, a', n + 1, rest);
      ReportAll(s, text, s2, bad, next, rest);
    }
  }

  /** The main result: over every text no line of which opens with a NUL, the scanner reports
      exactly the first record that is refused and not cut, with the line it starts on. */
  lemma VerdictIsFirstUncutRefusal(text: string)
    requires NoNulLine(text)
    ensures Verdict(text) == Wrapped(FirstRefusal(Uncut(Records(text))))
  {
    ScanFrom(START, IDLE, 1, text);
  }
}
