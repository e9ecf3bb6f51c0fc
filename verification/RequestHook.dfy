/**
 The fixups hook: phase 1 on the connection, the request line and the headers,
 then phase 2 on a body read up front and kept, in memory and past a limit in a
 spool file, for the replay.
 */
module RequestHook {
  import opened Wire
  import opened HeaderCodec
  import opened Engine
  import opened Brigade
  import opened Context

  const OK := 0
  const DECLINED := -1
  const DONE := -2
  const HTTP_BAD_REQUEST := 400

  const DEFAULT_BODY_MEM_LIMIT: nat := 128 * 1024

  /** What `ap_get_client_block` delivers: chunks, then the end or a read error. */
  datatype ClientBody = ClientBody(chunks: seq<seq<byte>>, readError: bool)

  /** One submission and one poll per chunk. */
  function ChunkCalls(chunks: seq<seq<byte>>): seq<Call> {
    if chunks == [] then []
    else ChunkCalls(chunks[..|chunks| - 1]) + [AppendBody(Request, chunks[|chunks| - 1]), Poll]
  }

  lemma ChunkCallsNext(chunks: seq<seq<byte>>, i: nat)
    requires i < |chunks|
    ensures ChunkCalls(chunks[..i + 1]) == ChunkCalls(chunks[..i]) + [AppendBody(Request, chunks[i]), Poll]
  {
    assert chunks[..i + 1][..i] == chunks[..i];
  }

  lemma {:induction false} ChunkCallsPrefix(chunks: seq<seq<byte>>, i: nat)
    requires i <= |chunks|
    ensures ChunkCalls(chunks[..i]) <= ChunkCalls(chunks)
    decreases |chunks| - i
  {
    if i == |chunks| {
      assert chunks[..i] == chunks;
    } else {
      ChunkCallsNext(chunks, i);
      ChunkCallsPrefix(chunks, i + 1);
    }
  }

  // ---------- the script ----------

  /** What the hook does when nothing stops it, as a list of calls from the start of the
      transaction. Only the header fallback and the body switch depend on the engine. */
  function RequestLine(): seq<Call> {
    [ProcessConnection, Poll, ProcessUri, Poll]
  }

  function Submitted(e: Oracle, pairs: seq<Pair>): (bool, seq<Call>) {
    SubmitHeaders(e, RequestLine(), Request, pairs)
  }

  function Phase1Log(e: Oracle, pairs: seq<Pair>): seq<Call> {
    Submitted(e, pairs).1 + [ProcessHeaders(Request), Poll]
  }

  function BodyLog(e: Oracle, pairs: seq<Pair>, chunks: Option<seq<seq<byte>>>): seq<Call> {
    var log := Phase1Log(e, pairs);
    if chunks.None? then log
    else
      var asked := log + [BodyAccessible(Request)];
      if e.rc(asked) == 0 then asked else asked + ChunkCalls(chunks.value)
  }

  function FullLog(e: Oracle, pairs: seq<Pair>, chunks: Option<seq<seq<byte>>>): seq<Call> {
    BodyLog(e, pairs, chunks) + [ProcessBody(Request), Poll]
  }

  lemma FullLogStages(e: Oracle, pairs: seq<Pair>, chunks: Option<seq<seq<byte>>>)
    ensures RequestLine() <= Submitted(e, pairs).1 <= Phase1Log(e, pairs)
    ensures Phase1Log(e, pairs) <= BodyLog(e, pairs, chunks) <= FullLog(e, pairs, chunks)
  {
  }

  // ---------- the calls, as the engine sees them ----------

  /** May `c` be the next call, after those in the log? Each phase and each piece of body is
      polled for at once, and nothing follows a failure or a found intervention. */
  predicate RequestMayCall(e: Oracle, log: seq<Call>, c: Call) {
    if log == [] then c == ProcessConnection
    else
      var last := log[|log| - 1];
      if last in {ProcessConnection, ProcessUri, ProcessHeaders(Request), ProcessBody(Request)} then
        e.rc(log) >= 0 && c == Poll
      else if last.AppendBody? then
        last.side == Request && e.rc(log) == 0 && c == Poll
      else if last.AddHeaders? then
        if e.rc(log) == 0 then c == ProcessHeaders(Request) else c.AddHeader? && c.side == Request
      else if last.AddHeader? then
        e.rc(log) == 0 && (c == ProcessHeaders(Request) || (c.AddHeader? && c.side == Request))
      else if last == BodyAccessible(Request) then
        c == ProcessBody(Request) || (e.rc(log) != 0 && c.AppendBody? && c.side == Request)
      else if last == Poll && |log| >= 2 && e.intervention(log).None? then
        var phase := log[|log| - 2];
        if phase == ProcessConnection then c == ProcessUri
        else if phase == ProcessUri then
          c == ProcessHeaders(Request) || ((c.AddHeader? || c.AddHeaders?) && c.side == Request)
        else if phase == ProcessHeaders(Request) then c == BodyAccessible(Request) || c == ProcessBody(Request)
        else phase.AppendBody? && ((c.AppendBody? && c.side == Request) || c == ProcessBody(Request))
      else false
  }

  predicate RequestInOrder(e: Oracle, log: seq<Call>)
    decreases |log|
  {
    log == [] || (RequestInOrder(e, log[..|log| - 1]) && RequestMayCall(e, log[..|log| - 1], log[|log| - 1]))
  }

  /** The whole of phases 1 and 2, in order, each polled for and nothing found. */
  predicate PhasesDone(e: Oracle, log: seq<Call>) {
    && RequestInOrder(e, log) && |log| >= 2
    && log[|log| - 2] == ProcessBody(Request) && log[|log| - 1] == Poll && e.intervention(log).None?
  }

  lemma RequestNext(e: Oracle, log: seq<Call>, c: Call)
    requires RequestInOrder(e, log) && RequestMayCall(e, log, c)
    ensures RequestInOrder(e, log + [c])
  {
    assert (log + [c])[..|log|] == log;
  }

  /** A call that is polled for. */
  predicate Polls(c: Call) {
    c in {ProcessConnection, ProcessUri, ProcessHeaders(Request), ProcessBody(Request)}
    || (c.AppendBody? && c.side == Request)
  }

  lemma PhaseInOrder(e: Oracle, log: seq<Call>, c: Call)
    requires RequestInOrder(e, log) && RequestMayCall(e, log, c) && Polls(c) && Quiet(e, log + [c, Poll], 0)
    ensures RequestInOrder(e, log + [c, Poll]) && e.intervention(log + [c, Poll]).None?
  {
    hide RequestMayCall;
    var one, two := log + [c], log + [c, Poll];
    assert two[..|one|] == one && two == one + [Poll];
    RequestNext(e, log, c);
    CleanPolls(e, log, c);
    RequestNext(e, one, Poll);
  }

  lemma CleanPolls(e: Oracle, log: seq<Call>, c: Call)
    requires Polls(c) && Quiet(e, log + [c, Poll], 0)
    ensures RequestMayCall(e, log + [c], Poll) && e.intervention(log + [c, Poll]).None?
  {
    var one, two := log + [c], log + [c, Poll];
    assert two[..|two| - 1] == one;
    AlarmsAre(e, one);
    AlarmsAre(e, two);
  }

  lemma {:induction false} SinglesMayFollow(e: Oracle, log: seq<Call>, pairs: seq<Pair>)
    requires RequestInOrder(e, log) && log != [] && RequestMayCall(e, log, AddHeader(Request, Pair([], [])))
    requires !log[|log| - 1].AddHeaders? || e.rc(log) != 0
    ensures var (ok, log') := SubmitSingles(e, log, Request, pairs);
            ok && pairs != [] ==> RequestInOrder(e, log') && RequestMayCall(e, log', ProcessHeaders(Request))
    decreases |pairs|
  {
    if pairs != [] && Short(pairs[0]) {
      var next := log + [AddHeader(Request, pairs[0])];
      RequestNext(e, log, AddHeader(Request, pairs[0]));
      if e.rc(next) == 0 {
        SinglesMayFollow(e, next, pairs[1..]);
      }
    }
  }

  lemma HeadersMayFollow(e: Oracle, log: seq<Call>, pairs: seq<Pair>)
    requires RequestInOrder(e, log) && |log| >= 2 && log[|log| - 2] == ProcessUri && log[|log| - 1] == Poll
    requires e.intervention(log).None?
    ensures var (ok, log') := SubmitHeaders(e, log, Request, pairs);
            ok ==> RequestInOrder(e, log') && RequestMayCall(e, log', ProcessHeaders(Request))
  {
    hide SubmitSingles, Packable, Encode, TotalSize, RequestInOrder;
    if pairs != [] && Packable(pairs) {
      PackableFits(pairs);
      var bulk := AddHeaders(Request, Encode(pairs), |pairs|);
      RequestNext(e, log, bulk);
      if e.rc(log + [bulk]) != 0 {
        SinglesMayFollow(e, log + [bulk], pairs);
      }
    } else if pairs != [] {
      SinglesMayFollow(e, log, pairs);
    }
  }

  lemma {:induction false} ChunksMayFollow(e: Oracle, asked: seq<Call>, chunks: seq<seq<byte>>)
    requires RequestInOrder(e, asked) && asked != []
    requires asked[|asked| - 1] == BodyAccessible(Request) && e.rc(asked) != 0
    requires Quiet(e, asked + ChunkCalls(chunks), 0)
    ensures var log := asked + ChunkCalls(chunks);
            && RequestInOrder(e, log) && RequestMayCall(e, log, ProcessBody(Request))
            && forall bytes :: RequestMayCall(e, log, AppendBody(Request, bytes))
    decreases |chunks|
  {
    if chunks == [] {
      assert asked + [] == asked;
    } else {
      var init, c := chunks[..|chunks| - 1], AppendBody(Request, chunks[|chunks| - 1]);
      var before := asked + ChunkCalls(init);
      assert asked + ChunkCalls(chunks) == before + [c, Poll];
      AlarmSticks(e, before, before + [c, Poll]);
      ChunksMayFollow(e, asked, init);
      PhaseInOrder(e, before, c);
    }
  }

  lemma Phase1InOrder(e: Oracle, pairs: seq<Pair>)
    requires Submitted(e, pairs).0 && Quiet(e, Phase1Log(e, pairs), 0)
    ensures var log := Phase1Log(e, pairs);
            && RequestInOrder(e, log) && e.intervention(log).None?
            && |log| >= 2 && log[|log| - 2] == ProcessHeaders(Request) && log[|log| - 1] == Poll
  {
    hide Quiet, SubmitHeaders, RequestInOrder;
    var log := Phase1Log(e, pairs);
    EveryHeaderSubmitted(e, RequestLine(), Request, pairs);
    var one := [ProcessConnection, Poll];
    assert [] + [ProcessConnection, Poll] == one && one + [ProcessUri, Poll] == RequestLine();
    assert one <= RequestLine() <= log;
    AlarmSticks(e, one, log);
    AlarmSticks(e, RequestLine(), log);
    NothingCalled(e);
    PhaseInOrder(e, [], ProcessConnection);
    PhaseInOrder(e, one, ProcessUri);
    HeadersMayFollow(e, RequestLine(), pairs);
    PhaseInOrder(e, Submitted(e, pairs).1, ProcessHeaders(Request));
  }

  lemma NothingCalled(e: Oracle)
    ensures RequestInOrder(e, [])
  {
  }

  /** A clean script is a run of phases 1 and 2 in order; the engine is asked about the body
      exactly when there is one. */
  lemma ScriptInOrder(e: Oracle, pairs: seq<Pair>, chunks: Option<seq<seq<byte>>>)
    requires Submitted(e, pairs).0 && Quiet(e, FullLog(e, pairs, chunks), 0)
    ensures PhasesDone(e, FullLog(e, pairs, chunks))
    ensures BodyAccessible(Request) in FullLog(e, pairs, chunks) <==> chunks.Some?
  {
    hide Quiet, Phase1Log, RequestInOrder;
    FullLogStages(e, pairs, chunks);
    var log, body, full := Phase1Log(e, pairs), BodyLog(e, pairs, chunks), FullLog(e, pairs, chunks);
    AlarmSticks(e, log, full);
    AlarmSticks(e, body, full);
    Phase1InOrder(e, pairs);
    if chunks.Some? {
      var asked := log + [BodyAccessible(Request)];
      RequestNext(e, log, BodyAccessible(Request));
      if e.rc(asked) != 0 {
        ChunksMayFollow(e, asked, chunks.value);
      }
      assert body[|log|] == BodyAccessible(Request) && full[|log|] == body[|log|];
    } else {
      Phase1AsksNothing(e, pairs);
    }
    PhaseInOrder(e, body, ProcessBody(Request));
  }

  lemma Phase1AsksNothing(e: Oracle, pairs: seq<Pair>)
    ensures BodyAccessible(Request) !in Phase1Log(e, pairs)
  {
    EveryHeaderSubmitted(e, RequestLine(), Request, pairs);
    var log := Submitted(e, pairs).1;
    assert log == RequestLine() + log[|RequestLine()|..];
    assert forall k | 0 <= k < |log| :: log[k] != BodyAccessible(Request);
  }

  // ---------- stopping ----------

  lemma {:induction false} AlarmSticks(e: Oracle, log: seq<Call>, full: seq<Call>)
    requires log <= full && Quiet(e, full, 0)
    ensures Quiet(e, log, 0)
    decreases |full|
  {
    if log != full {
      AlarmSticks(e, log, full[..|full| - 1]);
    }
  }

  /** The calls an enforced intervention adds: its status, and the early audit entry. */
  predicate Epilogue(calls: seq<Call>) {
    calls == [] || (|calls| == 2 && calls[0].UpdateStatus? && calls[1] == ProcessLogging)
  }

  /** The log follows the script to its `k`-th call, quietly but perhaps for the last, and
      has at most an epilogue after it. */
  predicate Follows(e: Oracle, log: seq<Call>, full: seq<Call>, k: nat) {
    && k <= |full| && k <= |log| && log[..k] == full[..k] && Epilogue(log[k..])
    && Quiet(e, full[..if k > 0 then k - 1 else 0], 0)
  }

  ghost predicate FollowsSome(e: Oracle, log: seq<Call>, full: seq<Call>) {
    exists k: nat :: Follows(e, log, full, k)
  }

  /** Nothing was called beyond the first alarm of the script. */
  predicate CutShort(e: Oracle, log: seq<Call>, full: seq<Call>) {
    exists k: nat :: 0 < k <= |full| && Follows(e, log, full, k) && Alarm(e, full[..k])
  }

  lemma CutShortIsNoisy(e: Oracle, log: seq<Call>, full: seq<Call>, longer: seq<Call>)
    requires CutShort(e, log, full) && full <= longer
    ensures CutShort(e, log, longer) && !Quiet(e, longer, 0)
  {
    var k: nat :| 0 < k <= |full| && Follows(e, log, full, k) && Alarm(e, full[..k]);
    assert longer[..k] == full[..k] && longer[..k - 1] == full[..k - 1];
    assert Follows(e, log, longer, k);
    if Quiet(e, longer, 0) {
      AlarmSticks(e, longer[..k], longer);
    }
  }

  /** A request record: what httpd knows of it, what is decided elsewhere, and what the hook
      sets on it. */
  class HttpRequest {
    const isSubrequest: bool
    const enabled: bool
    const prev: seq<HttpRequest>
    const headersIn: seq<TableEntry>
    const setupRc: int
    const hasBody: bool
    const body: ClientBody
    const bodyMemLimit: int

    // outcomes decided elsewhere: the transaction, and the saving of each chunk
    const engine: Oracle
    const canCreate: bool
    const saveFails: nat -> bool

    var ctx: RequestCtx?
    var outputFilter: bool
    var inputFilter: bool
    var readLength: nat
    var status: int
    var aborted: bool

    /** How many chunks went to memory. */
    ghost var inMemory: nat

    constructor (isSubrequest: bool, enabled: bool, prev: seq<HttpRequest>, headersIn: seq<TableEntry>, setupRc: int,
                 hasBody: bool, body: ClientBody, bodyMemLimit: int, engine: Oracle, canCreate: bool,
                 saveFails: nat -> bool)
      ensures this.isSubrequest == isSubrequest && this.enabled == enabled && this.prev == prev
      ensures this.headersIn == headersIn && this.setupRc == setupRc && this.hasBody == hasBody
      ensures this.body == body && this.bodyMemLimit == bodyMemLimit && this.engine == engine
      ensures this.canCreate == canCreate && this.saveFails == saveFails
      ensures ctx == null && !outputFilter && !inputFilter && !aborted
    {
      this.isSubrequest, this.enabled, this.prev := isSubrequest, enabled, prev;
      this.headersIn, this.setupRc, this.hasBody, this.body := headersIn, setupRc, hasBody, body;
      this.bodyMemLimit, this.engine, this.canCreate, this.saveFails := bodyMemLimit, engine, canCreate, saveFails;
      ctx := null;
      outputFilter, inputFilter, readLength, status, aborted, inMemory := false, false, 0, 200, false, 0;
    }

    function Pairs(): seq<Pair> {
      PairsOf(headersIn)
    }

    function Chunks(): Option<seq<seq<byte>>> {
      if hasBody then Some(body.chunks) else None
    }

    function Script(): seq<Call> {
      FullLog(engine, Pairs(), Chunks())
    }

    function MemLimit(): nat {
      if bodyMemLimit >= 0 then bodyMemLimit else DEFAULT_BODY_MEM_LIMIT
    }

    /** Nothing outside the engine goes wrong with the body. */
    predicate BodyReadable() {
      setupRc == OK && (hasBody ==> !body.readError && forall i | 0 <= i < |body.chunks| :: !saveFails(i))
    }

    ghost predicate Inspecting(log: seq<Call>)
      reads this, ctx
    {
      && ctx != null && ctx.engine == engine && ctx.log == log && Quiet(engine, log, 0)
      && Times(log, ProcessLogging) == 0 && !ctx.logged && !ctx.interventionTriggered && !ctx.dropConnection && !aborted
    }

    /** Refused for good, by a failure or by the intervention of the last poll. */
    ghost predicate Denied(ret: int)
      reads this, ctx
    {
      && ctx != null && ctx.engine == engine && ctx.interventionTriggered && AuditedOnce()
      && (Failed(ret) || Enforced(ret))
    }

    /** A failure is a 500, with nothing audited yet and the connection kept. */
    ghost predicate Failed(ret: int)
      requires ctx != null
      reads this, ctx
    {
      ret == 500 && !ctx.logged && !ctx.dropConnection && !aborted
    }

    /** The log ends with the poll, the status reported back and the audit entry; the status
        is the intervention's own, as far as it refuses, and a drop sends nothing. */
    ghost predicate Enforced(ret: int)
      requires ctx != null
      reads this, ctx
    {
      var n := |ctx.log|;
      && n >= 3 && ctx.log[n - 3] == Poll && ctx.logged && ctx.log[n - 1] == ProcessLogging
      && var queued := engine.intervention(ctx.log[..n - 2]);
      && queued.Some? && ctx.log[n - 2] == UpdateStatus(EnforcedStatus(queued.value))
      && ctx.dropConnection == IsDrop(queued.value) == aborted
      && (if aborted then ret == DONE && status == HTTP_FORBIDDEN else ret == EnforcedStatus(queued.value))
    }

    /** The audit entry is written at most once, and `logged` says whether it was. */
    ghost predicate AuditedOnce()
      reads this, ctx
    {
      ctx != null ==> Times(ctx.log, ProcessLogging) == if ctx.logged then 1 else 0
    }

    method Fail() returns (ret: int)
      requires ctx != null && ctx.engine == engine && AuditedOnce()
      requires !ctx.logged && !ctx.dropConnection && !aborted
      modifies ctx`interventionTriggered
      ensures Denied(ret) && ret == HTTP_INTERNAL_SERVER_ERROR
    {
      ctx.interventionTriggered := true;
      ret := HTTP_INTERNAL_SERVER_ERROR;
    }

    /** Poll, and turn an intervention into the return value of the hook. */
    method CheckIntervention() returns (stop: bool, ret: int)
      requires enabled && ctx != null && Inspecting(ctx.log)
      modifies this`status, this`aborted, ctx`log, ctx`logged, ctx`dropConnection, ctx`interventionTriggered
      ensures stop <==> Alarm(engine, old(ctx.log) + [Poll])
      ensures !stop ==> Inspecting(old(ctx.log) + [Poll])
      ensures stop ==> Denied(ret) && ctx.logged && CutShort(engine, ctx.log, old(ctx.log) + [Poll])
    {
      hide Quiet, Times, EnforcedStatus, IsDrop;
      ghost var full := ctx.log + [Poll];
      QuietNext(engine, ctx.log, Poll, 0);
      TimesNext(ctx.log, Poll, ProcessLogging);
      assert full[..|full|] == full && full[..|full| - 1] == ctx.log;
      ret := ctx.ProcessIntervention(enabled, true);
      if ret > 0 {
        assert ctx.log == full + [UpdateStatus(ret), ProcessLogging];
        assert ctx.log[..|ctx.log| - 2] == full;
        EpilogueAudits(full, ret);
        stop, ctx.interventionTriggered := true, true;
        assert ctx.log[..|full|] == full && Epilogue(ctx.log[|full|..]);
        assert Follows(engine, ctx.log, full, |full|);
        if ctx.dropConnection {
          status, aborted := HTTP_FORBIDDEN, true;
          ret := DONE;
        }
        return;
      }
      stop := false;
    }

    /** A call that fails below zero, then the poll. */
    method Process(c: Call) returns (stop: bool, ret: int)
      requires enabled && ctx != null && Inspecting(ctx.log)
      requires c.ProcessConnection? || c.ProcessUri? || c.ProcessHeaders? || c.ProcessBody?
      modifies this`status, this`aborted, ctx`log, ctx`logged, ctx`dropConnection, ctx`interventionTriggered, ctx`phase2Done
      ensures !stop ==> Inspecting(old(ctx.log) + [c, Poll]) && ctx.phase2Done == (old(ctx.phase2Done) || c.ProcessBody?)
      ensures stop ==> Denied(ret) && CutShort(engine, ctx.log, old(ctx.log) + [c, Poll])
    {
      ghost var full := ctx.log + [c, Poll];
      QuietNext(engine, ctx.log, c, 0);
      TimesNext(ctx.log, c, ProcessLogging);
      ghost var log0 := ctx.log;
      var rc := ctx.Ask(c);
      assert full == ctx.log + [Poll];
      if rc < 0 {
        ret := Fail();
        FailureCutsShort(engine, log0, c);
        return true, ret;
      }
      if c.ProcessBody? {
        ctx.phase2Done := true;
      }
      stop, ret := CheckIntervention();
    }

    /** Phase 1 in full. */
    method Phase1() returns (stop: bool, ret: int)
      requires enabled && Inspecting([])
      modifies this`status, this`aborted, ctx`log, ctx`logged, ctx`dropConnection, ctx`interventionTriggered, ctx`phase2Done
      ensures !stop ==> Submitted(engine, Pairs()).0 && Inspecting(Phase1Log(engine, Pairs()))
      ensures stop ==>
                Denied(ret) && (!Submitted(engine, Pairs()).0 || CutShort(engine, ctx.log, Phase1Log(engine, Pairs())))
      ensures stop ==> FollowsSome(engine, ctx.log, Phase1Log(engine, Pairs()))
    {
      hide Quiet, Alarm, Follows, Epilogue, Times;
      ghost var full := Phase1Log(engine, Pairs());
      FullLogStages(engine, Pairs(), Chunks());
      assert [] + [ProcessConnection, Poll] == [ProcessConnection, Poll] <= RequestLine();
      assert [ProcessConnection, Poll] + [ProcessUri, Poll] == RequestLine();
      stop, ret := Process(ProcessConnection);
      if stop {
        StopFollows(engine, ctx.log, [ProcessConnection, Poll], full);
        return;
      }
      stop, ret := Process(ProcessUri);
      if stop {
        StopFollows(engine, ctx.log, RequestLine(), full);
        return;
      }
      var pairs := CollectPairs(headersIn);
      SubmissionQuiet(engine, ctx.log, Request, pairs, 0);
      EveryHeaderSubmitted(engine, ctx.log, Request, pairs);
      HeadersCountNothing(ctx.log, SubmitHeaders(engine, ctx.log, Request, pairs).1, ProcessLogging);
      var ok := ctx.AddAllHeaders(Request, pairs);
      if !ok {
        SubmissionFollows(engine, pairs, full);
        ret := Fail();
        return true, ret;
      }
      stop, ret := Process(ProcessHeaders(Request));
      if stop {
        StopFollows(engine, ctx.log, full, full);
      }
    }

    // ---------- phase 2 ----------

    /** Where each chunk went: the first `k`, exactly those that fit the limit before the
        first that does not, into memory; the rest, in order, into one file; EOS last. */
    ghost predicate Saved(saved: seq<Bucket>, k: nat) {
      && k <= |body.chunks| && saved != [] && saved[|saved| - 1] == Eos
      && (k < |body.chunks| ==> |saved| >= 2 && saved[|saved| - 2] == File(Concat(body.chunks[k..])))
      && var head := saved[..|saved| - if k < |body.chunks| then 2 else 1];
      && (forall b | b in head :: b.Data?)
      && Payload(head) == Concat(body.chunks[..k]) && |Payload(head)| <= MemLimit()
      && (k < |body.chunks| ==> |Payload(head)| + |body.chunks[k]| > MemLimit())
    }

    /** The saved body is the body. */
    lemma SavedIsBody(saved: seq<Bucket>, k: nat)
      requires Saved(saved, k)
      ensures Replayable(saved) && saved != [] && Payload(saved) == Concat(body.chunks)
    {
      hide Payload, Concat, Replayable, AllData;
      var data := saved[..|saved| - 1];
      if k < |body.chunks| {
        SpooledIsBody(saved, k);
      } else {
        KeptIsBody(saved, k);
      }
      EosCloses(data);
      assert saved == data + [Eos];
    }

    /** There is a spool file exactly when the body is longer than the limit. */
    lemma SpooledPastTheLimit(saved: seq<Bucket>, k: nat)
      requires Saved(saved, k)
      ensures var limit := if bodyMemLimit >= 0 then bodyMemLimit else 131072;
              (exists b :: b in saved && b.File?) <==> |Concat(body.chunks)| > limit
    {
      hide Payload;
      var n := |saved|;
      if k < |body.chunks| {
        assert saved[n - 2] in saved;
        ConcatNext(body.chunks, k);
        ConcatSplit(body.chunks, k + 1);
      } else {
        assert body.chunks[..k] == body.chunks;
        var head := saved[..n - if k < |body.chunks| then 2 else 1];
        assert saved == head + [Eos];
        assert forall b | b in saved :: b in head || b == Eos;
        assert forall b | b in head :: b.Data?;
        assert |Concat(body.chunks)| <= MemLimit();
        assert forall b | b in saved :: !b.File?;
      }
    }

    /** With a spool file, the data is the memory head and the file. */
    lemma SpooledIsBody(saved: seq<Bucket>, k: nat)
      requires Saved(saved, k) && k < |body.chunks|
      ensures AllData(saved[..|saved| - 1]) && Payload(saved[..|saved| - 1]) == Concat(body.chunks)
    {
      hide Payload, Concat;
      var head, file := saved[..|saved| - 2], saved[|saved| - 2];
      assert saved[..|saved| - 1] == head + [file];
      PayloadSnoc(head, file);
      ConcatSplit(body.chunks, k);
    }

    /** Without one, the memory head. */
    lemma KeptIsBody(saved: seq<Bucket>, k: nat)
      requires Saved(saved, k) && k == |body.chunks|
      ensures AllData(saved[..|saved| - 1]) && Payload(saved[..|saved| - 1]) == Concat(body.chunks)
    {
      hide Payload, Concat;
      assert body.chunks[..k] == body.chunks;
    }

    /** `apr_brigade_write`: the bytes join the last memory bucket or make a new one. */
    method BrigadeWrite(bb: seq<Bucket>, bytes: seq<byte>) returns (out: seq<Bucket>)
      requires forall b | b in bb :: b.Data?
      ensures (forall b | b in out :: b.Data?) && Payload(out) == Payload(bb) + bytes
    {
      if bb != [] && bb[|bb| - 1].Data? {
        if * {
          var init, last := bb[..|bb| - 1], bb[|bb| - 1];
          assert bb == init + [last];
          PayloadSnoc(init, last);
          PayloadSnoc(init, Data(last.bytes + bytes));
          Reassociate(Payload(init), last.bytes, bytes);
          return init + [Data(last.bytes + bytes)];
        }
      }
      PayloadSnoc(bb, Data(bytes));
      out := bb + [Data(bytes)];
    }

    /** Save one chunk, in memory while nothing was spooled and it fits. */
    method SaveChunk(i: nat, head: seq<Bucket>, savedLen: nat, spool: Option<seq<byte>>)
      returns (failed: bool, head': seq<Bucket>, savedLen': nat, spool': Option<seq<byte>>)
      requires i < |body.chunks| && Saving(i, head, savedLen, spool)
      modifies this`inMemory
      ensures failed == saveFails(i)
      ensures !failed ==> Saving(i + 1, head', savedLen', spool')
    {
      var chunk := body.chunks[i];
      failed, head', savedLen', spool' := saveFails(i), head, savedLen, spool;
      if failed {
        return;
      }
      ConcatNext(body.chunks, i);
      if spool.None? && savedLen + |chunk| <= MemLimit() {
        head' := BrigadeWrite(head, chunk);
        savedLen' := savedLen + |chunk|;
        inMemory := i + 1;
      } else {
        var sofar := if spool.Some? then spool.value else [];
        spool' := Some(sofar + chunk);
        if spool.None? {
          assert body.chunks[i..i + 1] == [chunk];
          assert Concat([chunk]) == Concat([]) + chunk;
        } else {
          var k := inMemory;
          assert body.chunks[k..i + 1][..i - k] == body.chunks[k..i];
        }
      }
    }

    /** After `i` chunks: `inMemory` of them in `head`, the others in the spool. */
    ghost predicate Saving(i: nat, head: seq<Bucket>, savedLen: nat, spool: Option<seq<byte>>)
      reads this`inMemory
    {
      && inMemory <= i <= |body.chunks| && (forall b | b in head :: b.Data?)
      && Payload(head) == Concat(body.chunks[..inMemory]) && savedLen == |Payload(head)| <= MemLimit()
      && match spool
         case None => inMemory == i
         case Some(tail) => && inMemory < i && tail == Concat(body.chunks[inMemory..i])
                            && savedLen + |body.chunks[inMemory]| > MemLimit()
    }

    /** Submit one chunk and poll. */
    method InspectChunk(chunk: seq<byte>) returns (stop: bool, ret: int)
      requires enabled && ctx != null && Inspecting(ctx.log)
      modifies this`status, this`aborted, ctx`log, ctx`logged, ctx`dropConnection, ctx`interventionTriggered
      ensures !stop ==> Inspecting(old(ctx.log) + [AppendBody(Request, chunk), Poll])
      ensures stop ==> Denied(ret) && CutShort(engine, ctx.log, old(ctx.log) + [AppendBody(Request, chunk), Poll])
    {
      ghost var full := ctx.log + [AppendBody(Request, chunk), Poll];
      QuietNext(engine, ctx.log, AppendBody(Request, chunk), 0);
      TimesNext(ctx.log, AppendBody(Request, chunk), ProcessLogging);
      ghost var log0 := ctx.log;
      var rc := ctx.Ask(AppendBody(Request, chunk));
      assert full == ctx.log + [Poll];
      if rc != 0 {
        ret := Fail();
        FailureCutsShort(engine, log0, AppendBody(Request, chunk));
        return true, ret;
      }
      stop, ret := CheckIntervention();
    }

    function Asked(): seq<Call> {
      Phase1Log(engine, Pairs()) + [BodyAccessible(Request)]
    }

    function ChunksLog(i: nat): seq<Call>
      requires i <= |body.chunks|
    {
      if engine.rc(Asked()) == 0 then Asked() else Asked() + ChunkCalls(body.chunks[..i])
    }

    lemma ChunksLogStages(i: nat)
      requires hasBody && i <= |body.chunks|
      ensures ChunksLog(i) <= BodyLog(engine, Pairs(), Chunks())
      ensures i == |body.chunks| ==> ChunksLog(i) == BodyLog(engine, Pairs(), Chunks())
      ensures ChunksLog(0) == Asked()
      ensures i < |body.chunks| && engine.rc(Asked()) != 0 ==>
                ChunksLog(i + 1) == ChunksLog(i) + [AppendBody(Request, body.chunks[i]), Poll]
    {
      ChunkCallsPrefix(body.chunks, i);
      assert Asked() + [] == Asked();
      if i < |body.chunks| {
        ChunkCallsNext(body.chunks, i);
        assert Asked() + (ChunkCalls(body.chunks[..i]) + [AppendBody(Request, body.chunks[i]), Poll])
            == (Asked() + ChunkCalls(body.chunks[..i])) + [AppendBody(Request, body.chunks[i]), Poll];
      } else {
        assert body.chunks[..i] == body.chunks;
      }
    }

    lemma InspectingFollows(i: nat)
      requires hasBody && i <= |body.chunks| && Inspecting(ChunksLog(i))
      ensures FollowsSome(engine, ctx.log, BodyLog(engine, Pairs(), Chunks()))
    {
      ChunksLogStages(i);
      var log, full := ctx.log, BodyLog(engine, Pairs(), Chunks());
      assert full[..|log|] == log && log[..|log|] == log && log[|log|..] == [];
      assert log != [] && full[..|log| - 1] == log[..|log| - 1];
      AlarmSticks(engine, log[..|log| - 1], log);
      assert Follows(engine, log, full, |log|);
    }

    /** Why the body loop stopped. */
    ghost predicate BodyStopped(ret: int)
      reads this, ctx
    {
      var full := BodyLog(engine, Pairs(), Chunks());
      && ctx != null && ctx.engine == engine && AuditedOnce() && FollowsSome(engine, ctx.log, full)
      && (|| (ret == HTTP_BAD_REQUEST && body.readError)
          || (Denied(ret) && exists i :: 0 <= i < |body.chunks| && saveFails(i))
          || (Denied(ret) && CutShort(engine, ctx.log, full)))
    }

    /** One turn of the read loop. */
    method ReadChunk(i: nat, head: seq<Bucket>, savedLen: nat, spool: Option<seq<byte>>, inspectBody: bool)
      returns (stop: bool, ret: int, head': seq<Bucket>, savedLen': nat, spool': Option<seq<byte>>)
      requires enabled && hasBody && i < |body.chunks|
      requires Inspecting(ChunksLog(i)) && Saving(i, head, savedLen, spool) && inspectBody == (engine.rc(Asked()) != 0)
      modifies this`status, this`aborted, this`inMemory
      modifies ctx`log, ctx`logged, ctx`dropConnection, ctx`interventionTriggered, ctx`savedBody
      ensures !stop ==> Inspecting(ChunksLog(i + 1)) && Saving(i + 1, head', savedLen', spool') && !saveFails(i)
      ensures stop ==> BodyStopped(ret)
    {
      hide Alarm, Follows, Epilogue, Quiet, Times, BodyLog, ChunksLog;
      stop, ret := false, DECLINED;
      var failed;
      failed, head', savedLen', spool' := SaveChunk(i, head, savedLen, spool);
      ctx.savedBody := Some(head');
      if failed {
        InspectingFollows(i);
        ret := Fail();
        return true, ret, head', savedLen', spool';
      }
      ChunksLogStages(i);
      ChunksLogStages(i + 1);
      if inspectBody {
        stop, ret := InspectChunk(body.chunks[i]);
        if stop {
          StopFollows(engine, ctx.log, ChunksLog(i + 1), BodyLog(engine, Pairs(), Chunks()));
        }
      } else {
        ChunksLogOff(i);
      }
    }

    lemma ChunksLogOff(i: nat)
      requires i < |body.chunks| && engine.rc(Asked()) == 0
      ensures ChunksLog(i + 1) == ChunksLog(i)
    {
    }

    /** The spooled tail follows the memory head as one file bucket, then comes the EOS. */
    method CloseSaved(head: seq<Bucket>, spool: Option<seq<byte>>, ghost savedLen: nat)
      requires ctx != null && Saving(|body.chunks|, head, savedLen, spool)
      modifies ctx`savedBody
      ensures ctx.savedBody.Some? && Saved(ctx.savedBody.value, inMemory)
    {
      var saved := head;
      if spool.Some? {
        assert body.chunks[inMemory..|body.chunks|] == body.chunks[inMemory..];
        saved := saved + [File(spool.value)];
        assert saved[..|saved| - 1] == head;
      }
      saved := saved + [Eos];
      assert saved[..|saved| - if inMemory < |body.chunks| then 2 else 1] == head;
      ctx.savedBody := Some(saved);
    }

    /** The read loop: save each chunk, then inspect it unless body access is off. */
    method ReadBody() returns (stop: bool, ret: int)
      requires enabled && hasBody && Inspecting(Phase1Log(engine, Pairs()))
      modifies this`status, this`aborted, this`inMemory
      modifies ctx`log, ctx`logged, ctx`dropConnection, ctx`interventionTriggered, ctx`savedBody
      ensures !stop ==> && !body.readError && (forall i | 0 <= i < |body.chunks| :: !saveFails(i))
                        && Inspecting(BodyLog(engine, Pairs(), Chunks()))
                        && ctx.savedBody.Some? && Saved(ctx.savedBody.value, inMemory)
      ensures stop ==> BodyStopped(ret)
    {
      hide Alarm, Follows, Epilogue, Quiet, Times, BodyLog, ChunksLog, Phase1Log, Enforced, Saved;
      QuietNext(engine, ctx.log, BodyAccessible(Request), 0);
      TimesNext(ctx.log, BodyAccessible(Request), ProcessLogging);
      AccessibleNeverAlarms(engine, ctx.log);
      var rc := ctx.Ask(BodyAccessible(Request));
      ChunksLogStages(0);
      var head, savedLen, spool := [], 0, None;
      inMemory := 0;
      ctx.savedBody := Some([]);
      var i := 0;
      while i < |body.chunks|
        invariant 0 <= i <= |body.chunks|
        invariant ctx == old(ctx) && Inspecting(ChunksLog(i)) && Saving(i, head, savedLen, spool)
        invariant forall j | 0 <= j < i :: !saveFails(j)
      {
        stop, ret, head, savedLen, spool := ReadChunk(i, head, savedLen, spool, rc != 0);
        if stop {
          return;
        }
        i := i + 1;
      }
      ChunksLogStages(i);
      if body.readError {
        InspectingFollows(i);
        return true, HTTP_BAD_REQUEST;
      }
      CloseSaved(head, spool, savedLen);
      stop, ret := false, DECLINED;
    }

    // ---------- the hook ----------

    /** The context of the nearest earlier request of the redirect chain that has one. */
    method CtxFromPrev() returns (c: RequestCtx?)
      ensures c == NearestCtx(prev)
    {
      var i := 0;
      while i < |prev|
        invariant 0 <= i <= |prev|
        invariant NearestCtx(prev) == NearestCtx(prev[i..])
      {
        assert prev[i..][1..] == prev[i + 1..];
        if prev[i].ctx != null {
          return prev[i].ctx;
        }
        i := i + 1;
      }
      c := null;
    }

    /** `coraza_create_ctx`, as far as the transaction goes. */
    method CreateCtx()
      requires ctx == null
      modifies this`ctx
      ensures if canCreate then ctx != null && fresh(ctx) && NewContext(ctx) else ctx == null
    {
      if canCreate {
        ctx := new RequestCtx(engine);
      }
    }

    ghost predicate NewContext(c: RequestCtx)
      reads c
    {
      && c.engine == engine && c.log == [] && ResponseIdle(c) && c.savedBody == None && !c.phase2Done
      && !c.logged && !c.interventionTriggered && !c.dropConnection
    }

    /** Neither a subrequest, nor switched off, nor seen before, nor the continuation of an
        inspected request. */
    ghost predicate IsFresh()
      reads this, prev
    {
      !isSubrequest && enabled && ctx == null && NearestCtx(prev) == null
    }

    /** Every call of the script was answered cleanly and every header was taken. */
    ghost predicate Clean() {
      Submitted(engine, Pairs()).0 && Quiet(engine, Script(), 0) && BodyReadable()
    }

    /** Phase 1 was answered cleanly and every header was taken. */
    ghost predicate Phase1Clean() {
      Submitted(engine, Pairs()).0 && Quiet(engine, Phase1Log(engine, Pairs()), 0)
    }

    /** All of the body that came was saved and inspected without an alarm, but not all came. */
    ghost predicate OnlyReadFailed() {
      && hasBody && body.readError && Quiet(engine, BodyLog(engine, Pairs(), Chunks()), 0)
      && forall i | 0 <= i < |body.chunks| :: !saveFails(i)
    }

    /** A fresh request, from its transaction on. */
    method Inspect() returns (ret: int)
      requires enabled && !aborted && Inspecting([]) && ctx.savedBody == None && !ctx.phase2Done
      requires setupRc == OK || setupRc >= 400
      modifies this`status, this`aborted, this`inMemory, this`outputFilter, this`inputFilter, this`readLength
      modifies ctx`log, ctx`logged, ctx`dropConnection, ctx`interventionTriggered, ctx`savedBody, ctx`phase2Done
      // the handler is reached exactly when everything was clean, after the whole script
      ensures ret == DECLINED <==> Clean()
      ensures ret == DECLINED ==>
                && ctx.log == Script() && !ctx.interventionTriggered && !ctx.logged
                && outputFilter && ctx.phase2Done
                && (hasBody ==> inputFilter && readLength == 0 &&
                                ctx.savedBody.Some? && Saved(ctx.savedBody.value, inMemory))
      ensures ret == DECLINED ==>
                PhasesDone(engine, ctx.log) && (BodyAccessible(Request) in ctx.log <==> hasBody)
      // what went wrong outside the engine, after a clean phase 1, is answered as such
      ensures Phase1Clean() && setupRc != OK ==> ret == setupRc
      ensures Phase1Clean() && setupRc == OK && OnlyReadFailed() ==> ret == 400
      // otherwise it is refused, and nothing was called beyond the first alarm
      ensures ret != DECLINED ==>
                || (ret == setupRc && setupRc != OK)
                || (ret == HTTP_BAD_REQUEST && hasBody && body.readError)
                || Denied(ret)
      ensures ret != DECLINED ==> FollowsSome(engine, ctx.log, Script())
      ensures ctx.engine == engine && AuditedOnce()
    {
      hide Alarm, Follows, Epilogue, Quiet, Times, Enforced, Failed, Saved, Phase1Log, PhasesDone;
      ghost var full := Script();
      FullLogStages(engine, Pairs(), Chunks());
      StagesAreQuiet();
      var stop;
      stop, ret := Phase1();
      if stop {
        DeniedStops(ret);
        EndedEarly(Phase1Log(engine, Pairs()));
        CutIsNotQuiet(Phase1Log(engine, Pairs()));
        return;
      }
      outputFilter := true;
      if setupRc != OK {
        QuietFollows(engine, ctx.log, full);
        return setupRc;
      }
      if hasBody {
        stop, ret := ReadBody();
        if stop {
          DeniedStops(ret);
          EndedEarly(BodyLog(engine, Pairs(), Chunks()));
          CutIsNotQuiet(BodyLog(engine, Pairs(), Chunks()));
          return;
        }
        readLength := 0;
        inputFilter := true;
      }
      stop, ret := Process(ProcessBody(Request));
      if stop {
        DeniedStops(ret);
        EndedEarly(full);
        StopFollows(engine, ctx.log, full, full);
        return;
      }
      ret := DECLINED;
      ScriptInOrder(engine, Pairs(), Chunks());
    }

    /** A quiet later stage has quiet earlier ones. */
    lemma StagesAreQuiet()
      ensures Quiet(engine, BodyLog(engine, Pairs(), Chunks()), 0) ==> Quiet(engine, Phase1Log(engine, Pairs()), 0)
    {
      FullLogStages(engine, Pairs(), Chunks());
      if Quiet(engine, BodyLog(engine, Pairs(), Chunks()), 0) {
        AlarmSticks(engine, Phase1Log(engine, Pairs()), BodyLog(engine, Pairs(), Chunks()));
      }
    }

    lemma CutIsNotQuiet(stage: seq<Call>)
      requires ctx != null
      ensures CutShort(engine, ctx.log, stage) ==> !Quiet(engine, stage, 0)
    {
      if CutShort(engine, ctx.log, stage) {
        CutShortIsNoisy(engine, ctx.log, stage, stage);
      }
    }

    /** A denied request never goes on. */
    lemma DeniedStops(ret: int)
      ensures Denied(ret) ==> ret != DECLINED
    {
    }

    /** A stop at any stage is one of the whole script. */
    lemma EndedEarly(stage: seq<Call>)
      requires ctx != null && stage <= Script()
      ensures (FollowsSome(engine, ctx.log, stage)) ==> FollowsSome(engine, ctx.log, Script())
      ensures CutShort(engine, ctx.log, stage) ==> !Quiet(engine, Script(), 0)
    {
      if FollowsSome(engine, ctx.log, stage) {
        var k: nat :| Follows(engine, ctx.log, stage, k);
        var m := if k > 0 then k - 1 else 0;
        assert Script()[..k] == stage[..k] && Script()[..m] == stage[..m];
        assert Follows(engine, ctx.log, Script(), k);
      }
      if CutShort(engine, ctx.log, stage) {
        CutShortIsNoisy(engine, ctx.log, stage, Script());
      }
    }

    /** The fixups hook. */
    method PostReadRequest() returns (ret: int)
      requires !aborted && (setupRc == OK || setupRc >= 400) && this !in prev
      modifies this
      // nothing to do: a subrequest, a scope with the module off, or an inspected request
      ensures (isSubrequest || !enabled || old(ctx) != null) ==> ret == DECLINED && unchanged(this)
      // an internal redirect shares the transaction, which is not called
      ensures !isSubrequest && enabled && old(ctx) == null && old(NearestCtx(prev)) != null ==>
                ret == DECLINED && ctx == old(NearestCtx(prev)) && outputFilter
      // a fresh request is inspected under a transaction of its own
      ensures old(IsFresh()) && !canCreate ==> ret == HTTP_INTERNAL_SERVER_ERROR && ctx == null
      ensures old(IsFresh()) && canCreate ==> ctx != null && fresh(ctx) && ctx.engine == engine
      ensures old(IsFresh()) && canCreate ==> (ret == DECLINED <==> Clean())
      ensures old(IsFresh()) && ret == DECLINED ==>
                && ctx.log == Script() && !ctx.interventionTriggered && !ctx.logged
                && outputFilter && ctx.phase2Done
                && (hasBody ==> inputFilter && readLength == 0 &&
                                ctx.savedBody.Some? && Saved(ctx.savedBody.value, inMemory))
      ensures old(IsFresh()) && ret == DECLINED ==>
                PhasesDone(engine, ctx.log) && (BodyAccessible(Request) in ctx.log <==> hasBody)
      ensures old(IsFresh()) && canCreate && Phase1Clean() ==>
                && (setupRc != OK ==> ret == setupRc)
                && (setupRc == OK && OnlyReadFailed() ==> ret == 400)
      ensures old(IsFresh()) && canCreate && ret != DECLINED ==>
                || (ret == setupRc && setupRc != OK)
                || (ret == HTTP_BAD_REQUEST && hasBody && body.readError)
                || Denied(ret)
      ensures old(IsFresh()) && canCreate && ret != DECLINED ==> FollowsSome(engine, ctx.log, Script())
      ensures old(IsFresh()) && canCreate ==> AuditedOnce() && ResponseIdle(ctx)
    {
      hide PhasesDone, FollowsSome, Phase1Log, BodyLog, FullLog, Saved, Enforced, Failed;
      if isSubrequest {
        return DECLINED;
      }
      if !enabled {
        return DECLINED;
      }
      if ctx != null {
        return DECLINED;
      }
      if |prev| > 0 {
        var c := CtxFromPrev();
        if c != null {
          ctx := c;
          outputFilter := true;
          return DECLINED;
        }
      }
      CreateCtx();
      if ctx == null {
        return HTTP_INTERNAL_SERVER_ERROR;
      }
      ret := Inspect();
    }
  }

  /** The response has not started. */
  ghost predicate ResponseIdle(c: RequestCtx)
    reads c
  {
    c.pendingBrigade == [] && c.pendingLen == 0 && !c.headersDelayed && !c.phase3Done && !c.phase4Done
  }

  function NearestCtx(prev: seq<HttpRequest>): RequestCtx?
    reads prev
  {
    if prev == [] then null
    else if prev[0].ctx != null then prev[0].ctx
    else NearestCtx(prev[1..])
  }

  lemma EpilogueAudits(log: seq<Call>, status: int)
    ensures Times(log + [UpdateStatus(status), ProcessLogging], ProcessLogging) == Times(log, ProcessLogging) + 1
  {
    var updated := log + [UpdateStatus(status)];
    TimesNext(log, UpdateStatus(status), ProcessLogging);
    TimesNext(updated, ProcessLogging, ProcessLogging);
    assert updated + [ProcessLogging] == log + [UpdateStatus(status), ProcessLogging];
  }

  lemma AccessibleNeverAlarms(e: Oracle, log: seq<Call>)
    ensures !Alarm(e, log + [BodyAccessible(Request)])
  {
  }

  /** A call that fails ends the script there. */
  lemma FailureCutsShort(e: Oracle, log: seq<Call>, c: Call)
    requires Quiet(e, log, 0) && Alarm(e, log + [c])
    ensures CutShort(e, log + [c], log + [c, Poll])
  {
    var failed, full := log + [c], log + [c, Poll];
    assert full[..|failed|] == failed && full[..|log|] == log;
    assert failed[..|failed|] == failed && failed[|failed|..] == [];
    assert Follows(e, failed, full, |failed|);
  }

  lemma QuietFollows(e: Oracle, log: seq<Call>, full: seq<Call>)
    requires log <= full && Quiet(e, log, 0)
    ensures FollowsSome(e, log, full)
  {
    assert log[..|log|] == log == full[..|log|] && log[|log|..] == [];
    if log != [] {
      assert full[..|log| - 1] == log[..|log| - 1];
      AlarmSticks(e, log[..|log| - 1], log);
    }
    assert Follows(e, log, full, |log|);
  }


  lemma StopFollows(e: Oracle, log: seq<Call>, full: seq<Call>, longer: seq<Call>)
    requires CutShort(e, log, full) && full <= longer
    ensures CutShort(e, log, longer) && FollowsSome(e, log, longer)
  {
    CutShortIsNoisy(e, log, full, longer);
    var k: nat :| 0 < k <= |longer| && Follows(e, log, longer, k) && Alarm(e, longer[..k]);
  }

  lemma SubmissionFollows(e: Oracle, pairs: seq<Pair>, full: seq<Call>)
    requires Quiet(e, RequestLine(), 0) && Submitted(e, pairs).1 <= full
    ensures Follows(e, Submitted(e, pairs).1, full, |Submitted(e, pairs).1|)
  {
    var log := Submitted(e, pairs).1;
    SubmissionQuietBefore(e, RequestLine(), Request, pairs, 0);
    assert full[..|log|] == log && full[..|log| - 1] == log[..|log| - 1];
    assert log[|log|..] == [];
  }
}
