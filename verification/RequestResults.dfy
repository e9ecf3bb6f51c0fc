/** What a request that reached its handler went through, and what is done only once. */
module RequestResults {
  import opened Wire
  import opened HeaderCodec
  import opened Engine
  import opened Brigade
  import opened OutputSpec
  import opened RequestHook

  /** The calls of which one client request must see at most one. */
  predicate OncePerRequest(c: Call) {
    c in {ProcessConnection, ProcessUri, ProcessHeaders(Request), ProcessBody(Request)}
  }

  lemma {:induction false} TimesConcat(a: seq<Call>, b: seq<Call>, c: Call)
    ensures Times(a + b, c) == Times(a, c) + Times(b, c)
    decreases |b|
  {
    if b == [] {
      assert a + b == a;
    } else {
      var init, last := b[..|b| - 1], b[|b| - 1];
      assert a + b == (a + init) + [last] && b == init + [last];
      TimesConcat(a, init, c);
      TimesNext(a + init, last, c);
    }
  }

  lemma TimesTwo(a: seq<Call>, x: Call, y: Call, c: Call)
    ensures Times(a + [x, y], c) == Times(a, c) + (if x == c then 1 else 0) + (if y == c then 1 else 0)
  {
    TimesNext(a, x, c);
    TimesNext(a + [x], y, c);
    assert a + [x, y] == a + [x] + [y];
  }

  lemma {:induction false} TimesChunks(log: seq<Call>, chunks: seq<seq<byte>>, c: Call)
    requires !c.AppendBody? && c != Poll
    ensures Times(log + ChunkCalls(chunks), c) == Times(log, c)
  {
    if chunks == [] {
      assert log + [] == log;
    } else {
      var init := chunks[..|chunks| - 1];
      TimesChunks(log, init, c);
      var last := AppendBody(Request, chunks[|chunks| - 1]);
      assert log + (ChunkCalls(init) + [last, Poll]) == (log + ChunkCalls(init)) + [last, Poll];
      TimesTwo(log + ChunkCalls(init), last, Poll, c);
    }
  }

  lemma ScriptHeaders(e: Oracle, pairs: seq<Pair>, c: Call)
    requires OncePerRequest(c) || c == ProcessLogging
    ensures Times(Phase1Log(e, pairs), c) == if c == ProcessLogging || c == ProcessBody(Request) then 0 else 1
  {
    EveryHeaderSubmitted(e, RequestLine(), Request, pairs);
    HeadersCountNothing(RequestLine(), Submitted(e, pairs).1, c);
    TimesTwo([], ProcessConnection, Poll, c);
    TimesTwo([ProcessConnection, Poll], ProcessUri, Poll, c);
    assert [] + [ProcessConnection, Poll] == [ProcessConnection, Poll];
    assert [ProcessConnection, Poll] + [ProcessUri, Poll] == RequestLine();
    TimesTwo(Submitted(e, pairs).1, ProcessHeaders(Request), Poll, c);
  }

  /** The script runs each phase once and audits nothing. */
  lemma ScriptOnce(e: Oracle, pairs: seq<Pair>, chunks: Option<seq<seq<byte>>>, c: Call)
    requires OncePerRequest(c) || c == ProcessLogging
    ensures Times(FullLog(e, pairs, chunks), c) == if c == ProcessLogging then 0 else 1
  {
    hide Times, Submitted, Phase1Log, ChunkCalls;
    ScriptHeaders(e, pairs, c);
    var log := Phase1Log(e, pairs);
    TimesNext(log, BodyAccessible(Request), c);
    if chunks.Some? {
      TimesChunks(log + [BodyAccessible(Request)], chunks.value, c);
    }
    TimesTwo(BodyLog(e, pairs, chunks), ProcessBody(Request), Poll, c);
  }

  /** Wherever the hook stopped, no phase was run twice. */
  lemma StoppedOnce(e: Oracle, log: seq<Call>, full: seq<Call>, k: nat, c: Call)
    requires Follows(e, log, full, k) && OncePerRequest(c)
    ensures Times(log, c) <= Times(full, c)
  {
    hide Times, Quiet;
    assert log == log[..k] + log[k..] && full == full[..k] + full[k..];
    TimesConcat(log[..k], log[k..], c);
    TimesConcat(full[..k], full[k..], c);
    EpilogueCounts(log[k..], c);
  }

  lemma EpilogueCounts(calls: seq<Call>, c: Call)
    requires Epilogue(calls) && OncePerRequest(c)
    ensures Times(calls, c) == 0
  {
    if calls != [] {
      TimesTwo([], calls[0], calls[1], c);
      assert [] + [calls[0], calls[1]] == calls;
    }
  }

  // ---------- what the engine was given ----------

  lemma {:induction false} AppendedChunks(log: seq<Call>, chunks: seq<seq<byte>>)
    ensures Appended(log + ChunkCalls(chunks), Request) == Appended(log, Request) + Concat(chunks)
  {
    hide Appended;
    if chunks == [] {
      assert log + [] == log && Appended(log, Request) + [] == Appended(log, Request);
    } else {
      var init, last := chunks[..|chunks| - 1], chunks[|chunks| - 1];
      var before := log + ChunkCalls(init);
      AppendedChunks(log, init);
      AppendedNext(before, AppendBody(Request, last), Request);
      AppendedNext(before + [AppendBody(Request, last)], Poll, Request);
      assert log + (ChunkCalls(init) + [AppendBody(Request, last), Poll]) == before + [AppendBody(Request, last)] + [Poll];
      Reassociate(Appended(log, Request), Concat(init), last);
    }
  }

  lemma NothingAppended(log: seq<Call>, c: Call)
    requires !c.AppendBody?
    ensures Appended(log + [c], Request) == Appended(log, Request)
  {
    AppendedNext(log, c, Request);
    assert Appended(log, Request) + [] == Appended(log, Request);
  }

  lemma RequestLineBody()
    ensures Appended(RequestLine(), Request) == []
  {
    hide Appended;
    NothingAppended([], ProcessConnection);
    NothingAppended([ProcessConnection], Poll);
    NothingAppended([ProcessConnection, Poll], ProcessUri);
    NothingAppended([ProcessConnection, Poll, ProcessUri], Poll);
    assert [] + [ProcessConnection] == [ProcessConnection];
    assert [ProcessConnection] + [Poll] == [ProcessConnection, Poll];
    assert [ProcessConnection, Poll] + [ProcessUri] == [ProcessConnection, Poll, ProcessUri];
    assert Appended([], Request) == [] by { EmptyLog(); }
    assert [ProcessConnection, Poll, ProcessUri] + [Poll] == RequestLine();
  }

  lemma EmptyLog()
    ensures Appended([], Request) == []
  {
  }

  lemma NoBodyYet(e: Oracle, pairs: seq<Pair>)
    ensures Appended(Phase1Log(e, pairs) + [BodyAccessible(Request)], Request) == []
  {
    hide Appended, Submitted;
    assert RequestLine() <= Submitted(e, pairs).1 && Appended(Submitted(e, pairs).1, Request) == [] by {
      SubmittedBody(e, pairs);
    }
    var log := Submitted(e, pairs).1;
    NothingAppended(log, ProcessHeaders(Request));
    NothingAppended(log + [ProcessHeaders(Request)], Poll);
    assert Phase1Log(e, pairs) == log + [ProcessHeaders(Request)] + [Poll];
    NothingAppended(Phase1Log(e, pairs), BodyAccessible(Request));
  }

  lemma SubmittedBody(e: Oracle, pairs: seq<Pair>)
    ensures RequestLine() <= Submitted(e, pairs).1 && Appended(Submitted(e, pairs).1, Request) == []
  {
    hide Appended, RequestLine;
    EveryHeaderSubmitted(e, RequestLine(), Request, pairs);
    HeadersAppendNothing(RequestLine(), Submitted(e, pairs).1, Request);
    RequestLineBody();
  }

  /** With body access on, the bytes appended to the engine are the body, in order and
      exactly; with body access off, none. */
  lemma EngineSawBody(e: Oracle, pairs: seq<Pair>, chunks: seq<seq<byte>>)
    ensures var asked := Phase1Log(e, pairs) + [BodyAccessible(Request)];
            Appended(FullLog(e, pairs, Some(chunks)), Request) == if e.rc(asked) != 0 then Concat(chunks) else []
  {
    hide Appended, Phase1Log;
    var asked := Phase1Log(e, pairs) + [BodyAccessible(Request)];
    NoBodyYet(e, pairs);
    AppendedChunks(asked, chunks);
    assert [] + Concat(chunks) == Concat(chunks);
    var log := BodyLog(e, pairs, Some(chunks));
    AppendedNext(log, ProcessBody(Request), Request);
    AppendedNext(log + [ProcessBody(Request)], Poll, Request);
    assert FullLog(e, pairs, Some(chunks)) == log + [ProcessBody(Request)] + [Poll];
  }

  /** A request that reached its handler: the engine took every header, in order, and no
      call of the script raised an alarm. */
  lemma CleanMeansInspected(e: Oracle, pairs: seq<Pair>, chunks: Option<seq<seq<byte>>>)
    requires Submitted(e, pairs).0 && Quiet(e, FullLog(e, pairs, chunks), 0)
    ensures Accepted(e, Submitted(e, pairs).1, |RequestLine()|, Request) == pairs
    ensures Submitted(e, pairs).1 <= FullLog(e, pairs, chunks)
    ensures forall k | 0 < k <= |FullLog(e, pairs, chunks)| :: !Alarm(e, FullLog(e, pairs, chunks)[..k])
  {
    EveryHeaderSubmitted(e, RequestLine(), Request, pairs);
    FullLogStages(e, pairs, chunks);
    QuietMeans(e, FullLog(e, pairs, chunks), 0);
  }

  // ---------- the response filter leaves these calls alone ----------

  predicate RequestOnly(c: Call) {
    OncePerRequest(c) || c == ProcessLogging
  }

  predicate SameCount(st: Resp, st': Resp, c: Call) {
    Times(st'.log, c) == Times(st.log, c)
  }

  lemma CalledCount(st: Resp, call: Call, c: Call)
    requires call != c
    ensures SameCount(st, Called(st, call), c)
  {
    TimesNext(st.log, call, c);
  }

  lemma PolledCount(e: Oracle, st: Resp, c: Call)
    requires RequestOnly(c)
    ensures SameCount(st, Polled(e, st).0, c)
  {
    hide Times;
    var log := st.log + [Poll];
    TimesNext(st.log, Poll, c);
    if e.intervention(log).Some? {
      TimesNext(log, UpdateStatus(EnforcedStatus(e.intervention(log).value)), c);
    }
  }

  lemma {:induction false} InspectCount(e: Oracle, st: Resp, bb: seq<Bucket>, c: Call)
    requires RequestOnly(c)
    ensures SameCount(st, Inspect(e, st, bb).st, c)
    decreases |bb|
  {
    hide Times, Polled, InspectBucket;
    if bb != [] {
      BucketCount(e, st, bb[0], c);
      var r := InspectBucket(e, st, bb[0]);
      if r.Clean? {
        InspectCount(e, r.st, bb[1..], c);
      }
    }
  }

  /** The calls a bucket makes: none, its submission, or its submission and a poll. */
  lemma BucketLog(e: Oracle, st: Resp, b: Bucket)
    ensures var log := InspectBucket(e, st, b).st.log;
            log == st.log || ((b.Data? || b.File?) &&
                              var st1 := if st.delayed then st.(pendingLen := st.pendingLen + |b.bytes|) else st;
                              var st2 := Called(st1, AppendBody(Response, b.bytes));
                              log == st2.log || log == Polled(e, st2).0.log)
  {
    hide Polled, Oversized, BytesOf;
  }

  lemma BucketCount(e: Oracle, st: Resp, b: Bucket, c: Call)
    requires RequestOnly(c)
    ensures SameCount(st, InspectBucket(e, st, b).st, c)
  {
    hide Times, Polled, Called, InspectBucket, OncePerRequest;
    BucketLog(e, st, b);
    if b.Data? || b.File? {
      var st1 := if st.delayed then st.(pendingLen := st.pendingLen + |b.bytes|) else st;
      SubmitCount(e, st1, b.bytes, c);
      assert st1.log == st.log;
    }
  }

  lemma SubmitCount(e: Oracle, st: Resp, bytes: seq<byte>, c: Call)
    requires RequestOnly(c)
    ensures var st1 := Called(st, AppendBody(Response, bytes));
            SameCount(st, st1, c) && SameCount(st, Polled(e, st1).0, c)
  {
    hide Times, Polled, Called, OncePerRequest;
    NotAHeader(c);
    CalledCount(st, AppendBody(Response, bytes), c);
    PolledCount(e, Called(st, AppendBody(Response, bytes)), c);
  }

  lemma RefuseCount(st: Resp, status: int, c: Call)
    ensures SameCount(st, Refuse(st, status).0, c) && SameCount(st, DenyBody(st, status).0, c)
  {
  }

  lemma FinishCount(e: Oracle, env: Env, st: Resp, bb: seq<Bucket>, c: Call)
    requires RequestOnly(c)
    ensures SameCount(st, Finish(e, env, st, bb).0, c)
  {
    hide Times, Polled, Called, OncePerRequest, Refuse, DenyBody;
    NotAHeader(c);
    var st1 := Called(st, ProcessBody(Response));
    CalledCount(st, ProcessBody(Response), c);
    PolledCount(e, st1, c);
    var (st2, ret) := Polled(e, st1);
    RefuseCount(st1, HTTP_INTERNAL_SERVER_ERROR, c);
    RefuseCount(st2.(phase4Done := true), ret, c);
  }

  lemma Phase4Count(e: Oracle, env: Env, st: Resp, bb: seq<Bucket>, c: Call)
    requires RequestOnly(c)
    ensures SameCount(st, Phase4(e, env, st, bb).0, c)
  {
    hide Times, Inspect, Finish, OncePerRequest;
    InspectCount(e, st, bb, c);
    FinishCount(e, env, Inspect(e, st, bb).st, bb, c);
  }

  lemma DecideCount(e: Oracle, req: Req, env: Env, st: Resp, c: Call)
    requires RequestOnly(c)
    ensures SameCount(st, Decide(e, req, env, st).st, c)
  {
    hide Times, Polled, Called;
    PolledCount(e, st, c);
    var st1 := Polled(e, st).0;
    CalledCount(st1, ProcessBody(Response), c);
    PolledCount(e, Called(st1, ProcessBody(Response)).(phase4Done := true), c);
  }

  lemma Phase3Count(e: Oracle, req: Req, env: Env, st: Resp, c: Call)
    requires RequestOnly(c)
    ensures SameCount(st, Phase3(e, req, env, st).st, c)
  {
    hide Times, Decide, SubmitHeaders, Called, Die, OncePerRequest;
    var st0 := st.(phase3Done := true);
    var (ok, log) := SubmitHeaders(e, st0.log, Response, req.headers);
    EveryHeaderSubmitted(e, st0.log, Response, req.headers);
    NotAHeader(c);
    HeadersCountNothing(st0.log, log, c);
    var st1 := st0.(log := log);
    var st2 := Called(st1, ProcessHeaders(Response));
    CalledCount(st1, ProcessHeaders(Response), c);
    DieCount(st1, HTTP_INTERNAL_SERVER_ERROR, c);
    DieCount(st2, HTTP_INTERNAL_SERVER_ERROR, c);
    DecidedCount(e, req, env, st2, c);
  }

  lemma NotAHeader(c: Call)
    requires RequestOnly(c)
    ensures !c.AddHeader? && !c.AddHeaders? && c != ProcessHeaders(Response) && c != BodyAccessible(Response)
            && c != BodyProcessable(Response) && c != ProcessBody(Response) && !c.AppendBody?
  {
  }

  lemma DieCount(st: Resp, status: int, c: Call)
    ensures SameCount(st, Die(st, status), c)
  {
  }

  lemma DecidedCount(e: Oracle, req: Req, env: Env, st: Resp, c: Call)
    requires RequestOnly(c)
    ensures var st3 := Called(st, BodyAccessible(Response));
            var accessible := e.rc(st3.log) != 0;
            var st4 := if accessible then Called(st3, BodyProcessable(Response)) else st3;
            SameCount(st, Decide(e, req, env, st4.(processable := accessible && e.rc(st4.log) != 0)).st, c)
  {
    hide Times, Decide, Called;
    var st3 := Called(st, BodyAccessible(Response));
    var accessible := e.rc(st3.log) != 0;
    var st4 := if accessible then Called(st3, BodyProcessable(Response)) else st3;
    CalledCount(st, BodyAccessible(Response), c);
    CalledCount(st3, BodyProcessable(Response), c);
    DecideCount(e, req, env, st4.(processable := accessible && e.rc(st4.log) != 0), c);
  }

  lemma OutputCount(e: Oracle, req: Req, env: Env, st: Resp, bb: seq<Bucket>, c: Call)
    requires RequestOnly(c)
    ensures SameCount(st, Output(e, req, env, st, bb).0, c)
  {
    hide Times, Phase3, Phase4;
    var st0 := st.(received := st.received + bb);
    Phase4Count(e, env, st0, bb, c);
    Phase3Count(e, req, env, st0, c);
    Phase4Count(e, env, Phase3(e, req, env, st0).st, bb, c);
  }

  /** No response, however long, repeats a request phase or writes the audit entry. */
  lemma {:induction false} RunCount(e: Oracle, req: Req, st: Resp, run: seq<(Env, seq<Bucket>)>, c: Call)
    requires RequestOnly(c)
    ensures SameCount(st, Run(e, req, st, run), c)
    decreases |run|
  {
    hide Times, Output;
    if run != [] && st.attached {
      OutputCount(e, req, run[0].0, st, run[0].1, c);
      RunCount(e, req, Output(e, req, run[0].0, st, run[0].1).0, run[1..], c);
    }
  }
}
