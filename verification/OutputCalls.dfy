/**
 The calls a response makes of the engine, as the engine sees them: which call may
 come after which, and what the answer to the one before must have been.
 */
module OutputCalls {
  import opened Wire
  import opened HeaderCodec
  import opened Engine
  import opened Brigade
  import opened OutputSpec
  import opened OutputProof
  import opened OutputResults
  import opened OutputLaws

  /** May `c` be the next call, after those in the log? The response starts after the first
      `base` calls. A header is offered alone after a batch was rejected or none could be made;
      the headers are processed when they are in; the body is asked for, and for its type when
      it is accessible, before the poll; every piece of body, and its end, is polled for;
      nothing follows a failure, and a found intervention only its report. */
  predicate MayCall(e: Oracle, base: nat, log: seq<Call>, c: Call) {
    if |log| <= base then
      c == ProcessHeaders(Response) || (c.AddHeader? && c.side == Response) || (c.AddHeaders? && c.side == Response)
    else
      var last := log[|log| - 1];
      if last.AddHeaders? then
        if e.rc(log) == 0 then c == ProcessHeaders(Response) else c.AddHeader? && c.side == Response
      else if last.AddHeader? then
        e.rc(log) == 0 && (c == ProcessHeaders(Response) || (c.AddHeader? && c.side == Response))
      else if last == ProcessHeaders(Response) then
        e.rc(log) >= 0 && c == BodyAccessible(Response)
      else if last == BodyAccessible(Response) then
        c == if e.rc(log) != 0 then BodyProcessable(Response) else Poll
      else if last == BodyProcessable(Response) then
        c == Poll
      else if last.AppendBody? then
        last.side == Response && e.rc(log) == 0 && c == Poll
      else if last == ProcessBody(Response) then
        e.rc(log) >= 0 && c == Poll
      else if last == Poll then
        if e.intervention(log).Some? then c == UpdateStatus(EnforcedStatus(e.intervention(log).value))
        else c == ProcessBody(Response) || (c.AppendBody? && c.side == Response)
      else false
  }

  predicate InOrder(e: Oracle, base: nat, log: seq<Call>)
    decreases |log|
  {
    |log| <= base || (InOrder(e, base, log[..|log| - 1]) && MayCall(e, base, log[..|log| - 1], log[|log| - 1]))
  }

  /** The last call was a poll that found nothing. */
  predicate PolledClean(e: Oracle, base: nat, log: seq<Call>) {
    |log| > base && log[|log| - 1] == Poll && e.intervention(log).None?
  }

  lemma InOrderNext(e: Oracle, base: nat, log: seq<Call>, c: Call)
    requires base <= |log| && InOrder(e, base, log) && MayCall(e, base, log, c)
    ensures InOrder(e, base, log + [c])
  {
    assert (log + [c])[..|log|] == log;
  }

  lemma ReportMayFollow(e: Oracle, base: nat, log: seq<Call>)
    requires base <= |log| && e.intervention(log + [Poll]).Some?
    ensures var iv := e.intervention(log + [Poll]).value;
            MayCall(e, base, log + [Poll], UpdateStatus(EnforcedStatus(iv)))
  {
    hide EnforcedStatus;
  }

  /** A poll where one is due. */
  lemma PollInOrder(e: Oracle, base: nat, st: Resp)
    requires base <= |st.log| && InOrder(e, base, st.log) && MayCall(e, base, st.log, Poll)
    ensures var (st', ret) := Polled(e, st);
            && InOrder(e, base, st'.log) && (ret == 0 ==> PolledClean(e, base, st'.log)) && |st'.log| > base
  {
    hide EnforcedStatus, MayCall, InOrder;
    var log := st.log + [Poll];
    InOrderNext(e, base, st.log, Poll);
    if e.intervention(log).Some? {
      ReportMayFollow(e, base, st.log);
      InterventionsAreEnforced(e.intervention(log).value);
      InOrderNext(e, base, log, UpdateStatus(EnforcedStatus(e.intervention(log).value)));
    }
  }

  // ---------- the headers ----------

  /** Headers have been offered, and the next may be, or they may be processed. */
  predicate Offering(e: Oracle, base: nat, log: seq<Call>) {
    && base <= |log| && InOrder(e, base, log)
    && (|log| > base ==>
          || (log[|log| - 1].AddHeader? && e.rc(log) == 0)
          || (log[|log| - 1].AddHeaders? && e.rc(log) != 0))
  }

  lemma {:induction false} SinglesInOrder(e: Oracle, base: nat, log: seq<Call>, pairs: seq<Pair>)
    requires Offering(e, base, log)
    ensures var (ok, log') := SubmitSingles(e, log, Response, pairs);
            && InOrder(e, base, log') && base <= |log'|
            && (ok && pairs != [] ==> MayCall(e, base, log', ProcessHeaders(Response)))
    decreases |pairs|
  {
    if pairs != [] && Short(pairs[0]) {
      var next := log + [AddHeader(Response, pairs[0])];
      InOrderNext(e, base, log, AddHeader(Response, pairs[0]));
      if e.rc(next) == 0 {
        SinglesInOrder(e, base, next, pairs[1..]);
      }
    }
  }

  lemma HeadersInOrder(e: Oracle, log: seq<Call>, pairs: seq<Pair>)
    ensures var (ok, log') := SubmitHeaders(e, log, Response, pairs);
            InOrder(e, |log|, log') && |log| <= |log'| && (ok ==> MayCall(e, |log|, log', ProcessHeaders(Response)))
  {
    hide SubmitSingles, Packable, Encode, TotalSize;
    if pairs != [] && Packable(pairs) {
      PackableFits(pairs);
      var bulk := AddHeaders(Response, Encode(pairs), |pairs|);
      InOrderNext(e, |log|, log, bulk);
      if e.rc(log + [bulk]) != 0 {
        SinglesInOrder(e, |log|, log + [bulk], pairs);
      }
    } else if pairs != [] {
      SinglesInOrder(e, |log|, log, pairs);
    }
  }

  // ---------- phase 3 ----------

  /** A refused response has its calls in order; any other has just been polled clean. */
  predicate Orderly(e: Oracle, base: nat, st: Resp) {
    base <= |st.log| && InOrder(e, base, st.log) && (st.exit != Refused ==> PolledClean(e, base, st.log))
  }

  predicate OrderlyHeaders(e: Oracle, base: nat, h: Headers) {
    base <= |h.st.log| && InOrder(e, base, h.st.log) && (!h.Stop? ==> PolledClean(e, base, h.st.log))
  }

  lemma FinaliseInOrder(e: Oracle, base: nat, st: Resp)
    requires base <= |st.log| && InOrder(e, base, st.log) && PolledClean(e, base, st.log)
    ensures OrderlyHeaders(e, base, Finalise(e, st))
  {
    hide Polled, StopHeaders, InOrder;
    var st1 := Called(st, FINAL);
    InOrderNext(e, base, st.log, FINAL);
    if e.rc(st1.log) >= 0 {
      var st2 := st1.(phase4Done := true);
      PollInOrder(e, base, st2);
      StopHeadersLog(Polled(e, st2).0, Polled(e, st2).1);
      StopHeadersStops(Polled(e, st2).0, Polled(e, st2).1);
      PolledShape(e, st2);
    }
    DieLog(st1, HTTP_INTERNAL_SERVER_ERROR);
  }

  lemma DecideInOrder(e: Oracle, req: Req, env: Env, base: nat, st: Resp)
    requires base <= |st.log| && InOrder(e, base, st.log) && MayCall(e, base, st.log, Poll)
    ensures OrderlyHeaders(e, base, Decide(e, req, env, st))
  {
    hide Polled, StopHeaders, Finalise, InOrder, MayCall;
    PollInOrder(e, base, st);
    PolledShape(e, st);
    var (st1, ret) := Polled(e, st);
    if ret > 0 {
      StopHeadersLog(st1, ret);
      StopHeadersStops(st1, ret);
    } else if !st1.processable {
      FinaliseInOrder(e, base, st1);
    }
  }

  lemma Phase3InOrder(e: Oracle, req: Req, env: Env, st: Resp)
    ensures OrderlyHeaders(e, |st.log|, Phase3(e, req, env, st))
  {
    hide Decide, SubmitHeaders, InOrder, Die;
    var base, st0 := |st.log|, st.(phase3Done := true);
    HeadersInOrder(e, st0.log, req.headers);
    var (ok, log) := SubmitHeaders(e, st0.log, Response, req.headers);
    var st1 := st0.(log := log);
    var st2 := Called(st1, ProcessHeaders(Response));
    DieLog(st1, HTTP_INTERNAL_SERVER_ERROR);
    DieLog(st2, HTTP_INTERNAL_SERVER_ERROR);
    if !ok {
      assert Phase3(e, req, env, st) == Stop(Die(st1, HTTP_INTERNAL_SERVER_ERROR), FilterError);
    } else {
      InOrderNext(e, base, log, ProcessHeaders(Response));
      if e.rc(st2.log) < 0 {
        assert Phase3(e, req, env, st) == Stop(Die(st2, HTTP_INTERNAL_SERVER_ERROR), FilterError);
      } else {
        AskedInOrder(e, req, env, base, st2);
      }
    }
  }

  lemma AskedInOrder(e: Oracle, req: Req, env: Env, base: nat, st: Resp)
    requires base < |st.log| && InOrder(e, base, st.log)
    requires st.log[|st.log| - 1] == ProcessHeaders(Response) && e.rc(st.log) >= 0
    ensures var st3 := Called(st, BodyAccessible(Response));
            var accessible := e.rc(st3.log) != 0;
            var st4 := if accessible then Called(st3, BodyProcessable(Response)) else st3;
            OrderlyHeaders(e, base, Decide(e, req, env, st4.(processable := accessible && e.rc(st4.log) != 0)))
  {
    hide Decide, InOrder, OrderlyHeaders;
    var st3 := Called(st, BodyAccessible(Response));
    InOrderNext(e, base, st.log, BodyAccessible(Response));
    var accessible := e.rc(st3.log) != 0;
    var st4 := if accessible then Called(st3, BodyProcessable(Response)) else st3;
    if accessible {
      InOrderNext(e, base, st3.log, BodyProcessable(Response));
    }
    DecideInOrder(e, req, env, base, st4.(processable := accessible && e.rc(st4.log) != 0));
  }

  // ---------- the body ----------

  predicate OrderlyBody(e: Oracle, base: nat, r: Body) {
    base <= |r.st.log| && InOrder(e, base, r.st.log) && (!r.Bad? && !r.Deny? ==> PolledClean(e, base, r.st.log))
  }

  lemma SubmitInOrder(e: Oracle, base: nat, st: Resp, bytes: seq<byte>)
    requires base <= |st.log| && InOrder(e, base, st.log) && PolledClean(e, base, st.log)
    ensures OrderlyBody(e, base, SubmitBytes(e, st, bytes))
  {
    hide Polled, InOrder;
    var st1 := Called(st, AppendBody(Response, bytes));
    InOrderNext(e, base, st.log, AppendBody(Response, bytes));
    if e.rc(st1.log) == 0 {
      PollInOrder(e, base, st1);
      PolledShape(e, st1);
    }
  }

  lemma BucketInOrder(e: Oracle, base: nat, st: Resp, b: Bucket)
    requires base <= |st.log| && InOrder(e, base, st.log) && PolledClean(e, base, st.log)
    ensures OrderlyBody(e, base, InspectBucket(e, st, b))
  {
    hide SubmitBytes, InOrder, Oversized, BytesOf;
    if b.Data? || b.File? {
      SubmitInOrder(e, base, if st.delayed then st.(pendingLen := st.pendingLen + |b.bytes|) else st, b.bytes);
    }
  }

  lemma {:induction false} InspectInOrder(e: Oracle, base: nat, st: Resp, bb: seq<Bucket>)
    requires base <= |st.log| && InOrder(e, base, st.log) && PolledClean(e, base, st.log)
    ensures OrderlyBody(e, base, Inspect(e, st, bb))
    decreases |bb|
  {
    hide InspectBucket, InOrder;
    if bb != [] {
      BucketInOrder(e, base, st, bb[0]);
      var r := InspectBucket(e, st, bb[0]);
      if r.Clean? {
        InspectInOrder(e, base, r.st, bb[1..]);
      }
    }
  }

  lemma FinishInOrder(e: Oracle, env: Env, base: nat, st: Resp, bb: seq<Bucket>)
    requires base <= |st.log| && InOrder(e, base, st.log) && PolledClean(e, base, st.log) && st.pages == []
    ensures Orderly(e, base, Finish(e, env, st, bb).0)
  {
    hide Polled, InOrder, Refuse, DenyBody;
    var st1 := Called(st, FINAL);
    InOrderNext(e, base, st.log, FINAL);
    RefuseLog(st1, HTTP_INTERNAL_SERVER_ERROR);
    RefusedExit(st1, HTTP_INTERNAL_SERVER_ERROR);
    if e.rc(st1.log) >= 0 {
      PollInOrder(e, base, st1);
      PolledShape(e, st1);
      var (st2, ret) := Polled(e, st1);
      RefuseLog(st2.(phase4Done := true), ret);
      RefusedExit(st2.(phase4Done := true), ret);
    }
  }

  lemma RefusedExit(st: Resp, status: int)
    ensures Refuse(st, status).0.exit == Refused && DenyBody(st, status).0.exit == Refused
  {
  }

  lemma Phase4InOrder(e: Oracle, env: Env, base: nat, st: Resp, bb: seq<Bucket>)
    requires base <= |st.log| && InOrder(e, base, st.log) && PolledClean(e, base, st.log) && st.pages == []
    ensures Orderly(e, base, Phase4(e, env, st, bb).0)
  {
    hide Inspect, Finish, InOrder, PolledClean, Refuse, DenyBody;
    InspectInOrder(e, base, st, bb);
    InspectSame(e, st, bb);
    var r := Inspect(e, st, bb);
    RefuseLog(r.st, HTTP_INTERNAL_SERVER_ERROR);
    RefusedExit(r.st, HTTP_INTERNAL_SERVER_ERROR);
    if r.Deny? {
      RefuseLog(r.st, r.status);
      RefusedExit(r.st, r.status);
    } else if r.Clean? {
      FinishInOrder(e, env, base, r.st, bb);
    }
  }

  // ---------- runs ----------

  lemma OutputInOrder(e: Oracle, req: Req, env: Env, base: nat, st: Resp, bb: seq<Bucket>)
    requires Inv(e, base, st) && st.attached && (if st.phase3Done then Orderly(e, base, st) else |st.log| == base)
    ensures Orderly(e, base, Output(e, req, env, st, bb).0)
  {
    hide Phase3, Phase4, InOrder, PolledClean, Inspected, Payload, Times, Quiet;
    var st0 := st.(received := st.received + bb);
    if st.phase3Done {
      Phase4InOrder(e, env, base, st0, bb);
    } else {
      Phase3InOrder(e, req, env, st0);
      Phase3Answers(e, req, env, st0);
      var h := Phase3(e, req, env, st0);
      if h.Go? {
        Phase4InOrder(e, env, base, h.st, bb);
      }
    }
  }

  lemma {:induction false} RunInOrder(e: Oracle, req: Req, base: nat, st: Resp, run: Brigades)
    requires Inv(e, base, st) && (if st.phase3Done || !st.attached then Orderly(e, base, st) else |st.log| == base)
    ensures run != [] || st.phase3Done || !st.attached ==> Orderly(e, base, Run(e, req, st, run))
    decreases |run|
  {
    hide Output, Orderly;
    if run != [] && st.attached {
      var (env, bb) := run[0];
      OutputInOrder(e, req, env, base, st, bb);
      OutputGoesOn(e, req, env, base, st, bb);
      OutputKeepsInv(e, req, env, base, st, bb);
      RunInOrder(e, req, base, Output(e, req, env, st, bb).0, run[1..]);
    }
  }

  /** Over every run: each call of the response may be made after those before it, given their
      answers. What has not been refused has just been polled, and nothing was found. */
  lemma ResponseCallsInOrder(e: Oracle, req: Req, log: seq<Call>, status: int, run: Brigades)
    requires ResponseUnseen(log) && run != []
    ensures var st := ResponseAfter(e, req, log, status, run);
            && |log| <= |st.log| && InOrder(e, |log|, st.log)
            && (st.exit != Refused ==> |st.log| > |log| && st.log[|st.log| - 1] == Poll && e.intervention(st.log).None?)
  {
    FreshInv(e, log, status);
    RunInOrder(e, req, |log|, Fresh(log, status), run);
  }

  // ---------- is the body inspected? ----------

  /** The engine was asked for the type of the body and wants it. It is asked only when it has
      said that it reads bodies at all. */
  predicate WantsBody(e: Oracle, base: nat, log: seq<Call>) {
    exists k: nat :: base <= k < |log| && log[k] == BodyProcessable(Response) && e.rc(log[..k + 1]) != 0
  }

  lemma WantsStays(e: Oracle, base: nat, log: seq<Call>, log': seq<Call>)
    requires log <= log' && WantsBody(e, base, log)
    ensures WantsBody(e, base, log')
  {
    var k: nat :| base <= k < |log| && log[k] == BodyProcessable(Response) && e.rc(log[..k + 1]) != 0;
    assert log'[..k + 1] == log[..k + 1];
  }

  /** No other call makes the engine want the body. */
  lemma WantsNext(e: Oracle, base: nat, log: seq<Call>, c: Call)
    requires base <= |log|
    ensures WantsBody(e, base, log + [c]) <==>
            WantsBody(e, base, log) || (c == BodyProcessable(Response) && e.rc(log + [c]) != 0)
  {
    var next := log + [c];
    assert next[..|next|] == next;
    if WantsBody(e, base, log) {
      WantsStays(e, base, log, next);
    }
    if WantsBody(e, base, next) {
      var k: nat :| base <= k < |next| && next[k] == BodyProcessable(Response) && e.rc(next[..k + 1]) != 0;
      if k < |log| {
        assert next[..k + 1] == log[..k + 1] && log[k] == next[k];
      }
    }
    if c == BodyProcessable(Response) && e.rc(next) != 0 {
      assert next[|log|] == c && next[..|log| + 1] == next;
    }
  }

  lemma WantsPolled(e: Oracle, base: nat, st: Resp)
    requires base <= |st.log|
    ensures WantsBody(e, base, Polled(e, st).0.log) <==> WantsBody(e, base, st.log)
  {
    hide EnforcedStatus, WantsBody;
    var log := st.log + [Poll];
    WantsNext(e, base, st.log, Poll);
    if e.intervention(log).Some? {
      WantsNext(e, base, log, UpdateStatus(EnforcedStatus(e.intervention(log).value)));
    }
  }

  lemma PolledExtends(e: Oracle, st: Resp)
    ensures st.log <= Polled(e, st).0.log
  {
    hide EnforcedStatus;
  }

  lemma HeadersWantNothing(e: Oracle, log: seq<Call>, log': seq<Call>)
    requires OnlyHeaders(log, log')
    ensures !WantsBody(e, |log|, log')
  {
  }

  /** Phase 3 goes on, or steps out for an event stream, when the body is wanted, and finalises
      it when not. */
  predicate AsWanted(e: Oracle, base: nat, h: Headers) {
    && base <= |h.st.log|
    && (h.Go? || (h.StepOut? && h.how != Uninspected) ==> WantsBody(e, base, h.st.log))
    && (h.StepOut? && h.how == Uninspected ==> !WantsBody(e, base, h.st.log))
  }

  lemma DecideAsWanted(e: Oracle, req: Req, env: Env, base: nat, st: Resp)
    requires base <= |st.log| && (st.processable <==> WantsBody(e, base, st.log))
    ensures AsWanted(e, base, Decide(e, req, env, st))
  {
    hide Polled, StopHeaders, WantsBody;
    PolledShape(e, st);
    WantsPolled(e, base, st);
    var (st1, ret) := Polled(e, st);
    var st2 := Called(st1, FINAL);
    WantsNext(e, base, st1.log, FINAL);
    var st3 := st2.(phase4Done := true);
    PolledShape(e, st3);
    WantsPolled(e, base, st3);
    StopHeadersStops(st1, ret);
    StopHeadersLog(st1, ret);
    StopHeadersStops(Polled(e, st3).0, Polled(e, st3).1);
    StopHeadersLog(Polled(e, st3).0, Polled(e, st3).1);
  }

  lemma Phase3AsWanted(e: Oracle, req: Req, env: Env, st: Resp)
    ensures AsWanted(e, |st.log|, Phase3(e, req, env, st))
  {
    hide Decide, SubmitHeaders, WantsBody, Die;
    var base, st0 := |st.log|, st.(phase3Done := true);
    EveryHeaderSubmitted(e, st0.log, Response, req.headers);
    var (ok, log) := SubmitHeaders(e, st0.log, Response, req.headers);
    HeadersWantNothing(e, st.log, log);
    var st1 := st0.(log := log);
    var st2 := Called(st1, ProcessHeaders(Response));
    WantsNext(e, base, log, ProcessHeaders(Response));
    DieLog(st1, HTTP_INTERNAL_SERVER_ERROR);
    DieLog(st2, HTTP_INTERNAL_SERVER_ERROR);
    if !ok {
      assert Phase3(e, req, env, st) == Stop(Die(st1, HTTP_INTERNAL_SERVER_ERROR), FilterError);
    } else if e.rc(st2.log) < 0 {
      assert Phase3(e, req, env, st) == Stop(Die(st2, HTTP_INTERNAL_SERVER_ERROR), FilterError);
    } else {
      AskedAsWanted(e, req, env, base, st2);
    }
  }

  lemma AskedAsWanted(e: Oracle, req: Req, env: Env, base: nat, st: Resp)
    requires base <= |st.log| && !WantsBody(e, base, st.log)
    ensures var st3 := Called(st, BodyAccessible(Response));
            var accessible := e.rc(st3.log) != 0;
            var st4 := if accessible then Called(st3, BodyProcessable(Response)) else st3;
            AsWanted(e, base, Decide(e, req, env, st4.(processable := accessible && e.rc(st4.log) != 0)))
  {
    hide Decide, WantsBody, AsWanted;
    var st3 := Called(st, BodyAccessible(Response));
    WantsNext(e, base, st.log, BodyAccessible(Response));
    var accessible := e.rc(st3.log) != 0;
    var st4 := if accessible then Called(st3, BodyProcessable(Response)) else st3;
    WantsNext(e, base, st3.log, BodyProcessable(Response));
    DecideAsWanted(e, req, env, base, st4.(processable := accessible && e.rc(st4.log) != 0));
  }

  lemma {:induction false} InspectExtends(e: Oracle, st: Resp, bb: seq<Bucket>)
    ensures st.log <= Inspect(e, st, bb).st.log
    decreases |bb|
  {
    hide InspectBucket;
    if bb != [] {
      BucketExtends(e, st, bb[0]);
      var r := InspectBucket(e, st, bb[0]);
      if r.Clean? {
        InspectExtends(e, r.st, bb[1..]);
      }
    }
  }

  lemma BucketExtends(e: Oracle, st: Resp, b: Bucket)
    ensures st.log <= InspectBucket(e, st, b).st.log
  {
    hide SubmitBytes, Oversized, BytesOf;
    if b.Data? || b.File? {
      SubmitExtends(e, if st.delayed then st.(pendingLen := st.pendingLen + |b.bytes|) else st, b.bytes);
    }
  }

  lemma SubmitExtends(e: Oracle, st: Resp, bytes: seq<byte>)
    ensures st.log <= SubmitBytes(e, st, bytes).st.log
  {
    hide Polled;
    PolledExtends(e, Called(st, AppendBody(Response, bytes)));
  }

  lemma FinishExtends(e: Oracle, env: Env, st: Resp, bb: seq<Bucket>)
    ensures st.log <= Finish(e, env, st, bb).0.log
  {
    hide Polled, Refuse, DenyBody;
    var st1 := Called(st, FINAL);
    PolledExtends(e, st1);
    RefuseLog(st1, HTTP_INTERNAL_SERVER_ERROR);
    RefuseLog(Polled(e, st1).0.(phase4Done := true), Polled(e, st1).1);
  }

  lemma Phase4Extends(e: Oracle, env: Env, st: Resp, bb: seq<Bucket>)
    ensures st.log <= Phase4(e, env, st, bb).0.log
  {
    hide Inspect, Finish, Refuse, DenyBody;
    InspectExtends(e, st, bb);
    var r := Inspect(e, st, bb);
    FinishExtends(e, env, r.st, bb);
    RefuseLog(r.st, HTTP_INTERNAL_SERVER_ERROR);
    RefuseLog(r.st, if r.Deny? then r.status else 0);
  }

  predicate RunAsWanted(e: Oracle, base: nat, st: Resp) {
    && (st.exit == Uninspected ==> !WantsBody(e, base, st.log))
    && (st.exit in {Completed, Flushed, Sse} || (st.exit == InChain && st.phase3Done) ==> WantsBody(e, base, st.log))
  }

  lemma OutputAsWanted(e: Oracle, req: Req, env: Env, base: nat, st: Resp, bb: seq<Bucket>)
    requires Inv(e, base, st) && st.attached && RunAsWanted(e, base, st) && (!st.phase3Done ==> |st.log| == base)
    ensures RunAsWanted(e, base, Output(e, req, env, st, bb).0)
  {
    hide Phase3, Phase4, WantsBody, Inspected, Payload, Times, Quiet;
    var st0 := st.(received := st.received + bb);
    if st.phase3Done {
      Phase4Extends(e, env, st0, bb);
      WantsStays(e, base, st.log, Phase4(e, env, st0, bb).0.log);
      Phase4Holds(e, env, st0, bb);
    } else {
      Phase3AsWanted(e, req, env, st0);
      Phase3Answers(e, req, env, st0);
      var h := Phase3(e, req, env, st0);
      if h.Go? {
        Phase3IsFineHere(e, req, env, base, st, bb);
        Phase4Extends(e, env, h.st, bb);
        WantsStays(e, base, h.st.log, Phase4(e, env, h.st, bb).0.log);
        Phase4Holds(e, env, h.st, bb);
      }
    }
  }

  lemma {:induction false} RunWanted(e: Oracle, req: Req, base: nat, st: Resp, run: Brigades)
    requires Inv(e, base, st) && RunAsWanted(e, base, st) && (st.attached && !st.phase3Done ==> |st.log| == base)
    ensures RunAsWanted(e, base, Run(e, req, st, run))
    decreases |run|
  {
    hide Output, RunAsWanted;
    if run != [] && st.attached {
      var (env, bb) := run[0];
      OutputAsWanted(e, req, env, base, st, bb);
      OutputGoesOn(e, req, env, base, st, bb);
      OutputKeepsInv(e, req, env, base, st, bb);
      RunWanted(e, req, base, Output(e, req, env, st, bb).0, run[1..]);
    }
  }

  /** A response that is not refused leaves uninspected exactly when the engine did not want its
      body. */
  lemma UninspectedExactlyUnwanted(e: Oracle, req: Req, log: seq<Call>, status: int, run: Brigades)
    requires ResponseUnseen(log) && run != []
    ensures var st := ResponseAfter(e, req, log, status, run);
            st.exit != Refused ==> (st.exit == Uninspected <==> !WantsBody(e, |log|, st.log))
  {
    FreshInv(e, log, status);
    RunInv(e, req, log, status, run);
    RunWanted(e, req, |log|, Fresh(log, status), run);
    RunIsUnderWay(e, req, |log|, Fresh(log, status), run);
  }
}
