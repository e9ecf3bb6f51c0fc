/** The promises of the response filter, over every run. */
module OutputResults {
  import opened Wire
  import opened Engine
  import opened Brigade
  import opened OutputSpec
  import opened OutputProof

  type Brigades = seq<(Env, seq<Bucket>)>

  /** A transaction whose response the engine has not seen yet. */
  predicate ResponseUnseen(log: seq<Call>) {
    Appended(log, Response) == [] && Times(log, FINAL) == 0
  }

  function ResponseAfter(e: Oracle, req: Req, log: seq<Call>, status: int, run: Brigades): Resp {
    Run(e, req, Fresh(log, status), run)
  }

  lemma RunInv(e: Oracle, req: Req, log: seq<Call>, status: int, run: Brigades)
    requires ResponseUnseen(log)
    ensures Inv(e, |log|, ResponseAfter(e, req, log, status, run))
  {
    FreshInv(e, log, status);
    RunKeepsInv(e, req, |log|, Fresh(log, status), run);
  }

  // ---------- conservation ----------

  /** The buckets of the first brigades of a run. */
  function Given(run: Brigades): seq<Bucket> {
    if run == [] then [] else run[0].1 + Given(run[1..])
  }

  lemma OutputReceives(e: Oracle, req: Req, env: Env, st: Resp, bb: seq<Bucket>)
    ensures Output(e, req, env, st, bb).0.received == st.received + bb
  {
    hide Phase3, Phase4;
    var st0 := st.(received := st.received + bb);
    Phase4Receives(e, env, st0, bb);
    Phase3Same(e, req, env, st0);
    Phase4Receives(e, env, Phase3(e, req, env, st0).st, bb);
  }

  /** `received` is what it says: the run up to the brigade that ended it. */
  lemma {:induction false} RunReceives(e: Oracle, req: Req, st: Resp, run: Brigades) returns (n: nat)
    ensures n <= |run| && Run(e, req, st, run).received == st.received + Given(run[..n])
    ensures Run(e, req, st, run).attached ==> n == |run|
    decreases |run|
  {
    hide Output;
    if run == [] || !st.attached {
      n := 0;
    } else {
      var st1 := Output(e, req, run[0].0, st, run[0].1).0;
      OutputReceives(e, req, run[0].0, st, run[0].1);
      var m := RunReceives(e, req, st1, run[1..]);
      n := m + 1;
      assert run[..n][1..] == run[1..][..m];
      assert st.received + (run[0].1 + Given(run[1..][..m])) == st1.received + Given(run[1..][..m]);
    }
  }

  /** Nothing is lost, added or reordered: without a refusal, what went out followed by
      what is held is what came in, and nothing stays held once the filter is out. */
  lemma NothingIsLost(e: Oracle, req: Req, log: seq<Call>, status: int, run: Brigades)
    requires ResponseUnseen(log)
    ensures var st := ResponseAfter(e, req, log, status, run);
            st.exit != Refused ==>
              && st.downstream + st.pending == st.received
              && (!st.attached ==> st.downstream == st.received)
  {
    RunInv(e, req, log, status, run);
    var st := ResponseAfter(e, req, log, status, run);
    assert st.downstream + [] == st.downstream;
  }

  // ---------- inspection ----------

  /** On every way but the three that stop inspecting, the bytes sent are among the first
      the engine was handed; a completed response was handed over entirely and phase 4
      came back clean, as the last two calls, before its last brigade went out. */
  lemma InspectedBeforeSent(e: Oracle, req: Req, log: seq<Call>, status: int, run: Brigades)
    requires ResponseUnseen(log)
    ensures var st := ResponseAfter(e, req, log, status, run);
            && (st.exit in {InChain, Completed, Refused} ==> Payload(st.downstream) <= Inspected(st))
            && (st.exit == Completed ==>
                  && Payload(st.downstream) == Inspected(st) && EndsWithPhase4(st.log)
                  && Quiet(e, st.log, |log|) && Inspectable(st.received))
  {
    RunInv(e, req, log, status, run);
    var st := ResponseAfter(e, req, log, status, run);
    if st.exit == InChain {
      PayloadConcat(st.downstream, st.pending);
    }
  }

  /** While the headers are held back nothing has been sent, the held bytes are the
      inspected ones, and they are within the cap; no EOS is behind us. */
  lemma DelayIsBounded(e: Oracle, req: Req, log: seq<Call>, status: int, run: Brigades)
    requires ResponseUnseen(log)
    ensures var st := ResponseAfter(e, req, log, status, run);
            st.delayed ==>
              && st.attached && st.downstream == [] && st.pages == [] && Eos !in st.received
              && Payload(st.pending) == Inspected(st)
              && |Payload(st.pending)| == st.pendingLen <= 1048576
    ensures var st := ResponseAfter(e, req, log, status, run);
            st.exit == Flushed ==> |Payload(st.received)| > 1048576
  {
    RunInv(e, req, log, status, run);
    var st := ResponseAfter(e, req, log, status, run);
    assert st.delayed ==> [] + st.pending == st.pending;
  }

  /** Phase 4 runs at most once, and exactly once when the response completes or its body
      is not inspected. */
  lemma Phase4Once(e: Oracle, req: Req, log: seq<Call>, status: int, run: Brigades)
    requires ResponseUnseen(log)
    ensures var st := ResponseAfter(e, req, log, status, run);
            && Times(st.log, FINAL) <= 1
            && (st.exit in {Completed, Uninspected} ==> Times(st.log, FINAL) == 1 && st.phase4Done)
            && (st.exit in {InChain, Flushed, Sse} ==> Times(st.log, FINAL) == 0)
            && (st.phase4Done ==> Times(st.log, FINAL) == 1)
  {
    RunInv(e, req, log, status, run);
  }

  /** The headers are taken, processed and polled without an alarm, and the engine does not
      want the body. */
  predicate NotInspected(e: Oracle, req: Req, log: seq<Call>) {
    var (ok, submitted) := SubmitHeaders(e, log, Response, req.headers);
    var processed := submitted + [ProcessHeaders(Response)];
    var asked := processed + [BodyAccessible(Response)];
    var accessible := e.rc(asked) != 0;
    var asked2 := if accessible then asked + [BodyProcessable(Response)] else asked;
    && ok && e.rc(processed) >= 0 && !(accessible && e.rc(asked2) != 0)
    && e.intervention(asked2 + [Poll]).None?
  }

  /** Where the body loop starts on a brigade, if it comes to that. */
  function BodyStart(e: Oracle, req: Req, env: Env, st: Resp, bb: seq<Bucket>): Option<Resp> {
    var st0 := st.(received := st.received + bb);
    if st.phase3Done then Some(st0)
    else
      var h := Phase3(e, req, env, st0);
      if h.Go? then Some(h.st) else None
  }

  /** Phase 4 is due: the end of an inspected body is reached with nothing denied, failed or
      over the cap before it, or the body is not inspected at all. */
  predicate Phase4Due(e: Oracle, req: Req, env: Env, st: Resp, bb: seq<Bucket>) {
    var start := BodyStart(e, req, env, st, bb);
    if start.Some? then Eos in bb && Inspect(e, start.value, bb).Clean? else NotInspected(e, req, st.log)
  }

  lemma FinishFinal(e: Oracle, env: Env, base: nat, st: Resp, bb: seq<Bucket>)
    requires base <= |st.log|
    ensures Times(Finish(e, env, st, bb).0.log, FINAL) == Times(st.log, FINAL) + 1
  {
    hide Times, Polled, Refuse, DenyBody;
    var st1 := Called(st, FINAL);
    TimesNext(st.log, FINAL, FINAL);
    PolledHistory(e, base, st1);
    RefuseLog(st1, HTTP_INTERNAL_SERVER_ERROR);
    var (st2, ret) := Polled(e, st1);
    RefuseLog(st2.(phase4Done := true), ret);
  }

  lemma Phase4Final(e: Oracle, env: Env, base: nat, st: Resp, bb: seq<Bucket>)
    requires Mid(e, base, st, [])
    ensures Times(Phase4(e, env, st, bb).0.log, FINAL) == if Eos in bb && Inspect(e, st, bb).Clean? then 1 else 0
  {
    hide Times, Inspect, Finish, Refuse, DenyBody, Mid, Inspected;
    BrigadeInspected(e, base, st, [], bb);
    var r := Inspect(e, st, bb);
    RefuseLog(r.st, HTTP_INTERNAL_SERVER_ERROR);
    if r.Deny? {
      RefuseLog(r.st, r.status);
    }
    FinishFinal(e, env, base, r.st, bb);
  }

  lemma StopHeadersLog(st: Resp, status: int)
    ensures StopHeaders(st, status).st.log == st.log
  {
  }

  lemma FinaliseFinal(e: Oracle, base: nat, st: Resp)
    requires base <= |st.log|
    ensures Times(Finalise(e, st).st.log, FINAL) == Times(st.log, FINAL) + 1
  {
    hide Times, Polled, StopHeaders;
    var st1 := Called(st, FINAL);
    TimesNext(st.log, FINAL, FINAL);
    PolledHistory(e, base, st1.(phase4Done := true));
    var (st2, ret) := Polled(e, st1.(phase4Done := true));
    StopHeadersLog(st2, ret);
  }

  lemma DecideFinal(e: Oracle, req: Req, env: Env, base: nat, st: Resp)
    requires base <= |st.log| && Times(st.log, FINAL) == 0
    ensures Times(Decide(e, req, env, st).st.log, FINAL) ==
            if !st.processable && e.intervention(st.log + [Poll]).None? then 1 else 0
  {
    hide Times, Polled, StopHeaders, Finalise;
    PolledHistory(e, base, st);
    PolledShape(e, st);
    PolledFinds(e, st);
    var (st1, ret) := Polled(e, st);
    StopHeadersLog(st1, ret);
    FinaliseFinal(e, base, st1);
  }

  lemma PolledFinds(e: Oracle, st: Resp)
    ensures Polled(e, st).1 == 0 <==> e.intervention(st.log + [Poll]).None?
  {
    if e.intervention(st.log + [Poll]).Some? {
      InterventionsAreEnforced(e.intervention(st.log + [Poll]).value);
    }
  }

  lemma Phase3Final(e: Oracle, req: Req, env: Env, base: nat, st: Resp)
    requires Untouched(e, base, st.(phase3Done := true)) && Quiet(e, st.log, base)
    ensures Times(Phase3(e, req, env, st).st.log, FINAL) == if NotInspected(e, req, st.log) then 1 else 0
  {
    hide Times, Decide, SubmitHeaders, Quiet, Inspected, Die;
    var st0 := st.(phase3Done := true);
    SubmitKeeps(e, base, st0, req.headers);
    var (ok, log) := SubmitHeaders(e, st0.log, Response, req.headers);
    var st1 := st0.(log := log);
    var st2 := Called(st1, ProcessHeaders(Response));
    DieLog(st1, HTTP_INTERNAL_SERVER_ERROR);
    DieLog(st2, HTTP_INTERNAL_SERVER_ERROR);
    if ok {
      HeadersProcessed(e, base, st1);
      var st3 := Called(st2, BodyAccessible(Response));
      var st4 := Called(st3, BodyProcessable(Response));
      DecideFinal(e, req, env, base, st3.(processable := false));
      DecideFinal(e, req, env, base, st4.(processable := e.rc(st4.log) != 0));
    }
  }

  /** Phase 4 runs exactly once on the brigade it is due on, whatever it then decides, and on
      no other. */
  lemma Phase4WhenDue(e: Oracle, req: Req, env: Env, base: nat, st: Resp, bb: seq<Bucket>)
    requires Inv(e, base, st) && st.attached
    ensures Times(Output(e, req, env, st, bb).0.log, FINAL) == if Phase4Due(e, req, env, st, bb) then 1 else 0
  {
    hide Times, Phase3, Phase4, Inspect, NotInspected, Mid, Untouched;
    var st0 := st.(received := st.received + bb);
    if st.phase3Done {
      StreamingIsMid(e, base, st, bb);
      Phase4Final(e, env, base, st0, bb);
    } else {
      FirstBrigade(e, base, st, bb);
      Phase3IsFine(e, req, env, base, st0, bb);
      Phase3Final(e, req, env, base, st0);
      var h := Phase3(e, req, env, st0);
      if h.Go? {
        Phase4Final(e, env, base, h.st, bb);
      }
    }
  }

  lemma {:induction false} RunNext(e: Oracle, req: Req, st: Resp, run: Brigades, env: Env, bb: seq<Bucket>)
    ensures var st' := Run(e, req, st, run);
            Run(e, req, st, run + [(env, bb)]) == if st'.attached then Output(e, req, env, st', bb).0 else st'
    decreases |run|
  {
    hide Output;
    var more := run + [(env, bb)];
    if run == [] {
      assert more[1..] == [];
    } else if st.attached {
      assert more[1..] == run[1..] + [(env, bb)];
      RunNext(e, req, Output(e, req, run[0].0, st, run[0].1).0, run[1..], env, bb);
    }
  }

  /** Over every run: the count is still 0 until the brigade phase 4 is due on, 1 from then
      on. A response that is out stays as it is. */
  lemma Phase4ExactlyOnce(e: Oracle, req: Req, log: seq<Call>, status: int, run: Brigades, env: Env, bb: seq<Bucket>)
    requires ResponseUnseen(log)
    ensures var st := ResponseAfter(e, req, log, status, run);
            var st' := ResponseAfter(e, req, log, status, run + [(env, bb)]);
            if st.attached
            then && Times(st.log, FINAL) == 0
                 && Times(st'.log, FINAL) == if Phase4Due(e, req, env, st, bb) then 1 else 0
            else st' == st
  {
    hide Times, Output, Phase4Due;
    RunInv(e, req, log, status, run);
    RunNext(e, req, Fresh(log, status), run, env, bb);
    var st := ResponseAfter(e, req, log, status, run);
    if st.attached {
      Phase4WhenDue(e, req, env, |log|, st, bb);
    }
  }

  // ---------- failing closed ----------

  /** One alarm anywhere, or a bucket that cannot be inspected before the end of a response
      that is inspected to its end, and the response is refused. */
  lemma AlarmsRefuse(e: Oracle, req: Req, log: seq<Call>, status: int, run: Brigades)
    requires ResponseUnseen(log)
    ensures var st := ResponseAfter(e, req, log, status, run);
            && (!Quiet(e, st.log, |log|) ==> st.exit == Refused)
            && (!Inspectable(st.received) ==> st.exit !in {InChain, Completed})
  {
    RunInv(e, req, log, status, run);
  }

  /** A refused response: nothing held, a refusing status, at most one error page and that
      only if nothing was sent; a drop aborts the connection and has no page. */
  lemma RefusedResponses(e: Oracle, req: Req, log: seq<Call>, status: int, run: Brigades)
    requires ResponseUnseen(log)
    ensures var st := ResponseAfter(e, req, log, status, run);
            st.exit == Refused ==>
              && st.triggered && !st.attached && st.pending == [] && st.downstream <= st.received
              && Refuses(st.status) && |st.pages| <= 1
              && (st.pages != [] ==> st.pages == [st.status] && st.downstream == [])
              && (st.drop <==> st.aborted) && (st.drop ==> st.pages == [] && st.status == HTTP_FORBIDDEN)
    ensures var st := ResponseAfter(e, req, log, status, run);
            st.exit != Refused ==> st.pages == [] && !st.aborted && !st.triggered
  {
    RunInv(e, req, log, status, run);
  }

  lemma {:induction false} InspectSame(e: Oracle, st: Resp, bb: seq<Bucket>)
    ensures SameResponse(st, Inspect(e, st, bb).st)
    decreases |bb|
  {
    hide InspectBucket;
    if bb != [] {
      var r := InspectBucket(e, st, bb[0]);
      BucketSame(e, st, bb[0]);
      if r.Clean? {
        InspectSame(e, r.st, bb[1..]);
      }
    }
  }

  lemma BucketSame(e: Oracle, st: Resp, b: Bucket)
    ensures SameResponse(st, InspectBucket(e, st, b).st)
  {
    hide Polled, SameResponse, Called, Oversized, BytesOf;
    SameTrans(st, st, st);
    if b.Data? || b.File? {
      var st1 := if st.delayed then st.(pendingLen := st.pendingLen + |b.bytes|) else st;
      var st2 := Called(st1, AppendBody(Response, b.bytes));
      SameCounted(st, AppendBody(Response, b.bytes), |b.bytes|);
      PolledShape(e, st2);
      SameTrans(st, st2, Polled(e, st2).0);
    }
  }

  lemma SameTrans(a: Resp, b: Resp, c: Resp)
    ensures SameResponse(a, a)
    ensures SameResponse(a, b) && SameResponse(b, c) ==> SameResponse(a, c)
  {
  }

  lemma SameCounted(st: Resp, c: Call, n: nat)
    ensures var st1 := if st.delayed then st.(pendingLen := st.pendingLen + n) else st;
            SameResponse(st, st1) && SameResponse(st, Called(st1, c))
  {
  }

  predicate SameStreams(st: Resp, st': Resp) {
    st'.downstream == st.downstream && st'.received == st.received
  }

  lemma DecideSame(e: Oracle, req: Req, env: Env, st: Resp)
    ensures SameStreams(st, Decide(e, req, env, st).st)
  {
    hide Polled, Refuses, EnforcedStatus;
    PolledShape(e, st);
    var st1 := Polled(e, st).0;
    FinaliseSame(e, st1);
  }

  lemma FinaliseSame(e: Oracle, st: Resp)
    ensures SameStreams(st, Finalise(e, st).st)
  {
    hide Polled, Refuses, EnforcedStatus;
    PolledShape(e, Called(st, FINAL).(phase4Done := true));
  }

  lemma Phase3Same(e: Oracle, req: Req, env: Env, st: Resp)
    ensures SameStreams(st, Phase3(e, req, env, st).st)
  {
    hide Decide, SubmitHeaders;
    var st0 := st.(phase3Done := true);
    var (ok, log) := SubmitHeaders(e, st0.log, Response, req.headers);
    var st3 := Called(Called(st0.(log := log), ProcessHeaders(Response)), BodyAccessible(Response));
    var st4 := Called(st3, BodyProcessable(Response));
    DecideSame(e, req, env, st3.(processable := false));
    DecideSame(e, req, env, st4.(processable := e.rc(st4.log) != 0));
  }

  lemma FinishSends(e: Oracle, env: Env, st: Resp, bb: seq<Bucket>)
    requires st.exit != Refused && Finish(e, env, st, bb).0.exit == Refused
    ensures Finish(e, env, st, bb).0.downstream == st.downstream
  {
    hide Polled;
    PolledShape(e, Called(st, FINAL));
  }

  lemma FinishReceives(e: Oracle, env: Env, st: Resp, bb: seq<Bucket>)
    ensures Finish(e, env, st, bb).0.received == st.received
  {
    hide Polled;
    PolledShape(e, Called(st, FINAL));
  }

  lemma Phase4Receives(e: Oracle, env: Env, st: Resp, bb: seq<Bucket>)
    ensures Phase4(e, env, st, bb).0.received == st.received
  {
    hide Finish, Inspect;
    InspectSame(e, st, bb);
    var r := Inspect(e, st, bb);
    FinishReceives(e, env, r.st, bb);
  }

  lemma Phase4Sends(e: Oracle, env: Env, st: Resp, bb: seq<Bucket>)
    requires st.exit != Refused && Phase4(e, env, st, bb).0.exit == Refused
    ensures Phase4(e, env, st, bb).0.downstream == st.downstream
  {
    hide Finish, Inspect;
    InspectSame(e, st, bb);
    var r := Inspect(e, st, bb);
    if r.Clean? && Eos in bb {
      FinishSends(e, env, r.st, bb);
    }
  }

  /** The brigade that makes the filter refuse sends nothing: neither itself nor what
      was held. */
  lemma RefusalSendsNothing(e: Oracle, req: Req, env: Env, st: Resp, bb: seq<Bucket>)
    requires !st.triggered && st.exit != Refused && Output(e, req, env, st, bb).0.exit == Refused
    ensures Output(e, req, env, st, bb).0.downstream == st.downstream
  {
    hide Phase3, Phase4;
    var st0 := st.(received := st.received + bb);
    if st.phase3Done {
      Phase4Sends(e, env, st0, bb);
    } else {
      Phase3Same(e, req, env, st0);
      var h := Phase3(e, req, env, st0);
      if h.Go? {
        GoIsInChain(e, req, env, st0);
        Phase4Sends(e, env, h.st, bb);
      } else if h.StepOut? {
        StepOutIsNoRefusal(e, req, env, st0);
      }
    }
  }

  lemma GoIsInChain(e: Oracle, req: Req, env: Env, st: Resp)
    requires Phase3(e, req, env, st).Go?
    ensures Phase3(e, req, env, st).st.exit == st.exit
  {
    hide SubmitHeaders, EnforcedStatus, IsDrop;
  }

  lemma StepOutIsNoRefusal(e: Oracle, req: Req, env: Env, st: Resp)
    requires Phase3(e, req, env, st).StepOut?
    ensures Phase3(e, req, env, st).how != Refused
  {
    hide SubmitHeaders, EnforcedStatus, IsDrop;
  }

  /** Once denied, the filter only steps aside, whatever is sent: the first brigade, the error
      page, passes unchanged, and no brigade of the run makes a call. */
  lemma {:induction false} DeniedRunIsUntouched(e: Oracle, req: Req, st: Resp, run: Brigades)
    requires st.triggered
    ensures var st' := Run(e, req, st, run);
            && st'.triggered && st'.log == st.log && st'.pages == st.pages && st'.status == st.status
            && st'.downstream == st.downstream + (if st.attached && run != [] then run[0].1 else [])
            && (st.attached && run != [] ==> !st'.attached)
    decreases |run|
  {
    if run != [] && st.attached {
      DeniedRunIsUntouched(e, req, Output(e, req, run[0].0, st, run[0].1).0, run[1..]);
    }
  }

  // ---------- and only then ----------

  /** A header too long, or a bucket that cannot be read or submitted. */
  predicate Unsubmittable(req: Req, bb: seq<Bucket>) {
    || (exists p :: p in req.headers && (|p.name| > 2147483647 || |p.value| > 2147483647))
    || (exists b :: b in bb && (b.Broken? || |BytesOf(b)| > 2147483647))
  }

  lemma SubmitCause(e: Oracle, base: nat, st: Resp, bytes: seq<byte>)
    requires base <= |st.log|
    ensures var r := SubmitBytes(e, st, bytes);
            !r.Overflow? && base <= |r.st.log| && (r.Bad? || r.Deny? ==> !Quiet(e, r.st.log, base))
  {
    hide Polled, Quiet, Times, Appended, Alarm;
    var st1 := Called(st, AppendBody(Response, bytes));
    QuietNext(e, st.log, AppendBody(Response, bytes), base);
    AppendAlarm(e, st.log, bytes);
    PolledShape(e, st1);
    PolledHistory(e, base, st1);
  }

  lemma BucketCause(e: Oracle, base: nat, st: Resp, b: Bucket)
    requires base <= |st.log|
    ensures var r := InspectBucket(e, st, b);
            && base <= |r.st.log|
            && (r.Bad? ==> !Quiet(e, r.st.log, base) || b.Broken? || Oversized(b))
            && (r.Deny? ==> !Quiet(e, r.st.log, base))
  {
    hide SubmitBytes, Quiet, Oversized, BytesOf;
    if b.Data? || b.File? {
      SubmitCause(e, base, if st.delayed then st.(pendingLen := st.pendingLen + |b.bytes|) else st, b.bytes);
    }
  }

  lemma {:induction false} InspectCause(e: Oracle, base: nat, st: Resp, bb: seq<Bucket>)
    requires base <= |st.log|
    ensures var r := Inspect(e, st, bb);
            && base <= |r.st.log|
            && (r.Bad? ==> !Quiet(e, r.st.log, base) || exists b :: b in bb && (b.Broken? || Oversized(b)))
            && (r.Deny? ==> !Quiet(e, r.st.log, base))
    decreases |bb|
  {
    hide InspectBucket, Quiet;
    if bb != [] {
      var r := InspectBucket(e, st, bb[0]);
      BucketCause(e, base, st, bb[0]);
      assert bb[0] in bb;
      if r.Clean? {
        InspectCause(e, base, r.st, bb[1..]);
        assert forall b | b in bb[1..] :: b in bb;
      }
    }
  }

  lemma FinishCause(e: Oracle, env: Env, base: nat, st: Resp, bb: seq<Bucket>)
    requires base <= |st.log| && st.exit != Refused && Finish(e, env, st, bb).0.exit == Refused
    ensures !Quiet(e, Finish(e, env, st, bb).0.log, base)
  {
    hide Polled, Quiet, Times, Appended, Alarm, Refuse, DenyBody;
    var st1 := Called(st, FINAL);
    QuietNext(e, st.log, FINAL, base);
    FinalAlarm(e, st1.log);
    RefuseLog(st1, HTTP_INTERNAL_SERVER_ERROR);
    PolledShape(e, st1);
    PolledHistory(e, base, st1);
    var (st2, ret) := Polled(e, st1);
    RefuseLog(st2.(phase4Done := true), ret);
  }

  lemma FinalAlarm(e: Oracle, log: seq<Call>)
    requires log != [] && log[|log| - 1] == FINAL
    ensures Alarm(e, log) <==> e.rc(log) < 0
  {
  }

  lemma RefuseLog(st: Resp, status: int)
    ensures Refuse(st, status).0.log == st.log && DenyBody(st, status).0.log == st.log
  {
  }

  lemma Phase4Cause(e: Oracle, req: Req, env: Env, base: nat, st: Resp, bb: seq<Bucket>)
    requires base <= |st.log| && env.saveOk && st.exit != Refused && Phase4(e, env, st, bb).0.exit == Refused
    ensures !Quiet(e, Phase4(e, env, st, bb).0.log, base) || Unsubmittable(req, bb)
  {
    hide Finish, Inspect, Quiet;
    InspectSame(e, st, bb);
    InspectCause(e, base, st, bb);
    var r := Inspect(e, st, bb);
    if r.Clean? && Eos in bb {
      FinishCause(e, env, base, r.st, bb);
    }
  }

  lemma DecideCause(e: Oracle, req: Req, env: Env, base: nat, st: Resp)
    requires base <= |st.log| && st.exit != Refused
    ensures var h := Decide(e, req, env, st);
            && base <= |h.st.log|
            && (h.Stop? ==> !Quiet(e, h.st.log, base))
            && (!h.Stop? ==> h.st.exit == st.exit)
  {
    hide Polled, Quiet, Times, Appended, Alarm;
    PolledShape(e, st);
    PolledHistory(e, base, st);
    var st1 := Polled(e, st).0;
    var st2 := Called(st1, FINAL);
    QuietNext(e, st1.log, FINAL, base);
    FinalAlarm(e, st2.log);
    PolledShape(e, st2.(phase4Done := true));
    PolledHistory(e, base, st2.(phase4Done := true));
  }

  lemma HeadersAlarm(e: Oracle, log: seq<Call>)
    requires log != [] && log[|log| - 1] == ProcessHeaders(Response)
    ensures Alarm(e, log) <==> e.rc(log) < 0
  {
  }

  lemma DieLog(st: Resp, status: int)
    ensures Die(st, status).log == st.log
  {
  }

  lemma Phase3Cause(e: Oracle, req: Req, env: Env, base: nat, st: Resp)
    requires base <= |st.log| && st.exit != Refused && Quiet(e, st.log, base)
    ensures var h := Phase3(e, req, env, st);
            && base <= |h.st.log|
            && (h.Stop? ==>
                  || !Quiet(e, h.st.log, base)
                  || exists p :: p in req.headers && (|p.name| > 2147483647 || |p.value| > 2147483647))
            && (!h.Stop? ==> h.st.exit == st.exit)
  {
    hide Decide, Quiet, SubmitHeaders, Die, Alarm, Short;
    var st0 := st.(phase3Done := true);
    SubmissionQuiet(e, st0.log, Response, req.headers, base);
    var (ok, log) := SubmitHeaders(e, st0.log, Response, req.headers);
    var st1 := st0.(log := log);
    var st2 := Called(st1, ProcessHeaders(Response));
    if !ok {
      DieLog(st1, HTTP_INTERNAL_SERVER_ERROR);
      assert Phase3(e, req, env, st) == Stop(Die(st1, HTTP_INTERNAL_SERVER_ERROR), FilterError);
    } else if e.rc(st2.log) < 0 {
      QuietNext(e, log, ProcessHeaders(Response), base);
      HeadersAlarm(e, st2.log);
      DieLog(st2, HTTP_INTERNAL_SERVER_ERROR);
      assert Phase3(e, req, env, st) == Stop(Die(st2, HTTP_INTERNAL_SERVER_ERROR), FilterError);
    } else {
      DecidedCause(e, req, env, base, st2);
    }
  }

  lemma DecidedCause(e: Oracle, req: Req, env: Env, base: nat, st: Resp)
    requires base <= |st.log| && st.exit != Refused
    ensures var st3 := Called(st, BodyAccessible(Response));
            var accessible := e.rc(st3.log) != 0;
            var st4 := if accessible then Called(st3, BodyProcessable(Response)) else st3;
            var h := Decide(e, req, env, st4.(processable := accessible && e.rc(st4.log) != 0));
            && base <= |h.st.log|
            && (h.Stop? ==> !Quiet(e, h.st.log, base))
            && (!h.Stop? ==> h.st.exit == st.exit)
  {
    hide Decide, Quiet;
    var st3 := Called(st, BodyAccessible(Response));
    var accessible := e.rc(st3.log) != 0;
    var st4 := if accessible then Called(st3, BodyProcessable(Response)) else st3;
    DecideCause(e, req, env, base, st4.(processable := accessible && e.rc(st4.log) != 0));
  }

  /** Refusing is never gratuitous: unless the held brigade could not be saved, there was
      an alarm, or something that cannot be submitted. */
  lemma RefusalHasCause(e: Oracle, req: Req, env: Env, base: nat, st: Resp, bb: seq<Bucket>)
    requires Inv(e, base, st) && st.attached && env.saveOk && Output(e, req, env, st, bb).0.exit == Refused
    ensures !Quiet(e, Output(e, req, env, st, bb).0.log, base) || Unsubmittable(req, bb)
  {
    hide Phase3, Phase4, Quiet, Times, Appended, Payload;
    var st0 := st.(received := st.received + bb);
    if st.phase3Done {
      Phase4Cause(e, req, env, base, st0, bb);
    } else {
      Phase3Cause(e, req, env, base, st0);
      var h := Phase3(e, req, env, st0);
      if h.Go? {
        Phase4Cause(e, req, env, base, h.st, bb);
      } else if h.StepOut? {
        StepOutIsNoRefusal(e, req, env, st0);
      }
    }
  }

  // ---------- with whose status ----------

  /** The log ends with a poll that found an intervention and the report of this very
      status, the intervention's own as far as it refuses. */
  predicate Enforces(e: Oracle, log: seq<Call>, status: int) {
    var n := |log|;
    && n >= 2 && log[n - 2] == Poll && log[n - 1] == UpdateStatus(status)
    && e.intervention(log[..n - 1]).Some? && status == EnforcedStatus(e.intervention(log[..n - 1]).value)
  }

  /** The intervention that was reported last asks for a drop. */
  predicate DropAsked(e: Oracle, log: seq<Call>) {
    log != [] && var iv := e.intervention(log[..|log| - 1]);
                 iv.Some? && (iv.value.action == Some("drop") || iv.value.status == 444)
  }

  lemma PolledEnforces(e: Oracle, st: Resp)
    ensures var (st', ret) := Polled(e, st);
            ret > 0 ==> Enforces(e, st'.log, ret) && (!st.drop ==> (st'.drop <==> DropAsked(e, st'.log)))
  {
    hide EnforcedStatus;
    var log := st.log + [Poll];
    if e.intervention(log).Some? {
      var full := log + [UpdateStatus(EnforcedStatus(e.intervention(log).value))];
      assert full[..|full| - 1] == log;
    }
  }

  /** Since the first `n` calls the engine was told of no intervention: the last of them, if
      there is any, is not such a report. */
  predicate Unreported(n: nat, log: seq<Call>) {
    n <= |log| && (|log| > n ==> !log[|log| - 1].UpdateStatus?)
  }

  /** How far an inspection got: to a status to enforce, or still with none. */
  predicate DeniedOrUnreported(e: Oracle, n: nat, r: Body) {
    if r.Deny? then
      && |r.st.log| > n && Enforces(e, r.st.log, r.status) && (r.st.drop ==> r.status == HTTP_FORBIDDEN)
      && (r.st.drop <==> DropAsked(e, r.st.log))
    else Unreported(n, r.st.log) && !r.st.drop
  }

  lemma SubmitEnforces(e: Oracle, n: nat, st: Resp, bytes: seq<byte>)
    requires n <= |st.log| && !st.drop
    ensures DeniedOrUnreported(e, n, SubmitBytes(e, st, bytes))
  {
    hide Polled, Enforces, DropAsked;
    var st1 := Called(st, AppendBody(Response, bytes));
    PolledShape(e, st1);
    PolledEnforces(e, st1);
  }

  lemma BucketEnforces(e: Oracle, n: nat, st: Resp, b: Bucket)
    requires Unreported(n, st.log) && !st.drop
    ensures DeniedOrUnreported(e, n, InspectBucket(e, st, b))
  {
    hide SubmitBytes, Enforces, DropAsked, Oversized, BytesOf;
    if b.Data? || b.File? {
      SubmitEnforces(e, n, if st.delayed then st.(pendingLen := st.pendingLen + |b.bytes|) else st, b.bytes);
    }
  }

  lemma {:induction false} InspectEnforces(e: Oracle, n: nat, st: Resp, bb: seq<Bucket>)
    requires Unreported(n, st.log) && !st.drop
    ensures DeniedOrUnreported(e, n, Inspect(e, st, bb))
    decreases |bb|
  {
    hide InspectBucket, Enforces, DropAsked;
    if bb != [] {
      var r := InspectBucket(e, st, bb[0]);
      BucketEnforces(e, n, st, bb[0]);
      if r.Clean? {
        InspectEnforces(e, n, r.st, bb[1..]);
      }
    }
  }

  /** The status of a response refused after the first `n` calls: when the last call reports
      an intervention, the status of that intervention, and a drop exactly if it asks for one;
      otherwise, a failure, 500. */
  predicate OwnStatus(e: Oracle, n: nat, st: Resp) {
    if Unreported(n, st.log) then st.status == 500 && !st.aborted
    else |st.log| > n && Enforces(e, st.log, st.status) && (st.aborted <==> DropAsked(e, st.log))
  }

  lemma DeniedStatus(e: Oracle, n: nat, st: Resp, status: int)
    requires |st.log| > n && Enforces(e, st.log, status) && (st.drop ==> status == HTTP_FORBIDDEN)
    requires !st.aborted && (st.drop <==> DropAsked(e, st.log))
    ensures OwnStatus(e, n, DenyBody(st, status).0) && OwnStatus(e, n, StopHeaders(st, status).st)
  {
    hide EnforcedStatus;
  }

  lemma FinishStatus(e: Oracle, env: Env, n: nat, st: Resp, bb: seq<Bucket>)
    requires st.exit != Refused && Finish(e, env, st, bb).0.exit == Refused && n <= |st.log| && !st.drop && !st.aborted
    ensures OwnStatus(e, n, Finish(e, env, st, bb).0)
  {
    hide Polled, Enforces, DropAsked;
    var st1 := Called(st, FINAL);
    PolledShape(e, st1);
    PolledEnforces(e, st1);
    var (st2, ret) := Polled(e, st1);
    if ret > 0 {
      DeniedStatus(e, n, st2.(phase4Done := true), ret);
    }
  }

  lemma Phase4Status(e: Oracle, env: Env, n: nat, st: Resp, bb: seq<Bucket>)
    requires st.exit != Refused && Phase4(e, env, st, bb).0.exit == Refused
    requires Unreported(n, st.log) && !st.drop && !st.aborted
    ensures OwnStatus(e, n, Phase4(e, env, st, bb).0)
  {
    hide Inspect, Finish, Enforces, DropAsked;
    InspectSame(e, st, bb);
    InspectEnforces(e, n, st, bb);
    var r := Inspect(e, st, bb);
    if r.Deny? {
      DeniedStatus(e, n, r.st, r.status);
    } else if r.Clean? && Eos in bb {
      FinishStatus(e, env, n, r.st, bb);
    }
  }

  /** The response goes on unreported, or stops with the status that goes with its log. */
  predicate StoppedOrUnreported(e: Oracle, n: nat, h: Headers) {
    (h.Stop? ==> OwnStatus(e, n, h.st)) && (h.Go? ==> Unreported(n, h.st.log) && !h.st.drop && !h.st.aborted)
  }

  lemma FinaliseStatus(e: Oracle, n: nat, st: Resp)
    requires n <= |st.log| && !st.drop && !st.aborted
    ensures StoppedOrUnreported(e, n, Finalise(e, st))
  {
    hide Polled, Enforces, DropAsked, StopHeaders;
    var st1 := Called(st, FINAL);
    var st2 := st1.(phase4Done := true);
    PolledShape(e, st2);
    PolledEnforces(e, st2);
    var (st3, ret) := Polled(e, st2);
    if e.rc(st1.log) >= 0 && ret > 0 {
      DeniedStatus(e, n, st3, ret);
      StopHeadersStops(st3, ret);
    }
  }

  lemma StopHeadersStops(st: Resp, status: int)
    ensures StopHeaders(st, status).Stop?
  {
  }

  lemma DecideStatus(e: Oracle, req: Req, env: Env, n: nat, st: Resp)
    requires n <= |st.log| && !st.drop && !st.aborted
    ensures StoppedOrUnreported(e, n, Decide(e, req, env, st))
  {
    hide Polled, Enforces, DropAsked, StopHeaders, Finalise;
    PolledShape(e, st);
    PolledEnforces(e, st);
    var (st1, ret) := Polled(e, st);
    if ret > 0 {
      DeniedStatus(e, n, st1, ret);
      StopHeadersStops(st1, ret);
    } else {
      FinaliseStatus(e, n, st1);
    }
  }

  lemma Phase3Status(e: Oracle, req: Req, env: Env, st: Resp)
    requires !st.drop && !st.aborted
    ensures StoppedOrUnreported(e, |st.log|, Phase3(e, req, env, st))
  {
    hide Decide, SubmitHeaders, Enforces, DropAsked;
    var st0 := st.(phase3Done := true);
    EveryHeaderSubmitted(e, st0.log, Response, req.headers);
    var (ok, log) := SubmitHeaders(e, st0.log, Response, req.headers);
    var st3 := Called(Called(st0.(log := log), ProcessHeaders(Response)), BodyAccessible(Response));
    var st4 := Called(st3, BodyProcessable(Response));
    DecideStatus(e, req, env, |st.log|, st3.(processable := false));
    DecideStatus(e, req, env, |st.log|, st4.(processable := e.rc(st4.log) != 0));
  }

  /** A refusal serves the status of the intervention found by the last poll, which is the
      one reported to the engine and is 403 on a drop; 500 only when the last call was
      not such a report. The connection is aborted exactly when that intervention asks for a
      drop, by its action or as a 444. */
  lemma RefusedWithOwnStatus(e: Oracle, req: Req, env: Env, st: Resp, bb: seq<Bucket>)
    requires !st.triggered && !st.drop && !st.aborted && st.exit != Refused
    requires Output(e, req, env, st, bb).0.exit == Refused
    ensures OwnStatus(e, |st.log|, Output(e, req, env, st, bb).0)
  {
    hide Phase3, Phase4, OwnStatus;
    var st0 := st.(received := st.received + bb);
    var n := |st.log|;
    if st.phase3Done {
      Phase4Status(e, env, n, st0, bb);
    } else {
      Phase3Status(e, req, env, st0);
      var h := Phase3(e, req, env, st0);
      if h.Go? {
        GoIsInChain(e, req, env, st0);
        Phase4Status(e, env, n, h.st, bb);
      } else if h.StepOut? {
        StepOutIsNoRefusal(e, req, env, st0);
      }
    }
  }

  // ---------- and what the caller is told ----------

  /** Nothing has been decided against the response. */
  predicate Undecided(st: Resp) {
    !st.triggered && st.pages == [] && !st.aborted && st.exit != Refused
  }

  /** Out of the chain, with the code of its kind of refusal: an aborted connection, an error
      page, or a truncated response. */
  predicate Told(r: (Resp, Code)) {
    && r.0.exit == Refused && !r.0.attached
    && r.1 == if r.0.aborted then ConnAborted else if r.0.pages != [] then FilterError else General
  }

  /** A refusal is told; otherwise the response keeps its status, and the caller gets the next
      filter's answer, or success for a brigade that is held. */
  predicate Answered(env: Env, st: Resp, r: (Resp, Code)) {
    if r.0.exit == Refused then Told(r)
    else Undecided(r.0) && r.0.status == st.status && r.1 == if r.0.delayed then Success else env.next
  }

  lemma RefusalsAnswer(st: Resp, status: int)
    requires Undecided(st)
    ensures Told(Refuse(st, status)) && Told(DenyBody(st, status)) && Told(DropResponse(st))
    ensures var h := StopHeaders(st, status);
            h.Stop? && Told((h.st, h.code))
    ensures Told((Die(st, status), FilterError))
  {
  }

  lemma FinishAnswers(e: Oracle, env: Env, st: Resp, bb: seq<Bucket>)
    requires Undecided(st)
    ensures Answered(env, st, Finish(e, env, st, bb))
  {
    hide Polled, Refuse, DenyBody, EnforcedStatus;
    var st1 := Called(st, FINAL);
    PolledShape(e, st1);
    RefusalsAnswer(st1, HTTP_INTERNAL_SERVER_ERROR);
    var (st2, ret) := Polled(e, st1);
    RefusalsAnswer(st2.(phase4Done := true), ret);
  }

  lemma Phase4Answers(e: Oracle, env: Env, st: Resp, bb: seq<Bucket>)
    requires Undecided(st)
    ensures Answered(env, st, Phase4(e, env, st, bb))
  {
    hide Inspect, Finish, Refuse, DenyBody;
    InspectSame(e, st, bb);
    var r := Inspect(e, st, bb);
    RefusalsAnswer(r.st, HTTP_INTERNAL_SERVER_ERROR);
    if r.Deny? {
      RefusalsAnswer(r.st, r.status);
    }
    FinishAnswers(e, env, r.st, bb);
  }

  /** The same of phase 3: a response that goes on, or steps out, is still undecided. */
  predicate HeadersAnswered(st: Resp, h: Headers) {
    if h.Stop? then Told((h.st, h.code))
    else Undecided(h.st) && h.st.status == st.status && (h.StepOut? ==> h.how != Refused)
  }

  lemma FinaliseAnswers(e: Oracle, st: Resp)
    requires Undecided(st)
    ensures HeadersAnswered(st, Finalise(e, st))
  {
    hide Polled, EnforcedStatus;
    PolledShape(e, Called(st, FINAL).(phase4Done := true));
  }

  lemma DecideAnswers(e: Oracle, req: Req, env: Env, st: Resp)
    requires Undecided(st)
    ensures HeadersAnswered(st, Decide(e, req, env, st))
  {
    hide Polled, Finalise, EnforcedStatus;
    PolledShape(e, st);
    FinaliseAnswers(e, Polled(e, st).0);
  }

  lemma Phase3Answers(e: Oracle, req: Req, env: Env, st: Resp)
    requires Undecided(st)
    ensures HeadersAnswered(st, Phase3(e, req, env, st))
  {
    hide Decide, SubmitHeaders;
    var st0 := st.(phase3Done := true);
    var (ok, log) := SubmitHeaders(e, st0.log, Response, req.headers);
    var st3 := Called(Called(st0.(log := log), ProcessHeaders(Response)), BodyAccessible(Response));
    var st4 := Called(st3, BodyProcessable(Response));
    DecideAnswers(e, req, env, st3.(processable := false));
    DecideAnswers(e, req, env, st4.(processable := e.rc(st4.log) != 0));
  }

  /** Each kind of refusal has its own code, and a pass the next filter's. The code alone
      tells them apart when the next filter succeeds. */
  lemma ReturnValueTells(e: Oracle, req: Req, env: Env, st: Resp, bb: seq<Bucket>)
    requires Undecided(st)
    ensures Answered(env, st, Output(e, req, env, st, bb))
    ensures var (st', code) := Output(e, req, env, st, bb);
            env.next == Success ==> (code == Success <==> st'.exit != Refused)
  {
    hide Phase3, Phase4;
    var st0 := st.(received := st.received + bb);
    if st.phase3Done {
      Phase4Answers(e, env, st0, bb);
    } else {
      Phase3Answers(e, req, env, st0);
      var h := Phase3(e, req, env, st0);
      if h.Go? {
        Phase4Answers(e, env, h.st, bb);
      }
    }
  }

  /** Over a whole run, a response that is not refused keeps the handler's status. */
  lemma {:induction false} StatusKept(e: Oracle, req: Req, st: Resp, run: Brigades)
    requires Undecided(st)
    ensures Run(e, req, st, run).exit != Refused ==> Run(e, req, st, run).status == st.status
    decreases |run|
  {
    hide Output;
    if run != [] && st.attached {
      var st1 := Output(e, req, run[0].0, st, run[0].1).0;
      ReturnValueTells(e, req, run[0].0, st, run[0].1);
      if st1.exit != Refused {
        StatusKept(e, req, st1, run[1..]);
      }
    }
  }
}
