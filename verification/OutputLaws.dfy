/**
 Laws of the response filter in terms a client or the engine could check: when a
 response is held back, what each way out says of the request, and the calls the
 engine sees, with the answers that let the filter go on.
 */
module OutputLaws {
  import opened Wire
  import opened HeaderCodec
  import opened Engine
  import opened Brigade
  import opened OutputSpec
  import opened OutputProof
  import opened OutputResults

  // ---------- when a response is held back ----------

  /** Nothing of the response is out before it is decided, and a refusal has its page. */
  predicate Withheld(st: Resp) {
    && (st.attached && st.phase3Done ==> st.delayed)
    && (st.exit == Refused ==> st.downstream == [] && (st.aborted || st.pages == [st.status]))
  }

  /** A refusal with nothing sent yet: an aborted connection, or its page. */
  predicate Paged(st: Resp) {
    st.aborted || st.pages == [st.status]
  }

  lemma StopHeadersPaged(st: Resp, status: int)
    requires st.pages == []
    ensures StopHeaders(st, status).Stop? && Paged(StopHeaders(st, status).st) && Paged(Die(st, status))
  {
  }

  lemma FinaliseHolds(e: Oracle, st: Resp)
    requires st.pages == []
    ensures var h := Finalise(e, st);
            if h.Stop? then Paged(h.st) else h.StepOut? && h.how == Uninspected
  {
    hide Polled, Die, StopHeaders, Paged;
    var st1 := Called(st, FINAL);
    PolledShape(e, st1.(phase4Done := true));
    StopHeadersPaged(st1, HTTP_INTERNAL_SERVER_ERROR);
    var (st2, ret) := Polled(e, st1.(phase4Done := true));
    StopHeadersPaged(st2, ret);
  }

  /** How phase 3 ends: a refusal has its page, an event stream is not gone on with, and the
      response is held back exactly when it has a body to wait for and can be. */
  predicate HoldsBack(req: Req, env: Env, status: int, h: Headers) {
    && (h.Stop? ==> Paged(h.st))
    && (h.Go? ==> h.st.phase3Done && !req.sse)
    && (h.Go? ==> (h.st.delayed <==> !req.headerOnly && !req.subrequest && status < 400 && env.createOk))
    && (h.StepOut? ==> h.how == Uninspected || (h.how == Sse && req.sse))
  }

  lemma DecideHolds(e: Oracle, req: Req, env: Env, st: Resp)
    requires st.pages == [] && st.phase3Done
    ensures HoldsBack(req, env, st.status, Decide(e, req, env, st))
  {
    hide Polled, StopHeaders, Finalise, Paged;
    PolledShape(e, st);
    var (st1, ret) := Polled(e, st);
    StopHeadersPaged(st1, ret);
    FinaliseHolds(e, st1);
  }

  lemma Phase3Holds(e: Oracle, req: Req, env: Env, st: Resp)
    requires st.pages == []
    ensures HoldsBack(req, env, st.status, Phase3(e, req, env, st))
  {
    hide Decide, SubmitHeaders, Paged, Die;
    var st0 := st.(phase3Done := true);
    var (ok, log) := SubmitHeaders(e, st0.log, Response, req.headers);
    var st1 := st0.(log := log);
    var st2 := Called(st1, ProcessHeaders(Response));
    StopHeadersPaged(st1, HTTP_INTERNAL_SERVER_ERROR);
    StopHeadersPaged(st2, HTTP_INTERNAL_SERVER_ERROR);
    if !ok {
      assert Phase3(e, req, env, st) == Stop(Die(st1, HTTP_INTERNAL_SERVER_ERROR), FilterError);
    } else if e.rc(st2.log) < 0 {
      assert Phase3(e, req, env, st) == Stop(Die(st2, HTTP_INTERNAL_SERVER_ERROR), FilterError);
    } else {
      DecidedHolds(e, req, env, st2);
    }
  }

  lemma DecidedHolds(e: Oracle, req: Req, env: Env, st: Resp)
    requires st.pages == [] && st.phase3Done
    ensures var st3 := Called(st, BodyAccessible(Response));
            var accessible := e.rc(st3.log) != 0;
            var st4 := if accessible then Called(st3, BodyProcessable(Response)) else st3;
            HoldsBack(req, env, st.status, Decide(e, req, env, st4.(processable := accessible && e.rc(st4.log) != 0)))
  {
    hide Decide, HoldsBack;
    var st3 := Called(st, BodyAccessible(Response));
    var accessible := e.rc(st3.log) != 0;
    var st4 := if accessible then Called(st3, BodyProcessable(Response)) else st3;
    DecideHolds(e, req, env, st4.(processable := accessible && e.rc(st4.log) != 0));
  }

  lemma RefusedPaged(st: Resp, status: int)
    requires st.pages == [] && st.delayed
    ensures Paged(Refuse(st, status).0) && Paged(DenyBody(st, status).0)
  {
  }

  /** The end of a response that was held back, or held nothing. */
  predicate Ended(st: Resp, st': Resp) {
    && !st'.attached && st'.exit in {Refused, Completed} && (st.pending == [] ==> st'.pending == [])
    && (st'.exit == Refused && st.delayed ==> Paged(st'))
  }

  lemma RefusedEnded(st: Resp, st1: Resp, status: int)
    requires st.pages == [] && SameResponse(st, st1.(phase4Done := st.phase4Done))
    ensures Ended(st, Refuse(st1, status).0) && Ended(st, DenyBody(st1, status).0)
  {
  }

  lemma ReleasedEnded(st: Resp, st1: Resp, bb: seq<Bucket>)
    ensures Ended(st, Release(st1, bb, Completed))
  {
  }

  lemma FinishEnded(e: Oracle, env: Env, st: Resp, bb: seq<Bucket>)
    requires st.pages == []
    ensures Ended(st, Finish(e, env, st, bb).0)
  {
    hide Polled, Refuse, DenyBody, Release, Ended;
    var st1 := Called(st, FINAL);
    if e.rc(st1.log) < 0 {
      RefusedEnded(st, st1, HTTP_INTERNAL_SERVER_ERROR);
    } else {
      PolledShape(e, st1);
      var (st2, ret) := Polled(e, st1);
      if ret > 0 {
        RefusedEnded(st, st2.(phase4Done := true), ret);
      } else {
        ReleasedEnded(st, st2.(phase4Done := true), bb);
      }
    }
  }

  /** One brigade of the body: what is not held stays so, and what is held back ends with its
      page or goes on being held. */
  predicate BodyGoesOn(st: Resp, st': Resp) {
    && (st'.exit == Refused && st.delayed ==> Paged(st'))
    && (st'.attached ==> st'.delayed == st.delayed && st'.phase3Done == st.phase3Done && st'.exit == InChain)
    && st'.exit in {InChain, Refused, Completed, Flushed} && (st'.exit == InChain ==> st'.attached)
    && (!st.delayed && st.pending == [] ==> st'.pending == [])
  }

  lemma Phase4Holds(e: Oracle, env: Env, st: Resp, bb: seq<Bucket>)
    requires st.pages == [] && st.attached && st.exit == InChain
    ensures BodyGoesOn(st, Phase4(e, env, st, bb).0)
  {
    hide Inspect, Finish, Paged, Refuse, DenyBody;
    InspectSame(e, st, bb);
    var r := Inspect(e, st, bb);
    if r.Bad? || (r.Clean? && Eos !in bb && r.st.delayed && !env.saveOk) {
      RefusedEnded(r.st, r.st, HTTP_INTERNAL_SERVER_ERROR);
    } else if r.Deny? {
      RefusedEnded(r.st, r.st, r.status);
    } else if r.Clean? && Eos in bb {
      FinishEnded(e, env, r.st, bb);
    }
  }

  /** What a brigade leaves: a response goes on with phase 3 behind it and its status. */
  lemma OutputGoesOn(e: Oracle, req: Req, env: Env, base: nat, st: Resp, bb: seq<Bucket>)
    requires Inv(e, base, st) && st.attached
    ensures var st' := Output(e, req, env, st, bb).0;
            st'.attached ==> st'.phase3Done && st'.status == st.status && st'.exit == InChain
  {
    hide Phase3, Phase4, Inspected, Payload, Times;
    var st0 := st.(received := st.received + bb);
    ReturnValueTells(e, req, env, st, bb);
    OutputKeepsInv(e, req, env, base, st, bb);
    if st.phase3Done {
      Phase4Holds(e, env, st0, bb);
    } else {
      Phase3Holds(e, req, env, st0);
      var h := Phase3(e, req, env, st0);
      if h.Go? {
        Phase3IsFineHere(e, req, env, base, st, bb);
        Phase4Holds(e, env, h.st, bb);
      }
    }
  }

  lemma Phase3IsFineHere(e: Oracle, req: Req, env: Env, base: nat, st: Resp, bb: seq<Bucket>)
    requires Inv(e, base, st) && st.attached && !st.phase3Done
    ensures var h := Phase3(e, req, env, st.(received := st.received + bb));
            h.Go? ==> && h.st.pages == [] && h.st.attached && h.st.exit == InChain
                      && h.st.downstream == [] && h.st.pending == []
  {
    hide Phase3, Quiet, Times, Appended;
    var st0 := st.(received := st.received + bb);
    FirstBrigade(e, base, st, bb);
    Phase3IsFine(e, req, env, base, st0, bb);
  }

  lemma OutputWithholds(e: Oracle, req: Req, env: Env, base: nat, st: Resp, bb: seq<Bucket>)
    requires Inv(e, base, st) && st.attached && Withheld(st)
    requires !req.headerOnly && !req.subrequest && st.status < 400 && (st.phase3Done || env.createOk)
    ensures Withheld(Output(e, req, env, st, bb).0)
  {
    hide Phase3, Phase4, Inspected, Payload, Times, Quiet;
    var st0 := st.(received := st.received + bb);
    OutputGoesOn(e, req, env, base, st, bb);
    OutputKeepsInv(e, req, env, base, st, bb);
    if Output(e, req, env, st, bb).0.exit == Refused {
      RefusalSendsNothing(e, req, env, st, bb);
    }
    if st.phase3Done {
      Phase4Holds(e, env, st0, bb);
    } else {
      Phase3Holds(e, req, env, st0);
      var h := Phase3(e, req, env, st0);
      if h.Go? {
        Phase3IsFineHere(e, req, env, base, st, bb);
        Phase4Holds(e, env, h.st, bb);
      }
    }
  }

  lemma OutputHoldsNothing(e: Oracle, req: Req, env: Env, base: nat, st: Resp, bb: seq<Bucket>)
    requires Inv(e, base, st) && st.attached && !st.delayed
    requires st.phase3Done || req.headerOnly || req.subrequest || st.status >= 400 || !env.createOk
    ensures !Output(e, req, env, st, bb).0.delayed && Output(e, req, env, st, bb).0.pending == []
  {
    hide Phase3, Phase4, Inspected, Payload, Times, Quiet;
    var st0 := st.(received := st.received + bb);
    OutputKeepsInv(e, req, env, base, st, bb);
    if st.phase3Done {
      Phase4Holds(e, env, st0, bb);
    } else {
      Phase3Holds(e, req, env, st0);
      var h := Phase3(e, req, env, st0);
      if h.Go? {
        Phase3IsFineHere(e, req, env, base, st, bb);
        Phase4Holds(e, env, h.st, bb);
      }
    }
  }

  lemma {:induction false} RunWithholds(e: Oracle, req: Req, base: nat, st: Resp, run: Brigades)
    requires Inv(e, base, st) && Withheld(st) && !req.headerOnly && !req.subrequest && st.status < 400
    requires st.phase3Done || run == [] || run[0].0.createOk
    ensures Withheld(Run(e, req, st, run))
    decreases |run|
  {
    hide Output, Inv, Withheld;
    if run != [] && st.attached {
      var (env, bb) := run[0];
      OutputWithholds(e, req, env, base, st, bb);
      OutputGoesOn(e, req, env, base, st, bb);
      OutputKeepsInv(e, req, env, base, st, bb);
      var st1 := Output(e, req, env, st, bb).0;
      if st1.attached {
        RunWithholds(e, req, base, st1, run[1..]);
      }
    }
  }

  lemma {:induction false} RunHoldsNothing(e: Oracle, req: Req, base: nat, st: Resp, run: Brigades)
    requires Inv(e, base, st) && !st.delayed && st.pending == []
    requires st.phase3Done || req.headerOnly || req.subrequest || st.status >= 400 || run == [] || !run[0].0.createOk
    ensures Run(e, req, st, run).pending == []
    decreases |run|
  {
    hide Output, Inv;
    if run != [] && st.attached {
      var (env, bb) := run[0];
      OutputHoldsNothing(e, req, env, base, st, bb);
      OutputGoesOn(e, req, env, base, st, bb);
      OutputKeepsInv(e, req, env, base, st, bb);
      var st1 := Output(e, req, env, st, bb).0;
      if st1.attached {
        RunHoldsNothing(e, req, base, st1, run[1..]);
      }
    }
  }

  /** A response to a request for more than headers, of the main request and with a status
      below 400, sends nothing before it is released as completed, past the cap, an event
      stream or uninspected; refused, it has sent nothing, and has its page unless the
      connection is dropped. */
  lemma NothingSentUndecided(e: Oracle, req: Req, log: seq<Call>, status: int, run: Brigades)
    requires ResponseUnseen(log)
    requires !req.headerOnly && !req.subrequest && status < 400 && (run != [] ==> run[0].0.createOk)
    ensures var st := ResponseAfter(e, req, log, status, run);
            && (st.downstream != [] ==> st.exit in {Completed, Flushed, Sse, Uninspected})
            && (st.exit == Refused ==> st.downstream == [] && (st.aborted || st.pages == [st.status]))
  {
    FreshInv(e, log, status);
    RunInv(e, req, log, status, run);
    RunWithholds(e, req, |log|, Fresh(log, status), run);
  }

  /** Any other response is never held between calls. */
  lemma OthersAreNotHeld(e: Oracle, req: Req, log: seq<Call>, status: int, run: Brigades)
    requires ResponseUnseen(log)
    requires req.headerOnly || req.subrequest || status >= 400 || (run != [] && !run[0].0.createOk)
    ensures ResponseAfter(e, req, log, status, run).pending == []
  {
    FreshInv(e, log, status);
    RunHoldsNothing(e, req, |log|, Fresh(log, status), run);
  }

  // ---------- event streams ----------

  predicate StreamsOut(req: Req, st: Resp) {
    && (st.exit == Sse ==> req.sse) && (st.exit in {Completed, Flushed} ==> !req.sse)
    && (st.exit == InChain && st.phase3Done ==> !req.sse)
  }

  lemma OutputStreamsOut(e: Oracle, req: Req, env: Env, base: nat, st: Resp, bb: seq<Bucket>)
    requires Inv(e, base, st) && st.attached && StreamsOut(req, st)
    ensures StreamsOut(req, Output(e, req, env, st, bb).0)
  {
    hide Phase3, Phase4, Inspected, Payload, Times, Quiet;
    var st0 := st.(received := st.received + bb);
    OutputKeepsInv(e, req, env, base, st, bb);
    if st.phase3Done {
      Phase4Holds(e, env, st0, bb);
    } else {
      Phase3Holds(e, req, env, st0);
      var h := Phase3(e, req, env, st0);
      if h.Go? {
        Phase3IsFineHere(e, req, env, base, st, bb);
        Phase4Holds(e, env, h.st, bb);
      } else if h.Stop? {
        Phase3Answers(e, req, env, st0);
      }
    }
  }

  lemma {:induction false} RunStreamsOut(e: Oracle, req: Req, base: nat, st: Resp, run: Brigades)
    requires Inv(e, base, st) && StreamsOut(req, st)
    ensures StreamsOut(req, Run(e, req, st, run))
    decreases |run|
  {
    hide Output, Inv, StreamsOut;
    if run != [] && st.attached {
      OutputStreamsOut(e, req, run[0].0, base, st, run[0].1);
      OutputKeepsInv(e, req, run[0].0, base, st, run[0].1);
      RunStreamsOut(e, req, base, Output(e, req, run[0].0, st, run[0].1).0, run[1..]);
    }
  }

  /** Only an event stream leaves as one, and none is inspected to its end, held past its
      first brigade or flushed. */
  lemma EventStreamsStepOut(e: Oracle, req: Req, log: seq<Call>, status: int, run: Brigades)
    requires ResponseUnseen(log)
    ensures var st := ResponseAfter(e, req, log, status, run);
            && (st.exit == Sse ==> req.sse)
            && (req.sse ==> st.exit !in {Completed, Flushed} && (st.exit == InChain ==> run == []))
  {
    FreshInv(e, log, status);
    RunStreamsOut(e, req, |log|, Fresh(log, status), run);
    if run != [] {
      RunIsUnderWay(e, req, |log|, Fresh(log, status), run);
    }
  }

  /** After a brigade, what is still in the chain has phase 3 behind it. */
  lemma {:induction false} RunIsUnderWay(e: Oracle, req: Req, base: nat, st: Resp, run: Brigades)
    requires Inv(e, base, st) && (st.phase3Done || run != [])
    ensures Run(e, req, st, run).exit == InChain ==> Run(e, req, st, run).phase3Done
    decreases |run|
  {
    hide Output;
    if run != [] && st.attached {
      OutputGoesOn(e, req, run[0].0, base, st, run[0].1);
      OutputKeepsInv(e, req, run[0].0, base, st, run[0].1);
      var st1 := Output(e, req, run[0].0, st, run[0].1).0;
      if st1.attached {
        RunIsUnderWay(e, req, base, st1, run[1..]);
      }
    }
  }
}
