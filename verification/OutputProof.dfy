/** What holds of a response after every brigade of every run. */
module OutputProof {
  import opened Wire
  import opened HeaderCodec
  import opened Engine
  import opened Brigade
  import opened OutputSpec

  const FINAL := ProcessBody(Response)

  /** The body bytes the engine has been handed. */
  function Inspected(st: Resp): seq<byte> {
    Appended(st.log, Response)
  }

  predicate Inspectable(bb: seq<Bucket>) {
    forall b | b in bb :: !b.Broken? && !Oversized(b)
  }

  predicate Refuses(status: int) {
    status in {201, 204, 403} || status >= 300
  }

  /** The last two calls: phase 4, then a poll. */
  predicate EndsWithPhase4(log: seq<Call>) {
    |log| >= 2 && log[|log| - 2] == FINAL && log[|log| - 1] == Poll
  }

  // ---------- the invariant ----------

  /** Still in the chain. Everything received is either sent or held, in order, and the
      engine has seen exactly that; a delayed response has sent nothing. */
  predicate Streaming(e: Oracle, base: nat, st: Resp) {
    && Quiet(e, st.log, base) && Times(st.log, FINAL) == 0
    && st.pages == [] && !st.drop && !st.aborted && !st.phase4Done
    && st.downstream + st.pending == st.received
    && Payload(st.received) == Inspected(st)
    && Inspectable(st.received) && Eos !in st.received
    && (if st.phase3Done then st.processable else st.received == [] && !st.delayed && st.pendingLen == 0)
    && (st.delayed ==> st.downstream == [] && |Payload(st.pending)| == st.pendingLen <= MAX_DELAYED_BODY)
  }

  /** Everything received was sent on, in order, and the engine never objected. */
  predicate Released(e: Oracle, base: nat, st: Resp) {
    && Quiet(e, st.log, base) && st.pages == [] && !st.drop && !st.aborted
    && st.pending == [] && st.downstream == st.received
  }

  predicate RefusedInv(st: Resp) {
    && st.pending == [] && st.downstream <= st.received
    && Payload(st.downstream) <= Inspected(st)
    && Times(st.log, FINAL) <= 1 && (st.phase4Done ==> Times(st.log, FINAL) == 1) && Refuses(st.status)
    && (st.pages == [] || (st.pages == [st.status] && st.downstream == [] && !st.drop))
    && (st.drop <==> st.aborted) && (st.drop ==> st.status == HTTP_FORBIDDEN)
  }

  predicate Inv(e: Oracle, base: nat, st: Resp) {
    && base <= |st.log|
    && (st.attached <==> st.exit == InChain) && (st.triggered <==> st.exit == Refused)
    && (!st.delayed ==> st.pending == []) && (st.delayed ==> st.attached)
    && match st.exit
       case InChain => Streaming(e, base, st)
       case Completed =>
         && Released(e, base, st) && Payload(st.downstream) == Inspected(st)
         && Inspectable(st.received) && Eos in st.received
         && st.phase4Done && Times(st.log, FINAL) == 1 && EndsWithPhase4(st.log)
       case Flushed =>
         && Released(e, base, st) && Inspected(st) <= Payload(st.downstream)
         && |Payload(st.downstream)| > MAX_DELAYED_BODY && !st.phase4Done && Times(st.log, FINAL) == 0
       case Sse => Released(e, base, st) && Inspected(st) == [] && !st.phase4Done && Times(st.log, FINAL) == 0
       case Uninspected =>
         && Released(e, base, st) && Inspected(st) == []
         && st.phase4Done && Times(st.log, FINAL) == 1 && EndsWithPhase4(st.log)
       case Refused => RefusedInv(st)
  }

  // ---------- single calls ----------

  /** Only the log, the byte count and the drop flag may differ. */
  predicate SameResponse(st: Resp, st': Resp) {
    st' == st.(log := st'.log, pendingLen := st'.pendingLen, drop := st'.drop)
  }

  lemma CalledFacts(e: Oracle, base: nat, st: Resp, c: Call)
    requires base <= |st.log|
    ensures var st' := Called(st, c);
            && Inspected(st') == Inspected(st) + (if c.AppendBody? && c.side == Response then c.bytes else [])
            && Times(st'.log, FINAL) == Times(st.log, FINAL) + (if c == FINAL then 1 else 0)
            && (Quiet(e, st'.log, base) <==> Quiet(e, st.log, base) && !Alarm(e, st'.log))
  {
    QuietNext(e, st.log, c, base);
    AppendedNext(st.log, c, Response);
    TimesNext(st.log, c, FINAL);
  }

  lemma PolledShape(e: Oracle, st: Resp)
    ensures var (st', ret) := Polled(e, st);
            && SameResponse(st, st') && st'.pendingLen == st.pendingLen && |st'.log| > |st.log|
            && (if ret == 0 then st'.log == st.log + [Poll] && st'.drop == st.drop else ret > 0 && Refuses(ret))
            && (!st.drop && st'.drop ==> ret == HTTP_FORBIDDEN)
  {
  }

  lemma PolledHistory(e: Oracle, base: nat, st: Resp)
    requires base <= |st.log|
    ensures var (st', ret) := Polled(e, st);
            && Inspected(st') == Inspected(st) && Times(st'.log, FINAL) == Times(st.log, FINAL)
            && (Quiet(e, st'.log, base) <==> Quiet(e, st.log, base) && ret == 0)
  {
    hide Times, Appended, Quiet, Alarm, EnforcedStatus;
    var polled := st.log + [Poll];
    LogFacts(e, base, st.log, Poll);
    if e.intervention(polled).Some? {
      InterventionsAreEnforced(e.intervention(polled).value);
      LogFacts(e, base, polled, UpdateStatus(EnforcedStatus(e.intervention(polled).value)));
    }
  }

  lemma LogFacts(e: Oracle, base: nat, log: seq<Call>, c: Call)
    requires base <= |log| && (c == Poll || c.UpdateStatus?)
    ensures var log' := log + [c];
            && Appended(log', Response) == Appended(log, Response) && Times(log', FINAL) == Times(log, FINAL)
            && (Quiet(e, log', base) <==> Quiet(e, log, base) && (c == Poll ==> e.intervention(log').None?))
  {
    QuietNext(e, log, c, base);
    AppendedNext(log, c, Response);
    TimesNext(log, c, FINAL);
    assert Appended(log, Response) + [] == Appended(log, Response);
  }

  // ---------- refusals ----------

  /** Enough for any way of refusing: what was sent, the engine has seen. */
  predicate Refusable(base: nat, st: Resp) {
    && base <= |st.log| && st.pages == [] && !st.aborted
    && (!st.delayed ==> st.pending == []) && (st.delayed ==> st.downstream == [])
    && st.downstream <= st.received && Payload(st.downstream) <= Inspected(st)
    && Times(st.log, FINAL) <= 1 && (st.phase4Done ==> Times(st.log, FINAL) == 1)
  }

  lemma RefusalsKeepInv(e: Oracle, base: nat, st: Resp, status: int)
    requires Refusable(base, st) && Refuses(status)
    ensures !st.drop ==> Inv(e, base, Refuse(st, status).0)
    ensures !st.drop && st.downstream == [] ==> Inv(e, base, Die(st, status))
    ensures st.drop ==> Inv(e, base, DropResponse(st).0)
    ensures Inv(e, base, DenyBody(st, status).0)
  {
  }

  lemma StopHeadersKeepsInv(e: Oracle, base: nat, st: Resp, status: int)
    requires Refusable(base, st) && Refuses(status) && st.downstream == []
    ensures StopHeaders(st, status).Stop? && Inv(e, base, StopHeaders(st, status).st)
  {
    RefusalsKeepInv(e, base, st, status);
  }

  // ---------- phase 3 ----------

  /** Nothing sent, nothing held, no phase-4 call, nothing appended. */
  predicate Untouched(e: Oracle, base: nat, st: Resp) {
    && base <= |st.log| && st.attached && !st.triggered && st.exit == InChain
    && st.phase3Done && !st.delayed && !st.drop && !st.aborted && !st.phase4Done
    && st.pages == [] && st.pending == [] && st.pendingLen == 0 && st.downstream == []
    && Inspected(st) == [] && Times(st.log, FINAL) == 0
  }

  /** What phase 3 leaves: a refusal, a release of the first brigade, or the body loop. */
  predicate Phase3Fine(e: Oracle, base: nat, h: Headers, bb: seq<Bucket>) {
    if h.Stop? then Inv(e, base, h.st)
    else if h.StepOut? then h.how in {Uninspected, Sse} && Inv(e, base, Release(h.st, bb, h.how))
    else Mid(e, base, h.st, []) && h.st.received == bb && h.st.downstream == [] && h.st.pending == []
  }

  lemma UninspectedReleased(e: Oracle, base: nat, st: Resp, bb: seq<Bucket>)
    requires base <= |st.log| && !st.triggered && !st.delayed && st.phase4Done
    requires Quiet(e, st.log, base) && st.pages == [] && !st.drop && !st.aborted
    requires st.pending == [] && st.downstream == [] && st.received == bb
    requires Inspected(st) == [] && Times(st.log, FINAL) == 1 && EndsWithPhase4(st.log)
    ensures Inv(e, base, Release(st, bb, Uninspected))
  {
    assert st.downstream + st.pending + bb == bb;
  }

  lemma FinaliseKeepsInv(e: Oracle, base: nat, st: Resp, bb: seq<Bucket>)
    requires Untouched(e, base, st) && Quiet(e, st.log, base) && st.received == bb
    ensures Phase3Fine(e, base, Finalise(e, st), bb)
  {
    var st1 := Called(st, FINAL);
    CalledFacts(e, base, st, FINAL);
    if e.rc(st1.log) < 0 {
      RefusalsKeepInv(e, base, st1, HTTP_INTERNAL_SERVER_ERROR);
    } else {
      var st1' := st1.(phase4Done := true);
      PolledShape(e, st1');
      PolledHistory(e, base, st1');
      var (st2, ret) := Polled(e, st1');
      if ret > 0 {
        StopHeadersKeepsInv(e, base, st2, ret);
      } else {
        UninspectedReleased(e, base, st2, bb);
      }
    }
  }

  /** Phase 3 up to the headers: submitted and processed. */
  lemma SubmitKeeps(e: Oracle, base: nat, st: Resp, pairs: seq<Pair>)
    requires Untouched(e, base, st) && Quiet(e, st.log, base)
    ensures var (ok, log) := SubmitHeaders(e, st.log, Response, pairs);
            Untouched(e, base, st.(log := log)) && (ok ==> Quiet(e, log, base))
  {
    EveryHeaderSubmitted(e, st.log, Response, pairs);
    SubmissionQuiet(e, st.log, Response, pairs, base);
    var log := SubmitHeaders(e, st.log, Response, pairs).1;
    HeadersAppendNothing(st.log, log, Response);
    HeadersCountNothing(st.log, log, FINAL);
  }

  /** From the submitted headers on. */
  lemma HeadersProcessed(e: Oracle, base: nat, st: Resp)
    requires Untouched(e, base, st) && Quiet(e, st.log, base)
    ensures var st2 := Called(st, ProcessHeaders(Response));
            var st3 := Called(st2, BodyAccessible(Response));
            && Untouched(e, base, st2)
            && Untouched(e, base, st3) && Untouched(e, base, Called(st3, BodyProcessable(Response)))
            && (e.rc(st2.log) >= 0 ==> Quiet(e, st3.log, base))
            && (e.rc(st2.log) >= 0 ==> Quiet(e, Called(st3, BodyProcessable(Response)).log, base))
  {
    var st2 := Called(st, ProcessHeaders(Response));
    var st3 := Called(st2, BodyAccessible(Response));
    CalledFacts(e, base, st, ProcessHeaders(Response));
    CalledFacts(e, base, st2, BodyAccessible(Response));
    CalledFacts(e, base, st3, BodyProcessable(Response));
  }

  lemma DecideIsFine(e: Oracle, req: Req, env: Env, base: nat, st: Resp, bb: seq<Bucket>)
    requires Untouched(e, base, st) && Quiet(e, st.log, base) && st.received == bb
    ensures Phase3Fine(e, base, Decide(e, req, env, st), bb)
  {
    hide Times, Appended, Quiet, Alarm, EnforcedStatus, Polled, StopHeaders, Finalise;
    PolledShape(e, st);
    PolledHistory(e, base, st);
    var (st5, ret) := Polled(e, st);
    if ret > 0 {
      StopHeadersKeepsInv(e, base, st5, ret);
    } else if !st5.processable {
      FinaliseKeepsInv(e, base, st5, bb);
    } else {
      assert st5.downstream + st5.pending + bb == bb;
    }
  }

  lemma Phase3IsFine(e: Oracle, req: Req, env: Env, base: nat, st: Resp, bb: seq<Bucket>)
    requires Untouched(e, base, st.(phase3Done := true)) && Quiet(e, st.log, base) && st.received == bb
    ensures Phase3Fine(e, base, Phase3(e, req, env, st), bb)
  {
    var st0 := st.(phase3Done := true);
    SubmitKeeps(e, base, st0, req.headers);
    var (ok, log) := SubmitHeaders(e, st0.log, Response, req.headers);
    var st1 := st0.(log := log);
    var st2 := Called(st1, ProcessHeaders(Response));
    if !ok {
      RefusalsKeepInv(e, base, st1, HTTP_INTERNAL_SERVER_ERROR);
    } else {
      HeadersProcessed(e, base, st1);
      if e.rc(st2.log) < 0 {
        RefusalsKeepInv(e, base, st2, HTTP_INTERNAL_SERVER_ERROR);
      } else {
        var st3 := Called(st2, BodyAccessible(Response));
        var st4 := Called(st3, BodyProcessable(Response));
        DecideIsFine(e, req, env, base, st3.(processable := false), bb);
        DecideIsFine(e, req, env, base, st4.(processable := e.rc(st4.log) != 0), bb);
      }
    }
  }

  // ---------- the body ----------

  /** In the body loop, `seen` being the part of the brigade inspected so far. */
  predicate Mid(e: Oracle, base: nat, st: Resp, seen: seq<Bucket>) {
    && base <= |st.log| && st.attached && !st.triggered && st.exit == InChain
    && Quiet(e, st.log, base) && Times(st.log, FINAL) == 0
    && st.phase3Done && st.processable && !st.drop && !st.aborted && !st.phase4Done && st.pages == []
    && (!st.delayed ==> st.pending == [])
    && Payload(st.downstream + st.pending + seen) == Inspected(st)
    && Inspectable(st.downstream + st.pending + seen) && Eos !in st.downstream + st.pending
    && (st.delayed ==> st.downstream == [] && |Payload(st.pending + seen)| == st.pendingLen <= MAX_DELAYED_BODY)
  }

  /** What an inspection that went through `seen` leaves behind. */
  predicate Inspection(e: Oracle, base: nat, st: Resp, seen: seq<Bucket>, r: Body) {
    var all := st.downstream + st.pending + seen;
    && SameResponse(st, r.st) && base <= |r.st.log|
    && Times(r.st.log, FINAL) == 0 && Payload(st.downstream) <= Inspected(r.st)
    && (r.Clean? ==> Mid(e, base, r.st, seen))
    && (r.Overflow? ==> st.delayed && !r.st.drop && Quiet(e, r.st.log, base)
                        && Inspected(r.st) <= Payload(all) && |Payload(all)| > MAX_DELAYED_BODY)
    && (r.Bad? ==> !r.st.drop)
    && (r.Deny? ==> Refuses(r.status))
  }

  lemma PayloadNext(a: seq<Bucket>, b: Bucket)
    ensures Payload(a + [b]) == Payload(a) + BytesOf(b)
  {
    PayloadConcat(a, [b]);
    assert Payload([b]) == BytesOf(b) + [] == BytesOf(b);
  }

  /** The payload of what was sent is what the engine saw first. */
  lemma MidPrefix(e: Oracle, base: nat, st: Resp, seen: seq<Bucket>)
    requires Mid(e, base, st, seen)
    ensures Payload(st.downstream) <= Inspected(st)
  {
    hide Times, Appended, Quiet, Payload;
    assert st.downstream + st.pending + seen == st.downstream + (st.pending + seen);
    PayloadConcat(st.downstream, st.pending + seen);
  }

  lemma MetaBucket(e: Oracle, base: nat, st: Resp, seen: seq<Bucket>, b: Bucket)
    requires Mid(e, base, st, seen) && BytesOf(b) == [] && !b.Broken?
    ensures Mid(e, base, st, seen + [b])
  {
    var all := st.downstream + st.pending + seen;
    assert st.downstream + st.pending + (seen + [b]) == all + [b];
    assert st.pending + (seen + [b]) == (st.pending + seen) + [b];
    PayloadNext(all, b);
    PayloadNext(st.pending + seen, b);
  }

  /** A data bucket counted, then appended and polled clean. */
  lemma DataBucket(e: Oracle, base: nat, st: Resp, seen: seq<Bucket>, b: Bucket, st': Resp)
    requires Mid(e, base, st, seen) && !b.Broken? && !b.Eos? && !Oversized(b)
    requires SameResponse(st, st') && base <= |st'.log| && !st'.drop
    requires st'.pendingLen == st.pendingLen + if st.delayed then |BytesOf(b)| else 0
    requires st.delayed ==> st'.pendingLen <= MAX_DELAYED_BODY
    requires Quiet(e, st'.log, base) && Times(st'.log, FINAL) == 0 && Inspected(st') == Inspected(st) + BytesOf(b)
    ensures Mid(e, base, st', seen + [b])
  {
    hide Times, Appended, Quiet, Payload;
    var all := st.downstream + st.pending + seen;
    assert st.downstream + st.pending + (seen + [b]) == all + [b];
    assert st.pending + (seen + [b]) == (st.pending + seen) + [b];
    PayloadNext(all, b);
    PayloadNext(st.pending + seen, b);
  }

  lemma CapCrossed(e: Oracle, base: nat, st: Resp, seen: seq<Bucket>, b: Bucket)
    requires Mid(e, base, st, seen) && st.delayed && |Payload(st.pending + seen)| + |BytesOf(b)| > MAX_DELAYED_BODY
    ensures var all := st.downstream + st.pending + (seen + [b]);
            Inspected(st) <= Payload(all) && |Payload(all)| > MAX_DELAYED_BODY
  {
    hide Times, Appended, Quiet, Payload;
    var all := st.downstream + st.pending + seen;
    assert st.downstream + st.pending + (seen + [b]) == all + [b];
    PayloadNext(all, b);
    assert all == st.pending + seen;
  }

  /** The appended bytes only ever grow. */
  lemma StillPrefix(a: seq<byte>, b: seq<byte>, c: seq<byte>)
    requires a <= b
    ensures a <= b + c
  {
  }

  lemma BucketInspected(e: Oracle, base: nat, st: Resp, seen: seq<Bucket>, b: Bucket)
    requires Mid(e, base, st, seen)
    ensures Inspection(e, base, st, seen + [b], InspectBucket(e, st, b))
  {
    hide Times, Appended, Quiet, Payload, Alarm, EnforcedStatus, Polled;
    MidPrefix(e, base, st, seen);
    if b.Eos? || b.Meta? || (!b.Broken? && b.bytes == []) {
      MetaBucket(e, base, st, seen, b);
    } else if !b.Broken? {
      var st1 := if st.delayed then st.(pendingLen := st.pendingLen + |b.bytes|) else st;
      if st1.delayed && st1.pendingLen > MAX_DELAYED_BODY {
        CapCrossed(e, base, st, seen, b);
      } else if !Oversized(b) {
        var append := AppendBody(Response, b.bytes);
        var st2 := Called(st1, append);
        CalledFacts(e, base, st1, append);
        AppendAlarm(e, st1.log, b.bytes);
        PolledShape(e, st2);
        PolledHistory(e, base, st2);
        var (st3, ret) := Polled(e, st2);
        StillPrefix(Payload(st.downstream), Inspected(st), b.bytes);
        if e.rc(st2.log) == 0 && ret == 0 {
          DataBucket(e, base, st, seen, b, st3);
        }
      }
    }
  }

  lemma AppendAlarm(e: Oracle, log: seq<Call>, bytes: seq<byte>)
    ensures var log' := log + [AppendBody(Response, bytes)];
            Alarm(e, log') <==> e.rc(log') != 0
  {
  }

  /** What stopped at a bucket stopped for the brigade. */
  lemma StoppedEarly(e: Oracle, base: nat, st: Resp, seen: seq<Bucket>, rest: seq<Bucket>, r: Body)
    requires Inspection(e, base, st, seen, r) && !r.Clean?
    ensures Inspection(e, base, st, seen + rest, r)
  {
    hide Times, Appended, Quiet, Payload;
    var all := st.downstream + st.pending + seen;
    assert st.downstream + st.pending + (seen + rest) == all + rest;
    PayloadConcat(all, rest);
  }

  lemma {:induction false} BrigadeInspected(e: Oracle, base: nat, st: Resp, seen: seq<Bucket>, bb: seq<Bucket>)
    requires Mid(e, base, st, seen)
    ensures Inspection(e, base, st, seen + bb, Inspect(e, st, bb))
    decreases |bb|
  {
    hide Times, Appended, Quiet, Payload, InspectBucket;
    if bb == [] {
      assert seen + bb == seen;
      MidPrefix(e, base, st, seen);
    } else {
      var r := InspectBucket(e, st, bb[0]);
      BucketInspected(e, base, st, seen, bb[0]);
      assert seen + bb == (seen + [bb[0]]) + bb[1..];
      if r.Clean? {
        BrigadeInspected(e, base, r.st, seen + [bb[0]], bb[1..]);
      } else {
        StoppedEarly(e, base, st, seen + [bb[0]], bb[1..], r);
      }
    }
  }

  // ---------- one brigade ----------

  lemma FinishKeepsInv(e: Oracle, env: Env, base: nat, st: Resp, bb: seq<Bucket>)
    requires Mid(e, base, st, bb) && st.received == st.downstream + st.pending + bb && Eos in bb
    ensures Inv(e, base, Finish(e, env, st, bb).0)
  {
    hide Times, Appended, Quiet, Payload, Alarm, EnforcedStatus, Polled;
    var st1 := Called(st, FINAL);
    CalledFacts(e, base, st, FINAL);
    MidPrefix(e, base, st, bb);
    assert Inspected(st) + [] == Inspected(st);
    if e.rc(st1.log) < 0 {
      RefusalsKeepInv(e, base, st1, HTTP_INTERNAL_SERVER_ERROR);
    } else {
      FinalQuiet(e, st1.log);
      PolledShape(e, st1);
      PolledHistory(e, base, st1);
      var (st2, ret) := Polled(e, st1);
      var st3 := st2.(phase4Done := true);
      if ret > 0 {
        RefusalsKeepInv(e, base, st3, ret);
      }
    }
  }

  lemma FinalQuiet(e: Oracle, log: seq<Call>)
    requires log != [] && log[|log| - 1] == FINAL && e.rc(log) >= 0
    ensures !Alarm(e, log)
  {
  }

  lemma Phase4KeepsInv(e: Oracle, env: Env, base: nat, st: Resp, bb: seq<Bucket>)
    requires Mid(e, base, st, []) && st.received == st.downstream + st.pending + bb
    ensures Inv(e, base, Phase4(e, env, st, bb).0)
  {
    hide Times, Appended, Quiet, Payload, Inspect, Finish, Refuse, DenyBody;
    BrigadeInspected(e, base, st, [], bb);
    assert [] + bb == bb;
    var r := Inspect(e, st, bb);
    var st1 := r.st;
    if r.Bad? {
      RefusalsKeepInv(e, base, st1, HTTP_INTERNAL_SERVER_ERROR);
    } else if r.Deny? {
      RefusalsKeepInv(e, base, st1, r.status);
    } else if r.Clean? {
      if Eos in bb {
        FinishKeepsInv(e, env, base, st1, bb);
      } else if st1.delayed && !env.saveOk {
        MidPrefix(e, base, st1, bb);
        RefusalsKeepInv(e, base, st1, HTTP_INTERNAL_SERVER_ERROR);
      } else {
        Kept(e, base, st1, bb);
      }
    } else {
      assert st1.downstream == [];
    }
  }

  /** A brigade without EOS is sent, or held while the response is delayed. */
  lemma Kept(e: Oracle, base: nat, st: Resp, bb: seq<Bucket>)
    requires Mid(e, base, st, bb) && st.received == st.downstream + st.pending + bb && Eos !in bb
    ensures Inv(e, base, if st.delayed then st.(pending := st.pending + bb) else st.(downstream := st.downstream + bb))
  {
    hide Times, Appended, Quiet, Payload;
    assert st.downstream + (st.pending + bb) == st.received;
    assert !st.delayed ==> st.downstream + bb == st.received;
  }

  /** The invariant at a brigade boundary is the loop invariant before its first bucket. */
  lemma StreamingIsMid(e: Oracle, base: nat, st: Resp, bb: seq<Bucket>)
    requires Inv(e, base, st) && st.attached && st.phase3Done
    ensures var st0 := st.(received := st.received + bb);
            Mid(e, base, st0, []) && st0.received == st0.downstream + st0.pending + bb
  {
    assert st.downstream + st.pending + [] == st.received && st.pending + [] == st.pending;
  }

  lemma OutputKeepsInv(e: Oracle, req: Req, env: Env, base: nat, st: Resp, bb: seq<Bucket>)
    requires Inv(e, base, st) && st.attached
    ensures Inv(e, base, Output(e, req, env, st, bb).0)
  {
    hide Times, Appended, Quiet, Payload, Phase3, Phase4;
    var st0 := st.(received := st.received + bb);
    if st.phase3Done {
      StreamingIsMid(e, base, st, bb);
      Phase4KeepsInv(e, env, base, st0, bb);
    } else {
      FirstBrigade(e, base, st, bb);
      Phase3IsFine(e, req, env, base, st0, bb);
      var h := Phase3(e, req, env, st0);
      if h.Go? {
        MidStart(e, base, h.st, bb);
        Phase4KeepsInv(e, env, base, h.st, bb);
      }
    }
  }

  lemma FirstBrigade(e: Oracle, base: nat, st: Resp, bb: seq<Bucket>)
    requires Inv(e, base, st) && st.attached && !st.phase3Done
    ensures var st0 := st.(received := st.received + bb);
            Untouched(e, base, st0.(phase3Done := true)) && Quiet(e, st0.log, base) && st0.received == bb
  {
    assert Payload([]) == [];
    assert st.downstream == [] && st.pending == [];
  }

  lemma MidStart(e: Oracle, base: nat, st: Resp, bb: seq<Bucket>)
    requires Mid(e, base, st, []) && st.received == bb && st.downstream == [] && st.pending == []
    ensures st.received == st.downstream + st.pending + bb
  {
  }

  // ---------- every run ----------

  lemma FreshInv(e: Oracle, log: seq<Call>, status: int)
    requires Appended(log, Response) == [] && Times(log, FINAL) == 0
    ensures Inv(e, |log|, Fresh(log, status))
  {
  }

  /** The invariant, with all it says of every way out, holds after any run of brigades,
      whatever the engine answers and whatever the request is. */
  lemma {:induction false} RunKeepsInv(e: Oracle, req: Req, base: nat, st: Resp, run: seq<(Env, seq<Bucket>)>)
    requires Inv(e, base, st)
    ensures Inv(e, base, Run(e, req, st, run))
    decreases |run|
  {
    hide Inv, Output;
    if run != [] && st.attached {
      OutputKeepsInv(e, req, run[0].0, base, st, run[0].1);
      RunKeepsInv(e, req, base, Output(e, req, run[0].0, st, run[0].1).0, run[1..]);
    }
  }
}
