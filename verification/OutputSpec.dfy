/**
 The response filter as a state machine: what one brigade does to the response,
 and what a whole run of brigades amounts to.
 */
module OutputSpec {
  import opened Wire
  import opened HeaderCodec
  import opened Engine
  import opened Brigade

  const MAX_DELAYED_BODY: nat := 1024 * 1024

  /** How the filter stepped out of the chain, if it has. */
  datatype Exit =
    | InChain
    | Completed      // EOS seen, phase 4 clean, everything released
    | Flushed        // the delayed body passed the cap
    | Sse            // an inspected event stream: not delayed, not inspected further
    | Uninspected    // the body is not inspected: phase 4 finalised before the headers
    | Refused        // denied, dropped or failed closed

  /** What the filter reads off the request. `headers` are those the client will see, in
      the order they are submitted. */
  datatype Req = Req(headers: seq<Pair>, headerOnly: bool, subrequest: bool, sse: bool)

  /** What a filter returns: it is the next one's answer when a brigade is passed on. */
  datatype Code = Success | FilterError | General | ConnAborted | OtherStatus(rv: int)

  /** What is decided outside, brigade by brigade: whether allocating and saving the pending
      brigade succeed, and what the next filter returns for what it is passed. */
  datatype Env = Env(createOk: bool, saveOk: bool, next: Code)

  /** The context and request fields the filter works on, followed by the history of the
      response: the buckets it was given, those it passed on, the error pages produced. */
  datatype Resp = Resp(
    attached: bool,
    triggered: bool,
    phase3Done: bool,
    phase4Done: bool,
    delayed: bool,
    processable: bool,
    drop: bool,
    pending: seq<Bucket>,
    pendingLen: nat,
    status: int,
    aborted: bool,
    log: seq<Call>,
    received: seq<Bucket>,
    downstream: seq<Bucket>,
    pages: seq<int>,
    exit: Exit)

  // ---------- the ways out ----------

  /** Remove the filter and hand everything held, then the brigade, to the next one. */
  function Release(st: Resp, bb: seq<Bucket>, how: Exit): Resp {
    st.(attached := false, delayed := false, pending := [], downstream := st.downstream + st.pending + bb, exit := how)
  }

  /** Refuse with an error page, nothing having been sent. */
  function Die(st: Resp, status: int): Resp {
    st.(attached := false, triggered := true, delayed := false, pending := [], status := status,
        pages := st.pages + [status], exit := Refused)
  }

  /** Refuse a response whose headers are already out: truncate it. */
  function Truncate(st: Resp, status: int): Resp {
    st.(attached := false, triggered := true, status := status, exit := Refused)
  }

  function Refuse(st: Resp, status: int): (Resp, Code) {
    if st.delayed then (Die(st, status), FilterError) else (Truncate(st, status), General)
  }

  function DropResponse(st: Resp): (Resp, Code) {
    (st.(attached := false, triggered := true, delayed := false, pending := if st.delayed then [] else st.pending,
         status := HTTP_FORBIDDEN, aborted := true, exit := Refused), ConnAborted)
  }

  // ---------- engine calls ----------

  function Called(st: Resp, c: Call): Resp {
    st.(log := st.log + [c])
  }

  /** `coraza_process_intervention`: 0 when nothing is queued, else the status to enforce. */
  function Polled(e: Oracle, st: Resp): (Resp, int) {
    var log := st.log + [Poll];
    match e.intervention(log)
    case None => (st.(log := log), 0)
    case Some(iv) =>
      var status := EnforcedStatus(iv);
      (st.(log := log + [UpdateStatus(status)], drop := st.drop || IsDrop(iv)), status)
  }

  // ---------- phase 3 ----------

  datatype Headers = Go(st: Resp) | StepOut(st: Resp, how: Exit) | Stop(st: Resp, code: Code)

  /** A refusal with nothing sent yet. */
  function StopHeaders(st: Resp, status: int): Headers {
    if st.drop then
      var (st1, code) := DropResponse(st);
      Stop(st1, code)
    else Stop(Die(st, status), FilterError)
  }

  function Phase3(e: Oracle, req: Req, env: Env, st: Resp): Headers {
    var st0 := st.(phase3Done := true);
    var (ok, log) := SubmitHeaders(e, st0.log, Response, req.headers);
    var st1 := st0.(log := log);
    if !ok then Stop(Die(st1, HTTP_INTERNAL_SERVER_ERROR), FilterError)
    else
      var st2 := Called(st1, ProcessHeaders(Response));
      if e.rc(st2.log) < 0 then Stop(Die(st2, HTTP_INTERNAL_SERVER_ERROR), FilterError)
      else
        var st3 := Called(st2, BodyAccessible(Response));
        var accessible := e.rc(st3.log) != 0;
        var st4 := if accessible then Called(st3, BodyProcessable(Response)) else st3;
        Decide(e, req, env, st4.(processable := accessible && e.rc(st4.log) != 0))
  }

  /** The headers are processed: refuse, step out, or start on the body. */
  function Decide(e: Oracle, req: Req, env: Env, st: Resp): Headers {
    var (st1, ret) := Polled(e, st);
    if ret > 0 then StopHeaders(st1, ret)
    else if !st1.processable then Finalise(e, st1)
    else if req.sse then StepOut(st1, Sse)
    else Go(st1.(delayed := !req.headerOnly && !req.subrequest && st1.status < 400 && env.createOk))
  }

  /** Phase 4 of a body that is not inspected, before any header goes out. */
  function Finalise(e: Oracle, st: Resp): Headers {
    var st1 := Called(st, ProcessBody(Response));
    if e.rc(st1.log) < 0 then Stop(Die(st1, HTTP_INTERNAL_SERVER_ERROR), FilterError)
    else
      var (st2, ret) := Polled(e, st1.(phase4Done := true));
      if ret > 0 then StopHeaders(st2, ret) else StepOut(st2, Uninspected)
  }

  // ---------- phase 4 ----------

  datatype Body = Clean(st: Resp) | Overflow(st: Resp) | Bad(st: Resp) | Deny(st: Resp, status: int)

  predicate Oversized(b: Bucket) {
    |BytesOf(b)| > INT_MAX
  }

  function InspectBucket(e: Oracle, st: Resp, b: Bucket): Body {
    if b.Eos? || b.Meta? then Clean(st)
    else if b.Broken? then Bad(st)
    else
      var st1 := if st.delayed then st.(pendingLen := st.pendingLen + |b.bytes|) else st;
      if b.bytes == [] then Clean(st)
      else if st1.delayed && st1.pendingLen > MAX_DELAYED_BODY then Overflow(st1)
      else if !st1.processable then Clean(st1)
      else if Oversized(b) then Bad(st1)
      else SubmitBytes(e, st1, b.bytes)
  }

  /** Append the bytes of a bucket, then poll. */
  function SubmitBytes(e: Oracle, st: Resp, bytes: seq<byte>): Body {
    var st1 := Called(st, AppendBody(Response, bytes));
    if e.rc(st1.log) != 0 then Bad(st1)
    else
      var (st2, ret) := Polled(e, st1);
      if ret > 0 then Deny(st2, ret) else Clean(st2)
  }

  /** The buckets of a brigade in order, up to the first that is not clean. */
  function Inspect(e: Oracle, st: Resp, bb: seq<Bucket>): Body
    decreases |bb|
  {
    if bb == [] then Clean(st)
    else
      var r := InspectBucket(e, st, bb[0]);
      if r.Clean? then Inspect(e, r.st, bb[1..]) else r
  }

  function DenyBody(st: Resp, status: int): (Resp, Code) {
    if st.drop then DropResponse(st) else Refuse(st, status)
  }

  /** The end of the response: phase 4 decides before anything held is released. */
  function Finish(e: Oracle, env: Env, st: Resp, bb: seq<Bucket>): (Resp, Code) {
    var st1 := Called(st, ProcessBody(Response));
    if e.rc(st1.log) < 0 then Refuse(st1, HTTP_INTERNAL_SERVER_ERROR)
    else
      var (st2, ret) := Polled(e, st1);
      var st3 := st2.(phase4Done := true);
      if ret > 0 then DenyBody(st3, ret) else (Release(st3, bb, Completed), env.next)
  }

  function Phase4(e: Oracle, env: Env, st: Resp, bb: seq<Bucket>): (Resp, Code) {
    match Inspect(e, st, bb)
    case Overflow(st1) => (Release(st1, bb, Flushed), env.next)
    case Bad(st1) => Refuse(st1, HTTP_INTERNAL_SERVER_ERROR)
    case Deny(st1, status) => DenyBody(st1, status)
    case Clean(st1) =>
      if Eos in bb then Finish(e, env, st1, bb)
      else if !st1.delayed then (st1.(downstream := st1.downstream + bb), env.next)
      else if !env.saveOk then Refuse(st1, HTTP_INTERNAL_SERVER_ERROR)
      else (st1.(pending := st1.pending + bb), Success)
  }

  /** One brigade through the filter. */
  function Output(e: Oracle, req: Req, env: Env, st: Resp, bb: seq<Bucket>): (Resp, Code) {
    var st0 := st.(received := st.received + bb);
    if st.triggered then (st0.(attached := false, downstream := st0.downstream + bb), env.next)
    else if st.phase3Done then Phase4(e, env, st0, bb)
    else
      match Phase3(e, req, env, st0)
      case Stop(st1, code) => (st1, code)
      case StepOut(st1, how) => (Release(st1, bb, how), env.next)
      case Go(st1) => Phase4(e, env, st1, bb)
  }

  /** A whole run: brigades reach the filter as long as it is in the chain. */
  function Run(e: Oracle, req: Req, st: Resp, run: seq<(Env, seq<Bucket>)>): Resp
    decreases |run|
  {
    if run == [] || !st.attached then st
    else Run(e, req, Output(e, req, run[0].0, st, run[0].1).0, run[1..])
  }

  /** A response about to start, after any earlier calls on the transaction. */
  function Fresh(log: seq<Call>, status: int): Resp {
    Resp(true, false, false, false, false, false, false, [], 0, status, false, log, [], [], [], InChain)
  }
}
