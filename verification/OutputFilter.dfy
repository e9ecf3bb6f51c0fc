/** The response filter: an object whose calls follow the state machine of OutputSpec. */
module OutputFilter {
  import opened Wire
  import opened HeaderCodec
  import opened Engine
  import opened Brigade
  import opened Context
  import opened OutputSpec

  const CONTENT_TYPE: CString := [67, 111, 110, 116, 101, 110, 116, 45, 84, 121, 112, 101]

  /** The headers the client will see: the response table, the content type kept outside
      it, and those sent even on errors. */
  function ResponseHeaders(out: seq<TableEntry>, contentType: Option<CString>, err: seq<TableEntry>): seq<Pair> {
    PairsOf(out) + (if contentType.Some? then [Pair(CONTENT_TYPE, contentType.value)] else []) + PairsOf(err)
  }

  /** What is submitted for a response, position by position: the entries with a key of the
      response table, then the content type if there is one, then those of the error table. */
  lemma ResponseHeadersAt(out: seq<TableEntry>, contentType: Option<CString>, err: seq<TableEntry>, i: nat)
    ensures var pairs, n := ResponseHeaders(out, contentType, err), Keyed(out) + if contentType.Some? then 1 else 0;
            && |pairs| == n + Keyed(err)
            && (i < |out| && out[i].key.Some? ==>
                  && Keyed(out[..i]) < Keyed(out) && pairs[Keyed(out[..i])].name == out[i].key.value
                  && pairs[Keyed(out[..i])].value == if out[i].value.Some? then out[i].value.value else [])
            && (contentType.Some? ==>
                  pairs[Keyed(out)].value == contentType.value && Spells(pairs[Keyed(out)].name, "Content-Type"))
            && (i < |err| && err[i].key.Some? ==>
                  && Keyed(err[..i]) < Keyed(err) && pairs[n + Keyed(err[..i])].name == err[i].key.value
                  && pairs[n + Keyed(err[..i])].value == if err[i].value.Some? then err[i].value.value else [])
  {
    PairAt(out, if i <= |out| then i else |out|);
    PairAt(err, if i <= |err| then i else |err|);
  }

  predicate Spells(bytes: seq<byte>, text: string) {
    |bytes| == |text| && forall k | 0 <= k < |text| :: bytes[k] as int == text[k] as int
  }

  class ResponseFilter {
    const ctx: RequestCtx

    // the request the filter is attached to
    const headersOut: seq<TableEntry>
    const contentType: Option<CString>
    const errHeadersOut: seq<TableEntry>
    const headerOnly: bool
    const subrequest: bool
    const eventStream: bool
    var status: int
    var aborted: bool

    var attached: bool

    // what the rest of the server sees of this filter
    ghost var received: seq<Bucket>
    ghost var downstream: seq<Bucket>
    ghost var pages: seq<int>
    ghost var exit: Exit

    ghost function Request(): Req {
      Req(ResponseHeaders(headersOut, contentType, errHeadersOut), headerOnly, subrequest, eventStream)
    }

    ghost function State(): Resp
      reads this, ctx
    {
      Resp(attached, ctx.interventionTriggered, ctx.phase3Done, ctx.phase4Done, ctx.headersDelayed,
           ctx.responseBodyProcessable, ctx.dropConnection, ctx.pendingBrigade, ctx.pendingLen, status, aborted,
           ctx.log, received, downstream, pages, exit)
    }

    ghost predicate Valid()
      reads ctx
    {
      && (!ctx.headersDelayed ==> ctx.pendingBrigade == [])
      && (!ctx.phase3Done ==> !ctx.headersDelayed)
    }

    constructor (ctx: RequestCtx, headersOut: seq<TableEntry>, contentType: Option<CString>,
                 errHeadersOut: seq<TableEntry>, headerOnly: bool, subrequest: bool, eventStream: bool, status: int)
      ensures this.ctx == ctx && this.headersOut == headersOut && this.contentType == contentType
      ensures this.errHeadersOut == errHeadersOut && this.headerOnly == headerOnly
      ensures this.subrequest == subrequest && this.eventStream == eventStream
      ensures this.status == status && !aborted && attached
      ensures received == [] && downstream == [] && pages == [] && exit == InChain
    {
      this.ctx := ctx;
      this.headersOut, this.contentType, this.errHeadersOut := headersOut, contentType, errHeadersOut;
      this.headerOnly, this.subrequest, this.eventStream := headerOnly, subrequest, eventStream;
      this.status, aborted, attached := status, false, true;
      received, downstream, pages, exit := [], [], [], InChain;
    }

    // ---------- the ways out ----------

    /** `ap_die` with the status cleared first. */
    method GenerateErrorPage(code: int)
      modifies this`status, this`pages
      ensures status == code && pages == old(pages) + [code]
    {
      status := HTTP_OK;
      status := code;
      pages := pages + [code];
    }

    method StepOutWith(env: Env, bb: seq<Bucket>, ghost how: Exit) returns (code: Code)
      requires Valid()
      modifies this
      modifies ctx`log, ctx`pendingBrigade, ctx`pendingLen, ctx`headersDelayed, ctx`phase3Done, ctx`phase4Done
      modifies ctx`interventionTriggered, ctx`responseBodyProcessable, ctx`dropConnection
      ensures Valid() && State() == Release(old(State()), bb, how) && code == env.next
    {
      var out := bb;
      if ctx.headersDelayed {
        ctx.headersDelayed := false;
        out := ctx.pendingBrigade + bb;
        ctx.pendingBrigade := [];
      }
      attached := false;
      assert old(downstream) + old(ctx.pendingBrigade) + bb == old(downstream) + out;
      downstream, exit := downstream + out, how;
      code := env.next;
    }

    method FailClosedHeaders() returns (code: Code)
      requires Valid() && !ctx.headersDelayed
      modifies this
      modifies ctx`log, ctx`pendingBrigade, ctx`pendingLen, ctx`headersDelayed, ctx`phase3Done, ctx`phase4Done
      modifies ctx`interventionTriggered, ctx`responseBodyProcessable, ctx`dropConnection
      ensures Valid() && State() == Die(old(State()), HTTP_INTERNAL_SERVER_ERROR) && code == FilterError
    {
      ctx.interventionTriggered := true;
      attached, exit := false, Refused;
      GenerateErrorPage(HTTP_INTERNAL_SERVER_ERROR);
      code := FilterError;
    }

    method DenyHeaders(ret: int) returns (code: Code)
      requires Valid() && !ctx.headersDelayed
      modifies this
      modifies ctx`log, ctx`pendingBrigade, ctx`pendingLen, ctx`headersDelayed, ctx`phase3Done, ctx`phase4Done
      modifies ctx`interventionTriggered, ctx`responseBodyProcessable, ctx`dropConnection
      ensures Valid() && StopHeaders(old(State()), ret) == Stop(State(), code)
    {
      if ctx.dropConnection {
        code := Drop();
        return;
      }
      ctx.interventionTriggered := true;
      attached, exit := false, Refused;
      GenerateErrorPage(ret);
      code := FilterError;
    }

    method FailClosedResponse() returns (code: Code)
      requires Valid()
      modifies this
      modifies ctx`log, ctx`pendingBrigade, ctx`pendingLen, ctx`headersDelayed, ctx`phase3Done, ctx`phase4Done
      modifies ctx`interventionTriggered, ctx`responseBodyProcessable, ctx`dropConnection
      ensures Valid() && (State(), code) == Refuse(old(State()), HTTP_INTERNAL_SERVER_ERROR)
    {
      ctx.interventionTriggered := true;
      attached, exit := false, Refused;
      status := HTTP_INTERNAL_SERVER_ERROR;
      if ctx.headersDelayed {
        ctx.headersDelayed := false;
        ctx.pendingBrigade := [];
        GenerateErrorPage(HTTP_INTERNAL_SERVER_ERROR);
        return FilterError;
      }
      code := General;
    }

    method DenyResponse(ret: int) returns (code: Code)
      requires Valid()
      modifies this
      modifies ctx`log, ctx`pendingBrigade, ctx`pendingLen, ctx`headersDelayed, ctx`phase3Done, ctx`phase4Done
      modifies ctx`interventionTriggered, ctx`responseBodyProcessable, ctx`dropConnection
      ensures Valid() && (State(), code) == DenyBody(old(State()), ret)
    {
      if ctx.dropConnection {
        code := Drop();
        return;
      }
      ctx.interventionTriggered := true;
      attached, exit := false, Refused;
      if ctx.headersDelayed {
        ctx.headersDelayed := false;
        ctx.pendingBrigade := [];
        GenerateErrorPage(ret);
        return FilterError;
      }
      status := ret;
      code := General;
    }

    method Drop() returns (code: Code)
      requires Valid()
      modifies this
      modifies ctx`log, ctx`pendingBrigade, ctx`pendingLen, ctx`headersDelayed, ctx`phase3Done, ctx`phase4Done
      modifies ctx`interventionTriggered, ctx`responseBodyProcessable, ctx`dropConnection
      ensures Valid() && (State(), code) == DropResponse(old(State()))
    {
      ctx.interventionTriggered := true;
      attached, exit := false, Refused;
      if ctx.headersDelayed {
        ctx.headersDelayed := false;
        ctx.pendingBrigade := [];
      }
      status := HTTP_FORBIDDEN;
      aborted := true;
      code := ConnAborted;
    }

    // ---------- phases ----------

    method Poll() returns (ret: int)
      requires Valid()
      modifies ctx`log, ctx`dropConnection
      ensures Valid() && (State(), ret) == Polled(ctx.engine, old(State()))
    {
      ret := ctx.ProcessIntervention(true, false);
      assert old(ctx.log) + [Call.Poll, UpdateStatus(ret)] + [] == old(ctx.log) + [Call.Poll] + [UpdateStatus(ret)];
    }

    method CollectHeaders() returns (pairs: seq<Pair>)
      ensures pairs == Request().headers
    {
      pairs := CollectPairs(headersOut);
      if contentType.Some? {
        pairs := pairs + [Pair(CONTENT_TYPE, contentType.value)];
      }
      var err := CollectPairs(errHeadersOut);
      pairs := pairs + err;
    }

    /** Phase 3 on the first brigade: `go` when the body loop is to follow. */
    method ProcessHeaders(env: Env, bb: seq<Bucket>) returns (go: bool, code: Code)
      requires Valid() && !ctx.headersDelayed
      modifies this
      modifies ctx`log, ctx`pendingBrigade, ctx`pendingLen, ctx`headersDelayed, ctx`phase3Done, ctx`phase4Done
      modifies ctx`interventionTriggered, ctx`responseBodyProcessable, ctx`dropConnection
      ensures Valid()
      ensures var h := Phase3(ctx.engine, Request(), env, old(State()));
              match h
              case Go(st) => go && State() == st
              case StepOut(st, how) => !go && State() == Release(st, bb, how) && code == env.next
              case Stop(st, c) => !go && State() == st && code == c
    {
      hide SubmitHeaders, Decide, Release, PairsOf, Die;
      ctx.phase3Done := true;
      var pairs := CollectHeaders();
      var ok := ctx.AddAllHeaders(Response, pairs);
      if !ok {
        code := FailClosedHeaders();
        return false, code;
      }
      var rc := ctx.Ask(Call.ProcessHeaders(Response));
      if rc < 0 {
        code := FailClosedHeaders();
        return false, code;
      }
      AskBodyInspected();
      go, code := DecideOnHeaders(env, bb);
    }

    /** Both halves of "will the engine inspect this body?". */
    method AskBodyInspected()
      requires Valid()
      modifies ctx`log, ctx`responseBodyProcessable
      ensures var st1 := Called(old(State()), BodyAccessible(Response));
              var accessible := ctx.engine.rc(st1.log) != 0;
              var st2 := if accessible then Called(st1, BodyProcessable(Response)) else st1;
              State() == st2.(processable := accessible && ctx.engine.rc(st2.log) != 0)
    {
      var rc := ctx.Ask(BodyAccessible(Response));
      if rc != 0 {
        rc := ctx.Ask(BodyProcessable(Response));
      }
      ctx.responseBodyProcessable := rc != 0;
    }

    method DecideOnHeaders(env: Env, bb: seq<Bucket>) returns (go: bool, code: Code)
      requires Valid() && ctx.phase3Done && !ctx.headersDelayed
      modifies this
      modifies ctx`log, ctx`pendingBrigade, ctx`pendingLen, ctx`headersDelayed, ctx`phase3Done, ctx`phase4Done
      modifies ctx`interventionTriggered, ctx`responseBodyProcessable, ctx`dropConnection
      ensures Valid()
      ensures var h := Decide(ctx.engine, Request(), env, old(State()));
              match h
              case Go(st) => go && State() == st
              case StepOut(st, how) => !go && State() == Release(st, bb, how) && code == env.next
              case Stop(st, c) => !go && State() == st && code == c
    {
      var ret := Poll();
      if ret > 0 {
        code := DenyHeaders(ret);
        return false, code;
      }
      if !ctx.responseBodyProcessable {
        code := FinaliseHeaders(env, bb);
        return false, code;
      }
      if eventStream {
        code := StepOutWith(env, bb, Sse);
        return false, code;
      }
      if !(headerOnly || subrequest || status >= 400) {
        if env.createOk {
          ctx.headersDelayed := true;
        }
      }
      go, code := true, Success;
    }

    method FinaliseHeaders(env: Env, bb: seq<Bucket>) returns (code: Code)
      requires Valid() && !ctx.headersDelayed
      modifies this
      modifies ctx`log, ctx`pendingBrigade, ctx`pendingLen, ctx`headersDelayed, ctx`phase3Done, ctx`phase4Done
      modifies ctx`interventionTriggered, ctx`responseBodyProcessable, ctx`dropConnection
      ensures Valid()
      ensures var h := Finalise(ctx.engine, old(State()));
              match h
              case Go(st) => false
              case StepOut(st, how) => State() == Release(st, bb, how) && code == env.next
              case Stop(st, c) => State() == st && code == c
    {
      hide Polled, Die, Release, StopHeaders, EnforcedStatus;
      var rc := ctx.Ask(ProcessBody(Response));
      if rc < 0 {
        code := FailClosedHeaders();
        return;
      }
      ctx.phase4Done := true;
      var ret := Poll();
      if ret > 0 {
        code := DenyHeaders(ret);
        return;
      }
      code := StepOutWith(env, bb, Uninspected);
    }

    /** The loop over the buckets of a brigade; `stop` when it left the filter. */
    method InspectBody(env: Env, bb: seq<Bucket>) returns (stop: bool, code: Code, hasEos: bool)
      requires Valid()
      modifies this
      modifies ctx`log, ctx`pendingBrigade, ctx`pendingLen, ctx`headersDelayed, ctx`phase3Done, ctx`phase4Done
      modifies ctx`interventionTriggered, ctx`responseBodyProcessable, ctx`dropConnection
      ensures Valid()
      ensures match Inspect(ctx.engine, old(State()), bb)
              case Clean(st) => !stop && State() == st && (hasEos <==> Eos in bb)
              case Overflow(st) => stop && State() == Release(st, bb, Flushed) && code == env.next
              case Bad(st) => stop && (State(), code) == Refuse(st, HTTP_INTERNAL_SERVER_ERROR)
              case Deny(st, ret) => stop && (State(), code) == DenyBody(st, ret)
    {
      hide Polled, Refuse, DenyBody;
      hasEos, stop, code := false, false, Success;
      var i := 0;
      while i < |bb|
        invariant 0 <= i <= |bb|
        invariant Valid() && !stop
        invariant Inspect(ctx.engine, old(State()), bb) == Inspect(ctx.engine, State(), bb[i..])
        invariant hasEos <==> Eos in bb[..i]
      {
        var b := bb[i];
        assert bb[i..][1..] == bb[i + 1..];
        assert bb[..i + 1] == bb[..i] + [b];
        stop, code := InspectOne(env, bb, b);
        if stop {
          return;
        }
        if b.Eos? {
          hasEos := true;
        }
        i := i + 1;
      }
      assert bb[..i] == bb;
    }

    method InspectOne(env: Env, bb: seq<Bucket>, b: Bucket) returns (stop: bool, code: Code)
      requires Valid()
      modifies this
      modifies ctx`log, ctx`pendingBrigade, ctx`pendingLen, ctx`headersDelayed, ctx`phase3Done, ctx`phase4Done
      modifies ctx`interventionTriggered, ctx`responseBodyProcessable, ctx`dropConnection
      ensures Valid()
      ensures match InspectBucket(ctx.engine, old(State()), b)
              case Clean(st) => !stop && State() == st
              case Overflow(st) => stop && State() == Release(st, bb, Flushed) && code == env.next
              case Bad(st) => stop && (State(), code) == Refuse(st, HTTP_INTERNAL_SERVER_ERROR)
              case Deny(st, ret) => stop && (State(), code) == DenyBody(st, ret)
    {
      hide Polled, Refuse, DenyBody;
      stop, code := false, Success;
      if b.Eos? || b.Meta? {
        return;
      }
      if b.Broken? {
        code := FailClosedResponse();
        return true, code;
      }
      var len := |b.bytes|;
      if ctx.headersDelayed && len > 0 {
        ctx.pendingLen := ctx.pendingLen + len;
        if ctx.pendingLen > MAX_DELAYED_BODY {
          code := StepOutWith(env, bb, Flushed);
          return true, code;
        }
      }
      if len > 0 && ctx.responseBodyProcessable {
        if len > INT_MAX {
          code := FailClosedResponse();
          return true, code;
        }
        stop, code := SubmitChunk(b.bytes);
      }
    }

    /** Append one chunk and poll. */
    method SubmitChunk(bytes: seq<byte>) returns (stop: bool, code: Code)
      requires Valid()
      modifies this
      modifies ctx`log, ctx`pendingBrigade, ctx`pendingLen, ctx`headersDelayed, ctx`phase3Done, ctx`phase4Done
      modifies ctx`interventionTriggered, ctx`responseBodyProcessable, ctx`dropConnection
      ensures Valid()
      ensures var st := Called(old(State()), AppendBody(Response, bytes));
              var (st1, ret) := Polled(ctx.engine, st);
              if ctx.engine.rc(st.log) != 0 then stop && (State(), code) == Refuse(st, HTTP_INTERNAL_SERVER_ERROR)
              else if ret > 0 then stop && (State(), code) == DenyBody(st1, ret)
              else !stop && State() == st1
    {
      hide Polled, Refuse, DenyBody;
      stop, code := false, Success;
      var rc := ctx.Ask(AppendBody(Response, bytes));
      if rc != 0 {
        code := FailClosedResponse();
        return true, code;
      }
      var ret := Poll();
      if ret > 0 {
        code := DenyResponse(ret);
        return true, code;
      }
    }

    /** EOS: phase 4, then release or refuse. */
    method FinishBody(env: Env, bb: seq<Bucket>) returns (code: Code)
      requires Valid()
      modifies this
      modifies ctx`log, ctx`pendingBrigade, ctx`pendingLen, ctx`headersDelayed, ctx`phase3Done, ctx`phase4Done
      modifies ctx`interventionTriggered, ctx`responseBodyProcessable, ctx`dropConnection
      ensures Valid() && (State(), code) == Finish(ctx.engine, env, old(State()), bb)
    {
      hide Polled, Refuse, DenyBody;
      var rc := ctx.Ask(ProcessBody(Response));
      if rc < 0 {
        code := FailClosedResponse();
        return;
      }
      var ret := Poll();
      ctx.phase4Done := true;
      if ret > 0 {
        code := DenyResponse(ret);
        return;
      }
      code := StepOutWith(env, bb, Completed);
    }

    /** One brigade through the filter, in any state of the context. */
    method Filter(env: Env, bb: seq<Bucket>) returns (code: Code)
      requires Valid()
      modifies this
      modifies ctx`log, ctx`pendingBrigade, ctx`pendingLen, ctx`headersDelayed, ctx`phase3Done, ctx`phase4Done
      modifies ctx`interventionTriggered, ctx`responseBodyProcessable, ctx`dropConnection
      ensures Valid() && (State(), code) == Output(ctx.engine, Request(), env, old(State()), bb)
    {
      hide Phase3, Inspect, Finish, Refuse, DenyBody;
      received := received + bb;
      if ctx.interventionTriggered {
        attached := false;
        downstream := downstream + bb;
        return env.next;
      }
      if !ctx.phase3Done {
        var go;
        go, code := ProcessHeaders(env, bb);
        if !go {
          return;
        }
      }
      code := FilterBody(env, bb);
    }

    method FilterBody(env: Env, bb: seq<Bucket>) returns (code: Code)
      requires Valid()
      modifies this
      modifies ctx`log, ctx`pendingBrigade, ctx`pendingLen, ctx`headersDelayed, ctx`phase3Done, ctx`phase4Done
      modifies ctx`interventionTriggered, ctx`responseBodyProcessable, ctx`dropConnection
      ensures Valid() && (State(), code) == Phase4(ctx.engine, env, old(State()), bb)
    {
      hide Inspect, Finish, Refuse, DenyBody;
      var stop, hasEos;
      stop, code, hasEos := InspectBody(env, bb);
      if stop {
        return;
      }
      if hasEos {
        code := FinishBody(env, bb);
        return;
      }
      if ctx.headersDelayed {
        if !env.saveOk {
          code := FailClosedResponse();
          return;
        }
        ctx.pendingBrigade := ctx.pendingBrigade + bb;
        return Success;
      }
      downstream := downstream + bb;
      code := env.next;
    }

    /** The response as the server drives it: brigades go through the filter as long as it
        is in the chain. */
    method Respond(brigades: seq<(Env, seq<Bucket>)>)
      requires Valid()
      modifies this
      modifies ctx`log, ctx`pendingBrigade, ctx`pendingLen, ctx`headersDelayed, ctx`phase3Done, ctx`phase4Done
      modifies ctx`interventionTriggered, ctx`responseBodyProcessable, ctx`dropConnection
      ensures Valid() && State() == Run(ctx.engine, Request(), old(State()), brigades)
    {
      hide Output;
      var i := 0;
      while attached && i < |brigades|
        invariant 0 <= i <= |brigades|
        invariant Valid()
        invariant Run(ctx.engine, Request(), old(State()), brigades) == Run(ctx.engine, Request(), State(), brigades[i..])
        decreases |brigades| - i
      {
        assert brigades[i..][1..] == brigades[i + 1..];
        var (env, bb) := brigades[i];
        var _ := Filter(env, bb);
        i := i + 1;
      }
    }
  }
}
