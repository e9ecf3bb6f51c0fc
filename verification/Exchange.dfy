/**
 One client request end to end: the chain of request records an internal redirect
 makes of it, the response of each, the replayed body and the audit entry.
 */
module Exchange {
  import opened Wire
  import opened Engine
  import opened Brigade
  import opened Context
  import opened RequestHook
  import opened RequestResults
  import opened OutputSpec
  import opened OutputProof
  import opened OutputResults
  import opened OutputFilter
  import opened BodyReplay

  /** The response a request record produces. */
  datatype Answer = Answer(
    headersOut: seq<TableEntry>,
    contentType: Option<CString>,
    errHeadersOut: seq<TableEntry>,
    headerOnly: bool,
    eventStream: bool,
    status: int,
    brigades: seq<(Env, seq<Bucket>)>)

  /** Each phase of the request at most once, and one audit entry exactly when logged. */
  ghost predicate Accounted(c: RequestCtx)
    reads c
  {
    && (forall call | OncePerRequest(call) :: Times(c.log, call) <= 1)
    && Times(c.log, ProcessLogging) == if c.logged then 1 else 0
  }

  ghost predicate Steady(c: RequestCtx)
    reads c
  {
    (!c.headersDelayed ==> c.pendingBrigade == []) && (!c.phase3Done ==> !c.headersDelayed)
  }

  /** A redirect chain: each record leads back through the earlier ones, nearest first. */
  ghost predicate IsChain(hops: seq<HttpRequest>) {
    && (forall i, j | 0 <= i < j < |hops| :: hops[i] != hops[j])
    && (forall i | 0 <= i < |hops| :: |hops[i].prev| == i)
    && (forall i, j | 0 <= j < i < |hops| :: hops[i].prev[j] == hops[i - 1 - j])
  }

  lemma NearestIsShared(prev: seq<HttpRequest>, the: RequestCtx?)
    requires forall p | p in prev :: p.ctx == null || p.ctx == the
    ensures NearestCtx(prev) == null || NearestCtx(prev) == the
    ensures NearestCtx(prev) == null ==> forall p | p in prev :: p.ctx == null
  {
  }

  /** A fresh context is accounted for, wherever its hook stopped. */
  lemma FreshAccounted(r: HttpRequest)
    requires r.ctx != null && r.AuditedOnce()
    requires r.ctx.log == r.Script() || FollowsSome(r.engine, r.ctx.log, r.Script())
    ensures Accounted(r.ctx)
  {
    hide Times, Follows;
    forall call | OncePerRequest(call) ensures Times(r.ctx.log, call) <= 1 {
      ScriptOnce(r.engine, r.Pairs(), r.Chunks(), call);
      if r.ctx.log != r.Script() {
        var k: nat :| Follows(r.engine, r.ctx.log, r.Script(), k);
        StoppedOnce(r.engine, r.ctx.log, r.Script(), k, call);
      }
    }
  }

  /** A response on the shared transaction. */
  method Respond(c: RequestCtx, subrequest: bool, a: Answer)
    requires Steady(c) && Accounted(c)
    modifies c
    ensures Steady(c) && Accounted(c) && c.logged == old(c.logged)
    ensures old(c.interventionTriggered) ==> c.interventionTriggered && c.log == old(c.log)
  {
    hide Times, Run;
    var f := new ResponseFilter(c, a.headersOut, a.contentType, a.errHeadersOut, a.headerOnly, subrequest,
                                a.eventStream, a.status);
    ghost var st := f.State();
    f.Respond(a.brigades);
    if st.triggered {
      DeniedRunIsUntouched(c.engine, f.Request(), st, a.brigades);
    }
    assert f.State().log == c.log && c.logged == old(c.logged);
    assert Times(st.log, ProcessLogging) == if c.logged then 1 else 0;
    forall call | RequestOnly(call) ensures Times(c.log, call) == Times(st.log, call) {
      RunCount(c.engine, f.Request(), st, a.brigades, call);
    }
  }

  /** A response on a transaction whose response the engine has not seen: at its end, and so
      after any number of brigades, the filter's state satisfies the whole invariant. */
  method RespondFresh(c: RequestCtx, subrequest: bool, a: Answer) returns (f: ResponseFilter)
    requires ResponseIdle(c) && ResponseUnseen(c.log)
    requires !c.interventionTriggered && !c.dropConnection && !c.responseBodyProcessable
    modifies c
    ensures fresh(f) && f.ctx == c && Inv(c.engine, |old(c.log)|, f.State())
  {
    hide Times, Run, Inv;
    f := new ResponseFilter(c, a.headersOut, a.contentType, a.errHeadersOut, a.headerOnly, subrequest,
                            a.eventStream, a.status);
    RunInv(c.engine, f.Request(), c.log, a.status, a.brigades);
    f.Respond(a.brigades);
  }

  /** What the chain has come to after some hops: one context at most, accounted for. */
  ghost predicate OneTransaction(hops: seq<HttpRequest>, the: RequestCtx?)
    reads hops, if the == null then {} else {the}
  {
    && (forall r | r in hops :: r.ctx == null || r.ctx == the)
    && (the != null ==> Steady(the) && Accounted(the))
  }

  /** The fixups hook of the next hop. */
  method Hop(hops: seq<HttpRequest>, i: nat, the: RequestCtx?) returns (ret: int, the': RequestCtx?)
    requires IsChain(hops) && i < |hops| && OneTransaction(hops[..i], the)
    requires (forall j | 0 <= j < i :: hops[j].ctx == null) ==> the == null
    requires hops[i].ctx == null && !hops[i].aborted
    requires hops[i].setupRc == OK || hops[i].setupRc >= 400
    modifies hops[i]
    ensures OneTransaction(hops[..i + 1], the') && (the != null ==> the' == the)
    ensures (forall j | 0 <= j < i + 1 :: hops[j].ctx == null) ==> the' == null
    ensures the' != the ==> hops[i].ctx == the'
    ensures hops[i].ctx != null ==> hops[i].enabled
    ensures the' != null ==> the' == the || fresh(the')
  {
    var r := hops[i];
    assert forall j | 0 <= j < i :: hops[i].prev[j] == hops[i - 1 - j] && hops[i - 1 - j] in hops[..i];
    assert forall j | 0 <= j < i :: hops[j] in hops[..i] && hops[j] != r && hops[j] == hops[i].prev[i - 1 - j];
    assert r !in r.prev;
    NearestIsShared(r.prev, the);
    ghost var found := NearestCtx(r.prev);
    ret := r.PostReadRequest();
    the' := if the != null then the else r.ctx;
    assert hops[..i + 1] == hops[..i] + [r];
    if r.ctx != null && found == null {
      assert forall j | 0 <= j < i :: hops[j].ctx == null;
      FreshAccounted(r);
    }
  }

  /** The hops of a chain from `first` on, with their responses. Once the transaction is
      denied none of them calls the engine. */
  method ServeHops(hops: seq<HttpRequest>, first: nat, the: RequestCtx?, answers: seq<Answer>)
    returns (last: RequestCtx?)
    requires IsChain(hops) && |answers| == |hops| && first <= |hops| && OneTransaction(hops[..first], the)
    requires (forall j | 0 <= j < first :: hops[j].ctx == null) ==> the == null
    requires forall j | 0 <= j < first :: hops[j].ctx != null ==> hops[j].enabled
    requires forall j | first <= j < |hops| :: Unserved(hops[j])
    modifies hops, if the == null then {} else {the}
    ensures OneTransaction(hops, last) && (the != null ==> last == the) && (last != the ==> fresh(last))
    ensures forall r | r in hops :: r.ctx != null ==> r.enabled
    ensures old(the != null && the.interventionTriggered) ==> the.interventionTriggered && the.log == old(the.log)
  {
    last := the;
    var i := first;
    while i < |hops|
      invariant first <= i <= |hops| && OneTransaction(hops[..i], last)
      invariant (the != null ==> last == the) && (last != the ==> fresh(last))
      invariant (forall j | 0 <= j < i :: hops[j].ctx == null) ==> last == null
      invariant forall j | 0 <= j < i :: hops[j].ctx != null ==> hops[j].enabled
      invariant forall j | i <= j < |hops| :: Unserved(hops[j])
      invariant old(the != null && the.interventionTriggered) ==> the.interventionTriggered && the.log == old(the.log)
    {
      var r := hops[i];
      assert r in hops;
      var ret;
      ret, last := Hop(hops, i, last);
      if r.ctx != null && r.outputFilter {
        assert hops[..i + 1][i] == r;
        Respond(last, r.isSubrequest, answers[i]);
      }
      i := i + 1;
    }
    assert hops[..i] == hops;
  }

  /** A record no hook has seen. */
  ghost predicate Unserved(r: HttpRequest)
    reads r
  {
    r.ctx == null && !r.aborted && (r.setupRc == OK || r.setupRc >= 400)
  }

  /** Some record the log hook is run for is inspected, by a scope that is on. */
  ghost predicate SomeInspected(ended: seq<HttpRequest>)
    reads ended
  {
    exists r :: r in ended && r.ctx != null && r.enabled
  }

  /** The log hook over the records it is run for: the entry is written, once, exactly when
      it was not yet and one of them is inspected. */
  method LogHooks(ended: seq<HttpRequest>, the: RequestCtx?)
    requires forall r | r in ended :: r.ctx == null || r.ctx == the
    requires the != null ==> Steady(the) && Accounted(the)
    modifies (if the == null then {} else {the})`log, (if the == null then {} else {the})`logged
    ensures the != null ==>
              && Steady(the) && Accounted(the)
              && (the.logged <==> old(the.logged) || SomeInspected(ended))
              && the.log == old(the.log) + if the.logged && !old(the.logged) then [ProcessLogging] else []
  {
    var i := 0;
    while i < |ended|
      invariant 0 <= i <= |ended|
      invariant the != null ==>
                  && Steady(the) && Accounted(the)
                  && (the.logged <==> old(the.logged) || SomeInspected(ended[..i]))
                  && the.log == old(the.log) + if the.logged && !old(the.logged) then [ProcessLogging] else []
    {
      var r := ended[i];
      assert r in ended && ended[..i + 1] == ended[..i] + [r];
      if r.ctx != null {
        Audit(r.ctx, r.enabled);
      }
      i := i + 1;
    }
    assert ended[..i] == ended;
  }

  /** What is left of a client request from any hop on: when the transaction is denied by
      then, whatever hops and responses follow add the audit entry at most. */
  method ServeRest(hops: seq<HttpRequest>, first: nat, the: RequestCtx?, answers: seq<Answer>, ended: seq<HttpRequest>)
    returns (last: RequestCtx?)
    requires IsChain(hops) && |answers| == |hops| && first <= |hops| && OneTransaction(hops[..first], the)
    requires (forall j | 0 <= j < first :: hops[j].ctx == null) ==> the == null
    requires forall j | 0 <= j < first :: hops[j].ctx != null ==> hops[j].enabled
    requires forall j | first <= j < |hops| :: Unserved(hops[j])
    requires forall r | r in ended :: r in hops
    modifies hops, if the == null then {} else {the}
    ensures OneTransaction(hops, last) && (the != null ==> last == the)
    ensures last != null && SomeContext(ended) ==> last.logged
    ensures old(the != null && the.interventionTriggered) ==>
              the.log == old(the.log) || the.log == old(the.log) + [ProcessLogging]
  {
    last := ServeHops(hops, first, the, answers);
    LogHooks(ended, last);
  }

  ghost predicate SomeContext(ended: seq<HttpRequest>)
    reads ended
  {
    exists r :: r in ended && r.ctx != null
  }

  /** One client request, whatever redirects it goes through, whatever the responses and the
      engine: all its records share one transaction, on which each request phase ran at most
      once and at most one audit entry was written; one was if the log hook was run for any
      record that shares the transaction. */
  method ServeClient(hops: seq<HttpRequest>, answers: seq<Answer>, ended: seq<HttpRequest>)
    returns (ghost the: RequestCtx?)
    requires IsChain(hops) && |answers| == |hops| && forall r | r in ended :: r in hops
    requires forall r | r in hops :: Unserved(r)
    modifies hops
    ensures forall r | r in hops :: r.ctx == null || r.ctx == the
    ensures the != null ==> Accounted(the) && Times(the.log, ProcessLogging) <= 1
    ensures the != null && SomeContext(ended) ==> Times(the.log, ProcessLogging) == 1
  {
    var last := ServeRest(hops, 0, null, answers, ended);
    the := last;
  }

  /** The log_transaction hook of one record that has a context. */
  method Audit(c: RequestCtx, enabled: bool)
    requires Steady(c) && Accounted(c)
    modifies c`log, c`logged
    ensures Steady(c) && Accounted(c) && c.logged == (old(c.logged) || enabled)
    ensures c.log == old(c.log) + if c.logged && !old(c.logged) then [ProcessLogging] else []
  {
    hide Times;
    ghost var log := c.log;
    c.LogTransaction(enabled);
    if c.log != log {
      forall call | OncePerRequest(call) || call == ProcessLogging
        ensures Times(c.log, call) == Times(log, call) + if call == ProcessLogging then 1 else 0
      {
        TimesNext(log, ProcessLogging, call);
      }
    }
  }

  /** The body round trip: whatever the chunks, the in-memory limit and the reads, a handler
      that is reached and reads to the end gets the client's body, then one EOS. */
  method DeliverBody(r: HttpRequest, plan: nat -> (Mode, int)) returns (ret: int, got: seq<Bucket>)
    requires r.IsFresh() && r.hasBody && !r.aborted && (r.setupRc == OK || r.setupRc >= 400) && r !in r.prev
    requires forall k: nat :: Consuming(plan(k).0)
    modifies r
    ensures ret == DECLINED ==>
              && r.ctx != null && Payload(got) == Concat(r.body.chunks)
              && got != [] && got[|got| - 1] == Eos && Eos !in got[..|got| - 1]
  {
    hide Concat, Payload, Replayable, AllData, HttpRequest.Saved, HttpRequest.Denied, HttpRequest.Clean, Follows;
    got := [];
    ret := r.PostReadRequest();
    if ret != DECLINED {
      return;
    }
    r.SavedIsBody(r.ctx.savedBody.value, r.inMemory);
    var f := new ReplayFilter(r.ctx);
    got := f.ReadToEnd(plan);
  }
}
