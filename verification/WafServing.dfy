/**
 Requests: the sections that apply are merged into the base of the server and the
 WAF of the result is resolved; over a run, what one request leaves on the
 configurations is what later ones inherit.
 */
module WafServing {
  import opened WafCache
  import opened WafConf
  import opened WafChild

  /** One request runs exactly its own rules, or has no WAF, if and only if the handle it
      inherits is 0 or was built from them. `own` is the handle of its configuration, and
      `waf` the one its transaction uses. */
  method Serve(p: ChildProcess, v: Plan, server: ServerConf) returns (own: nat, waf: nat)
    requires p.Valid() && p.cache.ready && WellFormedPlan(v)
    modifies p`nextHandle, p`attempts, p`built, p`requestBuilds, p.cache, p.cache.table
    modifies Source(v)`waf, (if BaseMemo(v) == null then {} else {BaseMemo(v)})`waf
    ensures p.Valid() && p.cache.ready && p.Grown(old(p.built))
    ensures Wanted(v) != [] ==> (p.Agrees(own, Wanted(v)) <==> old(p.Agrees(Inherited(v), Wanted(v))))
    // an inherited handle is kept
    ensures Wanted(v) != [] && old(Inherited(v)) != 0 ==> own == old(Inherited(v)) && p.built == old(p.built)
    // without one, it has a WAF exactly when its list is cached or accepted
    ensures Wanted(v) != [] && old(Inherited(v)) == 0 ==>
              (own != 0 <==> Wanted(v) in old(p.cache.Contents()) || Accepted(p.engine, old(p.attempts), Wanted(v)))
    ensures p.attempts == old(p.attempts) + if Wanted(v) != [] && old(Inherited(v)) == 0 &&
                                               Wanted(v) !in old(p.cache.Contents()) then 1 else 0
    // what the request leaves behind
    ensures Source(v).waf == if Remembers(v) then own else old(Source(v).waf)
    ensures var memo := BaseMemo(v);
            memo != null && memo != Source(v) ==>
              memo.waf == if Remembers(v) && old(Source(v).waf) == 0 then own else old(memo.waf)
    ensures waf == if own != 0 then own else server.waf
    ensures p.requestBuilds == old(p.requestBuilds)
            || (Wanted(v) !in old(p.cache.Contents()) && Wanted(v) != [] &&
                p.requestBuilds == old(p.requestBuilds) + [Wanted(v)] && own in p.built && own !in old(p.built))
  {
    SourceFacts(v);
    LeavesAreAllocated(v);
    var merged := MergeAll(v);
    hide Accepted;
    assert merged.hasRules <==> Wanted(v) != [];
    waf := p.ResolveWaf(merged, server);
    own := merged.waf;
  }

  // ---------- runs ----------

  /** The configurations of a run are well formed, and what one that is used as it is
      remembers its outcome on is its alone. */
  predicate Runnable(plans: seq<Plan>) {
    && (forall v | v in plans :: WellFormedPlan(v))
    && (forall v, w | v in plans && w in plans && BaseMemo(v) != null ::
          BaseMemo(v) !in Leaves(w) && (BaseMemo(v) == BaseMemo(w) ==> v == w))
  }

  /** Once a request has left its outcome on a configuration, every later one that takes its
      handle from there has the same rules. */
  predicate Stable(plans: seq<Plan>) {
    forall i, j | 0 <= i < j < |plans| && Source(plans[i]) == Source(plans[j]) && Remembers(plans[i]) ::
      Wanted(plans[i]) == Wanted(plans[j])
  }

  function Sources(plans: seq<Plan>): set<DirConf> {
    set v | v in plans :: Source(v)
  }

  function BaseMemos(plans: seq<Plan>): set<DirConf> {
    set v | v in plans && BaseMemo(v) != null :: BaseMemo(v)
  }

  /** What a configuration was last merged from holds the same handle, or none. */
  ghost predicate Settled(plans: seq<Plan>)
    reads Sources(plans)`waf, BaseMemos(plans)`waf
  {
    forall v | v in plans && BaseMemo(v) != null :: BaseMemo(v).waf in {0, Source(v).waf}
  }

  /** The handle the request takes from its source is 0 or was built from its rules. */
  ghost predicate HoldsRight(p: ChildProcess, v: Plan)
    reads p`built, Source(v)`waf
  {
    Right(p, Held(v), Wanted(v))
  }

  /** A request with rules has a WAF built from exactly these or, its build having failed,
      none. */
  ghost predicate Right(p: ChildProcess, waf: nat, rules: seq<Rule>)
    reads p`built
  {
    rules != [] ==> p.Agrees(waf, rules)
  }

  ghost predicate AllRight(p: ChildProcess, owns: seq<nat>, plans: seq<Plan>)
    requires |owns| <= |plans|
    reads p`built
  {
    forall k | 0 <= k < |owns| :: Right(p, owns[k], Wanted(plans[k]))
  }

  predicate NoneFailed(owns: seq<nat>, plans: seq<Plan>)
    requires |owns| <= |plans|
  {
    forall k | 0 <= k < |owns| && Wanted(plans[k]) != [] :: owns[k] != 0
  }

  /** The `i`-th request of a run: what it gets and what it leaves. */
  method ServeOne(p: ChildProcess, plans: seq<Plan>, i: nat, server: ServerConf) returns (own: nat)
    requires p.Valid() && p.cache.ready && i < |plans| && Runnable(plans) && Settled(plans)
    modifies p`nextHandle, p`attempts, p`built, p`requestBuilds, p.cache, p.cache.table
    modifies Sources(plans)`waf, BaseMemos(plans)`waf
    ensures p.Valid() && p.cache.ready && Settled(plans) && p.Grown(old(p.built))
    ensures Right(p, own, Wanted(plans[i])) <==> old(HoldsRight(p, plans[i]))
    ensures Wanted(plans[i]) != [] && old(Held(plans[i])) != 0 ==> own == old(Held(plans[i]))
    ensures Wanted(plans[i]) != [] && AlwaysAccepted(p.engine, Wanted(plans[i])) ==> own != 0
    ensures forall d | d in Sources(plans) ::
              d.waf == if d == Source(plans[i]) && Remembers(plans[i]) then own else old(d.waf)
    ensures p.requestBuilds == old(p.requestBuilds) || p.requestBuilds == old(p.requestBuilds) + [Wanted(plans[i])]
  {
    var v := plans[i];
    assert v in plans;
    forall w | w in plans ensures Source(w) in Leaves(w) {
      SourceFacts(w);
    }
    hide Accepted;
    assert Inherited(v) == Held(v);
    var waf;
    own, waf := Serve(p, v, server);
  }

  /** Once a request has left its handle on its source, that is what the source keeps and what
      every later request takes from there. */
  ghost predicate Remembered(owns: seq<nat>, plans: seq<Plan>, k: nat)
    requires k < |owns| <= |plans|
    reads Source(plans[k])`waf
  {
    RememberedAs(owns, plans, k, Source(plans[k]).waf)
  }

  predicate RememberedAs(owns: seq<nat>, plans: seq<Plan>, k: nat, waf: nat)
    requires k < |owns| <= |plans|
  {
    Remembers(plans[k]) && owns[k] != 0 ==>
      && waf == owns[k]
      && forall b | k <= b < |owns| && Source(plans[b]) == Source(plans[k]) :: owns[b] == waf
  }

  /** The source held `was` before the last request. */
  lemma RememberedNext(owns: seq<nat>, own: nat, plans: seq<Plan>, k: nat, was: nat, now: nat)
    requires k < |owns| < |plans| && RememberedAs(owns, plans, k, was)
    requires WellFormedPlan(plans[k]) && WellFormedPlan(plans[|owns|])
    requires var last := plans[|owns|];
             && now == (if Source(plans[k]) == Source(last) && Remembers(last) then own else was)
             && (Source(plans[k]) == Source(last) && Wanted(last) != [] && was != 0 ==> own == was)
    ensures RememberedAs(owns + [own], plans, k, now)
  {
    SourceFacts(plans[k]);
    SourceFacts(plans[|owns|]);
    var more := owns + [own];
    assert more[|owns|] == own && forall b | 0 <= b < |owns| :: more[b] == owns[b];
  }

  /** A run in which each request is right and none failed is stable. */
  lemma RightRunIsStable(p: ChildProcess, owns: seq<nat>, plans: seq<Plan>)
    requires |owns| == |plans| && Runnable(plans) && forall k | 0 <= k < |owns| :: Remembered(owns, plans, k)
    requires AllRight(p, owns, plans) && NoneFailed(owns, plans)
    ensures Stable(plans)
  {
    forall i, j | 0 <= i < j < |plans| && Source(plans[i]) == Source(plans[j]) && Remembers(plans[i])
      ensures Wanted(plans[i]) == Wanted(plans[j])
    {
      assert plans[i] in plans && plans[j] in plans && Remembered(owns, plans, i);
      SourceFacts(plans[i]);
      SourceFacts(plans[j]);
      assert Right(p, owns[i], Wanted(plans[i])) && Right(p, owns[j], Wanted(plans[j]));
    }
  }

  /** The requests from the `i`-th on would find right handles as things are. */
  ghost predicate HoldRight(p: ChildProcess, plans: seq<Plan>, i: nat)
    reads p`built, Sources(plans)`waf
  {
    forall k | i <= k < |plans| :: plans[k] in plans && HoldsRight(p, plans[k])
  }

  /** The next request, with what those before have left. A stable run keeps the handles of
      later requests right. */
  method ServeNext(p: ChildProcess, plans: seq<Plan>, owns: seq<nat>, server: ServerConf) returns (own: nat)
    requires p.Valid() && p.cache.ready && |owns| < |plans| && Runnable(plans) && Settled(plans)
    requires forall k | 0 <= k < |owns| :: Remembered(owns, plans, k)
    modifies p`nextHandle, p`attempts, p`built, p`requestBuilds, p.cache, p.cache.table
    modifies Sources(plans)`waf, BaseMemos(plans)`waf
    ensures p.Valid() && p.cache.ready && Settled(plans) && p.Grown(old(p.built))
    ensures forall k | 0 <= k <= |owns| :: Remembered(owns + [own], plans, k)
    ensures Stable(plans) && old(HoldRight(p, plans, |owns|)) ==>
              HoldRight(p, plans, |owns| + 1) && Right(p, own, Wanted(plans[|owns|]))
    ensures Wanted(plans[|owns|]) != [] && AlwaysAccepted(p.engine, Wanted(plans[|owns|])) ==> own != 0
    ensures forall d | d in Sources(plans) :: d.waf == old(d.waf) || d.waf == 0 || d.waf in p.built
    ensures p.requestBuilds == old(p.requestBuilds) || p.requestBuilds == old(p.requestBuilds) + [Wanted(plans[|owns|])]
  {
    hide ChildProcess.Valid, Settled, AlwaysAccepted;
    var i := |owns|;
    own := ServeOne(p, plans, i, server);
    assert plans[i] in plans;
    SourceFacts(plans[i]);
    forall k | 0 <= k <= i ensures Remembered(owns + [own], plans, k) {
      assert plans[k] in plans && Source(plans[k]) in Sources(plans);
      if k < i {
        assert old(Remembered(owns, plans, k));
        RememberedNext(owns, own, plans, k, old(Source(plans[k]).waf), Source(plans[k]).waf);
      }
    }
    if Stable(plans) && old(HoldRight(p, plans, i)) {
      assert old(HoldsRight(p, plans[i]));
      forall k | i + 1 <= k < |plans| ensures HoldsRight(p, plans[k]) {
        assert plans[k] in plans && Source(plans[k]) in Sources(plans) && old(HoldsRight(p, plans[k]));
      }
    }
  }

  /** Every request with rules runs a WAF built from exactly these. */
  ghost predicate AllRun(p: ChildProcess, owns: seq<nat>, plans: seq<Plan>)
    requires |owns| <= |plans|
    reads p`built
  {
    forall k | 0 <= k < |owns| && Wanted(plans[k]) != [] :: p.BuiltFrom(owns[k], Wanted(plans[k]))
  }

  function ListsOf(plans: seq<Plan>): set<seq<Rule>> {
    set v | v in plans :: Wanted(v)
  }

  /** A run of requests, whatever the rule lists and however full the cache. From right
      handles, when the run is stable each request runs a WAF built from its own rules or,
      its build having failed, none; when all do and no build failed, the run is stable.
      Only a list first compiled after 64 others can be compiled again. */
  method ServeAll(p: ChildProcess, plans: seq<Plan>, servers: seq<ServerConf>) returns (owns: seq<nat>)
    requires p.Valid() && p.cache.ready && Runnable(plans) && Settled(plans) && |servers| == |plans|
    modifies p`nextHandle, p`attempts, p`built, p`requestBuilds, p.cache, p.cache.table
    modifies Sources(plans)`waf, BaseMemos(plans)`waf
    ensures p.Valid() && p.cache.ready && p.Grown(old(p.built)) && |owns| == |plans|
    ensures Stable(plans) && old(HoldRight(p, plans, 0)) ==> AllRight(p, owns, plans)
    ensures AllRight(p, owns, plans) && NoneFailed(owns, plans) ==> Stable(plans)
    // what the engine accepts is never left without a WAF
    ensures forall k | 0 <= k < |owns| && Wanted(plans[k]) != [] && AlwaysAccepted(p.engine, Wanted(plans[k])) ::
              owns[k] != 0
    ensures (forall v | v in plans :: AlwaysAccepted(p.engine, Wanted(v))) && old(HoldRight(p, plans, 0)) ==>
              (AllRun(p, owns, plans) <==> Stable(plans))
    ensures forall d | d in Sources(plans) :: d.waf == old(d.waf) || d.waf == 0 || d.waf in p.built
    ensures forall i, j | 0 <= i < j < |p.requestBuilds| && p.requestBuilds[i] == p.requestBuilds[j] :: i >= CACHE_MAX
    ensures forall l | l in p.requestBuilds :: l in old(p.requestBuilds) || l in ListsOf(plans)
  {
    hide Stable, Settled, HoldRight, Remembered, Runnable, AlwaysAccepted, AllRun, NoneFailed, ChildProcess.Valid;
    owns := [];
    var i := 0;
    while i < |plans|
      invariant 0 <= i == |owns| <= |plans| && p.Valid() && p.cache.ready && Settled(plans)
      invariant forall k | 0 <= k < i :: Remembered(owns, plans, k)
      invariant Stable(plans) && old(HoldRight(p, plans, 0)) ==> HoldRight(p, plans, i) && AllRight(p, owns, plans)
      invariant p.Grown(old(p.built))
      invariant forall k | 0 <= k < i && Wanted(plans[k]) != [] && AlwaysAccepted(p.engine, Wanted(plans[k])) ::
                  owns[k] != 0
      invariant forall d | d in Sources(plans) :: d.waf == old(d.waf) || d.waf == 0 || d.waf in p.built
      invariant forall l | l in p.requestBuilds :: l in old(p.requestBuilds) || l in ListsOf(plans)
    {
      assert plans[i] in plans;
      label before:
      var own := ServeNext(p, plans, owns, servers[i]);
      forall k | 0 <= k < i && old@before(AllRight(p, owns, plans)) ensures Right(p, owns[k], Wanted(plans[k])) {
        assert old@before(Right(p, owns[k], Wanted(plans[k])));
      }
      owns := owns + [own];
      i := i + 1;
    }
    if AllRight(p, owns, plans) && NoneFailed(owns, plans) {
      RightRunIsStable(p, owns, plans);
    }
    AcceptedRun(p, owns, plans);
    RecompiledPastTheCache(p);
  }

  lemma RecompiledPastTheCache(p: ChildProcess)
    requires p.Valid() && p.cache.ready
    ensures forall i, j | 0 <= i < j < |p.requestBuilds| && p.requestBuilds[i] == p.requestBuilds[j] :: i >= CACHE_MAX
  {
  }

  /** When nothing is refused, being right and running the own rules are one. */
  lemma AcceptedRun(p: ChildProcess, owns: seq<nat>, plans: seq<Plan>)
    requires |owns| == |plans| && p.Valid()
    requires forall k | 0 <= k < |owns| && Wanted(plans[k]) != [] && AlwaysAccepted(p.engine, Wanted(plans[k])) ::
               owns[k] != 0
    ensures (forall v | v in plans :: AlwaysAccepted(p.engine, Wanted(v))) ==>
              NoneFailed(owns, plans) && (AllRun(p, owns, plans) <==> AllRight(p, owns, plans))
  {
    hide AlwaysAccepted;
    if forall v | v in plans :: AlwaysAccepted(p.engine, Wanted(v)) {
      assert forall k | 0 <= k < |plans| :: plans[k] in plans;
    }
  }

  /** From a cold start, with at most 64 distinct lists in play, no list is compiled twice. */
  lemma FewListsOnce(p: ChildProcess, plans: seq<Plan>)
    requires p.Valid() && p.cache.ready && |ListsOf(plans)| <= CACHE_MAX
    requires forall l | l in p.requestBuilds :: l in ListsOf(plans)
    ensures DistinctLists(p.requestBuilds)
  {
    p.NeverCompiledTwice(ListsOf(plans));
  }

  // ---------- what goes wrong otherwise ----------

  /** The handle is remembered on one configuration, whatever it was merged under. Of two
      requests that take theirs from the same one, the second gets the WAF built for the first,
      and nothing corrects it: it is the right one exactly when both have the same rules. */
  method MemoIgnoresThePath(p: ChildProcess, first: Plan, second: Plan, server: ServerConf)
    returns (own: nat, next: nat)
    requires p.Valid() && p.cache.ready && WellFormedPlan(first) && WellFormedPlan(second)
    requires Source(first) == Source(second) && Remembers(first) && Inherited(first) == 0 && Wanted(second) != []
    modifies p, p.cache, p.cache.table, Source(first)`waf
    modifies (if BaseMemo(first) == null then {} else {BaseMemo(first)})`waf
    modifies (if BaseMemo(second) == null then {} else {BaseMemo(second)})`waf
    ensures own != 0 ==>
              && next == own
              && (p.Agrees(next, Wanted(second)) <==> Wanted(first) == Wanted(second))
  {
    SourceFacts(first);
    SourceFacts(second);
    var waf;
    own, waf := Serve(p, first, server);
    next, waf := Serve(p, second, server);
  }

  /** For the same section merged last, the same rules mean the same rules before it. */
  lemma SameRulesBefore(before: Plan, before': Plan, section: Plan)
    ensures Wanted(Merged(before, section)) == Wanted(Merged(before', section)) <==> Wanted(before) == Wanted(before')
  {
    if Wanted(before) + Wanted(section) == Wanted(before') + Wanted(section) {
      SuffixCancels(Wanted(before), Wanted(before'), Wanted(section));
    }
  }

  lemma SuffixCancels<T>(a: seq<T>, b: seq<T>, c: seq<T>)
    requires a + c == b + c
    ensures a == b
  {
    assert |a + c| == |b + c|;
    assert a == (a + c)[..|a|] && b == (b + c)[..|b|];
  }
}
