/** The whole life of a child: start, requests, exit. */
module WafLife {
  import opened WafCache
  import opened WafConf
  import opened WafChild
  import opened WafServing
  import opened WafStart
  import opened WafExit

  // ---------- the WAFs compiled at start ----------

  ghost predicate LastWithConf(servers: seq<Server>, i: nat)
    requires i < |servers|
  {
    forall k | i < k < |servers| :: servers[k].conf != servers[i].conf
  }

  ghost predicate KeptByBase(servers: seq<Server>, handles: seq<nat>, tracked: seq<DirConf>, waf: nat)
    requires |handles| <= |servers|
  {
    exists d :: d in tracked && !d.hasRules && HeldByFirst(servers, handles, d, waf)
  }

  lemma HeldAfterStart(p: ChildProcess, servers: seq<Server>, tracked: seq<DirConf>, handles: seq<nat>,
                       before: map<nat, seq<Rule>>)
    requires |handles| == |servers| && Compiled(p, servers, handles, before) && ConfsHold(servers, handles)
    requires forall d | d in tracked && d.hasRules :: d.waf == 0 || d.waf !in handles
    requires forall d | d in tracked && !d.hasRules ::
               if d in Bases(servers) then BaseHolds(servers, handles, d) else d.waf == 0
    ensures forall i | 0 <= i < |handles| && handles[i] != 0 ::
              handles[i] in Reachable(tracked, servers) <==>
              LastWithConf(servers, i) || KeptByBase(servers, handles, tracked, handles[i])
  {
    hide HeldByFirst, Compiled, LastWithConf;
    forall i | 0 <= i < |handles| && handles[i] != 0
      ensures handles[i] in ServerHandles(servers) <==> LastWithConf(servers, i)
    {
      LastIsHeld(p, servers, handles, before, i);
    }
    forall d, i | d in tracked && !d.hasRules && 0 <= i < |handles| && handles[i] != 0
      ensures d.waf == handles[i] <==> HeldByFirst(servers, handles, d, handles[i])
    {
      FirstIsUnique(servers, handles, d, handles[i]);
    }
  }

  lemma LastIsHeld(p: ChildProcess, servers: seq<Server>, handles: seq<nat>, before: map<nat, seq<Rule>>, i: nat)
    requires |handles| == |servers| && Compiled(p, servers, handles, before) && ConfsHold(servers, handles)
    requires i < |handles| && handles[i] != 0
    ensures handles[i] in ServerHandles(servers) <==> LastWithConf(servers, i)
  {
    hide LastWithConf, ConfHolds;
    assert servers[i] in servers && ConfHolds(servers, handles, i);
    var j := LastOf(servers, handles, i);
    if handles[i] in ServerHandles(servers) {
      var c :| c in Confs(servers) && c.waf == handles[i];
      var k :| 0 <= k < |servers| && servers[k].conf == c;
      assert ConfHolds(servers, handles, k);
      var m := LastOf(servers, handles, k);
      assert m == i;
    } else {
      assert servers[i].conf in Confs(servers);
    }
  }

  lemma LastOf(servers: seq<Server>, handles: seq<nat>, i: nat) returns (j: nat)
    requires i < |handles| == |servers| && servers[i].conf != null && ConfHolds(servers, handles, i)
    ensures i <= j < |servers| && servers[j].conf == servers[i].conf && servers[i].conf.waf == handles[j]
    ensures LastWithConf(servers, j) && (j != i ==> !LastWithConf(servers, i))
  {
    j :| i <= j < |handles| && servers[j].conf == servers[i].conf && servers[i].conf.waf == handles[j]
         && forall k | j < k < |handles| :: servers[k].conf != servers[i].conf;
  }

  lemma FirstIsUnique(servers: seq<Server>, handles: seq<nat>, base: DirConf, waf: nat)
    requires |handles| == |servers| && waf != 0
    requires if base in Bases(servers) then BaseHolds(servers, handles, base) else base.waf == 0
    ensures base.waf == waf <==> HeldByFirst(servers, handles, base, waf)
  {
    if HeldByFirst(servers, handles, base, waf) {
      var i :| 0 <= i < |handles| && servers[i].base == base && waf == handles[i] != 0
               && forall k | 0 <= k < i && servers[k].base == base :: handles[k] == 0;
      assert servers[i] in servers && base in Bases(servers);
    }
  }

  /** A configuration is compiled once for every record that has it, shared or not, and keeps
      the last WAF. Of those compiled at start, exit frees exactly that one and what a base
      that is tracked and without rules has kept. A base that is not tracked keeps its
      record's first handle even after exit: freed, when it is one of these. */
  method StartWafsAtExit(p: ChildProcess, servers: seq<Server>, tracked: seq<DirConf>) returns (ghost handles: seq<nat>)
    requires p.Valid() && p.requestBuilds == [] && p.freed == []
    requires (forall b | b in Bases(servers) :: b.waf == 0) && forall d | d in tracked :: d.WellFormed() && d.waf == 0
    modifies p, p.cache, Confs(servers)`waf, Bases(servers)`waf, (set d | d in tracked)`waf
    ensures |handles| == |servers| && Compiled(p, servers, handles, old(p.built))
    ensures forall i | 0 <= i < |handles| && handles[i] != 0 ::
              handles[i] in p.freed <==> LastWithConf(servers, i) || KeptByBase(servers, handles, tracked, handles[i])
    ensures forall b | b in Bases(servers) && b !in tracked :: BaseHolds(servers, handles, b)
  {
    hide Compiled, HeldByFirst, HeldByLast, OwnRules, DistinctHandles, NoRepeats, LastWithConf;
    handles := ChildInit(p, servers, tracked);
    HeldAfterStart(p, servers, tracked, handles, old(p.built));
    var _ := ChildExit(p, servers, tracked);
  }

  // ---------- the WAFs compiled at request time ----------

  /** The configurations on which the outcome of a request is remembered. */
  function Memos(v: Plan): set<DirConf> {
    if !Remembers(v) then {} else {Source(v)} + if BaseMemo(v) != null then {BaseMemo(v)} else {}
  }

  /** What a request leaves for exit to see: its new WAF if one of its memos is frozen, and
      otherwise nothing new. */
  lemma HeldAfterRequest(v: Plan, own: nat, servers: seq<Server>, frozen: seq<DirConf>, before: set<nat>)
    requires own != 0 && own !in before
    requires forall d | d in Memos(v) :: d.waf == own
    requires forall d | d in frozen && d !in Memos(v) :: d.waf == 0 || d.waf in before
    requires ServerHandles(servers) <= before
    ensures own in Reachable(frozen, servers) <==> exists d :: d in frozen && d in Memos(v)
  {
  }

  /** A request that compiles its WAF, and whether that is held afterwards. */
  method ServeAndHold(p: ChildProcess, v: Plan, server: ServerConf, servers: seq<Server>, frozen: seq<DirConf>)
    returns (own: nat)
    requires p.Valid() && p.cache.ready && WellFormedPlan(v)
    requires forall h | h in p.freed || h in Reachable(frozen, servers) :: h in p.built
    modifies p`nextHandle, p`attempts, p`built, p`requestBuilds, p.cache, p.cache.table
    modifies Source(v)`waf, (if BaseMemo(v) == null then {} else {BaseMemo(v)})`waf
    ensures p.requestBuilds != old(p.requestBuilds) ==>
              && p.BuiltFrom(own, Wanted(v)) && own !in p.freed
              && (own in Reachable(frozen, servers) <==> exists d :: d in frozen && d in Memos(v))
  {
    SourceFacts(v);
    ghost var before := Reachable(frozen, servers);
    var waf;
    own, waf := Serve(p, v, server);
    if p.requestBuilds != old(p.requestBuilds) {
      HeldAfterRequest(v, own, servers, frozen, before);
    }
  }

  /** A WAF compiled for a request is freed at exit if and only if it was remembered on a
      frozen configuration. */
  method RequestWafAtExit(p: ChildProcess, v: Plan, server: ServerConf, servers: seq<Server>, frozen: seq<DirConf>)
    returns (own: nat)
    requires p.Valid() && p.cache.ready && WellFormedPlan(v) && DistinctHandles(servers)
    requires forall h | h in p.freed || h in Reachable(frozen, servers) :: h in p.built
    modifies p, p.cache, p.cache.table, Source(v)`waf, Confs(servers)`waf, (set d | d in frozen)`waf
    modifies (if BaseMemo(v) == null then {} else {BaseMemo(v)})`waf
    ensures p.requestBuilds != old(p.requestBuilds) ==>
              && p.BuiltFrom(own, Wanted(v))
              && (own in p.freed <==> exists d :: d in frozen && d in Memos(v))
  {
    hide NoRepeats, ChildProcess.Valid, Memos, Reachable;
    own := ServeAndHold(p, v, server, servers, frozen);
    var _ := ChildExit(p, servers, frozen);
  }

  // ---------- start, requests, exit ----------

  function AllSections(plans: seq<Plan>): set<DirConf> {
    set v, d | v in plans && d in Sections(v) :: d
  }

  ghost predicate Apart(servers: seq<Server>, tracked: seq<DirConf>, d: DirConf)
    reads d`waf
  {
    d.waf == 0 && d !in tracked && d !in Bases(servers)
  }

  /** The configurations before the fork. None has a WAF yet; sections, and what bases were
      merged from, are neither tracked nor bases of a server; what they are merged into, if it
      has rules, is tracked or has the rules of its server. */
  ghost predicate Configured(servers: seq<Server>, tracked: seq<DirConf>, plans: seq<Plan>)
    reads Bases(servers)`waf, (set d | d in tracked)`waf, AllSections(plans)`waf, BaseMemos(plans)`waf
  {
    && Runnable(plans)
    && (forall b | b in Bases(servers) :: b.waf == 0) && (forall d | d in tracked :: d.WellFormed() && d.waf == 0)
    && (forall d | d in AllSections(plans) :: Apart(servers, tracked, d))
    && (forall d | d in BaseMemos(plans) :: Apart(servers, tracked, d))
    && (forall v | v in plans && Base(v).hasRules ::
          Base(v) in tracked || (Base(v) in Bases(servers) && OwnRules(servers, Base(v))))
  }

  /** At child start every request would find the right handle. */
  lemma RightAtStart(p: ChildProcess, servers: seq<Server>, tracked: seq<DirConf>, plans: seq<Plan>)
    requires Runnable(plans) && forall d | d in AllSections(plans) :: d.waf == 0
    requires forall d | d in tracked && d.hasRules :: p.Agrees(d.waf, d.rules.entries)
    requires forall b | b in Bases(servers) && OwnRules(servers, b) :: p.Agrees(b.waf, b.rules.entries)
    requires forall v | v in plans && Base(v).hasRules ::
               Base(v) in tracked || (Base(v) in Bases(servers) && OwnRules(servers, Base(v)))
    ensures HoldRight(p, plans, 0)
  {
    forall k | 0 <= k < |plans| ensures HoldsRight(p, plans[k]) {
      assert plans[k] in plans;
      SourceFacts(plans[k]);
      SectionOrBase(plans[k]);
    }
  }

  /** Nothing is held at child start that was not built there. */
  lemma HeldAtStart(p: ChildProcess, servers: seq<Server>, handles: seq<nat>, before: map<nat, seq<Rule>>,
                    tracked: seq<DirConf>)
    requires Compiled(p, servers, handles, before)
    requires forall c | c in Confs(servers) :: p.Agrees(c.waf, c.rules.entries)
    requires forall d | d in tracked && d.hasRules :: p.Agrees(d.waf, d.rules.entries)
    requires forall d | d in tracked && !d.hasRules ::
               d.waf == 0 || (d in Bases(servers) && BaseHolds(servers, handles, d))
    ensures forall h | h in Reachable(tracked, servers) :: h in p.built
  {
    forall d | d in tracked && !d.hasRules && d.waf != 0 ensures d.waf in p.built {
      BaseAgrees(p, servers, handles, before, d);
    }
  }

  /** Child start leaves every request the right handle, and holds nothing it did not build. */
  method StartChild(p: ChildProcess, servers: seq<Server>, tracked: seq<DirConf>, plans: seq<Plan>)
    requires p.Valid() && p.requestBuilds == [] && Configured(servers, tracked, plans)
    modifies p`nextHandle, p`attempts, p`built, p.cache`ready
    modifies Confs(servers)`waf, Bases(servers)`waf, (set d | d in tracked)`waf
    ensures p.Valid() && p.cache.ready && HoldRight(p, plans, 0) && Settled(plans)
    ensures DistinctHandles(servers) && forall h | h in Reachable(tracked, servers) :: h in p.built
  {
    hide Compiled, HoldRight, HeldByFirst, ConfsHold, DistinctHandles, Runnable;
    forall v | v in plans ensures forall d | d in Sections(v) :: allocated(d) {
      LeavesAreAllocated(v);
    }
    ghost var handles := ChildInit(p, servers, tracked);
    forall d | d in AllSections(plans) ensures d.waf == 0 {
      assert old(Apart(servers, tracked, d));
    }
    forall d | d in BaseMemos(plans) ensures d.waf == 0 {
      assert old(Apart(servers, tracked, d));
    }
    RightAtStart(p, servers, tracked, plans);
    HeldAtStart(p, servers, handles, old(p.built), tracked);
  }

  /** Start, then any run of requests: nothing held by then was not built. */
  method ChildRun(p: ChildProcess, servers: seq<Server>, tracked: seq<DirConf>, plans: seq<Plan>,
                  fallbacks: seq<ServerConf>) returns (owns: seq<nat>)
    requires p.Valid() && p.requestBuilds == [] && Configured(servers, tracked, plans) && |fallbacks| == |plans|
    modifies p`nextHandle, p`attempts, p`built, p`requestBuilds, p.cache, p.cache.table
    modifies Confs(servers)`waf, Bases(servers)`waf, (set d | d in tracked)`waf
    modifies Sources(plans)`waf, BaseMemos(plans)`waf
    ensures |owns| == |plans| && (Stable(plans) ==> AllRight(p, owns, plans))
    ensures AllRight(p, owns, plans) && NoneFailed(owns, plans) ==> Stable(plans)
    ensures (forall v | v in plans :: AlwaysAccepted(p.engine, Wanted(v))) ==>
              (AllRun(p, owns, plans) <==> Stable(plans))
    ensures forall i, j | 0 <= i < j < |p.requestBuilds| && p.requestBuilds[i] == p.requestBuilds[j] :: i >= CACHE_MAX
    ensures |ListsOf(plans)| <= CACHE_MAX ==> DistinctLists(p.requestBuilds)
    ensures DistinctHandles(servers) && forall h | h in Reachable(tracked, servers) :: h in p.built
  {
    hide DistinctHandles, HoldRight, Settled, DistinctLists, Stable, AllRight, AllRun, NoneFailed, Runnable, ListsOf;
    hide Source, ChildProcess.Valid, OwnRules, AlwaysAccepted;
    StartChild(p, servers, tracked, plans);
    label started:
    assert forall d | d in tracked :: d !in BaseMemos(plans);
    owns := ServeAll(p, plans, fallbacks);
    assert ServerHandles(servers) == old@started(ServerHandles(servers));
    if |ListsOf(plans)| <= CACHE_MAX {
      FewListsOnce(p, plans);
    }
  }

  /** The whole life of a child. Every request of a stable run is served right, and, when no
      build fails, only such a run is: if the engine accepts every list, all requests with
      rules run their own exactly when the run is stable; a list is compiled again only if it was first compiled
      after 64 others; every handle freed was built and is freed once. */
  method ChildLife(p: ChildProcess, servers: seq<Server>, tracked: seq<DirConf>, plans: seq<Plan>,
                   fallbacks: seq<ServerConf>) returns (owns: seq<nat>)
    requires p.Valid() && p.requestBuilds == [] && p.freed == [] && Configured(servers, tracked, plans)
    requires |fallbacks| == |plans|
    modifies p, p.cache, p.cache.table, Confs(servers)`waf, Bases(servers)`waf, (set d | d in tracked)`waf
    modifies Sources(plans)`waf, BaseMemos(plans)`waf
    ensures |owns| == |plans| && (Stable(plans) ==> AllRight(p, owns, plans))
    ensures AllRight(p, owns, plans) && NoneFailed(owns, plans) ==> Stable(plans)
    ensures (forall v | v in plans :: AlwaysAccepted(p.engine, Wanted(v))) ==>
              (AllRun(p, owns, plans) <==> Stable(plans))
    ensures forall i, j | 0 <= i < j < |p.requestBuilds| && p.requestBuilds[i] == p.requestBuilds[j] :: i >= CACHE_MAX
    ensures |ListsOf(plans)| <= CACHE_MAX ==> DistinctLists(p.requestBuilds)
    ensures NoRepeats(p.freed) && forall h | h in p.freed :: h in p.built
    ensures (forall d | d in tracked :: d.waf == 0) && forall c | c in Confs(servers) :: c.waf == 0
  {
    hide DistinctHandles, NoRepeats, HoldRight, Settled, DistinctLists, Stable;
    hide AllRight, AllRun, NoneFailed, AlwaysAccepted;
    owns := ChildRun(p, servers, tracked, plans, fallbacks);
    ghost var released := ChildExit(p, servers, tracked);
    assert p.freed == released;
  }
}
