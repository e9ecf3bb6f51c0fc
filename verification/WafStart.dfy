/**
 Child start: after fork, a WAF for each server record, shared with the base
 configurations, then one for each configuration merged before the fork.
 */
module WafStart {
  import opened WafCache
  import opened WafConf
  import opened WafChild

  /** A server record: its configuration and its base directory configuration. */
  datatype Server = Server(conf: ServerConf?, base: DirConf?)

  function Confs(servers: seq<Server>): set<ServerConf> {
    set s | s in servers && s.conf != null :: s.conf
  }

  function Bases(servers: seq<Server>): set<DirConf> {
    set s | s in servers && s.base != null :: s.base
  }

  /** The records with this base have its rules. */
  predicate OwnRules(servers: seq<Server>, base: DirConf) {
    forall s | s in servers && s.base == base && s.conf != null :: s.conf.rules.entries == base.rules.entries
  }

  /** No two server configurations share a handle. */
  ghost predicate DistinctHandles(servers: seq<Server>)
    reads Confs(servers)`waf
  {
    forall c, d | c in Confs(servers) && d in Confs(servers) && c != d :: c.waf != 0 ==> c.waf != d.waf
  }

  // ---------- which handle each configuration is left with ----------

  /** Every record with a configuration had that compiled, once for itself. */
  ghost predicate Compiled(p: ChildProcess, servers: seq<Server>, handles: seq<nat>, before: map<nat, seq<Rule>>)
    reads p`built
  {
    && |handles| <= |servers|
    && (forall i | 0 <= i < |handles| && handles[i] != 0 ::
          servers[i].conf != null && handles[i] !in before && p.BuiltFrom(handles[i], servers[i].conf.rules.entries))
    && (forall i, j | 0 <= i < j < |handles| && handles[i] != 0 :: handles[i] != handles[j])
    && (forall i | 0 <= i < |handles| && servers[i].conf != null ::
          AlwaysAccepted(p.engine, servers[i].conf.rules.entries) ==> handles[i] != 0)
  }

  predicate HeldByLast(servers: seq<Server>, handles: seq<nat>, i: nat, waf: nat)
    requires i < |handles| <= |servers|
  {
    exists j ::
      && i <= j < |handles| && servers[j].conf == servers[i].conf && waf == handles[j]
      && forall k | j < k < |handles| :: servers[k].conf != servers[i].conf
  }

  /** The configuration of the `i`-th record holds the handle of the last record that has it. */
  ghost predicate ConfHolds(servers: seq<Server>, handles: seq<nat>, i: nat)
    requires i < |handles| <= |servers| && servers[i].conf != null
    reads servers[i].conf`waf
  {
    HeldByLast(servers, handles, i, servers[i].conf.waf)
  }

  ghost predicate ConfsHold(servers: seq<Server>, handles: seq<nat>)
    requires |handles| <= |servers|
    reads Confs(servers)`waf
  {
    forall i | 0 <= i < |handles| && servers[i].conf != null :: ConfHolds(servers, handles, i)
  }

  predicate HeldByFirst(servers: seq<Server>, handles: seq<nat>, base: DirConf, waf: nat)
    requires |handles| <= |servers|
  {
    || (waf == 0 && forall k | 0 <= k < |handles| && servers[k].base == base :: handles[k] == 0)
    || exists i ::
         && 0 <= i < |handles| && servers[i].base == base && waf == handles[i] != 0
         && forall k | 0 <= k < i && servers[k].base == base :: handles[k] == 0
  }

  /** The base holds the handle of the first record with this base that has one. */
  ghost predicate BaseHolds(servers: seq<Server>, handles: seq<nat>, base: DirConf)
    requires |handles| <= |servers|
    reads base`waf
  {
    HeldByFirst(servers, handles, base, base.waf)
  }

  lemma HeldByLastNext(servers: seq<Server>, handles: seq<nat>, handle: nat, i: nat, was: nat)
    requires i <= |handles| < |servers| && servers[i].conf != null
    requires if servers[i].conf == servers[|handles|].conf then servers[i].conf.waf == handle
             else i < |handles| && servers[i].conf.waf == was && HeldByLast(servers, handles, i, was)
    ensures ConfHolds(servers, handles + [handle], i)
  {
    var n, more := |handles|, handles + [handle];
    assert more[n] == handle;
    if servers[i].conf != servers[n].conf {
      var j :| i <= j < n && servers[j].conf == servers[i].conf && was == handles[j]
               && forall k | j < k < n :: servers[k].conf != servers[i].conf;
      assert more[j] == was;
    }
  }

  /** The base was held as `was` says before the record of the last handle. */
  lemma BaseHoldsNext(servers: seq<Server>, handles: seq<nat>, handle: nat, base: DirConf, was: nat)
    requires |handles| < |servers| && HeldByFirst(servers, handles, base, was)
    requires base.waf == if servers[|handles|].base == base && was == 0 then handle else was
    ensures BaseHolds(servers, handles + [handle], base)
  {
    var n, more := |handles|, handles + [handle];
    assert more[n] == handle && forall k | 0 <= k < n :: more[k] == handles[k];
    if was != 0 {
      var i :| 0 <= i < n && servers[i].base == base && was == handles[i] != 0
               && forall k | 0 <= k < i && servers[k].base == base :: handles[k] == 0;
      assert more[i] == base.waf;
    }
  }

  // ---------- the methods ----------

  /** A server's own rules, or an empty WAF when it has none. */
  method ServerWaf(p: ChildProcess, conf: ServerConf) returns (waf: nat)
    requires p.Valid()
    modifies p`nextHandle, p`attempts, p`built
    ensures p.Valid() && p.Grown(old(p.built))
    ensures waf != 0 ==> waf !in old(p.built) && p.BuiltFrom(waf, conf.rules.entries)
    ensures waf != 0 <==> Accepted(p.engine, old(p.attempts), conf.rules.entries)
  {
    if |conf.rules.entries| > 0 {
      waf := p.BuildWaf(conf.rules);
    } else {
      waf := p.BuildEmptyWaf();
    }
  }

  /** One record: compile its configuration, and share the WAF with its base. */
  method StartServer(p: ChildProcess, s: Server) returns (handle: nat)
    requires p.Valid()
    modifies p`nextHandle, p`attempts, p`built
    modifies (if s.conf == null then {} else {s.conf})`waf, (if s.base == null then {} else {s.base})`waf
    ensures p.Valid() && p.Grown(old(p.built))
    ensures handle != 0 ==>
              s.conf != null && handle !in old(p.built) && p.BuiltFrom(handle, s.conf.rules.entries)
    ensures s.conf != null ==> s.conf.waf == handle
    ensures s.conf != null && AlwaysAccepted(p.engine, s.conf.rules.entries) ==> handle != 0
    ensures s.base != null ==> s.base.waf == if old(s.base.waf) != 0 then old(s.base.waf) else handle
  {
    handle := 0;
    if s.conf != null {
      handle := ServerWaf(p, s.conf);
      s.conf.waf := handle;
      if handle != 0 && s.base != null && s.base.waf == 0 {
        s.base.waf := handle;
      }
    }
  }

  /** The next record, after those whose handles are given. */
  method NextServer(p: ChildProcess, servers: seq<Server>, i: nat, ghost handles: seq<nat>,
                    ghost before: map<nat, seq<Rule>>)
    returns (handle: nat)
    requires p.Valid() && p.Grown(before) && i == |handles| < |servers|
    requires Compiled(p, servers, handles, before) && ConfsHold(servers, handles)
    modifies p`nextHandle, p`attempts, p`built, Confs(servers)`waf, Bases(servers)`waf
    ensures p.Valid() && p.Grown(old(p.built)) && p.Grown(before)
    ensures Compiled(p, servers, handles + [handle], before) && ConfsHold(servers, handles + [handle])
    ensures forall b | b in Bases(servers) && old(BaseHolds(servers, handles, b)) ::
              BaseHolds(servers, handles + [handle], b)
  {
    hide HeldByFirst, HeldByLast, AlwaysAccepted;
    var s := servers[i];
    assert s in servers;
    assert (s.conf != null ==> s.conf in Confs(servers)) && (s.base != null ==> s.base in Bases(servers));
    handle := StartServer(p, s);
    ghost var more := handles + [handle];
    forall k | 0 <= k <= i && servers[k].conf != null ensures ConfHolds(servers, more, k) {
      assert servers[k] in servers && servers[k].conf in Confs(servers);
      assert k < i ==> old(ConfHolds(servers, handles, k));
      HeldByLastNext(servers, handles, handle, k, old(servers[k].conf.waf));
    }
    forall b | b in Bases(servers) && old(BaseHolds(servers, handles, b)) ensures BaseHolds(servers, more, b) {
      BaseHoldsNext(servers, handles, handle, b, old(b.waf));
    }
  }

  /** A configuration holds the handle of the last record that has it, a base that of the
      first record with this base whose build succeeded. */
  method StartServers(p: ChildProcess, servers: seq<Server>) returns (ghost handles: seq<nat>)
    requires p.Valid()
    modifies p`nextHandle, p`attempts, p`built, Confs(servers)`waf, Bases(servers)`waf
    ensures p.Valid() && p.Grown(old(p.built)) && |handles| == |servers|
    ensures Compiled(p, servers, handles, old(p.built)) && ConfsHold(servers, handles) && DistinctHandles(servers)
    ensures forall c | c in Confs(servers) :: p.Agrees(c.waf, c.rules.entries)
    ensures forall c | c in Confs(servers) && AlwaysAccepted(p.engine, c.rules.entries) :: c.waf != 0
    ensures forall b | b in Bases(servers) && old(b.waf) == 0 :: BaseHolds(servers, handles, b)
  {
    hide ConfHolds;
    handles := [];
    var i := 0;
    while i < |servers|
      invariant 0 <= i == |handles| <= |servers| && p.Valid() && p.Grown(old(p.built))
      invariant Compiled(p, servers, handles, old(p.built)) && ConfsHold(servers, handles)
      invariant forall b | b in Bases(servers) && old(b.waf) == 0 :: BaseHolds(servers, handles, b)
    {
      var handle := NextServer(p, servers, i, handles, old(p.built));
      handles := handles + [handle];
      i := i + 1;
    }
    HandlesAreDistinct(p, servers, handles, old(p.built));
  }

  lemma HandlesAreDistinct(p: ChildProcess, servers: seq<Server>, handles: seq<nat>, before: map<nat, seq<Rule>>)
    requires |handles| == |servers| && Compiled(p, servers, handles, before) && ConfsHold(servers, handles)
    ensures DistinctHandles(servers) && forall c | c in Confs(servers) :: p.Agrees(c.waf, c.rules.entries)
    ensures forall c | c in Confs(servers) && AlwaysAccepted(p.engine, c.rules.entries) :: c.waf != 0
  {
    forall c | c in Confs(servers)
      ensures exists j :: 0 <= j < |handles| && servers[j].conf == c && c.waf == handles[j]
    {
      var i :| 0 <= i < |servers| && servers[i].conf == c;
      assert ConfHolds(servers, handles, i);
    }
  }

  lemma BaseAgrees(p: ChildProcess, servers: seq<Server>, handles: seq<nat>, before: map<nat, seq<Rule>>, base: DirConf)
    requires Compiled(p, servers, handles, before) && BaseHolds(servers, handles, base)
    ensures base.waf == 0 || (base.waf in handles && base.waf in p.built)
    ensures OwnRules(servers, base) ==> p.Agrees(base.waf, base.rules.entries)
  {
  }

  /** The same array of rules has one WAF. */
  ghost predicate SharedWaf(d: DirConf, d': DirConf)
    reads d`waf, d'`waf
  {
    d.hasRules && d'.hasRules && d.rules == d'.rules && d.waf != 0 && d'.waf != 0 ==> d.waf == d'.waf
  }

  /** The WAF of an earlier configuration with the same array, if there is one. */
  method SharedBefore(tracked: seq<DirConf>, i: nat) returns (waf: nat)
    requires i < |tracked|
    ensures if waf == 0 then forall k | 0 <= k < i && tracked[k].rules == tracked[i].rules :: tracked[k].waf == 0
            else exists k :: 0 <= k < i && tracked[k].rules == tracked[i].rules && tracked[k].waf == waf
  {
    var j := 0;
    while j < i
      invariant 0 <= j <= i
      invariant forall k | 0 <= k < j && tracked[k].rules == tracked[i].rules :: tracked[k].waf == 0
    {
      if tracked[j].rules == tracked[i].rules && tracked[j].waf != 0 {
        return tracked[j].waf;
      }
      j := j + 1;
    }
    waf := 0;
  }

  /** The WAF of the `i`-th configuration, which has rules: an earlier one's, or a new one. */
  method TrackedWaf(p: ChildProcess, tracked: seq<DirConf>, i: nat, ghost before: map<nat, seq<Rule>>)
    returns (waf: nat)
    requires p.Valid() && p.Grown(before) && i < |tracked| && tracked[i].hasRules
    requires 0 !in before && forall d | d in tracked :: d.WellFormed()
    requires forall k | 0 <= k < i && tracked[k].hasRules ::
               tracked[k].waf !in before && p.Agrees(tracked[k].waf, tracked[k].rules.entries)
    requires forall k, m | 0 <= k < i && 0 <= m < i :: SharedWaf(tracked[k], tracked[m])
    modifies p`nextHandle, p`attempts, p`built
    ensures p.Valid() && p.Grown(old(p.built)) && p.Grown(before)
    ensures waf !in before && p.Agrees(waf, tracked[i].rules.entries)
    ensures AlwaysAccepted(p.engine, tracked[i].rules.entries) ==> waf != 0
    ensures forall m | 0 <= m < i && tracked[m].rules == tracked[i].rules && tracked[m].waf != 0 ::
              tracked[m].waf == waf
  {
    hide Accepted;
    assert tracked[i] in tracked;
    waf := SharedBefore(tracked, i);
    if waf == 0 {
      waf := p.BuildWaf(tracked[i].rules);
    } else {
      ghost var k :| 0 <= k < i && tracked[k].rules == tracked[i].rules && tracked[k].waf == waf;
      assert tracked[k] in tracked && tracked[k].hasRules;
      forall m | 0 <= m < i && tracked[m].rules == tracked[i].rules && tracked[m].waf != 0
        ensures tracked[m].waf == waf
      {
        assert tracked[m] in tracked && SharedWaf(tracked[k], tracked[m]);
      }
    }
  }

  method BuildTracked(p: ChildProcess, tracked: seq<DirConf>)
    requires p.Valid() && forall d | d in tracked :: d.WellFormed()
    modifies p`nextHandle, p`attempts, p`built, (set d | d in tracked)`waf
    ensures p.Valid() && p.Grown(old(p.built))
    ensures forall d | d in tracked ::
              if d.hasRules then d.waf !in old(p.built) && p.Agrees(d.waf, d.rules.entries) else d.waf == old(d.waf)
    ensures forall d | d in tracked && d.hasRules && AlwaysAccepted(p.engine, d.rules.entries) :: d.waf != 0
    ensures forall d, d' | d in tracked && d' in tracked :: SharedWaf(d, d')
  {
    hide AlwaysAccepted;
    var i := 0;
    while i < |tracked|
      invariant 0 <= i <= |tracked| && p.Valid()
      invariant p.Grown(old(p.built))
      invariant forall d | d in tracked :: d.WellFormed()
      invariant forall k | 0 <= k < i && tracked[k].hasRules ::
                  tracked[k].waf !in old(p.built) && p.Agrees(tracked[k].waf, tracked[k].rules.entries)
      invariant forall d | d in tracked && !d.hasRules :: d.waf == old(d.waf)
      invariant forall k, m | 0 <= k < i && 0 <= m < i :: SharedWaf(tracked[k], tracked[m])
      invariant forall k | 0 <= k < i && tracked[k].hasRules && AlwaysAccepted(p.engine, tracked[k].rules.entries) ::
                  tracked[k].waf != 0
    {
      var dcf := tracked[i];
      assert dcf in tracked;
      if dcf.hasRules && |dcf.rules.entries| != 0 {
        var waf := TrackedWaf(p, tracked, i, old(p.built));
        dcf.waf := waf;
      }
      i := i + 1;
    }
  }

  /** After fork: one WAF for each server record with a configuration, shared with base
      configurations, then one per tracked configuration, reused when another one has the
      same array. */
  method ChildInit(p: ChildProcess, servers: seq<Server>, tracked: seq<DirConf>) returns (ghost handles: seq<nat>)
    requires p.Valid() && p.requestBuilds == [] && forall d | d in tracked :: d.WellFormed()
    modifies p`nextHandle, p`attempts, p`built, p.cache`ready, Confs(servers)`waf, Bases(servers)`waf
    modifies (set d | d in tracked)`waf
    ensures p.Valid() && p.cache.ready && p.Grown(old(p.built))
    ensures |handles| == |servers|
    ensures Compiled(p, servers, handles, old(p.built)) && ConfsHold(servers, handles) && DistinctHandles(servers)
    ensures forall c | c in Confs(servers) :: p.Agrees(c.waf, c.rules.entries)
    ensures forall d | d in tracked && d.hasRules ::
              p.Agrees(d.waf, d.rules.entries) && (d.waf == 0 || d.waf !in handles)
    ensures forall d, d' | d in tracked && d' in tracked :: SharedWaf(d, d')
    // what the engine accepts is never left without a WAF
    ensures forall c | c in Confs(servers) && AlwaysAccepted(p.engine, c.rules.entries) :: c.waf != 0
    ensures forall d | d in tracked && d.hasRules && AlwaysAccepted(p.engine, d.rules.entries) :: d.waf != 0
    ensures forall b | b in Bases(servers) && old(b.waf) == 0 && (b in tracked ==> !b.hasRules) ::
              BaseHolds(servers, handles, b)
    ensures forall b | b in Bases(servers) && old(b.waf) == 0 && OwnRules(servers, b) ::
              p.Agrees(b.waf, b.rules.entries)
    ensures forall d | d in tracked && !d.hasRules && d !in Bases(servers) :: d.waf == old(d.waf)
  {
    hide ConfsHold, DistinctHandles, AlwaysAccepted;
    p.cache.ready := true;
    handles := StartServers(p, servers);
    label started:
    BuildTracked(p, tracked);
    forall b | b in Bases(servers) && old(b.waf) == 0 && (b in tracked ==> !b.hasRules)
      ensures BaseHolds(servers, handles, b) && (OwnRules(servers, b) ==> p.Agrees(b.waf, b.rules.entries))
    {
      assert old@started(BaseHolds(servers, handles, b));
      BaseAgrees(p, servers, handles, old(p.built), b);
    }
  }
}
