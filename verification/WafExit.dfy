/** Child exit: which handles are freed. */
module WafExit {
  import opened WafConf
  import opened WafChild
  import opened WafStart

  ghost predicate NoRepeats(xs: seq<nat>) {
    forall i, j | 0 <= i < j < |xs| :: xs[i] != xs[j]
  }

  /** The handles reachable from the frozen configurations and the servers. */
  ghost function Reachable(frozen: seq<DirConf>, servers: seq<Server>): set<nat>
    reads (set d | d in frozen)`waf, Confs(servers)`waf
  {
    (set d | d in frozen && d.waf != 0 :: d.waf) + ServerHandles(servers)
  }

  ghost function ServerHandles(servers: seq<Server>): set<nat>
    reads Confs(servers)`waf
  {
    set c | c in Confs(servers) && c.waf != 0 :: c.waf
  }

  method ServerHas(servers: seq<Server>, waf: nat) returns (skip: bool)
    requires waf != 0
    ensures skip <==> waf in ServerHandles(servers)
  {
    var i := 0;
    while i < |servers|
      invariant 0 <= i <= |servers|
      invariant forall k | 0 <= k < i && servers[k].conf != null :: servers[k].conf.waf != waf
    {
      if servers[i].conf != null && servers[i].conf.waf == waf {
        assert servers[i] in servers && servers[i].conf in Confs(servers);
        return true;
      }
      i := i + 1;
    }
    skip := false;
  }

  method SeenBefore(frozen: seq<DirConf>, i: nat) returns (shared: bool)
    requires i < |frozen|
    ensures shared <==> exists k :: 0 <= k < i && frozen[k].waf == frozen[i].waf
  {
    var j := 0;
    while j < i
      invariant 0 <= j <= i && forall k | 0 <= k < j :: frozen[k].waf != frozen[i].waf
    {
      if frozen[j].waf == frozen[i].waf {
        return true;
      }
      j := j + 1;
    }
    shared := false;
  }

  /** The first pass: each handle no server has, at its first occurrence. */
  method FreeDirConfs(p: ChildProcess, servers: seq<Server>, frozen: seq<DirConf>) returns (ghost released: seq<nat>)
    modifies p`freed
    ensures p.freed == old(p.freed) + released && NoRepeats(released)
    ensures forall h :: h in released <==>
              h != 0 && h !in ServerHandles(servers) && exists k :: 0 <= k < |frozen| && frozen[k].waf == h
  {
    released := [];
    var i := 0;
    while i < |frozen|
      invariant 0 <= i <= |frozen|
      invariant p.freed == old(p.freed) + released && NoRepeats(released)
      invariant forall h :: h in released <==>
                  h != 0 && h !in ServerHandles(servers) && exists k :: 0 <= k < i && frozen[k].waf == h
    {
      var dcf := frozen[i];
      if dcf.waf != 0 {
        var skip := ServerHas(servers, dcf.waf);
        if !skip {
          var shared := SeenBefore(frozen, i);
          if !shared {
            p.FreeWaf(dcf.waf);
            released := released + [dcf.waf];
          }
        }
      }
      i := i + 1;
    }
  }

  /** Then the servers' own, a configuration shared by several servers once. */
  method FreeServers(p: ChildProcess, servers: seq<Server>) returns (ghost released: seq<nat>)
    requires DistinctHandles(servers)
    modifies p`freed, Confs(servers)`waf
    ensures p.freed == old(p.freed) + released && NoRepeats(released)
    ensures forall h :: h in released <==> h in old(ServerHandles(servers))
    ensures forall c | c in Confs(servers) :: c.waf == 0
  {
    released := [];
    var i := 0;
    while i < |servers|
      invariant 0 <= i <= |servers|
      invariant p.freed == old(p.freed) + released && NoRepeats(released)
      invariant forall k | 0 <= k < i && servers[k].conf != null :: servers[k].conf.waf == 0
      invariant forall c | c in Confs(servers) :: c.waf == old(c.waf) || (c.waf == 0 && old(c.waf) in released)
      invariant forall h | h in released :: exists c :: c in Confs(servers) && old(c.waf) == h != 0 && c.waf == 0
    {
      var s := servers[i];
      if s.conf != null {
        assert s in servers && s.conf in Confs(servers);
        if s.conf.waf != 0 {
          assert s.conf.waf !in released;
          p.FreeWaf(s.conf.waf);
          released := released + [s.conf.waf];
          s.conf.waf := 0;
        }
      }
      i := i + 1;
    }
    assert forall c | c in Confs(servers) :: exists k :: 0 <= k < |servers| && servers[k].conf == c;
  }

  /** Every reachable handle is freed exactly once and nothing else is, however the frozen and
      server configurations share them, and none of these keeps one. Other configurations,
      such as a base that is not frozen, are not looked at. */
  method ChildExit(p: ChildProcess, servers: seq<Server>, frozen: seq<DirConf>) returns (ghost released: seq<nat>)
    requires DistinctHandles(servers)
    modifies p`freed, Confs(servers)`waf, (set d | d in frozen)`waf
    ensures p.freed == old(p.freed) + released && NoRepeats(released)
    ensures forall h :: h in released <==> h in old(Reachable(frozen, servers))
    ensures forall h | h in p.built && h !in old(p.freed) :: h in p.freed <==> h in old(Reachable(frozen, servers))
    ensures (forall d | d in frozen :: d.waf == 0) && (forall c | c in Confs(servers) :: c.waf == 0)
  {
    released := FreeDirConfs(p, servers, frozen);
    var i := 0;
    while i < |frozen|
      invariant 0 <= i <= |frozen|
      invariant forall k | 0 <= k < i :: frozen[k].waf == 0
      invariant p.freed == old(p.freed) + released && forall c | c in Confs(servers) :: c.waf == old(c.waf)
    {
      assert frozen[i] in frozen;
      frozen[i].waf := 0;
      i := i + 1;
    }
    assert ServerHandles(servers) == old(ServerHandles(servers));
    ghost var first := released;
    ghost var more := FreeServers(p, servers);
    released := released + more;
    assert forall h | h in first :: h !in more;
    assert forall i | 0 <= i < |first| :: first[i] in first;
    assert forall i | 0 <= i < |more| :: more[i] in more;
  }
}
