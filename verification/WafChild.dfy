/**
 The handles of a child process: what each WAF was built from, the building of a
 WAF from a rule list, and its resolution for the configuration of a request.
 */
module WafChild {
  import opened Wire
  import opened WafCache
  import opened WafConf

  ghost predicate DistinctLists(lists: seq<seq<Rule>>) {
    forall i, j | 0 <= i < j < |lists| :: lists[i] != lists[j]
  }

  /** The engine's answers when WAFs are built, which may differ from one attempt to the next:
      whether it makes a configuration, takes a rule after those before it, and makes the
      WAF of the rules taken. */
  datatype Builder = Builder(config: nat -> bool, add: (nat, seq<Rule>) -> bool, create: (nat, seq<Rule>) -> bool)

  /** The `n`-th attempt builds the list: every rule is taken, and the WAF made. */
  predicate Accepted(b: Builder, n: nat, rules: seq<Rule>) {
    b.config(n) && (forall i | 0 < i <= |rules| :: b.add(n, rules[..i])) && b.create(n, rules)
  }

  /** Every attempt does. */
  ghost predicate AlwaysAccepted(b: Builder, rules: seq<Rule>) {
    forall n: nat :: Accepted(b, n, rules)
  }

  class ChildProcess {
    const engine: Builder
    const cache: Cache
    var nextHandle: nat
    var attempts: nat

    /** Which rule list each handle was built from, in the order it was fed to the engine. */
    ghost var built: map<nat, seq<Rule>>
    /** The lists compiled at request time, in order. */
    ghost var requestBuilds: seq<seq<Rule>>
    ghost var freed: seq<nat>

    ghost predicate Valid()
      reads this, cache, cache.table
    {
      && cache.Valid() && nextHandle > 0
      && (forall h | h in built :: 0 < h < nextHandle)
      && (forall i | 0 <= i < cache.count ::
            cache.table[i].waf in built && built[cache.table[i].waf] == cache.table[i].rules)
      && cache.count <= |requestBuilds|
      && (forall i | 0 <= i < cache.count :: cache.table[i].rules == requestBuilds[i])
      && (cache.ready && cache.count < CACHE_MAX ==> cache.count == |requestBuilds|)
      // the cached lists were compiled first, and none of them again
      && (forall i, j | 0 <= i < cache.count && i < j < |requestBuilds| :: requestBuilds[i] != requestBuilds[j])
    }

    constructor (engine: Builder)
      ensures Valid() && fresh(cache) && fresh(cache.table) && this.engine == engine
      ensures built == map[] && requestBuilds == [] && freed == [] && cache.count == 0 && !cache.ready
    {
      this.engine := engine;
      cache := new Cache();
      nextHandle, attempts := 1, 0;
      built, requestBuilds, freed := map[], [], [];
    }

    /** The handle was built from exactly this list. */
    ghost predicate BuiltFrom(waf: nat, rules: seq<Rule>)
      reads this`built
    {
      waf in built && built[waf] == rules
    }

    /** No WAF yet, or the right one. */
    ghost predicate Agrees(waf: nat, rules: seq<Rule>)
      reads this`built
    {
      waf == 0 || BuiltFrom(waf, rules)
    }

    /** Handles are never forgotten. */
    ghost predicate Grown(before: map<nat, seq<Rule>>)
      reads this`built
    {
      forall h | h in before :: h in built && built[h] == before[h]
    }

    /** `coraza_new_waf` in the `n`-th attempt: a handle it returns is new. */
    method NewWaf(n: nat, fed: seq<Rule>) returns (waf: nat)
      requires Valid()
      modifies this`nextHandle, this`built
      ensures Valid() && (waf != 0 <==> engine.create(n, fed))
      ensures if waf == 0 then built == old(built) else waf !in old(built) && built == old(built)[waf := fed]
    {
      if !engine.create(n, fed) {
        return 0;
      }
      waf := nextHandle;
      nextHandle := nextHandle + 1;
      built := built[waf := fed];
    }

    /** A WAF without rules. */
    method BuildEmptyWaf() returns (waf: nat)
      requires Valid()
      modifies this`nextHandle, this`attempts, this`built
      ensures Valid() && attempts == old(attempts) + 1
      ensures waf != 0 <==> Accepted(engine, old(attempts), [])
      ensures if waf == 0 then built == old(built) else waf !in old(built) && built == old(built)[waf := []]
    {
      var n := attempts;
      attempts := attempts + 1;
      if !engine.config(n) {
        return 0;
      }
      waf := NewWaf(n, []);
    }

    /** Replay a rule list into the engine, entry by entry. */
    method BuildWaf(rules: RuleArray) returns (waf: nat)
      requires Valid()
      modifies this`nextHandle, this`attempts, this`built
      ensures Valid() && attempts == old(attempts) + if rules.entries == [] then 0 else 1
      ensures waf != 0 <==> rules.entries != [] && Accepted(engine, old(attempts), rules.entries)
      ensures if waf == 0 then built == old(built) else waf !in old(built) && built == old(built)[waf := rules.entries]
    {
      if |rules.entries| == 0 {
        return 0;
      }
      var n := attempts;
      attempts := attempts + 1;
      if !engine.config(n) {
        return 0;
      }
      var fed: seq<Rule> := [];
      var i := 0;
      while i < |rules.entries|
        invariant 0 <= i <= |rules.entries| && fed == rules.entries[..i]
        invariant forall k | 0 < k <= i :: engine.add(n, rules.entries[..k])
      {
        fed := fed + [rules.entries[i]];
        assert fed == rules.entries[..i + 1];
        if !engine.add(n, fed) {
          return 0;
        }
        i := i + 1;
      }
      assert fed == rules.entries;
      waf := NewWaf(n, fed);
    }

    // ---------- request time ----------

    /** Resolve the WAF of a request: the memo of the stable child, then the cache, then a
        build. 0 when there is none at all. */
    method ResolveWaf(dcf: DirConf, scf: ServerConf) returns (waf: nat)
      requires Valid() && cache.ready && dcf.WellFormed()
      modifies this`nextHandle, this`attempts, this`built, this`requestBuilds, cache, cache.table
      modifies dcf`waf, (if dcf.mergeChild == null then {} else {dcf.mergeChild})`waf
      ensures Valid() && cache.ready
      ensures waf == if dcf.waf != 0 then dcf.waf else scf.waf
      ensures Grown(old(built))
      // nothing is resolved for a configuration that has a WAF, or no rules
      ensures old(dcf.waf) != 0 || !dcf.hasRules ==>
                && dcf.waf == old(dcf.waf) && requestBuilds == old(requestBuilds) && built == old(built)
                && (dcf.mergeChild != null ==> dcf.mergeChild.waf == old(dcf.mergeChild.waf))
      // a memo is taken as it is
      ensures dcf.hasRules && old(dcf.Handle()) != 0 ==> dcf.waf == old(dcf.Handle()) && built == old(built)
      // it runs its own rules exactly when the WAF it has, or the memo, was built from them
      ensures dcf.hasRules ==> (Agrees(dcf.waf, dcf.rules.entries) <==> old(Agrees(dcf.Handle(), dcf.rules.entries)))
      ensures old(dcf.waf) == 0 && dcf.hasRules && dcf.mergeChild != null ==> dcf.mergeChild.waf == dcf.waf
      // with neither, it has a WAF afterwards exactly when its list is cached or accepted
      ensures dcf.hasRules && old(dcf.Handle()) == 0 ==>
                (dcf.waf != 0 <==> dcf.rules.entries in old(cache.Contents())
                                   || Accepted(engine, old(attempts), dcf.rules.entries))
      ensures attempts == old(attempts) + if dcf.hasRules && old(dcf.Handle()) == 0 &&
                                             dcf.rules.entries !in old(cache.Contents()) then 1 else 0
      // a list is compiled only when the cache does not have it
      ensures requestBuilds == old(requestBuilds)
              || (dcf.rules.entries !in old(cache.Contents()) &&
                  requestBuilds == old(requestBuilds) + [dcf.rules.entries] &&
                  dcf.waf in built && dcf.waf !in old(built))
      ensures cache.count - old(cache.count) ==
              if old(cache.count) < CACHE_MAX then |requestBuilds| - |old(requestBuilds)| else 0
    {
      if dcf.waf == 0 && dcf.hasRules && |dcf.rules.entries| > 0 {
        if dcf.mergeChild != null {
          dcf.waf := dcf.mergeChild.waf;
        }
        if dcf.waf == 0 {
          LookUpOrBuild(dcf);
        }
      }
      waf := if dcf.waf != 0 then dcf.waf else scf.waf;
    }

    /** The content cache, then a build; the child remembers the outcome. */
    method LookUpOrBuild(dcf: DirConf)
      requires Valid() && cache.ready && dcf.waf == 0 && dcf.rules.entries != []
      modifies this`nextHandle, this`attempts, this`built, this`requestBuilds, cache, cache.table
      modifies dcf`waf, (if dcf.mergeChild == null then {} else {dcf.mergeChild})`waf
      ensures Valid() && cache.ready && Agrees(dcf.waf, dcf.rules.entries)
      ensures dcf.mergeChild != null ==> dcf.mergeChild.waf == dcf.waf
      ensures dcf.waf != 0 <==> dcf.rules.entries in old(cache.Contents())
                                || Accepted(engine, old(attempts), dcf.rules.entries)
      ensures attempts == old(attempts) + if dcf.rules.entries in old(cache.Contents()) then 0 else 1
      ensures Grown(old(built))
      ensures requestBuilds == old(requestBuilds)
              || (dcf.rules.entries !in old(cache.Contents()) &&
                  requestBuilds == old(requestBuilds) + [dcf.rules.entries] &&
                  dcf.waf in built && dcf.waf !in old(built))
      ensures cache.count - old(cache.count) ==
              if old(cache.count) < CACHE_MAX then |requestBuilds| - |old(requestBuilds)| else 0
    {
      hide MapOf, Hash, Accepted;
      var h := RulesHash(dcf.rules.entries);
      var cached := cache.Find(h, dcf.rules.entries);
      if cached != 0 {
        CachedAgrees(dcf.rules.entries);
        dcf.waf := cached;
        if dcf.mergeChild != null {
          dcf.mergeChild.waf := dcf.waf;
        }
        return;
      }
      BuildAndCache(dcf);
    }

    lemma CachedAgrees(rules: seq<Rule>)
      requires Valid() && rules in cache.Contents()
      ensures BuiltFrom(cache.Contents()[rules], rules)
    {
      var entries := cache.Entries();
      MapKeys(entries, rules);
      var i :| 0 <= i < |entries| && entries[i].rules == rules;
      MapAt(entries, i);
      assert entries[i] == cache.table[i];
    }

    /** Cache a new WAF and record that its list was compiled. */
    method Remember(h: nat, rules: seq<Rule>, waf: nat)
      requires Valid() && cache.ready && h == Hash(rules) && rules !in cache.Contents() && BuiltFrom(waf, rules)
      modifies this`requestBuilds, cache, cache.table
      ensures Valid() && cache.ready && requestBuilds == old(requestBuilds) + [rules]
      ensures cache.count - old(cache.count) ==
              if old(cache.count) < CACHE_MAX then |requestBuilds| - |old(requestBuilds)| else 0
    {
      hide MapOf, Hash;
      ghost var before, n := cache.Entries(), cache.count;
      assert forall i | 0 <= i < n :: before[i] == cache.table[i];
      MapKeys(before, rules);
      assert forall i | 0 <= i < n :: requestBuilds[i] == before[i].rules;
      cache.Add(h, rules, waf);
      requestBuilds := requestBuilds + [rules];
      ghost var after := cache.Entries();
      assert forall i | 0 <= i < cache.count :: cache.table[i] == after[i];
      assert forall i | 0 <= i < n :: after[i] == before[i];
      assert cache.count > n ==> after[n] == Entry(h, rules, waf);
    }

    method BuildAndCache(dcf: DirConf)
      requires Valid() && cache.ready && dcf.waf == 0 && dcf.rules.entries != []
      requires dcf.rules.entries !in cache.Contents()
      modifies this`nextHandle, this`attempts, this`built, this`requestBuilds, cache, cache.table
      modifies dcf`waf, (if dcf.mergeChild == null then {} else {dcf.mergeChild})`waf
      ensures Valid() && cache.ready && Agrees(dcf.waf, dcf.rules.entries)
      ensures dcf.mergeChild != null ==> dcf.mergeChild.waf == dcf.waf
      ensures Grown(old(built))
      ensures dcf.waf != 0 <==> Accepted(engine, old(attempts), dcf.rules.entries)
      ensures attempts == old(attempts) + 1
      ensures requestBuilds == old(requestBuilds) + if dcf.waf != 0 then [dcf.rules.entries] else []
      ensures dcf.waf != 0 ==> dcf.waf in built && dcf.waf !in old(built)
      ensures cache.count - old(cache.count) ==
              if old(cache.count) < CACHE_MAX then |requestBuilds| - |old(requestBuilds)| else 0
    {
      hide MapOf, Hash, Accepted;
      var rules := dcf.rules;
      var h := RulesHash(rules.entries);
      var waf := BuildWaf(rules);
      dcf.waf := waf;
      if waf != 0 {
        Remember(h, rules.entries, waf);
      }
      if dcf.mergeChild != null {
        dcf.mergeChild.waf := dcf.waf;
      }
    }

    method FreeWaf(waf: nat)
      modifies this`freed
      ensures freed == old(freed) + [waf]
    {
      freed := freed + [waf];
    }

    // ---------- how often a list is compiled ----------

    /** What went into the cache when compiled is never compiled again, in any run: the first
        64 lists. With no more than 64 lists in play, that is all of them. */
    lemma NeverCompiledTwice(lists: set<seq<Rule>>)
      requires Valid() && cache.ready && |lists| <= CACHE_MAX && forall l | l in requestBuilds :: l in lists
      ensures DistinctLists(requestBuilds)
    {
      var first := requestBuilds[..cache.count];
      if |requestBuilds| > cache.count {
        DistinctFill(first, lists, requestBuilds[cache.count]);
        assert false;
      }
      assert first == requestBuilds;
    }
  }

  lemma {:induction false} DistinctFill(xs: seq<seq<Rule>>, all: set<seq<Rule>>, x: seq<Rule>)
    requires DistinctLists(xs) && (forall l | l in xs :: l in all) && |xs| >= |all| && x in all
    ensures x in xs
  {
    if |xs| > 0 {
      var last := xs[|xs| - 1];
      if last != x {
        assert forall l | l in xs[..|xs| - 1] :: l in xs && l != last;
        DistinctFill(xs[..|xs| - 1], all - {last}, x);
      }
    }
  }
}
