/**
 Configurations and how they are merged. They are shared by reference, and so are
 their rule arrays; once made, only the WAF handle of a configuration changes.
 */
module WafConf {
  import opened Wire
  import opened WafCache

  class RuleArray {
    const entries: seq<Rule>

    constructor (entries: seq<Rule>)
      ensures this.entries == entries
    {
      this.entries := entries;
    }
  }

  class DirConf {
    const enable: int
    const hasRules: bool
    const rules: RuleArray
    const transactionId: Option<Text>
    const bodyMemLimit: int
    const mergeChild: DirConf?
    var waf: nat

    constructor (enable: int, transactionId: Option<Text>, bodyMemLimit: int, hasRules: bool, rules: RuleArray,
                 waf: nat, mergeChild: DirConf?)
      ensures this.enable == enable && this.transactionId == transactionId && this.bodyMemLimit == bodyMemLimit
      ensures this.hasRules == hasRules && this.rules == rules && this.waf == waf && this.mergeChild == mergeChild
    {
      this.enable, this.transactionId, this.bodyMemLimit := enable, transactionId, bodyMemLimit;
      this.hasRules, this.rules, this.waf, this.mergeChild := hasRules, rules, waf, mergeChild;
    }

    /** Directives set `hasRules` whenever they push a rule. */
    predicate WellFormed() {
      hasRules <==> rules.entries != []
    }

    /** The handle a request with this configuration starts from. */
    ghost function Handle(): nat
      reads this`waf, (if mergeChild == null then {} else {mergeChild})`waf
    {
      if waf != 0 || mergeChild == null then waf else mergeChild.waf
    }
  }

  class ServerConf {
    const rules: RuleArray
    var waf: nat

    constructor (rules: RuleArray)
      ensures this.rules == rules && waf == 0
    {
      this.rules, waf := rules, 0;
    }
  }

  /** Parent and child into one configuration. Its rules are the parent's, then the child's;
      arrays are shared when only one side has any, and the child is remembered when both do. */
  method Merge(parent: DirConf, child: DirConf) returns (merged: DirConf)
    requires parent.WellFormed() && child.WellFormed()
    ensures fresh(merged) && merged.WellFormed()
    ensures merged.rules.entries == parent.rules.entries + child.rules.entries
    ensures merged.enable == if child.enable != -1 then child.enable else parent.enable
    ensures merged.transactionId == if child.transactionId.Some? then child.transactionId else parent.transactionId
    ensures merged.bodyMemLimit == if child.bodyMemLimit != -1 then child.bodyMemLimit else parent.bodyMemLimit
    ensures merged.waf == if child.hasRules then child.waf else if parent.hasRules then parent.waf else 0
    ensures merged.mergeChild == if parent.hasRules && child.hasRules then child else null
    ensures !parent.hasRules || !child.hasRules ==>
              merged.rules in {parent.rules, child.rules} || merged.rules.entries == []
  {
    var enable := if child.enable != -1 then child.enable else parent.enable;
    var id := if child.transactionId.Some? then child.transactionId else parent.transactionId;
    var limit := if child.bodyMemLimit != -1 then child.bodyMemLimit else parent.bodyMemLimit;
    if |parent.rules.entries| > 0 {
      if |child.rules.entries| > 0 {
        var both := new RuleArray(parent.rules.entries + child.rules.entries);
        merged := new DirConf(enable, id, limit, true, both, child.waf, child);
      } else {
        merged := new DirConf(enable, id, limit, parent.hasRules, parent.rules, parent.waf, null);
        assert parent.rules.entries + child.rules.entries == parent.rules.entries;
      }
    } else if |child.rules.entries| > 0 {
      merged := new DirConf(enable, id, limit, child.hasRules, child.rules, child.waf, null);
      assert parent.rules.entries + child.rules.entries == child.rules.entries;
    } else {
      var none := new RuleArray([]);
      merged := new DirConf(enable, id, limit, false, none, 0, null);
    }
  }

  // ---------- the configuration of a request ----------

  /** How the configuration of a request comes about: one that is there, or a merge. The merges
      nest in any way, as they do when the sections of one kind are merged with each other
      before they are merged into what the request has so far. */
  datatype Plan = Use(conf: DirConf) | Merged(parent: Plan, child: Plan)

  /** All the rules that apply, parents' first. */
  function Wanted(v: Plan): seq<Rule> {
    match v
    case Use(d) => d.rules.entries
    case Merged(parent, child) => Wanted(parent) + Wanted(child)
  }

  /** The last configuration with rules: where the handle comes from. */
  function Source(v: Plan): DirConf {
    match v
    case Use(d) => d
    case Merged(parent, child) => if Wanted(child) != [] then Source(child) else Source(parent)
  }

  /** The configurations a plan starts from. */
  function Leaves(v: Plan): set<DirConf> {
    match v
    case Use(d) => {d}
    case Merged(parent, child) => Leaves(parent) + Leaves(child)
  }

  /** What everything else is merged into, and all that is merged into it. */
  function Base(v: Plan): DirConf {
    match v
    case Use(d) => d
    case Merged(parent, _) => Base(parent)
  }

  function Sections(v: Plan): set<DirConf> {
    match v
    case Use(_) => {}
    case Merged(parent, child) => Sections(parent) + Leaves(child)
  }

  /** The outcome of such a request is remembered on its source: that of a configuration used
      as it is, or of one that was there when it was merged, last, under other rules. */
  predicate Remembers(v: Plan) {
    match v
    case Use(d) => d.hasRules
    case Merged(parent, child) => child.Use? && Wanted(child) != [] && Wanted(parent) != []
  }

  predicate WellFormedPlan(v: Plan) {
    forall d | d in Leaves(v) :: d.WellFormed()
  }

  ghost function Held(v: Plan): nat
    reads Source(v)`waf
  {
    if Wanted(v) != [] then Source(v).waf else 0
  }

  /** What a configuration used as it is was last merged from. */
  function BaseMemo(v: Plan): (memo: DirConf?) {
    if v.Use? then v.conf.mergeChild else null
  }

  /** The handle a request inherits from merging, or else starts from. */
  ghost function Inherited(v: Plan): nat
    reads Source(v)`waf, (if BaseMemo(v) == null then {} else {BaseMemo(v)})`waf
  {
    if v.Use? && Wanted(v) != [] then v.conf.Handle() else Held(v)
  }

  lemma {:induction false} SourceFacts(v: Plan)
    requires WellFormedPlan(v)
    ensures Source(v) in Leaves(v) && (Source(v).hasRules <==> Wanted(v) != [])
    ensures Remembers(v) ==> Wanted(v) != [] && (v.Merged? ==> v.child == Use(Source(v)))
  {
    if v.Merged? {
      assert forall d | d in Leaves(v.parent) || d in Leaves(v.child) :: d in Leaves(v);
      SourceFacts(v.parent);
      SourceFacts(v.child);
    }
  }

  /** The handle comes from a section, or there are only the rules of the base. */
  lemma {:induction false} SectionOrBase(v: Plan)
    requires WellFormedPlan(v)
    ensures Source(v) in Sections(v) || (Source(v) == Base(v) && Wanted(v) == Base(v).rules.entries)
  {
    if v.Merged? {
      assert forall d | d in Leaves(v.parent) || d in Leaves(v.child) :: d in Leaves(v);
      SourceFacts(v.child);
      SectionOrBase(v.parent);
    }
  }

  lemma {:induction false} LeavesAreAllocated(v: Plan)
    ensures forall d | d in Leaves(v) :: allocated(d)
    ensures forall d | d in Sections(v) :: d in Leaves(v)
  {
    if v.Merged? {
      LeavesAreAllocated(v.parent);
      LeavesAreAllocated(v.child);
    }
  }

  /** The merges of a plan, from the inside out. */
  method MergeAll(v: Plan) returns (merged: DirConf)
    requires WellFormedPlan(v)
    ensures merged.WellFormed() && merged.rules.entries == Wanted(v)
    ensures if v.Use? then merged == v.conf else fresh(merged) && merged.waf == Held(v)
    ensures v.Merged? && Remembers(v) ==> merged.mergeChild == Source(v)
    ensures v.Merged? && !Remembers(v) && merged.mergeChild != null ==>
              fresh(merged.mergeChild) && merged.mergeChild.waf == merged.waf && merged.mergeChild != merged
    decreases v
  {
    if v.Use? {
      return v.conf;
    }
    assert forall d | d in Leaves(v.parent) || d in Leaves(v.child) :: d in Leaves(v);
    LeavesAreAllocated(v);
    SourceFacts(v.parent);
    SourceFacts(v.child);
    var parent := MergeAll(v.parent);
    var child := MergeAll(v.child);
    assert parent.hasRules <==> Wanted(v.parent) != [];
    assert child.hasRules <==> Wanted(v.child) != [];
    merged := Merge(parent, child);
  }
}
