/**
 The per-request context: one transaction, the flags the hooks and filters share,
 and the engine calls they make through it.
 */
module Context {
  import opened Wire
  import opened HeaderCodec
  import opened Engine
  import opened Brigade

  datatype TableEntry = TableEntry(key: Option<CString>, value: Option<CString>)

  /** The pairs of a header table: an entry without a key is skipped, a missing value
      is the empty string. */
  function PairsOf(table: seq<TableEntry>): seq<Pair> {
    if table == [] then []
    else
      (if table[0].key.None? then []
       else [Pair(table[0].key.value, if table[0].value.Some? then table[0].value.value else [])])
      + PairsOf(table[1..])
  }

  lemma {:induction false} PairsOfConcat(a: seq<TableEntry>, b: seq<TableEntry>)
    ensures PairsOf(a + b) == PairsOf(a) + PairsOf(b)
  {
    if a == [] {
      assert a + b == b;
    } else {
      assert (a + b)[1..] == a[1..] + b;
      PairsOfConcat(a[1..], b);
    }
  }

  /** How many entries have a key. */
  function Keyed(table: seq<TableEntry>): nat {
    if table == [] then 0
    else Keyed(table[..|table| - 1]) + if table[|table| - 1].key.Some? then 1 else 0
  }

  /** One pair for each entry with a key, in the same order: its key is the name, and its value
      the value, empty when there is none. */
  lemma {:induction false} PairAt(table: seq<TableEntry>, i: nat)
    requires i <= |table|
    ensures |PairsOf(table)| == Keyed(table) && Keyed(table[..i]) <= Keyed(table)
    ensures i < |table| && table[i].key.Some? ==>
              && Keyed(table[..i]) < |PairsOf(table)|
              && PairsOf(table)[Keyed(table[..i])].name == table[i].key.value
              && PairsOf(table)[Keyed(table[..i])].value == if table[i].value.Some? then table[i].value.value else []
    decreases |table|
  {
    if table == [] {
      assert table[..i] == [];
    } else {
      var init, last := table[..|table| - 1], table[|table| - 1];
      assert table == init + [last] && [last][1..] == [];
      PairsOfConcat(init, [last]);
      PairAt(init, if i <= |init| then i else |init|);
      assert i <= |init| ==> init[..i] == table[..i];
      assert i == |table| ==> table[..i] == table;
    }
  }

  method CollectPairs(table: seq<TableEntry>) returns (pairs: seq<Pair>)
    ensures pairs == PairsOf(table)
  {
    pairs := [];
    var i := 0;
    while i < |table|
      invariant 0 <= i <= |table|
      invariant pairs == PairsOf(table[..i])
    {
      var entry := table[i];
      PairsOfConcat(table[..i], [entry]);
      assert table[..i + 1] == table[..i] + [entry];
      if entry.key.Some? {
        pairs := pairs + [Pair(entry.key.value, if entry.value.Some? then entry.value.value else [])];
      }
      i := i + 1;
    }
    assert table[..i] == table;
  }

  class RequestCtx {
    const engine: Oracle
    var log: seq<Call>

    var pendingBrigade: seq<Bucket>
    var pendingLen: nat
    var headersDelayed: bool
    var phase2Done: bool
    var savedBody: Option<seq<Bucket>>
    var phase3Done: bool
    var phase4Done: bool
    var logged: bool
    var interventionTriggered: bool
    var responseBodyProcessable: bool
    var dropConnection: bool

    /** A context as allocated: every flag clear. */
    constructor (engine: Oracle)
      ensures this.engine == engine && log == [] && savedBody == None
      ensures pendingBrigade == [] && pendingLen == 0 && !headersDelayed && !phase2Done
      ensures !phase3Done && !phase4Done && !logged && !interventionTriggered
      ensures !responseBodyProcessable && !dropConnection
    {
      this.engine := engine;
      log := [];
      pendingBrigade, pendingLen, headersDelayed := [], 0, false;
      phase2Done, phase3Done, phase4Done := false, false, false;
      savedBody := None;
      logged, interventionTriggered := false, false;
      responseBodyProcessable, dropConnection := false, false;
    }

    method Ask(c: Call) returns (rc: int)
      modifies this`log
      ensures log == old(log) + [c] && rc == engine.rc(log)
    {
      log := log + [c];
      rc := engine.rc(log);
    }

    /** The log_transaction hook; `enabled` is the scope's own switch. */
    method LogTransaction(enabled: bool)
      modifies this`log, this`logged
      ensures log == old(log) + if enabled && !old(logged) then [ProcessLogging] else []
      ensures logged == (old(logged) || enabled)
    {
      if !enabled || logged {
        return;
      }
      logged := true;
      var _ := Ask(ProcessLogging);
    }

    /** 0 when nothing is queued, else the status to enforce. */
    method ProcessIntervention(enabled: bool, earlyLog: bool) returns (ret: int)
      modifies this`log, this`dropConnection, (if earlyLog then {this} else {})`logged
      ensures var iv := engine.intervention(old(log) + [Poll]);
              if iv.None? then
                ret == 0 && log == old(log) + [Poll] && logged == old(logged) && dropConnection == old(dropConnection)
              else
                && ret == EnforcedStatus(iv.value) && ret > 0
                && dropConnection == (old(dropConnection) || IsDrop(iv.value))
                && logged == (old(logged) || earlyLog)
                && log == old(log) + [Poll, UpdateStatus(ret)]
                          + if earlyLog && enabled && !old(logged) then [ProcessLogging] else []
    {
      log := log + [Poll];
      var queued := engine.intervention(log);
      if queued.None? {
        return 0;
      }
      var status := queued.value.status;
      var drop := queued.value.action == Some("drop") || status == 444;
      if drop {
        status := HTTP_FORBIDDEN;
        dropConnection := true;
      } else if status < 300 && status != HTTP_CREATED && status != HTTP_NO_CONTENT {
        status := HTTP_FORBIDDEN;
      }
      log := log + [UpdateStatus(status)];
      if earlyLog {
        LogTransaction(enabled);
        logged := true;
      }
      ret := status;
    }

    /** Every header in one call when the set can be packed, else or on rejection one call
        per header. */
    method AddAllHeaders(side: Side, pairs: seq<Pair>) returns (ok: bool)
      modifies this`log
      ensures (ok, log) == SubmitHeaders(engine, old(log), side, pairs)
    {
      var bulkDone := false;
      if |pairs| == 0 {
        bulkDone := true;
      } else {
        var packed := PackHeaders(pairs);
        if packed.Some? {
          var rc := Ask(AddHeaders(side, packed.value, |pairs|));
          bulkDone := rc == 0;
        }
      }
      var i := 0;
      while !bulkDone && i < |pairs|
        invariant 0 <= i <= |pairs|
        invariant bulkDone ==> SubmitHeaders(engine, old(log), side, pairs) == (true, log)
        invariant !bulkDone ==>
                    SubmitHeaders(engine, old(log), side, pairs) == SubmitSingles(engine, log, side, pairs[i..])
        decreases |pairs| - i
      {
        if |pairs[i].name| > INT_MAX || |pairs[i].value| > INT_MAX {
          return false;
        }
        assert pairs[i..][1..] == pairs[i + 1..];
        var rc := Ask(AddHeader(side, pairs[i]));
        if rc != 0 {
          return false;
        }
        i := i + 1;
      }
      ok := true;
    }
  }
}
