/**
 The WAF engine seen from the connector: an oracle whose answer to a call may
 depend on every call made on the transaction so far. Nothing is assumed about
 the answers. The log of calls is what the properties of the connector speak of.
 */
module Engine {
  import opened Wire
  import opened HeaderCodec

  datatype Side = Request | Response

  datatype Call =
    | ProcessConnection
    | ProcessUri
    | AddHeaders(side: Side, packed: seq<byte>, count: nat)
    | AddHeader(side: Side, pair: Pair)
    | ProcessHeaders(side: Side)
    | BodyAccessible(side: Side)
    | BodyProcessable(side: Side)
    | AppendBody(side: Side, bytes: seq<byte>)
    | ProcessBody(side: Side)
    | Poll
    | UpdateStatus(status: int)
    | ProcessLogging

  datatype Intervention = Intervention(status: int, action: Option<string>)

  /** `rc` is the C return value of the last call of the log, `intervention` what a
      poll at the end of the log returns. */
  datatype Oracle = Oracle(rc: seq<Call> -> int, intervention: seq<Call> -> Option<Intervention>)

  /** The last call of the log must stop the request or the response: a failed submission,
      a failed phase or a queued intervention. A rejected bulk of headers is not one. */
  predicate Alarm(e: Oracle, log: seq<Call>)
    requires log != []
  {
    match log[|log| - 1]
    case AddHeader(_, _) => e.rc(log) != 0
    case AppendBody(_, _) => e.rc(log) != 0
    case ProcessConnection => e.rc(log) < 0
    case ProcessUri => e.rc(log) < 0
    case ProcessHeaders(_) => e.rc(log) < 0
    case ProcessBody(_) => e.rc(log) < 0
    case Poll => e.intervention(log).Some?
    case _ => false
  }

  /** Submissions report an error by any return value but 0, phases by a negative one, and a
      poll by what it finds; a rejected batch, like every other call, is no alarm. */
  lemma AlarmsAre(e: Oracle, log: seq<Call>)
    requires log != []
    ensures var c := log[|log| - 1];
            Alarm(e, log) <==>
            || ((c.AddHeader? || c.AppendBody?) && e.rc(log) != 0)
            || ((c.ProcessConnection? || c.ProcessUri? || c.ProcessHeaders? || c.ProcessBody?) && e.rc(log) < 0)
            || (c.Poll? && e.intervention(log).Some?)
  {
  }

  /** No call after the first `base` ones raised an alarm. */
  predicate Quiet(e: Oracle, log: seq<Call>, base: nat)
    decreases |log|
  {
    |log| <= base || (!Alarm(e, log) && Quiet(e, log[..|log| - 1], base))
  }

  lemma QuietNext(e: Oracle, log: seq<Call>, c: Call, base: nat)
    requires base <= |log|
    ensures Quiet(e, log + [c], base) <==> Quiet(e, log, base) && !Alarm(e, log + [c])
  {
    assert (log + [c])[..|log|] == log;
  }

  lemma {:induction false} QuietMeans(e: Oracle, log: seq<Call>, base: nat)
    ensures Quiet(e, log, base) <==> forall k | base < k <= |log| :: !Alarm(e, log[..k])
    decreases |log|
  {
    if |log| > base {
      var init := log[..|log| - 1];
      QuietMeans(e, init, base);
      assert log[..|log|] == log;
      assert forall k | 0 <= k <= |init| :: init[..k] == log[..k];
    }
  }

  /** The body bytes handed to the engine, in order. */
  function Appended(log: seq<Call>, side: Side): seq<byte> {
    if log == [] then []
    else
      Appended(log[..|log| - 1], side) +
      match log[|log| - 1]
      case AppendBody(s, bytes) => if s == side then bytes else []
      case _ => []
  }

  lemma AppendedNext(log: seq<Call>, c: Call, side: Side)
    ensures Appended(log + [c], side) ==
            Appended(log, side) + if c.AppendBody? && c.side == side then c.bytes else []
  {
    assert (log + [c])[..|log|] == log;
  }

  // ---------- interventions ----------

  const HTTP_OK := 200
  const HTTP_CREATED := 201
  const HTTP_NO_CONTENT := 204
  const HTTP_FORBIDDEN := 403
  const HTTP_INTERNAL_SERVER_ERROR := 500

  predicate IsDrop(iv: Intervention) {
    iv.action == Some("drop") || iv.status == 444
  }

  /** The status an intervention is served with. */
  function EnforcedStatus(iv: Intervention): int {
    if IsDrop(iv) then HTTP_FORBIDDEN
    else if iv.status < 300 && iv.status != HTTP_CREATED && iv.status != HTTP_NO_CONTENT then HTTP_FORBIDDEN
    else iv.status
  }

  /** An intervention of any status is enforced with a status that refuses, and a rule's
      own status survives exactly when it can: never 0, which would mean "no action". */
  lemma InterventionsAreEnforced(iv: Intervention)
    ensures EnforcedStatus(iv) in {201, 204, 403} || EnforcedStatus(iv) >= 300
    ensures EnforcedStatus(iv) > 0
    ensures IsDrop(iv) <==> iv.action == Some("drop") || iv.status == 444
    ensures iv.action == Some("drop") || iv.status == 444 ==> EnforcedStatus(iv) == 403
    ensures iv.status < 300 && iv.status !in {201, 204} ==> EnforcedStatus(iv) == 403
    ensures EnforcedStatus(iv) == iv.status <==>
            iv.status == 403 ||
            (iv.action != Some("drop") && iv.status != 444 && (iv.status in {201, 204} || iv.status >= 300))
  {
  }

  // ---------- submitting headers ----------

  predicate Short(p: Pair) {
    |p.name| <= INT_MAX && |p.value| <= INT_MAX
  }

  /** One call per header, until one is too long or refused. */
  function SubmitSingles(e: Oracle, log: seq<Call>, side: Side, pairs: seq<Pair>): (r: (bool, seq<Call>))
    ensures log <= r.1
    decreases |pairs|
  {
    if pairs == [] then (true, log)
    else if !Short(pairs[0]) then (false, log)
    else
      var next := log + [AddHeader(side, pairs[0])];
      if e.rc(next) != 0 then (false, next) else SubmitSingles(e, next, side, pairs[1..])
  }

  /** The whole set in one call; one call per header when it cannot be packed or the
      batch is rejected. */
  function SubmitHeaders(e: Oracle, log: seq<Call>, side: Side, pairs: seq<Pair>): (r: (bool, seq<Call>))
    ensures log <= r.1
  {
    if pairs == [] then (true, log)
    else if Packable(pairs) then
      PackableFits(pairs);
      var bulk := log + [AddHeaders(side, Encode(pairs), |pairs|)];
      if e.rc(bulk) == 0 then (true, bulk) else SubmitSingles(e, bulk, side, pairs)
    else SubmitSingles(e, log, side, pairs)
  }

  /** The headers the engine took on board in the calls after the first `base`: those of an
      accepted batch, as the engine unpacks it, and those accepted one by one. */
  function Accepted(e: Oracle, log: seq<Call>, base: nat, side: Side): seq<Pair>
    decreases |log|
  {
    if |log| <= base then []
    else
      Accepted(e, log[..|log| - 1], base, side) +
      match log[|log| - 1]
      case AddHeaders(s, packed, count) =>
        if s == side && e.rc(log) == 0 && Decode(packed, count).Some? then Decode(packed, count).value else []
      case AddHeader(s, p) => if s == side && e.rc(log) == 0 then [p] else []
      case _ => []
  }

  lemma AcceptedNext(e: Oracle, log: seq<Call>, p: Pair, base: nat, side: Side)
    requires base <= |log|
    ensures var next := log + [AddHeader(side, p)];
            Accepted(e, next, base, side) == Accepted(e, log, base, side) + if e.rc(next) == 0 then [p] else []
  {
    var next := log + [AddHeader(side, p)];
    assert next[..|log|] == log;
  }

  lemma {:induction false} SinglesAccepted(e: Oracle, log: seq<Call>, side: Side, pairs: seq<Pair>, base: nat)
    requires base <= |log|
    ensures var (ok, log') := SubmitSingles(e, log, side, pairs);
            var taken := Accepted(e, log', base, side);
            && taken <= Accepted(e, log, base, side) + pairs
            && (ok <==> taken == Accepted(e, log, base, side) + pairs)
    decreases |pairs|
  {
    hide Accepted;
    var before := Accepted(e, log, base, side);
    if pairs == [] {
      assert before + pairs == before;
    } else if !Short(pairs[0]) {
      assert |before + pairs| > |before|;
    } else {
      var next := log + [AddHeader(side, pairs[0])];
      AcceptedNext(e, log, pairs[0], base, side);
      if e.rc(next) == 0 {
        SinglesAccepted(e, next, side, pairs[1..], base);
        assert before + pairs == (before + [pairs[0]]) + pairs[1..];
      } else {
        assert before + [] == before && |before + pairs| > |before|;
      }
    }
  }

  lemma {:induction false} SinglesQuiet(e: Oracle, log: seq<Call>, side: Side, pairs: seq<Pair>, base: nat)
    requires base <= |log| && Quiet(e, log, base)
    ensures var (ok, log') := SubmitSingles(e, log, side, pairs);
            && (ok ==> Quiet(e, log', base))
            && (!ok ==> !Quiet(e, log', base) || exists p :: p in pairs && !Short(p))
    decreases |pairs|
  {
    if pairs != [] && Short(pairs[0]) {
      var next := log + [AddHeader(side, pairs[0])];
      QuietNext(e, log, AddHeader(side, pairs[0]), base);
      if e.rc(next) == 0 {
        SinglesQuiet(e, next, side, pairs[1..], base);
      }
    }
  }

  /** The two logs differ by header submissions only. */
  predicate OnlyHeaders(log: seq<Call>, log': seq<Call>) {
    log <= log' && forall k | |log| <= k < |log'| :: log'[k].AddHeader? || log'[k].AddHeaders?
  }

  lemma {:induction false} SinglesOnlyHeaders(e: Oracle, log: seq<Call>, side: Side, pairs: seq<Pair>)
    ensures OnlyHeaders(log, SubmitSingles(e, log, side, pairs).1)
    decreases |pairs|
  {
    if pairs != [] && Short(pairs[0]) {
      SinglesOnlyHeaders(e, log + [AddHeader(side, pairs[0])], side, pairs[1..]);
    }
  }

  lemma NothingYet(e: Oracle, log: seq<Call>, side: Side)
    ensures Accepted(e, log, |log|, side) == []
  {
  }

  lemma AcceptedBatch(e: Oracle, log: seq<Call>, side: Side, packed: seq<byte>, count: nat, pairs: seq<Pair>)
    requires Decode(packed, count) == Some(pairs)
    ensures var bulk := log + [AddHeaders(side, packed, count)];
            Accepted(e, bulk, |log|, side) == if e.rc(bulk) == 0 then pairs else []
  {
    hide Decode;
    var bulk := log + [AddHeaders(side, packed, count)];
    assert bulk[..|log|] == log;
    NothingYet(e, log, side);
    assert [] + pairs == pairs;
  }

  /** A batch is taken whole or not at all. */
  lemma BatchAccepted(e: Oracle, log: seq<Call>, side: Side, pairs: seq<Pair>)
    requires AllFit(pairs)
    ensures var bulk := log + [AddHeaders(side, Encode(pairs), |pairs|)];
            Accepted(e, bulk, |log|, side) == if e.rc(bulk) == 0 then pairs else []
  {
    hide *;
    DecodeAfterEncode(pairs);
    AcceptedBatch(e, log, side, Encode(pairs), |pairs|, pairs);
  }

  /** All or nothing: the submission succeeds exactly when the engine has taken every
      header, in order, either from one accepted batch or one by one; a rejected batch never
      leaves it with fewer. */
  lemma EveryHeaderSubmitted(e: Oracle, log: seq<Call>, side: Side, pairs: seq<Pair>)
    ensures var (ok, log') := SubmitHeaders(e, log, side, pairs);
            && Accepted(e, log', |log|, side) <= pairs
            && (ok <==> Accepted(e, log', |log|, side) == pairs)
            && OnlyHeaders(log, log')
  {
    hide SubmitSingles, Packable, Encode, TotalSize, Accepted;
    assert Accepted(e, log, |log|, side) == [] by { NothingYet(e, log, side); }
    if pairs != [] && Packable(pairs) {
      PackableFits(pairs);
      var bulk := log + [AddHeaders(side, Encode(pairs), |pairs|)];
      BatchAccepted(e, log, side, pairs);
      if e.rc(bulk) != 0 {
        SinglesAccepted(e, bulk, side, pairs, |log|);
        SinglesOnlyHeaders(e, bulk, side, pairs);
        assert [] + pairs == pairs;
      }
    } else {
      SinglesAccepted(e, log, side, pairs, |log|);
      SinglesOnlyHeaders(e, log, side, pairs);
      assert Accepted(e, log, |log|, side) + pairs == pairs;
    }
  }

  /** A submission fails only on an engine error or a header too long to pass. */
  lemma SubmissionQuiet(e: Oracle, log: seq<Call>, side: Side, pairs: seq<Pair>, base: nat)
    requires base <= |log| && Quiet(e, log, base)
    ensures var (ok, log') := SubmitHeaders(e, log, side, pairs);
            && (ok ==> Quiet(e, log', base))
            && (!ok ==>
                  || !Quiet(e, log', base)
                  || exists p :: p in pairs && (|p.name| > 2147483647 || |p.value| > 2147483647))
  {
    hide SubmitSingles, Packable, Encode, TotalSize, Quiet;
    if pairs != [] && Packable(pairs) {
      PackableFits(pairs);
      var c := AddHeaders(side, Encode(pairs), |pairs|);
      QuietNext(e, log, c, base);
      if e.rc(log + [c]) != 0 {
        SinglesQuiet(e, log + [c], side, pairs, base);
      }
    } else {
      SinglesQuiet(e, log, side, pairs, base);
    }
  }

  lemma {:induction false} SinglesQuietBefore(e: Oracle, log: seq<Call>, side: Side, pairs: seq<Pair>, base: nat)
    requires log != [] && base <= |log| && Quiet(e, log, base)
    ensures var log' := SubmitSingles(e, log, side, pairs).1;
            Quiet(e, log'[..|log'| - 1], base)
    decreases |pairs|
  {
    if pairs != [] && Short(pairs[0]) {
      var c := AddHeader(side, pairs[0]);
      QuietNext(e, log, c, base);
      assert (log + [c])[..|log|] == log;
      if e.rc(log + [c]) == 0 {
        SinglesQuietBefore(e, log + [c], side, pairs[1..], base);
      }
    }
  }

  lemma QuietInit(e: Oracle, log: seq<Call>, base: nat)
    requires log != [] && Quiet(e, log, base)
    ensures Quiet(e, log[..|log| - 1], base)
  {
  }

  /** A rejected batch is no alarm. */
  lemma BatchQuiet(e: Oracle, log: seq<Call>, side: Side, packed: seq<byte>, count: nat, base: nat)
    requires base <= |log| && Quiet(e, log, base)
    ensures Quiet(e, log + [AddHeaders(side, packed, count)], base)
  {
    QuietNext(e, log, AddHeaders(side, packed, count), base);
  }

  /** Nothing is submitted after the call that failed. */
  lemma SubmissionQuietBefore(e: Oracle, log: seq<Call>, side: Side, pairs: seq<Pair>, base: nat)
    requires log != [] && base <= |log| && Quiet(e, log, base)
    ensures var log' := SubmitHeaders(e, log, side, pairs).1;
            Quiet(e, log'[..|log'| - 1], base)
  {
    hide SubmitSingles, Packable, Encode, TotalSize, Quiet;
    if pairs == [] {
      QuietInit(e, log, base);
    } else if Packable(pairs) {
      PackableFits(pairs);
      var bulk := log + [AddHeaders(side, Encode(pairs), |pairs|)];
      assert bulk[..|log|] == log;
      BatchQuiet(e, log, side, Encode(pairs), |pairs|, base);
      if e.rc(bulk) != 0 {
        SinglesQuietBefore(e, bulk, side, pairs, base);
      }
    } else {
      SinglesQuietBefore(e, log, side, pairs, base);
    }
  }

  lemma {:induction false} HeadersAppendNothing(log: seq<Call>, log': seq<Call>, side: Side)
    requires OnlyHeaders(log, log')
    ensures Appended(log', side) == Appended(log, side)
    decreases |log'|
  {
    if log' != log {
      HeadersAppendNothing(log, log'[..|log'| - 1], side);
    }
  }

  /** How often a call was made. */
  function Times(log: seq<Call>, c: Call): nat {
    if log == [] then 0
    else Times(log[..|log| - 1], c) + if log[|log| - 1] == c then 1 else 0
  }

  lemma TimesNext(log: seq<Call>, next: Call, c: Call)
    ensures Times(log + [next], c) == Times(log, c) + if next == c then 1 else 0
  {
    assert (log + [next])[..|log|] == log;
  }

  lemma {:induction false} HeadersCountNothing(log: seq<Call>, log': seq<Call>, c: Call)
    requires OnlyHeaders(log, log') && !c.AddHeader? && !c.AddHeaders?
    ensures Times(log', c) == Times(log, c)
    decreases |log'|
  {
    if log' != log {
      HeadersCountNothing(log, log'[..|log'| - 1], c);
    }
  }
}
