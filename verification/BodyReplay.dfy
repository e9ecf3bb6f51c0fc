/**
 The input filter that replays to the handler the request body the fixups hook
 consumed: buckets move out of the saved brigade as they are delivered, whatever
 the sequence of read modes, and the EOS comes last and once.
 */
module BodyReplay {
  import opened Wire
  import opened Brigade
  import opened Context

  datatype Mode = ReadBytes | GetLine | EatCrlf | Speculative | Exhaustive | Init

  const HUGE_STRING_LEN: nat := 8192

  predicate Consuming(mode: Mode) {
    mode != EatCrlf && mode != Speculative
  }

  /** What a reader still has to go through: the bytes left, and the EOS. */
  function Measure(saved: seq<Bucket>): nat {
    |Payload(saved)| + if saved == [] then 0 else 1
  }

  function Min(a: int, b: int): int {
    if a < b then a else b
  }

  class ReplayFilter {
    const ctx: RequestCtx
    var attached: bool

    /** The body to replay, and what has been handed over of it for good. */
    ghost const body: seq<byte>
    ghost var delivered: seq<Bucket>

    ghost function Remaining(): seq<Bucket>
      reads ctx
    {
      if ctx.savedBody.Some? then ctx.savedBody.value else []
    }

    /** Delivered and remaining make up the body; the EOS is at the end of one of them. */
    ghost predicate Valid()
      reads this, ctx
    {
      && Replayable(Remaining())
      && Payload(delivered) + Payload(Remaining()) == body
      && (if Remaining() == [] then delivered != [] && Replayable(delivered) else AllData(delivered))
      && (!attached ==> Remaining() == [] || ctx.interventionTriggered)
    }

    constructor (ctx: RequestCtx)
      requires ctx.savedBody.Some? && ctx.savedBody.value != [] && Replayable(ctx.savedBody.value)
      ensures this.ctx == ctx && attached && delivered == [] && body == Payload(ctx.savedBody.value)
      ensures Valid()
    {
      this.ctx := ctx;
      attached := true;
      body := Payload(ctx.savedBody.value);
      delivered := [];
      new;
      assert [] + Payload(ctx.savedBody.value) == body;
    }

    /** What one read promises of the brigade `bb` it hands over, when the filter answers. */
    twostate predicate Answered(mode: Mode, readbytes: int, bb: seq<Bucket>)
      reads this, ctx
    {
      var before, after := old(Payload(Remaining())), Payload(Remaining());
      // a consuming read hands over for good, and makes progress; EOS goes with the last of it
      && (Consuming(mode) ==>
            && delivered == old(delivered) + bb && bb != [] && Payload(bb) + after == before
            && Measure(Remaining()) < old(Measure(Remaining()))
            && (Eos in bb <==> Remaining() == []))
      // a speculative read copies the bytes asked for and consumes none
      && (mode == Speculative ==>
            && delivered == old(delivered) && after == before && Remaining() != []
            && Payload(bb) == (if readbytes > 0 then before[..Min(readbytes, |before|)] else before)
            && (Eos in bb <==> readbytes <= 0 || readbytes > |before|))
      // a limited read hands over exactly what was asked, or all there is
      && (mode in {ReadBytes, Init} && readbytes > 0 ==>
            |Payload(bb)| == Min(readbytes, |before|) && (Eos in bb <==> readbytes > |before|))
      && (mode == Exhaustive || (mode in {ReadBytes, Init} && readbytes <= 0) ==>
            bb == old(Remaining()) && Remaining() == [])
      // a line ends at its line feed, is long, or is the last
      && (mode == GetLine ==>
            && IsLine(Payload(bb))
            && (Remaining() != [] ==> LF in Payload(bb) || |Payload(bb)| >= HUGE_STRING_LEN))
    }

    /** One read. `below` when the next filter answers it; otherwise `bb` is handed over. */
    method Read(mode: Mode, readbytes: int) returns (below: bool, bb: seq<Bucket>)
      requires Valid()
      modifies this, ctx`savedBody
      ensures Valid()
      // the filter answers while there is something left and the request was not denied
      ensures below <==> ctx.interventionTriggered || old(Remaining()) == [] || mode == EatCrlf
      ensures below ==> bb == [] && delivered == old(delivered) && Remaining() == old(Remaining())
      ensures !below ==> Answered(mode, readbytes, bb)
      // it steps out only then, and never before the EOS was delivered
      ensures attached == (old(attached) && !ctx.interventionTriggered && old(Remaining()) != [])
    {
      if ctx.savedBody.None? || ctx.interventionTriggered {
        attached := false;
        return true, [];
      }
      below, bb := Replay(mode, readbytes);
    }

    /** The replay proper, on a saved body. */
    method Replay(mode: Mode, readbytes: int) returns (below: bool, bb: seq<Bucket>)
      requires Valid() && ctx.savedBody.Some? && !ctx.interventionTriggered
      modifies this, ctx`savedBody
      ensures Valid()
      ensures below <==> old(Remaining()) == [] || mode == EatCrlf
      ensures below ==> bb == [] && delivered == old(delivered) && Remaining() == old(Remaining())
      ensures !below ==> Answered(mode, readbytes, bb)
      ensures attached == (old(attached) && old(Remaining()) != [])
    {
      var saved := ctx.savedBody.value;
      if saved == [] {
        ctx.savedBody := None;
        attached := false;
        return true, [];
      }
      below := false;
      if mode == EatCrlf {
        return true, [];
      }
      if mode == GetLine {
        var rest;
        bb, rest := SplitLine(saved, HUGE_STRING_LEN);
        HandOver(bb, rest);
        return;
      }
      if mode == Speculative {
        bb := Peek(readbytes);
        return;
      }
      if mode == Exhaustive || readbytes <= 0 {
        bb := HandOverAll();
        return;
      }
      bb := ReadLimited(readbytes);
    }

    method HandOverAll() returns (bb: seq<Bucket>)
      requires Valid() && ctx.savedBody.Some? && ctx.savedBody.value != [] && !ctx.interventionTriggered
      modifies this`delivered, ctx`savedBody
      ensures Valid() && Answered(Exhaustive, 0, bb)
    {
      bb := ctx.savedBody.value;
      assert Payload(bb) + Payload([]) == Payload(bb);
      HandOver(bb, []);
    }

    method ReadLimited(readbytes: nat) returns (bb: seq<Bucket>)
      requires Valid() && ctx.savedBody.Some? && ctx.savedBody.value != [] && !ctx.interventionTriggered
      requires readbytes > 0
      modifies this`delivered, ctx`savedBody
      ensures Valid() && Answered(ReadBytes, readbytes, bb)
    {
      hide Replayable, AllData, Payload, IsLine;
      var stop, incomplete := PartitionSaved(readbytes);
      var saved := ctx.savedBody.value;
      if incomplete {
        assert saved[..stop] == saved;
        bb := HandOverAll();
        return;
      }
      var rest;
      bb, rest := MoveFront(saved, stop);
      HandOver(bb, rest);
    }

    /** Move the first `stop` buckets, one at a time. */
    static method MoveFront(saved: seq<Bucket>, stop: nat) returns (bb: seq<Bucket>, rest: seq<Bucket>)
      requires stop <= |saved|
      ensures bb == saved[..stop] && rest == saved[stop..] && Payload(bb) + Payload(rest) == Payload(saved)
    {
      bb, rest := [], saved;
      while |bb| < stop
        invariant |bb| <= stop && bb == saved[..|bb|] && rest == saved[|bb|..]
      {
        bb, rest := bb + [rest[0]], rest[1..];
      }
      assert saved == bb + rest;
      PayloadConcat(bb, rest);
    }

    /** Move `bb` out of the saved body, which keeps `rest`. */
    method HandOver(bb: seq<Bucket>, rest: seq<Bucket>)
      requires Valid() && ctx.savedBody.Some? && ctx.savedBody.value != [] && !ctx.interventionTriggered
      requires Payload(bb) + Payload(rest) == Payload(Remaining()) && Replayable(rest)
      requires if rest == [] then bb != [] && Replayable(bb) else AllData(bb) && Payload(bb) != []
      modifies this`delivered, ctx`savedBody
      ensures Valid() && delivered == old(delivered) + bb && ctx.savedBody == Some(rest)
      ensures bb != [] && Measure(rest) < old(Measure(Remaining())) && (Eos in bb <==> rest == [])
    {
      ctx.savedBody := Some(rest);
      PayloadConcat(delivered, bb);
      Reassociate(Payload(delivered), Payload(bb), Payload(rest));
      if rest == [] {
        var all := delivered + bb;
        assert all[..|all| - 1] == delivered + bb[..|bb| - 1];
        assert bb[|bb| - 1] == Eos;
      }
      delivered := delivered + bb;
    }

    /** Partition the saved body in place; `stop` buckets lie before the point. */
    method PartitionSaved(readbytes: nat) returns (stop: nat, incomplete: bool)
      requires Valid() && ctx.savedBody.Some? && ctx.savedBody.value != [] && !ctx.interventionTriggered
      modifies ctx`savedBody
      ensures Valid() && ctx.savedBody.Some? && Remaining() != []
      ensures Payload(Remaining()) == old(Payload(Remaining())) && stop <= |Remaining()|
      ensures Payload(Remaining()[..stop]) == Payload(Remaining())[..Min(readbytes, |Payload(Remaining())|)]
      ensures incomplete <==> readbytes > |Payload(Remaining())|
      ensures if incomplete then stop == |Remaining()| && Remaining() == old(Remaining())
              else AllData(Remaining()[..stop]) && Replayable(Remaining()[stop..]) && stop < |Remaining()| &&
                   readbytes <= |Payload(Remaining())|
    {
      hide Partition, Payload, Replayable, AllData;
      var saved := ctx.savedBody.value;
      var parts := Partition(saved, readbytes);
      PartitionBytes(saved, readbytes);
      PartitionShape(saved, readbytes);
      PayloadConcat(parts.before, parts.after);
      PeekKeepsShape(parts.before, parts.after, saved);
      ctx.savedBody := Some(parts.before + parts.after);
      stop, incomplete := |parts.before|, parts.incomplete;
      PartsOf(parts);
    }

    static lemma PartsOf(p: Parts)
      ensures (p.before + p.after)[..|p.before|] == p.before && (p.before + p.after)[|p.before|..] == p.after
      ensures Payload(p.before) == (Payload(p.before) + Payload(p.after))[..|Payload(p.before)|]
    {
    }

    /** Copies of the buckets up to the partition point; splitting is all that happens to
        the saved body. */
    method Peek(readbytes: int) returns (bb: seq<Bucket>)
      requires Valid() && ctx.savedBody.Some? && ctx.savedBody.value != [] && !ctx.interventionTriggered
      modifies ctx`savedBody
      ensures Valid() && Remaining() != [] && ctx.savedBody.Some?
      ensures Payload(Remaining()) == old(Payload(Remaining()))
      ensures Payload(bb) == if readbytes > 0
                             then old(Payload(Remaining()))[..Min(readbytes, |old(Payload(Remaining()))|)]
                             else old(Payload(Remaining()))
      ensures Eos in bb <==> readbytes <= 0 || readbytes > |old(Payload(Remaining()))|
    {
      var stop := |ctx.savedBody.value|;
      if readbytes > 0 {
        var incomplete;
        stop, incomplete := PartitionSaved(readbytes);
      }
      var saved := ctx.savedBody.value;
      bb := [];
      var i := 0;
      while i < stop
        invariant 0 <= i <= stop && bb == saved[..i]
      {
        bb := bb + [saved[i]];
        i := i + 1;
      }
      assert readbytes <= 0 ==> saved[..stop] == saved;
      assert stop == |saved| ==> saved[..stop] == saved && saved[|saved| - 1] in saved;
    }

    static lemma PeekKeepsShape(before: seq<Bucket>, after: seq<Bucket>, saved: seq<Bucket>)
      requires Replayable(saved) && saved != [] && Replayable(after)
      requires if after == [] then before == saved else AllData(before)
      ensures Replayable(before + after) && before + after != []
    {
      if after != [] {
        var all := before + after;
        assert all[..|all| - 1] == before + after[..|after| - 1];
      } else {
        assert before + after == saved;
      }
    }

    /** Any sequence of reads, in any modes: what was handed over for good followed by what
        remains is the body. */
    method ReadMany(calls: seq<(Mode, int)>)
      requires Valid()
      modifies this, ctx`savedBody
      ensures Valid() && Payload(delivered) + Payload(Remaining()) == body
      ensures Remaining() == [] ==> Payload(delivered) == body
      ensures forall k | 0 <= k < |delivered| - 1 :: delivered[k] != Eos
    {
      var i := 0;
      while i < |calls|
        invariant Valid()
      {
        var _, _ := Read(calls[i].0, calls[i].1);
        i := i + 1;
      }
      EosIsLast(delivered);
      assert Payload(delivered) + [] == Payload(delivered);
    }

    static lemma EosIsLast(bb: seq<Bucket>)
      requires AllData(bb) || Replayable(bb)
      ensures forall k | 0 <= k < |bb| - 1 :: bb[k] != Eos
    {
      assert bb != [] ==> forall k | 0 <= k < |bb| - 1 :: bb[k] in bb && bb[k] in bb[..|bb| - 1];
    }

    /** A reader that keeps reading, however it mixes consuming modes and limits, gets the
        whole body and then its EOS; the next read steps out of the chain. */
    method ReadToEnd(plan: nat -> (Mode, int)) returns (got: seq<Bucket>)
      requires Valid() && attached && delivered == [] && !ctx.interventionTriggered
      requires forall k: nat :: Consuming(plan(k).0)
      modifies this, ctx`savedBody
      ensures Valid() && attached && got == delivered && Payload(got) == body
      ensures got != [] && got[|got| - 1] == Eos && Eos !in got[..|got| - 1]
    {
      hide Payload, Replayable, AllData, IsLine, BytesOf;
      got := [];
      StartedEmpty();
      var k: nat := 0;
      while got == [] || got[|got| - 1] != Eos
        invariant Valid() && attached && got == delivered
        decreases Measure(Remaining())
      {
        NotEnded(got, Remaining());
        var (mode, readbytes) := plan(k);
        var _, bb := Read(mode, readbytes);
        got := got + bb;
        k := k + 1;
      }
      Ended(got, Remaining());
    }

    static lemma StartedEmpty()
      ensures AllData([])
    {
    }

    /** Without its EOS a reader has something left. */
    static lemma NotEnded(got: seq<Bucket>, left: seq<Bucket>)
      requires left == [] ==> got != [] && Replayable(got)
      requires got == [] || got[|got| - 1] != Eos
      ensures left != []
    {
    }

    /** With it, it has everything. */
    static lemma Ended(got: seq<Bucket>, left: seq<Bucket>)
      requires if left == [] then Replayable(got) else AllData(got)
      requires got != [] && got[|got| - 1] == Eos
      ensures left == [] && Payload(got) + Payload(left) == Payload(got) && Eos !in got[..|got| - 1]
    {
      EosIsLast(got);
      assert got[|got| - 1] in got;
      assert Payload(got) + [] == Payload(got);
      var front := got[..|got| - 1];
      assert forall k | 0 <= k < |front| :: front[k] == got[k];
    }
  }
}
