/**
 Bucket brigades as sequences of buckets, and the three APR operations the
 connector relies on: partition, copy and line splitting.
 */
module Brigade {
  import opened Wire

  /** `File` is a file bucket, whose read may bring only a part of it into memory;
      `Broken` is a data bucket that cannot be read. */
  datatype Bucket =
    | Data(bytes: seq<byte>)
    | File(bytes: seq<byte>)
    | Broken
    | Eos
    | Meta

  function BytesOf(b: Bucket): seq<byte> {
    if b.Data? || b.File? then b.bytes else []
  }

  /** The bytes of a brigade, end to end. */
  function Payload(bb: seq<Bucket>): seq<byte> {
    if bb == [] then [] else BytesOf(bb[0]) + Payload(bb[1..])
  }

  lemma {:induction false} PayloadConcat(a: seq<Bucket>, b: seq<Bucket>)
    ensures Payload(a + b) == Payload(a) + Payload(b)
  {
    if a == [] {
      assert a + b == b;
    } else {
      assert (a + b)[1..] == a[1..] + b;
      PayloadConcat(a[1..], b);
    }
  }

  /** Replay material: nothing left, or data buckets closed by one EOS. */
  predicate Replayable(bb: seq<Bucket>) {
    bb != [] ==> bb[|bb| - 1] == Eos && AllData(bb[..|bb| - 1])
  }

  predicate AllData(bb: seq<Bucket>) {
    forall b | b in bb :: b.Data? || b.File?
  }

  lemma PayloadSnoc(bb: seq<Bucket>, b: Bucket)
    ensures Payload(bb + [b]) == Payload(bb) + BytesOf(b)
  {
    PayloadConcat(bb, [b]);
    assert Payload([b]) == BytesOf(b) + Payload([]);
  }

  // ---------- apr_bucket_split ----------

  function SplitBucket(b: Bucket, n: nat): (Bucket, Bucket)
    requires (b.Data? || b.File?) && n <= |b.bytes|
  {
    if b.Data? then (Data(b.bytes[..n]), Data(b.bytes[n..])) else (File(b.bytes[..n]), File(b.bytes[n..]))
  }

  // ---------- apr_brigade_partition ----------

  /** `incomplete` stands for APR_INCOMPLETE with the sentinel as the partition point. */
  datatype Parts = Parts(before: seq<Bucket>, after: seq<Bucket>, incomplete: bool)

  /** Cut the brigade after exactly `point` bytes, splitting a bucket if need be; an exact
      fit stops at the bucket that completes it. */
  function Partition(bb: seq<Bucket>, point: nat): Parts {
    if point == 0 then Parts([], bb, false)
    else if bb == [] then Parts([], [], true)
    else
      var len := |BytesOf(bb[0])|;
      if point < len then
        var (x, y) := SplitBucket(bb[0], point);
        Parts([x], [y] + bb[1..], false)
      else if point == len then Parts([bb[0]], bb[1..], false)
      else
        var p := Partition(bb[1..], point - len);
        Parts([bb[0]] + p.before, p.after, p.incomplete)
  }

  lemma PayloadCons(b: Bucket, rest: seq<Bucket>)
    ensures Payload([b] + rest) == BytesOf(b) + Payload(rest)
  {
    assert ([b] + rest)[1..] == rest;
  }

  lemma OnlyOne(b: Bucket)
    ensures Payload([b]) == BytesOf(b)
  {
    assert BytesOf(b) + [] == BytesOf(b);
  }

  lemma SplitBytes(b: Bucket, n: nat, rest: seq<Bucket>)
    requires (b.Data? || b.File?) && n <= |b.bytes|
    ensures var (x, y) := SplitBucket(b, n);
            && BytesOf(x) + BytesOf(y) == BytesOf(b) && |Payload([x])| == n
            && Payload([x]) + Payload([y] + rest) == BytesOf(b) + Payload(rest)
  {
    var (x, y) := SplitBucket(b, n);
    PayloadCons(y, rest);
    OnlyOne(x);
    hide Payload;
    assert BytesOf(x) + BytesOf(y) == BytesOf(b);
    Reassociate(BytesOf(x), BytesOf(y), Payload(rest));
  }

  /** A partition moves no byte, and is incomplete exactly when too few remain. */
  lemma {:induction false} PartitionBytes(bb: seq<Bucket>, point: nat)
    ensures var p := Partition(bb, point);
            && Payload(p.before) + Payload(p.after) == Payload(bb)
            && (p.incomplete <==> |Payload(bb)| < point)
            && (if p.incomplete then p.before == bb && p.after == [] else |Payload(p.before)| == point)
  {
    hide BytesOf;
    if point != 0 && bb != [] {
      var b, rest := bb[0], bb[1..];
      var len := |BytesOf(b)|;
      assert [b] + rest == bb;
      PayloadCons(b, rest);
      HasBytes(b);
      if point < len {
        SplitBytes(b, point, rest);
      } else if point == len {
        PayloadCons(b, []);
        assert [b] + [] == [b];
      } else {
        PartitionBytes(rest, point - len);
        var p := Partition(rest, point - len);
        PayloadCons(b, p.before);
        Reassociate(BytesOf(b), Payload(p.before), Payload(p.after));
      }
    }
  }

  lemma HasBytes(b: Bucket)
    ensures BytesOf(b) != [] ==> (b.Data? || b.File?) && b.bytes == BytesOf(b)
  {
  }

  lemma Reassociate<T>(a: seq<T>, b: seq<T>, c: seq<T>)
    ensures a + (b + c) == (a + b) + c
  {
  }

  lemma EosCloses(data: seq<Bucket>)
    requires AllData(data)
    ensures Replayable(data + [Eos]) && Payload(data + [Eos]) == Payload(data)
  {
    PayloadSnoc(data, Eos);
    assert (data + [Eos])[..|data|] == data;
    assert Payload(data) + [] == Payload(data);
  }

  lemma ReplayableTail(bb: seq<Bucket>)
    requires Replayable(bb) && |bb| > 1
    ensures Replayable(bb[1..]) && (bb[0].Data? || bb[0].File?)
  {
    assert bb[0] in bb[..|bb| - 1];
    assert bb[1..][..|bb[1..]| - 1] == bb[..|bb| - 1][1..];
    assert bb[1..][|bb[1..]| - 1] == Eos;
  }

  lemma ReplayableAgain(y: Bucket, tail: seq<Bucket>)
    requires Replayable(tail) && tail != [] && (y.Data? || y.File?)
    ensures Replayable([y] + tail)
  {
    var all := [y] + tail;
    assert all[..|all| - 1] == [y] + tail[..|tail| - 1];
  }

  /** Of replay material a complete partition takes data only; what is left is still
      replay material with its EOS. */
  lemma {:induction false} PartitionShape(bb: seq<Bucket>, point: nat)
    requires Replayable(bb) && bb != []
    ensures var p := Partition(bb, point);
            if p.incomplete then p.before == bb else AllData(p.before) && Replayable(p.after) && p.after != []
    decreases |bb|
  {
    var len := |BytesOf(bb[0])|;
    if point != 0 {
      if |bb| == 1 {
        assert bb[0] == Eos;
        assert Partition(bb[1..], point) == Parts([], [], true);
        assert [bb[0]] + [] == bb;
      } else {
        ReplayableTail(bb);
        hide Replayable;
        if point < len {
          var (x, y) := SplitBucket(bb[0], point);
          ReplayableAgain(y, bb[1..]);
        } else if point > len {
          PartitionShape(bb[1..], point - len);
          assert [bb[0]] + bb[1..] == bb;
        }
      }
    }
  }

  // ---------- apr_bucket_read, apr_brigade_split_line ----------

  const LF: byte := 10

  /** Reading the first bucket: memory is read whole, a file bucket brings some of its
      bytes into memory and leaves the rest behind it. */
  method ReadFirst(bb: seq<Bucket>) returns (b: Bucket, rest: seq<Bucket>)
    requires Replayable(bb) && bb != []
    ensures b.Data? || b == Eos
    ensures Replayable([b] + rest) && BytesOf(b) + Payload(rest) == Payload(bb)
    ensures b == Eos ==> rest == []
    ensures BytesOf(b) != [] || |rest| < |bb|
  {
    b, rest := bb[0], bb[1..];
    if |bb| > 1 {
      assert b in bb[..|bb| - 1];
      assert bb[1..][..|bb[1..]| - 1] == bb[..|bb| - 1][1..];
    }
    if b.File? {
      var bytes := b.bytes;
      var n: nat := 0;
      if bytes != [] {
        n :| 0 < n <= |bytes|;
      }
      b := Data(bytes[..n]);
      if n < |bytes| {
        rest := [File(bytes[n..])] + rest;
        assert rest[1..] == bb[1..];
        assert bytes == bytes[..n] + bytes[n..];
        assert bytes[..n] + (bytes[n..] + Payload(bb[1..])) == bytes + Payload(bb[1..]);
      } else {
        assert bytes[..n] == bytes;
      }
    }
    ReplayableCons(b, rest, bb);
  }

  lemma ReplayableCons(b: Bucket, rest: seq<Bucket>, bb: seq<Bucket>)
    requires Replayable(bb) && bb != []
    requires if bb[0] == Eos then b == Eos && rest == bb[1..]
             else b.Data? && (rest == bb[1..] || exists x: Bucket :: x.File? && rest == [x] + bb[1..])
    ensures Replayable([b] + rest) && (b == Eos ==> rest == [])
  {
    if |bb| > 1 {
      assert bb[0] in bb[..|bb| - 1];
      assert bb[1..][..|bb[1..]| - 1] == bb[..|bb| - 1][1..];
    }
    var all := [b] + rest;
    if bb[0] == Eos {
      assert |bb| == 1;
    } else {
      assert |bb| > 1 && bb[|bb| - 1] == Eos;
      if rest != bb[1..] {
        var x: Bucket :| x.File? && rest == [x] + bb[1..];
        assert all[..|all| - 1] == [b, x] + bb[1..][..|bb[1..]| - 1];
      } else {
        assert all[..|all| - 1] == [b] + bb[1..][..|bb[1..]| - 1];
      }
    }
  }

  /** The position of the first line feed, or the length. */
  method FindLf(bytes: seq<byte>) returns (pos: nat)
    ensures pos <= |bytes| && LF !in bytes[..pos]
    ensures pos < |bytes| ==> bytes[pos] == LF
  {
    pos := 0;
    while pos < |bytes| && bytes[pos] != LF
      invariant 0 <= pos <= |bytes| && LF !in bytes[..pos]
    {
      assert bytes[..pos + 1] == bytes[..pos] + [bytes[pos]];
      pos := pos + 1;
    }
  }

  /** A line: its only line feed, if any, is its last byte. */
  predicate IsLine(line: seq<byte>) {
    forall i | 0 <= i < |line| - 1 :: line[i] != LF
  }

  /** One line off the front: up to its line feed, or a piece of at least `max` bytes with
      none, or all that is left. */
  method SplitLine(bb: seq<Bucket>, max: nat) returns (out: seq<Bucket>, rest: seq<Bucket>)
    requires Replayable(bb) && bb != [] && max > 0
    ensures Payload(out) + Payload(rest) == Payload(bb)
    ensures IsLine(Payload(out)) && Replayable(rest)
    ensures if rest == [] then out != [] && Replayable(out) else AllData(out) && Payload(out) != []
    ensures rest != [] ==> LF in Payload(out) || |Payload(out)| >= max
  {
    hide Payload, Replayable, AllData, IsLine, BytesOf;
    out, rest := [], bb;
    var read := 0;
    NothingOut();
    while rest != []
      invariant Payload(out) + Payload(rest) == Payload(bb)
      invariant LF !in Payload(out) && read == |Payload(out)|
      invariant if rest == [] then out != [] && Replayable(out) else AllData(out) && Replayable(rest) && read < max
      decreases |Payload(rest)|, |rest|
    {
      var b, tail := ReadFirst(rest);
      ghost var before := out;
      SplitStep(before, b, tail, Payload(rest), Payload(bb));
      if b == Eos {
        out, rest := out + [b], tail;
        ClosedByEos(before);
        PayloadSnoc(before, b);
        break;
      }
      var pos := FindLf(b.bytes);
      if pos < |b.bytes| {
        out, rest := CutAfter(out, b, tail, pos);
        return;
      }
      assert b.bytes[..pos] == b.bytes;
      out, rest := out + [b], tail;
      PayloadSnoc(before, b);
      read := read + |b.bytes|;
      DropKeepsShape(b, tail);
      OneMore(before, b);
      if read >= max {
        break;
      }
    }
    NoLineFeed(Payload(out));
  }

  lemma NothingOut()
    ensures AllData([]) && Replayable([]) && Payload([]) == []
    ensures forall s: seq<byte> :: [] + s == s
  {
  }

  lemma ClosedByEos(front: seq<Bucket>)
    requires AllData(front)
    ensures Replayable(front + [Eos]) && Replayable([]) && BytesOf(Eos) == []
  {
    assert (front + [Eos])[..|front|] == front;
  }

  lemma OneMore(front: seq<Bucket>, b: Bucket)
    requires AllData(front) && b.Data?
    ensures AllData(front + [b]) && BytesOf(b) == b.bytes
  {
  }

  lemma NoLineFeed(line: seq<byte>)
    requires LF !in line
    ensures IsLine(line)
  {
  }

  /** The line ends inside `b`: split it after the line feed. */
  method CutAfter(front: seq<Bucket>, b: Bucket, tail: seq<Bucket>, pos: nat)
    returns (out: seq<Bucket>, rest: seq<Bucket>)
    requires AllData(front) && LF !in Payload(front) && Replayable([b] + tail)
    requires b.Data? && pos < |b.bytes| && LF !in b.bytes[..pos] && b.bytes[pos] == LF
    ensures Payload(out) + Payload(rest) == (Payload(front) + BytesOf(b)) + Payload(tail)
    ensures IsLine(Payload(out)) && LF in Payload(out) && AllData(out)
    ensures rest != [] && Replayable(rest)
  {
    hide Payload, Replayable, IsLine;
    var (x, y) := SplitBucket(b, pos + 1);
    out, rest := front + [x], [y] + tail;
    PayloadSnoc(front, x);
    PayloadCons(y, tail);
    LineFound(Payload(front), b.bytes, pos);
    SplitKeepsShape(b, y, tail);
    assert BytesOf(x) + BytesOf(y) == BytesOf(b);
    Regroup(Payload(front), BytesOf(x), BytesOf(y), Payload(tail));
  }

  lemma Regroup<T>(a: seq<T>, b: seq<T>, c: seq<T>, d: seq<T>)
    ensures (a + b) + (c + d) == (a + (b + c)) + d
  {
  }

  lemma SplitStep(before: seq<Bucket>, b: Bucket, tail: seq<Bucket>, rest: seq<byte>, all: seq<byte>)
    requires Payload(before) + rest == all && BytesOf(b) + Payload(tail) == rest
    ensures (Payload(before) + BytesOf(b)) + Payload(tail) == all
  {
  }

  lemma LineFound(front: seq<byte>, bytes: seq<byte>, pos: nat)
    requires LF !in front && pos < |bytes| && LF !in bytes[..pos] && bytes[pos] == LF
    ensures var line := front + bytes[..pos + 1];
            IsLine(line) && LF in line
  {
    var line := front + bytes[..pos + 1];
    assert line == front + bytes[..pos] + [LF];
    assert line[|line| - 1] == LF;
    assert forall i | 0 <= i < pos :: bytes[i] == bytes[..pos][i];
  }

  lemma SplitKeepsShape(b: Bucket, y: Bucket, tail: seq<Bucket>)
    requires Replayable([b] + tail) && b.Data? && y.Data?
    ensures Replayable([y] + tail)
  {
    var all, new_ := [b] + tail, [y] + tail;
    assert tail != [] by { assert all[|all| - 1] == Eos; }
    assert all[..|all| - 1] == [b] + tail[..|tail| - 1];
    assert new_[..|new_| - 1] == [y] + tail[..|tail| - 1];
  }

  lemma DropKeepsShape(b: Bucket, tail: seq<Bucket>)
    requires Replayable([b] + tail) && b.Data?
    ensures tail != [] && Replayable(tail)
  {
    var all := [b] + tail;
    assert all[|all| - 1] == Eos;
    assert all[..|all| - 1] == [b] + tail[..|tail| - 1];
  }
}
