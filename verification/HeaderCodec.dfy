/**
 The bulk header format handed to libcoraza in one call: for every header a
 big-endian u16 name length, the name, a big-endian u32 value length, the value.
 `Decode` is the reading libcoraza makes of it and serves as the specification;
 `PackHeaders` is the two-pass encoder with its subtraction-only guards.
 */
module HeaderCodec {
  import opened Wire

  datatype Pair = Pair(name: CString, value: CString)

  const NAME_MAX: nat := 0xffff
  const FRAMING: nat := 6

  // ---------- the format ----------

  function U16(n: nat): seq<byte>
    requires n <= NAME_MAX
  {
    [(n / 0x100) as byte, (n % 0x100) as byte]
  }

  function U32(n: nat): seq<byte>
    requires n < 0x1_0000_0000
  {
    U16(n / 0x1_0000) + U16(n % 0x1_0000)
  }

  predicate EntryFits(p: Pair) {
    |p.name| <= NAME_MAX && |p.value| < 0x1_0000_0000
  }

  predicate AllFit(pairs: seq<Pair>) {
    forall i | 0 <= i < |pairs| :: EntryFits(pairs[i])
  }

  function EncodeEntry(p: Pair): seq<byte>
    requires EntryFits(p)
  {
    U16(|p.name|) + p.name + U32(|p.value|) + p.value
  }

  function Encode(pairs: seq<Pair>): seq<byte>
    requires AllFit(pairs)
  {
    if pairs == [] then [] else EncodeEntry(pairs[0]) + Encode(pairs[1..])
  }

  function EntrySize(p: Pair): nat {
    FRAMING + |p.name| + |p.value|
  }

  function TotalSize(pairs: seq<Pair>): nat {
    if pairs == [] then 0 else EntrySize(pairs[0]) + TotalSize(pairs[1..])
  }

  /** What the documentation of the packer promises to accept. */
  predicate Packable(pairs: seq<Pair>) {
    && pairs != []
    && (forall i | 0 <= i < |pairs| :: |pairs[i].name| <= NAME_MAX)
    && TotalSize(pairs) <= INT_MAX
  }

  // ---------- the reader ----------

  function ReadU16(b: seq<byte>): nat
    requires |b| >= 2
  {
    b[0] as nat * 0x100 + b[1] as nat
  }

  function ReadU32(b: seq<byte>): nat
    requires |b| >= 4
  {
    ReadU16(b) * 0x1_0000 + ReadU16(b[2..])
  }

  /** One entry off the front, with what follows it; None when it is cut short. */
  function DecodeEntry(b: seq<byte>): Option<(Pair, seq<byte>)> {
    if |b| < 2 then None
    else
      var n := ReadU16(b);
      if |b| < 2 + n + 4 then None
      else
        var v := ReadU32(b[2 + n..]);
        if |b| < FRAMING + n + v then None
        else Some((Pair(b[2..2 + n], b[FRAMING + n..FRAMING + n + v]), b[FRAMING + n + v..]))
  }

  /** Exactly `count` entries and not a byte more. */
  function Decode(b: seq<byte>, count: nat): Option<seq<Pair>> {
    if count == 0 then if b == [] then Some([]) else None
    else
      match DecodeEntry(b)
      case None => None
      case Some((p, rest)) =>
        match Decode(rest, count - 1)
        case None => None
        case Some(ps) => Some([p] + ps)
  }

  // ---------- encode and decode are inverse ----------

  lemma U16RoundTrip(n: nat)
    requires n <= NAME_MAX
    ensures ReadU16(U16(n)) == n
  {
  }

  lemma U32RoundTrip(n: nat)
    requires n < 0x1_0000_0000
    ensures ReadU32(U32(n)) == n
  {
    U16RoundTrip(n / 0x1_0000);
    U16RoundTrip(n % 0x1_0000);
    assert U32(n)[2..] == U16(n % 0x1_0000);
  }

  lemma DecodeEncodedEntry(p: Pair, rest: seq<byte>)
    requires EntryFits(p)
    ensures DecodeEntry(EncodeEntry(p) + rest) == Some((p, rest))
  {
    var b := EncodeEntry(p) + rest;
    var n, v := |p.name|, |p.value|;
    U16RoundTrip(n);
    U32RoundTrip(v);
    assert b[..2] == U16(n);
    assert b[2 + n..] == U32(v) + p.value + rest;
    assert ReadU16(b) == n;
    assert ReadU32(b[2 + n..]) == v;
    assert b[2..2 + n] == p.name;
    assert b[FRAMING + n..FRAMING + n + v] == p.value;
    assert b[FRAMING + n + v..] == rest;
  }

  /** Whatever was packed is read back, header by header and in order. */
  lemma {:induction false} DecodeAfterEncode(pairs: seq<Pair>)
    requires AllFit(pairs)
    ensures Decode(Encode(pairs), |pairs|) == Some(pairs)
  {
    if pairs != [] {
      DecodeEncodedEntry(pairs[0], Encode(pairs[1..]));
      DecodeAfterEncode(pairs[1..]);
      assert pairs == [pairs[0]] + pairs[1..];
    }
  }

  lemma WriteAfterRead16(b: seq<byte>)
    requires |b| >= 2
    ensures ReadU16(b) <= NAME_MAX && U16(ReadU16(b)) == b[..2]
  {
  }

  lemma WriteAfterRead32(b: seq<byte>)
    requires |b| >= 4
    ensures ReadU32(b) < 0x1_0000_0000 && U32(ReadU32(b)) == b[..4]
  {
    WriteAfterRead16(b);
    WriteAfterRead16(b[2..]);
    var hi, lo := ReadU16(b), ReadU16(b[2..]);
    assert (hi * 0x1_0000 + lo) / 0x1_0000 == hi && (hi * 0x1_0000 + lo) % 0x1_0000 == lo;
    assert b[2..][..2] == b[2..4];
    assert b[..4] == b[..2] + b[2..4];
  }

  lemma CutInFive(b: seq<byte>, i: nat, j: nat, k: nat, l: nat)
    requires i <= j <= k <= l <= |b|
    ensures b[..i] + b[i..j] + b[j..k] + b[k..l] + b[l..] == b
  {
  }

  lemma EncodeDecodedEntry(b: seq<byte>)
    requires DecodeEntry(b).Some?
    ensures var (p, rest) := DecodeEntry(b).value;
            EntryFits(p) && EncodeEntry(p) + rest == b && |rest| < |b|
  {
    var n := ReadU16(b);
    var v := ReadU32(b[2 + n..]);
    WriteAfterRead16(b);
    WriteAfterRead32(b[2 + n..]);
    assert b[2 + n..][..4] == b[2 + n..FRAMING + n];
    CutInFive(b, 2, 2 + n, FRAMING + n, FRAMING + n + v);
  }

  /** The reader accepts nothing but packed headers: the format is canonical. */
  lemma {:induction false} EncodeAfterDecode(b: seq<byte>, count: nat)
    requires Decode(b, count).Some?
    ensures var pairs := Decode(b, count).value;
            |pairs| == count && AllFit(pairs) && Encode(pairs) == b
  {
    if count > 0 {
      EncodeDecodedEntry(b);
      var (p, rest) := DecodeEntry(b).value;
      EncodeAfterDecode(rest, count - 1);
      var ps := Decode(rest, count - 1).value;
      assert ([p] + ps)[1..] == ps;
    }
  }

  /** Where the bytes of an entry are: the length of the name in two bytes and that of the value
      in four, most significant first, each in front of what it counts. */
  lemma EntryLayout(p: Pair)
    requires EntryFits(p)
    ensures var b, n, v := EncodeEntry(p), |p.name|, |p.value|;
            && |b| == 2 + n + 4 + v
            && b[0] as int * 256 + b[1] as int == n && b[2..2 + n] == p.name
            && ((b[2 + n] as int * 256 + b[3 + n] as int) * 256 + b[4 + n] as int) * 256 + b[5 + n] as int == v
            && b[6 + n..] == p.value
  {
    var b, n, v := EncodeEntry(p), |p.name|, |p.value|;
    assert b[2 + n..6 + n] == U32(v);
    assert forall k | 0 <= k < 4 :: b[2 + n + k] == U32(v)[k];
    U32RoundTrip(v);
    assert U32(v)[2..] == [U32(v)[2], U32(v)[3]];
  }

  /** Entries follow one another without a gap, in the order of the pairs. */
  lemma EntryAt(pairs: seq<Pair>, i: nat)
    requires i < |pairs| && AllFit(pairs)
    ensures Encode(pairs) == Encode(pairs[..i]) + EncodeEntry(pairs[i]) + Encode(pairs[i + 1..])
  {
    EncodeSplit(pairs, i + 1);
    EncodeNext(pairs, i);
  }

  /** What can be packed: a list that is not empty, of names that fit two bytes of length, no
      longer in all than an `int` can say. */
  lemma PackableIs(pairs: seq<Pair>)
    ensures Packable(pairs) <==>
            && pairs != [] && (forall p | p in pairs :: |p.name| <= 65535)
            && AllFit(pairs) && |Encode(pairs)| <= 2147483647
  {
    if Packable(pairs) {
      PackableFits(pairs);
      EncodeLength(pairs);
    } else if pairs != [] && (forall p | p in pairs :: |p.name| <= 65535) && AllFit(pairs) {
      assert forall i | 0 <= i < |pairs| :: pairs[i] in pairs;
      EncodeLength(pairs);
    }
  }

  /** Two header lists of the same count never share a packed form. */
  lemma PackingIsInjective(a: seq<Pair>, b: seq<Pair>)
    requires AllFit(a) && AllFit(b) && |a| == |b| && Encode(a) == Encode(b)
    ensures a == b
  {
    DecodeAfterEncode(a);
    DecodeAfterEncode(b);
  }

  // ---------- sizes ----------

  lemma {:induction false} EncodeLength(pairs: seq<Pair>)
    requires AllFit(pairs)
    ensures |Encode(pairs)| == TotalSize(pairs)
  {
    if pairs != [] {
      EncodeLength(pairs[1..]);
    }
  }

  lemma {:induction false} TotalSizeSplit(pairs: seq<Pair>, i: nat)
    requires i <= |pairs|
    ensures TotalSize(pairs) == TotalSize(pairs[..i]) + TotalSize(pairs[i..])
  {
    if i > 0 {
      assert pairs[1..][..i - 1] == pairs[..i][1..];
      assert pairs[1..][i - 1..] == pairs[i..];
      TotalSizeSplit(pairs[1..], i - 1);
    } else {
      assert pairs[i..] == pairs;
    }
  }

  lemma {:induction false} EncodeSplit(pairs: seq<Pair>, i: nat)
    requires i <= |pairs| && AllFit(pairs)
    ensures Encode(pairs) == Encode(pairs[..i]) + Encode(pairs[i..])
  {
    if i > 0 {
      assert pairs[1..][..i - 1] == pairs[..i][1..];
      assert pairs[1..][i - 1..] == pairs[i..];
      EncodeSplit(pairs[1..], i - 1);
    } else {
      assert pairs[i..] == pairs;
    }
  }

  lemma TotalSizeNext(pairs: seq<Pair>, i: nat)
    requires i < |pairs|
    ensures TotalSize(pairs[..i + 1]) == TotalSize(pairs[..i]) + EntrySize(pairs[i])
  {
    TotalSizeSplit(pairs[..i + 1], i);
    assert pairs[..i + 1][..i] == pairs[..i];
    assert pairs[..i + 1][i..] == [pairs[i]];
  }

  lemma EncodeNext(pairs: seq<Pair>, i: nat)
    requires i < |pairs| && AllFit(pairs)
    ensures Encode(pairs[..i + 1]) == Encode(pairs[..i]) + EncodeEntry(pairs[i])
  {
    EncodeSplit(pairs[..i + 1], i);
    assert pairs[..i + 1][..i] == pairs[..i];
    assert pairs[..i + 1][i..] == [pairs[i]];
    assert Encode([pairs[i]]) == EncodeEntry(pairs[i]);
  }

  /** A packable list fits the u32 value fields too: a value is part of the total. */
  lemma PackableFits(pairs: seq<Pair>)
    requires Packable(pairs)
    ensures AllFit(pairs)
  {
    forall i | 0 <= i < |pairs| ensures EntryFits(pairs[i]) {
      TotalSizeSplit(pairs, i);
    }
  }

  /** A list the size pass gave up on at entry `i` is not packable. */
  lemma TooLongAt(pairs: seq<Pair>, i: nat)
    requires i < |pairs|
    requires |pairs[i].name| > NAME_MAX || TotalSize(pairs[..i + 1]) > INT_MAX
    ensures !Packable(pairs)
  {
    TotalSizeSplit(pairs, i + 1);
  }

  // ---------- the packer ----------

  /** `memcpy` into the buffer at the write pointer. */
  method CopyInto(buf: array<byte>, q: nat, src: seq<byte>)
    requires q + |src| <= buf.Length
    modifies buf
    ensures buf[..q + |src|] == old(buf[..q]) + src
  {
    forall k | 0 <= k < |src| {
      buf[q + k] := src[k];
    }
    assert buf[..q] == old(buf[..q]);
    assert buf[q..q + |src|] == src;
  }

  /** The first pass: the exact packed size, or None when the list cannot be packed.
      The guards only subtract, and none of the subtractions can wrap. */
  method PackedSize(pairs: seq<Pair>) returns (total: Option<size_t>)
    ensures total.Some? <==> Packable(pairs)
    ensures total.Some? ==> total.value as int == TotalSize(pairs)
  {
    var sum: size_t := 0;
    var i := 0;
    while i < |pairs|
      invariant 0 <= i <= |pairs|
      invariant sum as int == TotalSize(pairs[..i]) <= INT_MAX
      invariant i > 0 ==> sum > 0
      invariant forall k | 0 <= k < i :: |pairs[k].name| <= NAME_MAX
    {
      var nlen: size_t := |pairs[i].name| as size_t;
      var vlen: size_t := |pairs[i].value| as size_t;
      var max: size_t := INT_MAX as size_t;
      TotalSizeNext(pairs, i);
      if nlen > 0xffff || vlen > max {
        TooLongAt(pairs, i);
        return None;
      }
      if sum > max - 6 || nlen > max - 6 - sum || vlen > max - 6 - sum - nlen {
        TooLongAt(pairs, i);
        return None;
      }
      sum := sum + 6 + nlen + vlen;
      i := i + 1;
    }
    assert pairs[..i] == pairs;
    total := if sum == 0 then None else Some(sum);
  }

  /** One entry at the write pointer `q`, which moves past it. */
  method PutEntry(buf: array<byte>, at: nat, p: Pair) returns (q: nat)
    requires EntryFits(p) && at + EntrySize(p) <= buf.Length
    modifies buf
    ensures q == at + EntrySize(p)
    ensures buf[..q] == old(buf[..at]) + EncodeEntry(p)
  {
    q := at;
    CopyInto(buf, q, U16(|p.name|));
    q := q + 2;
    CopyInto(buf, q, p.name);
    q := q + |p.name|;
    CopyInto(buf, q, U32(|p.value|));
    q := q + 4;
    CopyInto(buf, q, p.value);
    q := q + |p.value|;
  }

  /** Both passes: packs exactly the packable lists, into a buffer of exactly the
      size the first pass computed. */
  method PackHeaders(pairs: seq<Pair>) returns (packed: Option<seq<byte>>)
    ensures packed.Some? <==> Packable(pairs)
    ensures packed.Some? ==> |packed.value| <= INT_MAX && Decode(packed.value, |pairs|) == Some(pairs)
    ensures packed.Some? ==> AllFit(pairs) && packed.value == Encode(pairs)
  {
    var total := PackedSize(pairs);
    if total.None? {
      return None;
    }
    PackableFits(pairs);
    var buf := new byte[total.value];
    var q: nat := 0;
    var i := 0;
    while i < |pairs|
      invariant 0 <= i <= |pairs|
      invariant q == TotalSize(pairs[..i]) <= buf.Length
      invariant buf[..q] == Encode(pairs[..i])
    {
      TotalSizeNext(pairs, i);
      TotalSizeSplit(pairs, i + 1);
      EncodeNext(pairs, i);
      q := PutEntry(buf, q, pairs[i]);
      i := i + 1;
    }
    assert pairs[..i] == pairs;
    DecodeAfterEncode(pairs);
    EncodeLength(pairs);
    assert buf[..] == buf[..q];
    packed := Some(buf[..]);
  }
}
