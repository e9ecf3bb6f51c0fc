/** Machine integers and bytes shared by the modules below. */
module Wire {

  newtype byte = x: int | 0 <= x < 256

  /** `size_t` of the 64-bit builds: arithmetic on it must stay in range. */
  newtype size_t = x: int | 0 <= x < 0x1_0000_0000_0000_0000

  /** A byte string in memory: its length is a `size_t`. */
  type CString = s: seq<byte> | |s| < 0x1_0000_0000_0000_0000 witness []

  const INT_MAX: nat := 0x7fff_ffff

  datatype Option<+T> = None | Some(value: T)

  /** What is delivered in parts, whole. */
  function Concat<T>(parts: seq<seq<T>>): seq<T> {
    if parts == [] then [] else Concat(parts[..|parts| - 1]) + parts[|parts| - 1]
  }

  lemma ConcatNext<T>(parts: seq<seq<T>>, i: nat)
    requires i < |parts|
    ensures Concat(parts[..i + 1]) == Concat(parts[..i]) + parts[i]
  {
    assert parts[..i + 1][..i] == parts[..i];
  }

  lemma {:induction false} ConcatSplit<T>(parts: seq<seq<T>>, k: nat)
    requires k <= |parts|
    ensures Concat(parts) == Concat(parts[..k]) + Concat(parts[k..])
    decreases |parts|
  {
    if k == |parts| {
      assert parts[..k] == parts;
      assert Concat(parts) + [] == Concat(parts);
    } else {
      var init := parts[..|parts| - 1];
      ConcatSplit(init, k);
      assert init[..k] == parts[..k];
      assert parts[k..][..|parts[k..]| - 1] == init[k..];
    }
  }
}
