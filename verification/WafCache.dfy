/**
 The WAF cache of a child process: a linear table of at most 64 entries indexed by
 a content hash, which must agree with lookup by the rule list itself.
 */
module WafCache {
  import opened Wire

  /** A C string: no NUL inside. */
  type Text = s: seq<byte> | 0 !in s witness []

  datatype Kind = Inline | File

  datatype Rule = Rule(kind: Kind, value: Text)

  const CACHE_MAX: nat := 64
  const ULONG: nat := 0x1_0000_0000_0000_0000

  // ---------- the hash ----------

  function KindCode(k: Kind): nat {
    if k == Inline then 0 else 1
  }

  function HashBytes(h: nat, s: seq<byte>): nat {
    if s == [] then h else (HashBytes(h, s[..|s| - 1]) * 33 + s[|s| - 1] as nat) % ULONG
  }

  function Hash(rules: seq<Rule>): nat {
    if rules == [] then 5381
    else
      var last := rules[|rules| - 1];
      HashBytes((Hash(rules[..|rules| - 1]) * 33 + KindCode(last.kind)) % ULONG, last.value)
  }

  method RulesHash(rules: seq<Rule>) returns (h: nat)
    ensures h == Hash(rules)
  {
    h := 5381;
    var i := 0;
    while i < |rules|
      invariant 0 <= i <= |rules| && h == Hash(rules[..i])
    {
      var s := rules[i].value;
      h := (h * 33 + KindCode(rules[i].kind)) % ULONG;
      ghost var h0 := h;
      var j := 0;
      while j < |s|
        invariant 0 <= j <= |s| && h == HashBytes(h0, s[..j])
      {
        assert s[..j + 1][..j] == s[..j];
        h := (h * 33 + s[j] as nat) % ULONG;
        j := j + 1;
      }
      assert s[..j] == s;
      assert rules[..i + 1][..i] == rules[..i];
      i := i + 1;
    }
    assert rules[..i] == rules;
  }

  /** Same ordered entries? */
  method RulesEqual(a: seq<Rule>, b: seq<Rule>) returns (eq: bool)
    ensures eq <==> a == b
  {
    if |a| != |b| {
      return false;
    }
    var i := 0;
    while i < |a|
      invariant 0 <= i <= |a| && a[..i] == b[..i]
    {
      if a[i].kind != b[i].kind || a[i].value != b[i].value {
        return false;
      }
      assert a[..i + 1] == a[..i] + [a[i]] && b[..i + 1] == b[..i] + [b[i]];
      i := i + 1;
    }
    assert a[..i] == a && b[..i] == b;
    eq := true;
  }

  // ---------- the cache ----------

  datatype Entry = Entry(hash: nat, rules: seq<Rule>, waf: nat)

  /** The finite map the first entries stand for. */
  function MapOf(entries: seq<Entry>): map<seq<Rule>, nat> {
    if entries == [] then map[]
    else
      var last := entries[|entries| - 1];
      MapOf(entries[..|entries| - 1])[last.rules := last.waf]
  }

  predicate DistinctKeys(entries: seq<Entry>) {
    forall i, j | 0 <= i < j < |entries| :: entries[i].rules != entries[j].rules
  }

  lemma {:induction false} MapKeys(entries: seq<Entry>, rules: seq<Rule>)
    ensures rules in MapOf(entries) <==> exists i :: 0 <= i < |entries| && entries[i].rules == rules
  {
    if entries != [] {
      var n := |entries| - 1;
      MapKeys(entries[..n], rules);
      if rules in MapOf(entries[..n]) {
        var i :| 0 <= i < n && entries[..n][i].rules == rules;
        assert entries[i].rules == rules;
      } else {
        assert forall i | 0 <= i < n :: entries[..n][i] == entries[i];
      }
    }
  }

  lemma {:induction false} MapAt(entries: seq<Entry>, i: nat)
    requires i < |entries| && DistinctKeys(entries)
    ensures entries[i].rules in MapOf(entries) && MapOf(entries)[entries[i].rules] == entries[i].waf
  {
    var n := |entries| - 1;
    if i < n {
      MapAt(entries[..n], i);
    }
  }

  class Cache {
    const table: array<Entry>
    var count: nat

    /** The pool the entries are copied into exists only once the child has started. */
    var ready: bool
    var fullLogged: bool

    ghost function Entries(): seq<Entry>
      requires count <= table.Length
      reads this, table
    {
      table[..count]
    }

    ghost predicate Valid()
      reads this, table
    {
      && table.Length == CACHE_MAX && count <= CACHE_MAX
      && DistinctKeys(Entries())
      && forall i | 0 <= i < count :: table[i].hash == Hash(table[i].rules) && table[i].waf != 0
    }

    ghost function Contents(): map<seq<Rule>, nat>
      requires count <= table.Length
      reads this, table
    {
      MapOf(Entries())
    }

    constructor ()
      ensures Valid() && fresh(table) && Contents() == map[] && count == 0 && !ready
    {
      table := new Entry[CACHE_MAX](_ => Entry(0, [], 0));
      count, ready, fullLogged := 0, false, false;
    }

    /** A hit is the handle stored for that very list, whatever the hashes collide on. */
    method Find(hash: nat, rules: seq<Rule>) returns (waf: nat)
      requires Valid() && hash == Hash(rules)
      ensures waf == if rules in Contents() then Contents()[rules] else 0
      ensures waf != 0 <==> rules in Contents()
    {
      ghost var entries := Entries();
      var i := 0;
      while i < count
        invariant 0 <= i <= count
        invariant forall k | 0 <= k < i :: table[k].rules != rules
      {
        if table[i].hash == hash {
          var eq := RulesEqual(table[i].rules, rules);
          if eq {
            assert entries[i] == table[i];
            MapAt(entries, i);
            return table[i].waf;
          }
        }
        i := i + 1;
      }
      MapKeys(entries, rules);
      assert forall k | 0 <= k < |entries| :: entries[k] == table[k];
      waf := 0;
    }

    /** A list that is not there is added while there is room; a full cache keeps what it
        has. */
    method Add(hash: nat, rules: seq<Rule>, waf: nat)
      requires Valid() && hash == Hash(rules) && waf != 0 && rules !in Contents()
      modifies this, table
      ensures Valid() && ready == old(ready)
      ensures Contents() == if old(count) < CACHE_MAX && ready then old(Contents())[rules := waf] else old(Contents())
      ensures Entries() == old(Entries()) + if old(count) < CACHE_MAX && ready then [Entry(hash, rules, waf)] else []
    {
      if count >= CACHE_MAX {
        fullLogged := true;
        return;
      }
      if !ready {
        return;
      }
      ghost var before := Entries();
      MapKeys(before, rules);
      assert forall k | 0 <= k < count :: before[k] == table[k];
      table[count] := Entry(hash, rules, waf);
      count := count + 1;
      assert Entries() == before + [Entry(hash, rules, waf)];
      assert Entries()[..|before|] == before;
    }
  }
}
