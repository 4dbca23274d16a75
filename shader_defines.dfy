/**
 * `ShaderDefines`: a set of shader macro definitions kept as a vector of
 * (key, value) symbol pairs sorted by key, so that two sets holding the
 * same definitions hold the same vector and hash alike. Symbols are the
 * interner's integer ids; the string-facing wrappers intern their
 * arguments and then call the symbol operations modelled here.
 */
module ShaderDefines {
  import opened Wrappers

  type Symbol = nat
  type Define = (Symbol, Symbol)

  /** A stand-in for the Fx hasher the source applies to the define vector. */
  type Hasher = seq<Define> -> u64

  /** Keys strictly increase along the vector. */
  ghost predicate StrictlySorted(s: seq<Define>)
  {
    forall i, j :: 0 <= i < j < |s| ==> s[i].0 < s[j].0
  }

  /** The definitions a vector denotes; a later pair overrides an earlier one with the same key. */
  function AsMap(s: seq<Define>): map<Symbol, Symbol>
    decreases |s|
  {
    if s == [] then map[] else AsMap(s[..|s| - 1])[s[|s| - 1].0 := s[|s| - 1].1]
  }

  lemma {:induction false} AsMapDomain(s: seq<Define>, k: Symbol)
    ensures k in AsMap(s) <==> exists i :: 0 <= i < |s| && s[i].0 == k
    decreases |s|
  {
    if s != [] {
      var p := s[..|s| - 1];
      AsMapDomain(p, k);
      if k in AsMap(p) {
        var i :| 0 <= i < |p| && p[i].0 == k;
        assert s[i].0 == k;
      }
      if exists i :: 0 <= i < |s| && s[i].0 == k {
        var i :| 0 <= i < |s| && s[i].0 == k;
        if i < |p| {
          assert p[i].0 == k;
        }
      }
    }
  }

  lemma AsMapAbsent(s: seq<Define>, k: Symbol)
    requires forall i :: 0 <= i < |s| ==> s[i].0 != k
    ensures k !in AsMap(s)
  {
    AsMapDomain(s, k);
  }

  lemma {:induction false} AsMapConcat(a: seq<Define>, b: seq<Define>)
    ensures AsMap(a + b) == AsMap(a) + AsMap(b)
    decreases |b|
  {
    if b == [] {
      assert a + b == a;
    } else {
      var b' := b[..|b| - 1];
      assert (a + b)[..|a + b| - 1] == a + b';
      AsMapConcat(a, b');
      UnionUpdate(AsMap(a), AsMap(b'), b[|b| - 1].0, b[|b| - 1].1);
    }
  }

  lemma UnionUpdate(m: map<Symbol, Symbol>, n: map<Symbol, Symbol>, k: Symbol, v: Symbol)
    ensures (m + n)[k := v] == m + n[k := v]
  {
  }

  lemma AsMapSingle(e: Define)
    ensures AsMap([e]) == map[e.0 := e.1]
  {
    assert [e][..0] == [];
  }

  /** In a vector whose keys are distinct, each pair is what the map holds for its key. */
  lemma {:induction false} AsMapDistinct(s: seq<Define>, i: nat)
    requires forall a, b :: 0 <= a < b < |s| ==> s[a].0 != s[b].0
    requires i < |s|
    ensures s[i].0 in AsMap(s) && AsMap(s)[s[i].0] == s[i].1
    decreases |s|
  {
    if i < |s| - 1 {
      var p := s[..|s| - 1];
      AsMapDistinct(p, i);
    }
  }

  /** Two sorted vectors denote the same definitions only if they are the same vector. */
  lemma {:induction false} SameMapSameDefines(s: seq<Define>, t: seq<Define>)
    requires StrictlySorted(s) && StrictlySorted(t)
    requires AsMap(s) == AsMap(t)
    ensures s == t
    decreases |s|
  {
    if s == [] || t == [] {
      if s != [] {
        AsMapDomain(s, s[0].0);
      }
      if t != [] {
        AsMapDomain(t, t[0].0);
      }
    } else {
      var ks, kt := s[|s| - 1].0, t[|t| - 1].0;
      AsMapDomain(s, kt);
      AsMapDomain(t, ks);
      assert ks == kt;
      var s', t' := s[..|s| - 1], t[..|t| - 1];
      AsMapAbsent(s', ks);
      AsMapAbsent(t', ks);
      assert AsMap(s') == AsMap(s) - {ks};
      assert AsMap(t') == AsMap(t) - {ks};
      SameMapSameDefines(s', t');
    }
  }

  /** The two halves of the equality `ShaderDefines` derives: same vector iff same definitions. */
  lemma SameDefinesIffSameMap(s: seq<Define>, t: seq<Define>)
    requires StrictlySorted(s) && StrictlySorted(t)
    ensures s == t <==> AsMap(s) == AsMap(t)
  {
    if AsMap(s) == AsMap(t) {
      SameMapSameDefines(s, t);
    }
  }

  /**
   * Listing the same definitions in any order, each key once, denotes the
   * same definitions.
   */
  lemma PermutedPairsSameMap(p: seq<Define>, q: seq<Define>)
    requires forall a, b :: 0 <= a < b < |p| ==> p[a].0 != p[b].0
    requires forall a, b :: 0 <= a < b < |q| ==> q[a].0 != q[b].0
    requires multiset(p) == multiset(q)
    ensures AsMap(p) == AsMap(q)
  {
    forall k | k in AsMap(p)
      ensures k in AsMap(q) && AsMap(q)[k] == AsMap(p)[k]
    {
      AsMapDomain(p, k);
      var i :| 0 <= i < |p| && p[i].0 == k;
      AsMapDistinct(p, i);
      assert p[i] in multiset(q);
      var j :| 0 <= j < |q| && q[j] == p[i];
      AsMapDistinct(q, j);
    }
    forall k | k in AsMap(q)
      ensures k in AsMap(p)
    {
      AsMapDomain(q, k);
      var j :| 0 <= j < |q| && q[j].0 == k;
      assert q[j] in multiset(p);
      var i :| 0 <= i < |p| && p[i] == q[j];
      AsMapDomain(p, k);
    }
  }

  /** Overwriting the value at an index updates that key and keeps the order. */
  lemma ReplaceAt(s: seq<Define>, idx: nat, v: Symbol)
    requires StrictlySorted(s) && idx < |s|
    ensures StrictlySorted(s[idx := (s[idx].0, v)])
    ensures AsMap(s[idx := (s[idx].0, v)]) == AsMap(s)[s[idx].0 := v]
    ensures s[idx].0 in AsMap(s)
  {
    var k := s[idx].0;
    var pre, post := s[..idx], s[idx + 1..];
    assert s == pre + [s[idx]] + post;
    assert s[idx := (k, v)] == pre + [(k, v)] + post;
    AsMapConcat(pre + [s[idx]], post);
    AsMapConcat(pre, [s[idx]]);
    AsMapConcat(pre + [(k, v)], post);
    AsMapConcat(pre, [(k, v)]);
    AsMapSingle(s[idx]);
    AsMapSingle((k, v));
    AsMapAbsent(post, k);
    MapReplaceMiddle(AsMap(pre), k, s[idx].1, v, AsMap(post));
  }

  lemma MapReplaceMiddle(ma: map<Symbol, Symbol>, k: Symbol, u: Symbol, v: Symbol, mc: map<Symbol, Symbol>)
    requires k !in mc
    ensures (ma + map[k := u] + mc)[k := v] == ma + map[k := v] + mc
  {
  }

  lemma MapInsertMiddle(ma: map<Symbol, Symbol>, k: Symbol, v: Symbol, mc: map<Symbol, Symbol>)
    requires k !in mc
    ensures (ma + mc)[k := v] == ma + map[k := v] + mc
  {
  }

  lemma MapRemoveMiddle(ma: map<Symbol, Symbol>, k: Symbol, u: Symbol, mc: map<Symbol, Symbol>)
    requires k !in ma && k !in mc
    ensures (ma + map[k := u] + mc) - {k} == ma + mc
  {
  }

  lemma InsertSorted(s: seq<Define>, idx: nat, e: Define)
    requires StrictlySorted(s) && idx <= |s|
    requires forall i :: 0 <= i < idx ==> s[i].0 < e.0
    requires forall i :: idx <= i < |s| ==> s[i].0 > e.0
    ensures StrictlySorted(s[..idx] + [e] + s[idx..])
  {
    var r := s[..idx] + [e] + s[idx..];
    assert forall i :: 0 <= i < |r| ==> r[i] == if i < idx then s[i] else if i == idx then e else s[i - 1];
  }

  lemma RemoveSorted(s: seq<Define>, idx: nat)
    requires StrictlySorted(s) && idx < |s|
    ensures StrictlySorted(s[..idx] + s[idx + 1..])
  {
    var r := s[..idx] + s[idx + 1..];
    assert forall i :: 0 <= i < |r| ==> r[i] == if i < idx then s[i] else s[i + 1];
  }

  /** The map of a vector cut around one pair whose key occurs nowhere else. */
  lemma AsMapSplice(pre: seq<Define>, e: Define, post: seq<Define>)
    requires e.0 !in AsMap(pre) && e.0 !in AsMap(post)
    ensures AsMap(pre + [e] + post) == AsMap(pre) + map[e.0 := e.1] + AsMap(post)
    ensures AsMap(pre + post) == AsMap(pre) + AsMap(post)
  {
    AsMapConcat(pre + [e], post);
    AsMapConcat(pre, [e]);
    AsMapConcat(pre, post);
    AsMapSingle(e);
  }

  /** In a sorted vector the key at `idx` occurs neither before nor after it. */
  lemma SortedKeyAlone(s: seq<Define>, idx: nat)
    requires StrictlySorted(s) && idx < |s|
    ensures s[idx].0 !in AsMap(s[..idx]) && s[idx].0 !in AsMap(s[idx + 1..])
  {
    AsMapAbsent(s[..idx], s[idx].0);
    AsMapAbsent(s[idx + 1..], s[idx].0);
  }

  /** Inserting a new key at its place keeps the order and adds that one definition. */
  lemma InsertAt(s: seq<Define>, idx: nat, k: Symbol, v: Symbol)
    requires StrictlySorted(s) && idx <= |s|
    requires forall i :: 0 <= i < idx ==> s[i].0 < k
    requires forall i :: idx <= i < |s| ==> s[i].0 > k
    ensures StrictlySorted(s[..idx] + [(k, v)] + s[idx..])
    ensures AsMap(s[..idx] + [(k, v)] + s[idx..]) == AsMap(s)[k := v]
    ensures k !in AsMap(s)
  {
    InsertSorted(s, idx, (k, v));
    var pre, post := s[..idx], s[idx..];
    assert s == pre + post;
    AsMapAbsent(post, k);
    AsMapAbsent(pre, k);
    AsMapSplice(pre, (k, v), post);
    MapInsertMiddle(AsMap(pre), k, v, AsMap(post));
  }

  /** Deleting the pair at an index removes exactly that key and keeps the order. */
  lemma RemoveAt(s: seq<Define>, idx: nat)
    requires StrictlySorted(s) && idx < |s|
    ensures StrictlySorted(s[..idx] + s[idx + 1..])
    ensures AsMap(s[..idx] + s[idx + 1..]) == AsMap(s) - {s[idx].0}
  {
    RemoveSorted(s, idx);
    var pre, post := s[..idx], s[idx + 1..];
    assert s == pre + [s[idx]] + post;
    SortedKeyAlone(s, idx);
    AsMapSplice(pre, s[idx], post);
    MapRemoveMiddle(AsMap(pre), s[idx].0, s[idx].1, AsMap(post));
  }

  class ShaderDefines {
    var defines: seq<Define>

    ghost predicate Valid()
      reads this
    {
      StrictlySorted(defines)
    }

    /** `new` / `with_capacity`. */
    constructor ()
      ensures Valid() && defines == []
    {
      defines := [];
    }

    /** `clone`. */
    constructor CloneOf(src: ShaderDefines)
      requires src.Valid()
      ensures Valid() && defines == src.defines
    {
      defines := src.defines;
    }

    /**
     * `binary_search_by_key` on the keys: either the index holding `key`,
     * or the index where it would be inserted.
     */
    method Search(key: Symbol) returns (found: bool, idx: nat)
      requires Valid()
      ensures idx <= |defines|
      ensures found ==> idx < |defines| && defines[idx].0 == key
      ensures forall i :: 0 <= i < idx ==> defines[i].0 < key
      ensures !found ==> forall i :: idx <= i < |defines| ==> defines[i].0 > key
      ensures found <==> key in AsMap(defines)
    {
      var lo, hi := 0, |defines|;
      while lo < hi
        invariant 0 <= lo <= hi <= |defines|
        invariant forall i :: 0 <= i < lo ==> defines[i].0 < key
        invariant forall i :: hi <= i < |defines| ==> defines[i].0 > key
        decreases hi - lo
      {
        var mid := lo + (hi - lo) / 2;
        if defines[mid].0 < key {
          lo := mid + 1;
        } else if defines[mid].0 > key {
          hi := mid;
        } else {
          AsMapDomain(defines, key);
          return true, mid;
        }
      }
      AsMapDomain(defines, key);
      return false, lo;
    }

    /** `set_symbol`: replaces the value of an existing key, or inserts the pair in key order. */
    method SetSymbol(key: Symbol, value: Symbol)
      requires Valid()
      modifies this
      ensures Valid()
      ensures AsMap(defines) == old(AsMap(defines))[key := value]
      ensures key in old(AsMap(defines)) ==> |defines| == old(|defines|)
      ensures key !in old(AsMap(defines)) ==> |defines| == old(|defines|) + 1
    {
      var found, idx := Search(key);
      if found {
        ReplaceAt(defines, idx, value);
        defines := defines[idx := (key, value)];
      } else {
        InsertAt(defines, idx, key, value);
        defines := defines[..idx] + [(key, value)] + defines[idx..];
      }
    }

    /** `remove_symbol`: true iff the key was present, which it no longer is. */
    method RemoveSymbol(key: Symbol) returns (removed: bool)
      requires Valid()
      modifies this
      ensures Valid()
      ensures removed <==> key in old(AsMap(defines))
      ensures AsMap(defines) == old(AsMap(defines)) - {key}
      ensures removed ==> |defines| == old(|defines|) - 1
      ensures !removed ==> defines == old(defines)
    {
      var found, idx := Search(key);
      if found {
        RemoveAt(defines, idx);
        defines := defines[..idx] + defines[idx + 1..];
        removed := true;
      } else {
        removed := false;
      }
    }

    /** `contains_symbol`. */
    method ContainsSymbol(key: Symbol) returns (r: bool)
      requires Valid()
      ensures r <==> key in AsMap(defines)
    {
      var idx;
      r, idx := Search(key);
    }

    /** `get_symbol`: the value stored for the key, if any. */
    method GetSymbol(key: Symbol) returns (r: Option<Symbol>)
      requires Valid()
      ensures r.Some? <==> key in AsMap(defines)
      ensures r.Some? ==> r.value == AsMap(defines)[key]
    {
      var found, idx := Search(key);
      if found {
        AsMapDistinct(defines, idx);
        r := Some(defines[idx].1);
      } else {
        r := None;
      }
    }

    /** `clear`. */
    method Clear()
      modifies this
      ensures Valid() && defines == [] && AsMap(defines) == map[]
    {
      defines := [];
    }

    /** `len`. */
    function Len(): (n: nat)
      reads this
      requires Valid()
      ensures n == |AsMap(defines)|
    {
      LenIsMapSize(defines);
      |defines|
    }

    /** `is_empty`. */
    function IsEmpty(): (r: bool)
      reads this
      requires Valid()
      ensures r <==> AsMap(defines) == map[]
    {
      LenIsMapSize(defines);
      |defines| == 0
    }

    /** `merge`: every definition of `other` overrides the same key here; other keys are kept. */
    method Merge(other: ShaderDefines)
      requires Valid()
      modifies this
      ensures Valid()
      ensures AsMap(defines) == old(AsMap(defines)) + old(AsMap(other.defines))
    {
      var src := other.defines;
      var i := 0;
      assert src[..0] == [];
      while i < |src|
        invariant 0 <= i <= |src|
        invariant Valid()
        invariant AsMap(defines) == old(AsMap(defines)) + AsMap(src[..i])
      {
        assert src[..i + 1][..i] == src[..i];
        UnionUpdate(old(AsMap(defines)), AsMap(src[..i]), src[i].0, src[i].1);
        SetSymbol(src[i].0, src[i].1);
        i := i + 1;
      }
      assert src[..i] == src;
    }

    /** `merged_with`: a merged copy; this set is left as it was. */
    method MergedWith(other: ShaderDefines) returns (r: ShaderDefines)
      requires Valid()
      ensures fresh(r) && r.Valid()
      ensures AsMap(r.defines) == AsMap(defines) + AsMap(other.defines)
    {
      r := new ShaderDefines.CloneOf(this);
      r.Merge(other);
    }

    /** `compute_hash`: the hash of the define vector. */
    function ComputeHash(hasher: Hasher): u64
      reads this
    {
      hasher(defines)
    }
  }

  lemma {:induction false} LenIsMapSize(s: seq<Define>)
    requires StrictlySorted(s)
    ensures |AsMap(s)| == |s|
    decreases |s|
  {
    if s != [] {
      var p := s[..|s| - 1];
      AsMapAbsent(p, s[|s| - 1].0);
      LenIsMapSize(p);
    }
  }

  /** `From<&[(&str, &str)]>`: one `set` per pair, in order, so a later pair wins. */
  method FromPairs(pairs: seq<Define>) returns (r: ShaderDefines)
    ensures fresh(r) && r.Valid()
    ensures AsMap(r.defines) == AsMap(pairs)
  {
    r := new ShaderDefines();
    var i := 0;
    assert pairs[..0] == [];
    while i < |pairs|
      invariant 0 <= i <= |pairs|
      invariant r.Valid()
      invariant AsMap(r.defines) == AsMap(pairs[..i])
      invariant fresh(r)
    {
      assert pairs[..i + 1][..i] == pairs[..i];
      r.SetSymbol(pairs[i].0, pairs[i].1);
      i := i + 1;
    }
    assert pairs[..i] == pairs;
  }

  /**
   * Building two define sets from the same definitions in different orders
   * gives equal sets with equal hashes, whatever the hasher.
   */
  method InsertionOrderIrrelevant(p: seq<Define>, q: seq<Define>, hasher: Hasher) returns (same: bool, h1: u64, h2: u64)
    requires forall a, b :: 0 <= a < b < |p| ==> p[a].0 != p[b].0
    requires forall a, b :: 0 <= a < b < |q| ==> q[a].0 != q[b].0
    requires multiset(p) == multiset(q)
    ensures same && h1 == h2
  {
    var d1 := FromPairs(p);
    var d2 := FromPairs(q);
    PermutedPairsSameMap(p, q);
    SameMapSameDefines(d1.defines, d2.defines);
    same := d1.defines == d2.defines;
    h1 := d1.ComputeHash(hasher);
    h2 := d2.ComputeHash(hasher);
  }
}
