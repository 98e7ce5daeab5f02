/** Maps that remember insertion order, as the source's `Map` objects do. */
module OrderedMaps {
  datatype Slot<K, V> = Slot(key: K, value: V)

  /** What is stored under each key. */
  function Lookup<K, V>(s: seq<Slot<K, V>>): map<K, V> {
    if s == [] then map[] else Lookup(s[1..])[s[0].key := s[0].value]
  }

  ghost predicate Distinct<K, V>(s: seq<Slot<K, V>>) {
    s == [] || (s[0].key !in Lookup(s[1..]) && Distinct(s[1..]))
  }

  /** Updates in place or appends. */
  function Put<K(==), V>(s: seq<Slot<K, V>>, k: K, v: V): seq<Slot<K, V>> {
    if s == [] then [Slot(k, v)]
    else if s[0].key == k then [Slot(k, v)] + s[1..]
    else [s[0]] + Put(s[1..], k, v)
  }

  function Remove<K(==), V>(s: seq<Slot<K, V>>, k: K): seq<Slot<K, V>> {
    if s == [] then []
    else if s[0].key == k then s[1..]
    else [s[0]] + Remove(s[1..], k)
  }

  /** The entries that pass. */
  function Keep<K, V>(s: seq<Slot<K, V>>, p: Slot<K, V> -> bool): seq<Slot<K, V>> {
    if s == [] then [] else (if p(s[0]) then [s[0]] else []) + Keep(s[1..], p)
  }

  lemma Front<K, V>(e: Slot<K, V>, s: seq<Slot<K, V>>)
    ensures Lookup([e] + s) == Lookup(s)[e.key := e.value]
    ensures Distinct([e] + s) <==> e.key !in Lookup(s) && Distinct(s)
  {
    assert ([e] + s)[1..] == s;
  }

  lemma {:induction false} PutLookup<K, V>(s: seq<Slot<K, V>>, k: K, v: V)
    ensures Lookup(Put(s, k, v)) == Lookup(s)[k := v]
    ensures Distinct(s) ==> Distinct(Put(s, k, v))
    ensures |Put(s, k, v)| == if k in Lookup(s) then |s| else |s| + 1
  {
    if s != [] {
      assert Put(s, k, v)[1..] == if s[0].key == k then s[1..] else Put(s[1..], k, v);
      PutLookup(s[1..], k, v);
    }
  }

  lemma {:induction false} RemoveLookup<K, V>(s: seq<Slot<K, V>>, k: K)
    requires Distinct(s)
    ensures Lookup(Remove(s, k)) == Lookup(s) - {k} && Distinct(Remove(s, k))
    ensures |Remove(s, k)| == if k in Lookup(s) then |s| - 1 else |s|
  {
    if s != [] {
      if s[0].key != k {
        assert Remove(s, k)[1..] == Remove(s[1..], k);
      }
      RemoveLookup(s[1..], k);
    }
  }

  lemma {:induction false} KeepLookup<K, V>(s: seq<Slot<K, V>>, p: Slot<K, V> -> bool)
    requires Distinct(s)
    ensures Distinct(Keep(s, p)) && |Keep(s, p)| <= |s|
    ensures Lookup(Keep(s, p)) == map k | k in Lookup(s) && p(Slot(k, Lookup(s)[k])) :: Lookup(s)[k]
  {
    if s != [] {
      KeepLookup(s[1..], p);
      if p(s[0]) {
        assert Keep(s, p)[1..] == Keep(s[1..], p);
      } else {
        assert Keep(s, p) == Keep(s[1..], p);
      }
    }
  }

  lemma {:induction false} At<K, V>(s: seq<Slot<K, V>>, i: nat)
    requires Distinct(s) && i < |s|
    ensures s[i].key in Lookup(s) && Lookup(s)[s[i].key] == s[i].value
  {
    if i > 0 {
      At(s[1..], i - 1);
    }
  }

  lemma {:induction false} AppendLookup<K, V>(s: seq<Slot<K, V>>, k: K, v: V)
    requires Distinct(s) && k !in Lookup(s)
    ensures Distinct(s + [Slot(k, v)]) && Lookup(s + [Slot(k, v)]) == Lookup(s)[k := v]
  {
    if s != [] {
      assert (s + [Slot(k, v)])[1..] == s[1..] + [Slot(k, v)];
      AppendLookup(s[1..], k, v);
    } else {
      assert (s + [Slot(k, v)])[1..] == [];
    }
  }

  /** The entries whose keys are not `gone`, in their order. */
  function Except<K(==), V>(s: seq<Slot<K, V>>, gone: set<K>): seq<Slot<K, V>> {
    if s == [] then [] else (if s[0].key in gone then [] else [s[0]]) + Except(s[1..], gone)
  }

  lemma {:induction false} ExceptNothing<K, V>(s: seq<Slot<K, V>>)
    ensures Except(s, {}) == s
  {
    if s != [] {
      ExceptNothing(s[1..]);
    }
  }

  lemma {:induction false} ExceptLookup<K, V>(s: seq<Slot<K, V>>, gone: set<K>)
    requires Distinct(s)
    ensures Distinct(Except(s, gone)) && Lookup(Except(s, gone)) == Lookup(s) - gone && |Except(s, gone)| <= |s|
  {
    if s != [] {
      ExceptLookup(s[1..], gone);
      if s[0].key in gone {
        assert Except(s, gone) == Except(s[1..], gone);
        assert Lookup(s) - gone == Lookup(s[1..]) - gone;
      } else {
        Front(s[0], Except(s[1..], gone));
      }
    }
  }

  lemma {:induction false} ExceptAbsent<K, V>(s: seq<Slot<K, V>>, gone: set<K>, k: K)
    requires k !in Lookup(s)
    ensures Except(s, gone + {k}) == Except(s, gone)
  {
    if s != [] {
      ExceptAbsent(s[1..], gone, k);
    }
  }

  /** Removing one more entry. */
  lemma {:induction false} RemoveExcept<K, V>(s: seq<Slot<K, V>>, gone: set<K>, k: K)
    requires Distinct(s)
    ensures Remove(Except(s, gone), k) == Except(s, gone + {k})
  {
    if s != [] {
      RemoveExcept(s[1..], gone, k);
      if s[0].key in gone {
        assert Except(s, gone) == Except(s[1..], gone);
      } else {
        assert Except(s, gone)[1..] == Except(s[1..], gone);
        if s[0].key == k {
          ExceptAbsent(s[1..], gone, k);
        }
      }
    }
  }
}
