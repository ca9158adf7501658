/** The two-level secondary indexes: relation id, then key, then a set. Buckets
    and relations that become empty are dropped. */
module Index {
  import opened Keys

  type Index<V> = map<string, map<PkValue, set<V>>>

  function Bucket<V>(ix: Index<V>, id: string, key: PkValue): set<V> {
    if id in ix && key in ix[id] then ix[id][key] else {}
  }

  function Add<V>(ix: Index<V>, id: string, key: PkValue, v: V): Index<V> {
    var byKey := if id in ix then ix[id] else map[];
    ix[id := byKey[key := Bucket(ix, id, key) + {v}]]
  }

  function Remove<V>(ix: Index<V>, id: string, key: PkValue, v: V): Index<V> {
    if id !in ix then ix
    else
      var rest := Bucket(ix, id, key) - {v};
      var byKey := if rest == {} then ix[id] - {key} else ix[id][key := rest];
      if byKey == map[] then ix - {id} else ix[id := byKey]
  }

  /** Drop every entry in `gone`, and whatever becomes empty with it. */
  function Without<V>(ix: Index<V>, gone: set<V>): Index<V> {
    map id | id in ix && ThinBuckets(ix[id], gone) != map[] :: ThinBuckets(ix[id], gone)
  }

  function ThinBuckets<V>(byKey: map<PkValue, set<V>>, gone: set<V>): map<PkValue, set<V>> {
    map key | key in byKey && byKey[key] - gone != {} :: byKey[key] - gone
  }

  ghost predicate NoEmpties<V>(ix: Index<V>) {
    forall id :: id in ix ==> NoEmptyBucket(ix[id])
  }

  ghost predicate NoEmptyBucket<V>(byKey: map<PkValue, set<V>>) {
    byKey != map[] && forall key :: key in byKey ==> byKey[key] != {}
  }

  lemma AddBuckets<V>(ix: Index<V>, id: string, key: PkValue, v: V)
    ensures var r := Add(ix, id, key, v);
      && Bucket(r, id, key) == Bucket(ix, id, key) + {v}
      && (forall id', key' :: (id', key') != (id, key) ==> Bucket(r, id', key') == Bucket(ix, id', key'))
      && (NoEmpties(ix) ==> NoEmpties(r))
  {
    assert key in Add(ix, id, key, v)[id];
  }

  lemma RemoveBuckets<V>(ix: Index<V>, id: string, key: PkValue, v: V)
    ensures var r := Remove(ix, id, key, v);
      && Bucket(r, id, key) == Bucket(ix, id, key) - {v}
      && (forall id', key' :: (id', key') != (id, key) ==> Bucket(r, id', key') == Bucket(ix, id', key'))
      && (NoEmpties(ix) ==> NoEmpties(r))
  {
    if id in ix {
      var rest := Bucket(ix, id, key) - {v};
      var byKey := if rest == {} then ix[id] - {key} else ix[id][key := rest];
      assert rest != {} ==> key in byKey;
      forall key' | key' != key ensures Bucket(Remove(ix, id, key, v), id, key') == Bucket(ix, id, key') {
        assert key' in byKey <==> key' in ix[id];
      }
    }
  }

  lemma WithoutBuckets<V>(ix: Index<V>, gone: set<V>)
    ensures var r := Without(ix, gone);
      && (forall id, key :: Bucket(r, id, key) == Bucket(ix, id, key) - gone)
      && NoEmpties(r)
  {
    var r := Without(ix, gone);
    forall id, key ensures Bucket(r, id, key) == Bucket(ix, id, key) - gone {
      if id in ix && key in ix[id] && ix[id][key] - gone != {} {
        assert key in ThinBuckets(ix[id], gone);
      }
    }
  }

  lemma ForgetBuckets<V>(ix: Index<V>, id: string)
    ensures forall id', key :: Bucket(ix - {id}, id', key) == if id' == id then {} else Bucket(ix, id', key)
    ensures NoEmpties(ix) ==> NoEmpties(ix - {id})
  {
  }

  /** Indexes without empty buckets are equal when their buckets are. */
  lemma Extensional<V>(a: Index<V>, b: Index<V>)
    requires NoEmpties(a) && NoEmpties(b)
    requires forall id, key :: Bucket(a, id, key) == Bucket(b, id, key)
    ensures a == b
  {
    forall id | id in a ensures id in b && a[id] == b[id] { SubIndex(a, b, id); }
    forall id | id in b ensures id in a { SubIndex(b, a, id); }
  }

  lemma SubIndex<V>(a: Index<V>, b: Index<V>, id: string)
    requires NoEmpties(a) && NoEmpties(b) && id in a
    requires forall id, key :: Bucket(a, id, key) == Bucket(b, id, key)
    ensures id in b && a[id] == b[id]
  {
    var key :| key in a[id];
    assert Bucket(a, id, key) == Bucket(b, id, key) != {};
    forall k | k in a[id] ensures k in b[id] && a[id][k] == b[id][k] {
      assert Bucket(a, id, k) == Bucket(b, id, k);
    }
    forall k | k in b[id] ensures k in a[id] {
      assert Bucket(a, id, k) == Bucket(b, id, k);
    }
  }
}
