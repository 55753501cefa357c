/** Small shared vocabulary: optional values and small integers. */
module Common {

  datatype Option<+T> = None | Some(value: T)

  // EPS bearer identities, QCIs, ARP octets and causes. They are uint8 in the source and only
  // compared and copied there, so no wrap-around can occur; ranges are proved where they matter.
  type Octet = int

  lemma SubsetSize<T>(a: set<T>, b: set<T>)
    requires a <= b
    ensures |a| <= |b|
    ensures |a| == |b| ==> a == b
  {
    if a != {} {
      var x :| x in a;
      SubsetSize(a - {x}, b - {x});
      if |a| == |b| {
        assert a == (a - {x}) + {x} == (b - {x}) + {x} == b;
      }
    }
  }

  lemma MergeThenPut<K, V>(a: map<K, V>, b: map<K, V>, k: K, v: V)
    ensures (a + b)[k := v] == a + b[k := v]
  {}

  lemma RemoveThenRemove<K, V>(m: map<K, V>, gone: set<K>, k: K)
    ensures m - gone - {k} == m - (gone + {k})
  {}

  lemma Member<T>(s: set<T>) returns (x: T)
    requires s != {}
    ensures x in s
  {
    x :| x in s;
  }

  // One iteration of a Go range over a map or set: some member, in no particular order.
  method Pick<T(==)>(s: set<T>) returns (x: T)
    requires s != {}
    ensures x in s
  {
    x :| x in s;
  }
}
