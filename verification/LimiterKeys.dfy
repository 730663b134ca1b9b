/** The keys of the limiters' maps: sizes of maps, and as many different addresses as a cap may need. */
module LimiterKeys {

  lemma {:induction false} SubsetSize<T>(a: set<T>, b: set<T>)
    requires a <= b
    ensures |a| <= |b|
  {
    if a != {} {
      var x :| x in a;
      SubsetSize(a - {x}, b - {x});
    }
  }

  lemma SubmapSize<V>(a: map<string, V>, b: map<string, V>)
    requires a.Keys <= b.Keys
    ensures |a| <= |b|
  {
    SubsetSize(a.Keys, b.Keys);
    assert |a.Keys| == |a| && |b.Keys| == |b|;
  }

  lemma DropSize<V>(a: map<string, V>, k: string)
    ensures k in a ==> |a - {k}| == |a| - 1
    ensures |a - {k}| <= |a|
  {
    assert (a - {k}).Keys == a.Keys - {k};
    assert |(a - {k}).Keys| == |a - {k}|;
  }

  lemma PutSize<V>(a: map<string, V>, k: string, v: V)
    ensures |a[k := v]| == if k in a then |a| else |a| + 1
  {
    assert a[k := v].Keys == a.Keys + {k};
    assert |a[k := v].Keys| == |a[k := v]|;
  }

  /** Addresses enough for any cap. */
  function Addr(k: nat): (a: string)
    ensures |a| == k && forall c :: c in a ==> c == 'a'
  {
    seq(k, _ => 'a')
  }

  function Crowd(n: nat): set<string> {
    if n == 0 then {} else Crowd(n - 1) + {Addr(n - 1)}
  }

  lemma {:induction false} CrowdSize(n: nat, k: nat)
    ensures |Crowd(n)| == n && (Addr(k) in Crowd(n) <==> k < n)
  {
    assert |Addr(k)| == k;
    if n > 0 {
      CrowdSize(n - 1, n - 1);
      CrowdSize(n - 1, k);
      assert |Addr(n - 1)| == n - 1;
    }
  }

  lemma AddrDiffer(j: nat, k: nat)
    ensures Addr(j) == Addr(k) <==> j == k
  {
    assert |Addr(j)| == j && |Addr(k)| == k;
  }
}
