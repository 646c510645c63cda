/** Python's `dict` with string keys, whose iteration order is the order in
    which keys were first inserted. */
module Dict {

  predicate Distinct<T(==)>(s: seq<T>) {
    forall i, j :: 0 <= i < j < |s| ==> s[i] != s[j]
  }

  lemma MapExtensional<K, V>(a: map<K, V>, b: map<K, V>)
    requires forall k :: (k in a <==> k in b) && (k in a ==> a[k] == b[k])
    ensures a == b
  {
  }

  lemma DistinctSnoc<T>(s: seq<T>, x: T)
    requires Distinct(s) && x !in s
    ensures Distinct(s + [x])
  {
  }

  /** The distinct elements of `s` in the order of their first occurrence. */
  function Dedup(s: seq<string>): (r: seq<string>)
    ensures Distinct(r)
    ensures forall x :: x in r <==> x in s
  {
    if s == [] then []
    else
      var p := Dedup(s[..|s| - 1]);
      if s[|s| - 1] in p then p else p + [s[|s| - 1]]
  }

  /** The elements of `ks` not in `present`, in order. */
  function Fresh(ks: seq<string>, present: set<string>): (r: seq<string>)
    ensures forall x :: x in r <==> x in ks && x !in present
  {
    if ks == [] then []
    else Fresh(ks[..|ks| - 1], present) + (if ks[|ks| - 1] in present then [] else [ks[|ks| - 1]])
  }

  /** `keys` is the iteration order, `vals` the mapping. */
  datatype Dict<V> = Dict(keys: seq<string>, vals: map<string, V>) {
    ghost predicate Valid() {
      Distinct(keys) && forall k :: k in vals <==> k in keys
    }
  }

  function Empty<V>(): (d: Dict<V>)
    ensures d.Valid() && d.keys == [] && d.vals == map[]
  {
    Dict([], map[])
  }

  /** `d[k] = v`: a new key goes to the end, an existing key keeps its place. */
  function Put<V>(d: Dict<V>, k: string, v: V): (r: Dict<V>)
    requires d.Valid()
    ensures r.Valid()
    ensures r.vals == d.vals[k := v]
    ensures r.keys == if k in d.vals then d.keys else d.keys + [k]
  {
    if k in d.vals then Dict(d.keys, d.vals[k := v]) else Dict(d.keys + [k], d.vals[k := v])
  }

  /** `if k not in d: d[k] = v` */
  function InsertIfAbsent<V>(d: Dict<V>, k: string, v: V): (r: Dict<V>)
    requires d.Valid()
    ensures r.Valid()
    ensures k in d.vals ==> r == d
    ensures k !in d.vals ==> r.keys == d.keys + [k] && r.vals == d.vals[k := v]
  {
    if k in d.vals then d else Put(d, k, v)
  }

  lemma {:induction false} FreshDistinct(ks: seq<string>, present: set<string>)
    requires Distinct(ks)
    ensures Distinct(Fresh(ks, present))
  {
    if ks != [] {
      var init, last := ks[..|ks| - 1], ks[|ks| - 1];
      assert ks == init + [last];
      FreshDistinct(init, present);
      if last !in present {
        DistinctSnoc(Fresh(init, present), last);
      }
    }
  }

  lemma DistinctConcat(a: seq<string>, b: seq<string>)
    requires Distinct(a) && Distinct(b)
    requires forall x :: x in b ==> x !in a
    ensures Distinct(a + b)
  {
    forall i, j | 0 <= i < j < |a + b| ensures (a + b)[i] != (a + b)[j] {
      if i < |a| && |a| <= j {
        assert (a + b)[j] in b;
      }
    }
  }

  /** `{**a, **b}`: the keys of both, `b`'s value on a shared key, and the
      order of `a` followed by the keys only `b` has, in `b`'s order. */
  function Union<V>(a: Dict<V>, b: Dict<V>): (r: Dict<V>)
    requires a.Valid() && b.Valid()
    ensures r.Valid()
    ensures forall k :: k in r.vals <==> k in a.vals || k in b.vals
    ensures forall k :: k in b.vals ==> r.vals[k] == b.vals[k]
    ensures forall k :: k in a.vals && k !in b.vals ==> r.vals[k] == a.vals[k]
    ensures r.keys == a.keys + Fresh(b.keys, a.vals.Keys)
  {
    var added := Fresh(b.keys, a.vals.Keys);
    FreshDistinct(b.keys, a.vals.Keys);
    DistinctConcat(a.keys, added);
    Dict(a.keys + added, map k | k in a.vals.Keys + b.vals.Keys :: if k in b.vals then b.vals[k] else a.vals[k])
  }

  /** The keys of a sequence of (key, value) pairs. */
  function KeysOf<V>(ps: seq<(string, V)>): (ks: seq<string>)
    ensures |ks| == |ps| && forall i :: 0 <= i < |ps| ==> ks[i] == ps[i].0
  {
    seq(|ps|, i requires 0 <= i < |ps| => ps[i].0)
  }

  /** Index of the first occurrence of `x` in `s`. */
  function FirstIndex(s: seq<string>, x: string): (i: nat)
    requires x in s
    ensures i < |s| && s[i] == x
    ensures forall j :: 0 <= j < i ==> s[j] != x
  {
    if s[0] == x then 0 else 1 + FirstIndex(s[1..], x)
  }

  /** The dict built by `for k, v in ps: if k not in d: d[k] = v`, described
      without the loop: every key once, in the order of its first
      appearance, with the value it was first paired with. */
  function FirstSeen<V>(ps: seq<(string, V)>): (d: Dict<V>)
    ensures d.Valid()
    ensures d.keys == Dedup(KeysOf(ps))
  {
    var ks := KeysOf(ps);
    var keys := Dedup(ks);
    Dict(keys, map k | k in keys :: ps[FirstIndex(ks, k)].1)
  }

  /** The value kept for a key is the one paired with its first occurrence. */
  lemma FirstSeenValue<V>(ps: seq<(string, V)>, k: string)
    requires k in KeysOf(ps)
    ensures k in FirstSeen(ps).vals
    ensures FirstSeen(ps).vals[k] == ps[FirstIndex(KeysOf(ps), k)].1
  {
  }

  /** One more step of the insert-if-absent loop. */
  lemma FirstSeenSnoc<V>(ps: seq<(string, V)>, p: (string, V))
    ensures FirstSeen(ps + [p]) == InsertIfAbsent(FirstSeen(ps), p.0, p.1)
  {
    var d', e := FirstSeen(ps + [p]), InsertIfAbsent(FirstSeen(ps), p.0, p.1);
    FirstSeenSnocKeys(ps, p);
    FirstSeenSnocValues(ps, p);
    assert d' == Dict(d'.keys, d'.vals) && e == Dict(e.keys, e.vals);
  }

  lemma FirstSeenSnocKeys<V>(ps: seq<(string, V)>, p: (string, V))
    ensures FirstSeen(ps + [p]).keys == InsertIfAbsent(FirstSeen(ps), p.0, p.1).keys
  {
    var ks, ks' := KeysOf(ps), KeysOf(ps + [p]);
    assert ks' == ks + [p.0];
    assert ks'[..|ks'| - 1] == ks;
  }

  lemma FirstSeenSnocValues<V>(ps: seq<(string, V)>, p: (string, V))
    ensures FirstSeen(ps + [p]).vals == InsertIfAbsent(FirstSeen(ps), p.0, p.1).vals
  {
    var d, d' := FirstSeen(ps), FirstSeen(ps + [p]);
    var e := InsertIfAbsent(d, p.0, p.1);
    FirstSeenSnocDomain(ps, p);
    forall k | k in d.vals ensures d'.vals[k] == e.vals[k] {
      FirstSeenSnocOld(ps, p, k);
    }
    if p.0 !in d.vals {
      FirstSeenSnocNew(ps, p);
    }
  }

  lemma FirstSeenSnocDomain<V>(ps: seq<(string, V)>, p: (string, V))
    ensures FirstSeen(ps + [p]).vals.Keys == InsertIfAbsent(FirstSeen(ps), p.0, p.1).vals.Keys
  {
    assert KeysOf(ps + [p]) == KeysOf(ps) + [p.0];
  }

  lemma FirstSeenSnocOld<V>(ps: seq<(string, V)>, p: (string, V), k: string)
    requires k in FirstSeen(ps).vals
    ensures k in FirstSeen(ps + [p]).vals && FirstSeen(ps + [p]).vals[k] == FirstSeen(ps).vals[k]
  {
    var ks, ks' := KeysOf(ps), KeysOf(ps + [p]);
    assert ks' == ks + [p.0];
    FirstIndexUnique(ks', k, FirstIndex(ks, k));
  }

  lemma FirstSeenSnocNew<V>(ps: seq<(string, V)>, p: (string, V))
    requires p.0 !in FirstSeen(ps).vals
    ensures p.0 in FirstSeen(ps + [p]).vals && FirstSeen(ps + [p]).vals[p.0] == p.1
  {
    var ks, ks' := KeysOf(ps), KeysOf(ps + [p]);
    assert ks' == ks + [p.0];
    FirstIndexUnique(ks', p.0, |ps|);
  }

  lemma FirstIndexUnique(s: seq<string>, x: string, i: nat)
    requires i < |s| && s[i] == x && forall j :: 0 <= j < i ==> s[j] != x
    ensures FirstIndex(s, x) == i
  {
  }

  /** Running the loop over `ps` and then `qs`: a key already found in `ps`
      keeps its value from there. */
  lemma FirstSeenAppend<V>(ps: seq<(string, V)>, qs: seq<(string, V)>, k: string)
    requires k in KeysOf(ps) || k in KeysOf(qs)
    ensures k in FirstSeen(ps + qs).vals
    ensures FirstSeen(ps + qs).vals[k]
         == if k in KeysOf(ps) then FirstSeen(ps).vals[k] else FirstSeen(qs).vals[k]
  {
    var ks1, ks2, ks := KeysOf(ps), KeysOf(qs), KeysOf(ps + qs);
    assert ks == ks1 + ks2;
    if k in ks1 {
      FirstIndexUnique(ks, k, FirstIndex(ks1, k));
    } else {
      FirstIndexUnique(ks, k, |ks1| + FirstIndex(ks2, k));
    }
  }

  /** The groups one after the other. */
  function Concat<V>(groups: seq<seq<(string, V)>>): seq<(string, V)> {
    if groups == [] then [] else Concat(groups[..|groups| - 1]) + groups[|groups| - 1]
  }

  lemma {:induction false} KeysOfConcat<V>(groups: seq<seq<(string, V)>>, k: string)
    ensures k in KeysOf(Concat(groups)) <==> exists g :: 0 <= g < |groups| && k in KeysOf(groups[g])
  {
    if groups != [] {
      var init := groups[..|groups| - 1];
      KeysOfConcat(init, k);
      assert KeysOf(Concat(groups)) == KeysOf(Concat(init)) + KeysOf(groups[|groups| - 1]);
      if k in KeysOf(Concat(groups)) && k !in KeysOf(groups[|groups| - 1]) {
        var g :| 0 <= g < |init| && k in KeysOf(init[g]);
        assert groups[g] == init[g];
      }
    }
  }

  /** Index of the first group with a pair for `k` (`|groups|` if none). */
  function FirstGroup<V>(groups: seq<seq<(string, V)>>, k: string): (g: nat)
    ensures g <= |groups|
    ensures g < |groups| ==> k in KeysOf(groups[g])
    ensures forall j :: 0 <= j < g ==> k !in KeysOf(groups[j])
  {
    if groups == [] then 0
    else
      var g := FirstGroup(groups[..|groups| - 1], k);
      if g < |groups| - 1 then g
      else if k in KeysOf(groups[|groups| - 1]) then |groups| - 1
      else |groups|
  }

  /** Running the insert-if-absent loop over several groups in turn, a key
      gets the value it was first paired with in the first group that has it. */
  lemma {:induction false} FirstSeenConcat<V>(groups: seq<seq<(string, V)>>, k: string)
    requires k in KeysOf(Concat(groups))
    ensures FirstGroup(groups, k) < |groups|
    ensures k in FirstSeen(Concat(groups)).vals
    ensures FirstSeen(Concat(groups)).vals[k] == FirstSeen(groups[FirstGroup(groups, k)]).vals[k]
  {
    var init, last := groups[..|groups| - 1], groups[|groups| - 1];
    assert Concat(groups) == Concat(init) + last;
    FirstSeenAppend(Concat(init), last, k);
    if k in KeysOf(Concat(init)) {
      FirstSeenConcat(init, k);
    } else {
      KeysOfConcat(init, k);
    }
  }
}
