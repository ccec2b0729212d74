/** Optional values, and the insertion-ordered Map of JavaScript: `set` on a present key keeps
    the key's position, `set` on a new key appends it, `delete` drops it. */
module OrderedMap {

  datatype Option<+T> = None | Some(value: T) {
    function GetOr(default: T): T {
      if Some? then value else default
    }
  }

  /** `order` lists the keys oldest first; `content` holds the values. */
  datatype OMap<!K(==), V> = OMap(order: seq<K>, content: map<K, V>) {
    ghost predicate Valid() {
      && Distinct(order)
      && SetOf(order) == content.Keys
    }

    function Get(k: K): Option<V> {
      if k in content then Some(content[k]) else None
    }

    function Put(k: K, v: V): (r: OMap<K, V>)
      ensures Valid() ==> r.Valid()
      ensures r.content == content[k := v]
      ensures |order| <= |r.order| <= |order| + 1
    {
      OMap(if k in content then order else order + [k], content[k := v])
    }

    function Delete(k: K): (r: OMap<K, V>)
      ensures Valid() ==> r.Valid()
      ensures k !in r.content
    {
      WithoutMembership(order, k);
      WithoutDistinct(order, k);
      assert SetOf(Without(order, k)) == SetOf(order) - {k};
      OMap(Without(order, k), content - {k})
    }
  }

  function Empty<K(==), V>(): OMap<K, V> {
    OMap([], map[])
  }

  ghost predicate Distinct<T>(s: seq<T>) {
    forall i, j :: 0 <= i < j < |s| ==> s[i] != s[j]
  }

  /** The subsequence of `s` without the element `x`. */
  function Without<T(==)>(s: seq<T>, x: T): (r: seq<T>)
    ensures |r| <= |s|
  {
    if s == [] then []
    else if s[0] == x then Without(s[1..], x)
    else [s[0]] + Without(s[1..], x)
  }

  lemma {:induction false} WithoutMembership<T>(s: seq<T>, x: T)
    ensures forall y :: y in Without(s, x) <==> y in s && y != x
  {
    if s != [] {
      WithoutMembership(s[1..], x);
      assert s == [s[0]] + s[1..];
    }
  }

  lemma {:induction false} WithoutDistinct<T>(s: seq<T>, x: T)
    ensures Distinct(s) ==> Distinct(Without(s, x))
    ensures Distinct(s) ==> |Without(s, x)| == if x in s then |s| - 1 else |s|
  {
    if s != [] && Distinct(s) {
      assert forall i :: 0 < i < |s| ==> s[i] == s[1..][i - 1];
      WithoutDistinct(s[1..], x);
      WithoutMembership(s[1..], x);
      assert s == [s[0]] + s[1..];
      assert s[0] !in s[1..] && s[0] !in Without(s[1..], x);
      var w := Without(s[1..], x);
      assert forall j :: 0 <= j < |w| ==> w[j] in w;
    }
  }

  /** The last `n` elements of `s`, or all of them when there are fewer. */
  function LastN<T>(s: seq<T>, n: nat): (r: seq<T>)
    ensures |r| == if |s| <= n then |s| else n
  {
    if |s| <= n then s else s[|s| - n..]
  }

  lemma DistinctSnoc<T>(s: seq<T>, x: T)
    requires Distinct(s) && x !in s
    ensures Distinct(s + [x])
  {
    assert forall i :: 0 <= i < |s| ==> s[i] in s;
  }

  lemma DistinctParts<T>(a: seq<T>, b: seq<T>)
    requires Distinct(a + b)
    ensures Distinct(a) && Distinct(b)
    ensures forall x :: x in a ==> x !in b
  {
    var s := a + b;
    assert forall i :: 0 <= i < |a| ==> a[i] == s[i];
    assert forall i :: 0 <= i < |b| ==> b[i] == s[|a| + i];
  }

  lemma DistinctLastN<T>(s: seq<T>, n: nat)
    requires Distinct(s)
    ensures Distinct(LastN(s, n))
  {
    if |s| > n {
      assert s == s[..|s| - n] + s[|s| - n..];
      DistinctParts(s[..|s| - n], s[|s| - n..]);
    }
  }

  function SetOf<T>(s: seq<T>): set<T> {
    set x | x in s
  }
}
