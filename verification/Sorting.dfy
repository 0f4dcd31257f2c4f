/** Sorting a list in place by a text key, as sort.Slice and sort.Strings do. */
module Sorting {
  import opened Text

  predicate Ordered<T>(s: seq<T>, key: T -> string) {
    forall i, j :: 0 <= i < j < |s| ==> LessEq(key(s[i]), key(s[j]))
  }

  /** An in-place sort; callers learn no more than sort.Slice promises. */
  method SortByKey<T>(a: array<T>, key: T -> string)
    modifies a
    ensures Ordered(a[..], key)
    ensures multiset(a[..]) == multiset(old(a[..]))
  {
    for i := 0 to a.Length
      invariant forall p, q :: 0 <= p < q < i ==> LessEq(key(a[p]), key(a[q]))
      invariant multiset(a[..]) == multiset(old(a[..]))
    {
      Insert(a, i, key);
    }
  }

  /** Sinks a[i] into the ordered front a[..i]. */
  method Insert<T>(a: array<T>, i: nat, key: T -> string)
    requires i < a.Length
    requires forall p, q :: 0 <= p < q < i ==> LessEq(key(a[p]), key(a[q]))
    modifies a
    ensures forall p, q :: 0 <= p < q <= i ==> LessEq(key(a[p]), key(a[q]))
    ensures multiset(a[..]) == multiset(old(a[..]))
  {
    var j := i;
    while j > 0 && Less(key(a[j]), key(a[j - 1]))
      invariant 0 <= j <= i
      invariant forall p, q :: 0 <= p < q <= i && q != j ==> LessEq(key(a[p]), key(a[q]))
      invariant multiset(a[..]) == multiset(old(a[..]))
    {
      LessTotal(key(a[j]), key(a[j - 1]));
      a[j], a[j - 1] := a[j - 1], a[j];
      j := j - 1;
    }
    forall p | 0 <= p < j ensures LessEq(key(a[p]), key(a[j])) {
      if p < j - 1 {
        LessTransitive(key(a[p]), key(a[j - 1]), key(a[j]));
      }
    }
  }

  ghost predicate DistinctKeys<T>(s: seq<T>, key: T -> string) {
    forall x, y :: x in s && y in s && key(x) == key(y) ==> x == y
  }

  lemma FirstIsLeast<T>(s: seq<T>, key: T -> string, x: T)
    requires Ordered(s, key) && x in s
    ensures LessEq(key(s[0]), key(x))
  {
    var i :| 0 <= i < |s| && s[i] == x;
    LessTotal(key(x), key(x));
  }

  lemma SameFirst<T>(s: seq<T>, t: seq<T>, key: T -> string)
    requires Ordered(s, key) && Ordered(t, key) && multiset(s) == multiset(t) && DistinctKeys(s, key) && s != []
    ensures t != [] && s[0] == t[0]
  {
    SameMultiset(s, t);
    assert t[0] in t && s[0] in s;
    FirstIsLeast(s, key, t[0]);
    FirstIsLeast(t, key, s[0]);
    LessTotal(key(s[0]), key(t[0]));
  }

  lemma TailKeeps<T>(s: seq<T>, key: T -> string)
    requires s != [] && Ordered(s, key)
    ensures multiset(s[1..]) == multiset(s) - multiset{s[0]}
    ensures Ordered(s[1..], key)
    ensures DistinctKeys(s, key) ==> DistinctKeys(s[1..], key)
  {
    assert s == [s[0]] + s[1..];
    assert forall x :: x in s[1..] ==> x in s;
  }

  ghost predicate SameSorted<T>(s: seq<T>, t: seq<T>, key: T -> string) {
    Ordered(s, key) && Ordered(t, key) && multiset(s) == multiset(t) && DistinctKeys(s, key)
  }

  lemma SameTails<T>(s: seq<T>, t: seq<T>, key: T -> string)
    requires SameSorted(s, t, key) && s != []
    ensures t != [] && s[0] == t[0] && SameSorted(s[1..], t[1..], key)
  {
    hide Ordered, DistinctKeys;
    SameFirst(s, t, key);
    TailKeeps(s, key);
    TailKeeps(t, key);
  }

  /** When no two elements share a key, there is only one sorted form: whatever
      sort is used gives it. */
  lemma SortedOnce<T>(s: seq<T>, t: seq<T>, key: T -> string)
    requires Ordered(s, key) && Ordered(t, key) && multiset(s) == multiset(t) && DistinctKeys(s, key)
    ensures s == t
  {
    assert SameSorted(s, t, key);
    OneSorted(s, t, key);
  }

  lemma {:induction false} OneSorted<T>(s: seq<T>, t: seq<T>, key: T -> string)
    requires SameSorted(s, t, key)
    ensures s == t
  {
    SameLength(s, t);
    hide SameSorted;
    if s != [] {
      SameTails(s, t, key);
      OneSorted(s[1..], t[1..], key);
      assert s == [s[0]] + s[1..] && t == [t[0]] + t[1..];
    }
  }

  lemma SameLength<T>(s: seq<T>, t: seq<T>)
    requires multiset(s) == multiset(t)
    ensures |s| == |t|
  {
    assert |multiset(s)| == |s| && |multiset(t)| == |t|;
  }

  lemma SameMultiset<T>(s: seq<T>, t: seq<T>)
    requires multiset(s) == multiset(t)
    ensures |s| == |t|
    ensures forall x :: x in s <==> x in t
  {
    assert |multiset(s)| == |s| && |multiset(t)| == |t|;
    forall x ensures x in s <==> x in t {
      assert x in s <==> x in multiset(s);
      assert x in t <==> x in multiset(t);
    }
  }
}
