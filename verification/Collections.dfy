/** Extensionality of the built-in collections, and the choice of an element of a set. */
module Collections {
  lemma {:induction false} MapsEqual<K, V>(m: map<K, V>, n: map<K, V>)
    requires forall k :: k in m <==> k in n
    requires forall k :: k in m ==> m[k] == n[k]
    ensures m == n
  {
  }

  lemma {:induction false} Pick<T>(s: set<T>) returns (x: T)
    requires s != {}
    ensures x in s
  {
    x :| x in s;
  }

  /** Keeps the first value stored under a key. */
  function SetDefault<K, V>(m: map<K, V>, key: K, value: V): (r: map<K, V>)
    ensures r.Keys == m.Keys + {key}
    ensures forall k :: k in m ==> r[k] == m[k]
  {
    if key in m then m else m[key := value]
  }

  function RemoveAt<T>(s: seq<T>, i: nat): (r: seq<T>)
    requires i < |s|
    ensures |r| == |s| - 1
  {
    s[..i] + s[i + 1..]
  }

  lemma {:induction false} RemoveAtMultiset<T>(s: seq<T>, i: nat)
    requires i < |s|
    ensures multiset(RemoveAt(s, i)) == multiset(s) - multiset{s[i]}
    ensures s[i] in multiset(s)
  {
    assert s == s[..i] + [s[i]] + s[i + 1..];
  }

  /** The first element of a list is somewhere in every permutation of it. */
  lemma {:induction false} TakeOutFirst<T>(s: seq<T>, t: seq<T>) returns (i: nat)
    requires s != [] && multiset(s) == multiset(t)
    ensures i < |t| && t[i] == s[0]
    ensures multiset(RemoveAt(s, 0)) == multiset(RemoveAt(t, i))
  {
    RemoveAtMultiset(s, 0);
    assert s[0] in multiset(t);
    i :| 0 <= i < |t| && t[i] == s[0];
    RemoveAtMultiset(t, i);
  }

  lemma {:induction false} SamePermutationMembers<T>(s: seq<T>, t: seq<T>)
    requires multiset(s) == multiset(t)
    ensures forall x :: x in s <==> x in t
    ensures |s| == |t|
  {
    forall x ensures x in s <==> x in t {
      assert x in s <==> x in multiset(s);
      assert x in t <==> x in multiset(t);
    }
    assert |s| == |multiset(s)| == |multiset(t)| == |t|;
  }

  lemma {:induction false} ConcatNothing<T>(s: seq<T>)
    ensures s + [] == s
  {
  }

  lemma {:induction false} PrefixStep<T>(s: seq<T>, i: nat)
    requires i < |s|
    ensures s[..i + 1] == s[..i] + [s[i]]
  {
  }

  lemma {:induction false} FirstDifference<T>(s: seq<T>, t: seq<T>) returns (n: nat)
    requires |s| == |t| && s != t
    ensures n < |s| && s[..n] == t[..n] && s[n] != t[n]
  {
    n := 0;
    while s[n] == t[n]
      invariant n < |s| && s[..n] == t[..n]
      decreases |s| - n
    {
      if n == |s| - 1 {
        PrefixStep(s, n);
        PrefixStep(t, n);
        FullPrefix(s);
        FullPrefix(t);
      }
      n := n + 1;
    }
  }

  lemma {:induction false} PrefixOfAppend<T>(s: seq<T>, x: T)
    ensures forall i | 0 <= i <= |s| :: (s + [x])[..i] == s[..i]
  {
  }

  lemma {:induction false} FullPrefix<T>(s: seq<T>)
    ensures s[..|s|] == s
  {
  }

  lemma {:induction false} SplitLast<T>(s: seq<T>)
    requires s != []
    ensures s == s[..|s| - 1] + [s[|s| - 1]]
  {
  }

  lemma {:induction false} ConcatAssociates<T>(a: seq<T>, b: seq<T>, c: seq<T>)
    ensures a + b + c == a + (b + c)
  {
  }

  lemma {:induction false} UpdateKeepsKeys<K, V>(m: map<K, V>, key: K, value: V)
    requires key in m
    ensures m[key := value].Keys == m.Keys
  {
    assert m[key := value].Keys == m.Keys + {key};
  }

  lemma {:induction false} PrefixOfPrefix<T>(s: seq<T>, n: nat, i: nat)
    requires i <= n <= |s|
    ensures s[..n][..i] == s[..i]
  {
  }

  /** Removing one more of `todo` from what `keys` without `todo` has left. */
  lemma {:induction false} WithoutOneMore<K, V>(m: map<K, V>, keys: set<K>, todo: set<K>, key: K)
    requires key in todo && todo <= keys
    ensures m - (keys - todo) - {key} == m - (keys - (todo - {key}))
  {
    assert keys - (todo - {key}) == (keys - todo) + {key};
  }
}
