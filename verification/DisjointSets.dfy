/** Union-find over numbered items, with path compression; the least item represents its set. */
module DisjointSets {
  import opened Collections

  type Parents = map<nat, nat>

  /** Every parent is an item, and none is greater than its child. */
  ghost predicate Sane(parent: Parents) {
    forall x {:trigger Descends(parent, x)} :: x in parent ==> Descends(parent, x)
  }

  ghost predicate Descends(parent: Parents, x: nat) {
    x in parent && parent[x] in parent && parent[x] <= x
  }

  ghost function Root(parent: Parents, x: nat): (r: nat)
    requires Sane(parent) && x in parent
    ensures r in parent && parent[r] == r && r <= x
    decreases x
  {
    assert Descends(parent, x);
    if parent[x] == x then x else Root(parent, parent[x])
  }

  lemma {:induction false} UpdateSane(parent: Parents, item: nat, value: nat)
    requires Sane(parent) && (value in parent || value == item) && value <= item
    ensures Sane(parent[item := value])
  {
    var after := parent[item := value];
    forall x | x in after ensures Descends(after, x) {
      assert x in parent ==> Descends(parent, x);
    }
  }

  /** Pointing an item at the root of its set changes no root. */
  lemma {:induction false} CompressKeepsRoots(parent: Parents, item: nat, x: nat)
    requires Sane(parent) && item in parent && x in parent
    ensures Sane(parent[item := Root(parent, item)])
    ensures Root(parent[item := Root(parent, item)], x) == Root(parent, x)
    decreases x
  {
    UpdateSane(parent, item, Root(parent, item));
    assert Descends(parent, x);
    if x == item {
      assert parent[Root(parent, item)] == Root(parent, item);
    } else if parent[x] != x {
      CompressKeepsRoots(parent, item, parent[x]);
    }
  }

  /** Linking a root to a smaller one joins their two sets and no others. */
  lemma {:induction false} LinkJoins(parent: Parents, hi: nat, lo: nat, x: nat)
    requires Sane(parent) && hi in parent && lo in parent && x in parent
    requires parent[hi] == hi && parent[lo] == lo && lo < hi
    ensures Sane(parent[hi := lo])
    ensures Root(parent[hi := lo], x) == if Root(parent, x) == hi then lo else Root(parent, x)
    decreases x
  {
    UpdateSane(parent, hi, lo);
    assert Descends(parent, x);
    if x != hi && parent[x] != x {
      LinkJoins(parent, hi, lo, parent[x]);
    }
  }

  /** An item that is not there yet becomes a set of its own. */
  lemma {:induction false} AddKeepsRoots(parent: Parents, item: nat, x: nat)
    requires Sane(parent) && item !in parent && x in parent
    ensures Sane(parent[item := item]) && Root(parent[item := item], x) == Root(parent, x)
    decreases x
  {
    UpdateSane(parent, item, item);
    assert Descends(parent, x);
    if parent[x] != x {
      AddKeepsRoots(parent, item, parent[x]);
    }
  }

  /** The same items with the same roots. */
  ghost predicate SameRoots(before: Parents, after: Parents) {
    && Sane(before) && Sane(after) && after.Keys == before.Keys
    && forall x {:trigger Root(after, x)} {:trigger Root(before, x)} :: x in before ==> Root(after, x) == Root(before, x)
  }

  class DisjointSet {
    var parent: Parents

    ghost predicate Valid()
      reads this
    {
      Sane(parent)
    }

    constructor ()
      ensures Valid() && parent == map[]
    {
      parent := map[];
    }

    method Add(item: nat)
      requires Valid()
      modifies this
      ensures Valid() && parent.Keys == old(parent).Keys + {item}
      ensures forall x {:trigger Root(parent, x)} :: x in old(parent) ==> Root(parent, x) == Root(old(parent), x)
      ensures item !in old(parent) ==> Root(parent, item) == item
    {
      if item !in parent {
        UpdateSane(parent, item, item);
        forall x | x in parent ensures Sane(parent[item := item]) && Root(parent[item := item], x) == Root(parent, x) {
          AddKeepsRoots(parent, item, x);
        }
        parent := parent[item := item];
      }
    }

    method Climb(item: nat) returns (root: nat)
      requires Valid() && item in parent
      ensures root == Root(parent, item)
    {
      root := item;
      while parent[root] != root
        invariant root in parent && Root(parent, root) == Root(parent, item)
        decreases root
      {
        assert Descends(parent, root);
        root := parent[root];
      }
    }

    /** Points the items on the way to the root straight at it. */
    method Compress(item: nat, root: nat)
      requires Valid() && item in parent && root == Root(parent, item)
      modifies this
      ensures SameRoots(old(parent), parent)
    {
      var x := item;
      while parent[x] != root
        invariant SameRoots(old(parent), parent)
        invariant x in parent && Root(parent, x) == root
        decreases x
      {
        var next := parent[x];
        assert Descends(parent, x);
        Compressed(parent, x);
        SameRootsTwice(old(parent), parent, parent[x := root]);
        parent, x := parent[x := root], next;
      }
    }

    /** The representative; the way to it is compressed. */
    method Find(item: nat) returns (root: nat)
      requires Valid() && item in parent
      modifies this
      ensures SameRoots(old(parent), parent) && root == Root(parent, item)
    {
      root := Climb(item);
      Compress(item, root);
    }

    /** The smaller representative stays. */
    method Union(a: nat, b: nat)
      requires Valid() && a in parent && b in parent
      modifies this
      ensures Valid() && parent.Keys == old(parent).Keys
      ensures Joined(old(parent), parent, a, b)
    {
      var ra := Find(a);
      ghost var first := parent;
      var rb := Find(b);
      SameRootsTwice(old(parent), first, parent);
      ghost var found := parent;
      if ra != rb {
        var hi, lo := if ra > rb then ra else rb, if ra > rb then rb else ra;
        RootOfRoot(old(parent), found, a);
        RootOfRoot(old(parent), found, b);
        LinkKeeps(parent, hi, lo);
        AllLinked(parent, hi, lo);
        parent := parent[hi := lo];
        JoinedByLink(old(parent), found, parent, a, b, hi, lo);
      } else {
        JoinedAlready(old(parent), found, a, b);
      }
    }
  }

  lemma {:induction false} Compressed(parent: Parents, item: nat)
    requires Sane(parent) && item in parent
    ensures SameRoots(parent, parent[item := Root(parent, item)])
  {
    var after := parent[item := Root(parent, item)];
    assert Descends(parent, item);
    CompressKeepsRoots(parent, item, item);
    UpdateKeepsKeys(parent, item, Root(parent, item));
    forall x | x in parent ensures Root(after, x) == Root(parent, x) {
      CompressKeepsRoots(parent, item, x);
    }
  }

  lemma {:induction false} SameRootsTwice(a: Parents, b: Parents, c: Parents)
    requires SameRoots(a, b) && SameRoots(b, c)
    ensures SameRoots(a, c)
  {
  }

  lemma {:induction false} JoinedAlready(before: Parents, found: Parents, a: nat, b: nat)
    requires SameRoots(before, found) && a in before && b in before && Root(before, a) == Root(before, b)
    ensures Joined(before, found, a, b)
  {
  }

  /** Every item whose root was `hi` has the root `lo`, and the others keep theirs. */
  ghost predicate Linked(parent: Parents, after: Parents, hi: nat, lo: nat)
    requires Sane(parent) && Sane(after) && after.Keys == parent.Keys
  {
    forall x {:trigger Root(after, x)} :: x in parent ==> Root(after, x) == if Root(parent, x) == hi then lo else Root(parent, x)
  }

  lemma {:induction false} JoinedByLink(before: Parents, found: Parents, after: Parents, a: nat, b: nat, hi: nat, lo: nat)
    requires SameRoots(before, found) && a in before && b in before && lo < hi
    requires (hi == Root(before, a) && lo == Root(before, b)) || (hi == Root(before, b) && lo == Root(before, a))
    requires Sane(after) && after.Keys == found.Keys && Linked(found, after, hi, lo)
    ensures Joined(before, after, a, b)
  {
  }

  lemma {:induction false} LinkKeeps(parent: Parents, hi: nat, lo: nat)
    requires Sane(parent) && hi in parent && lo in parent && parent[hi] == hi && parent[lo] == lo && lo < hi
    ensures Sane(parent[hi := lo]) && parent[hi := lo].Keys == parent.Keys
  {
    LinkJoins(parent, hi, lo, lo);
    UpdateKeepsKeys(parent, hi, lo);
  }

  lemma {:induction false} AllLinked(parent: Parents, hi: nat, lo: nat)
    requires Sane(parent) && hi in parent && lo in parent && parent[hi] == hi && parent[lo] == lo && lo < hi
    requires Sane(parent[hi := lo]) && parent[hi := lo].Keys == parent.Keys
    ensures Linked(parent, parent[hi := lo], hi, lo)
  {
    var after := parent[hi := lo];
    forall x | x in parent ensures Root(after, x) == if Root(parent, x) == hi then lo else Root(parent, x) {
      LinkJoins(parent, hi, lo, x);
    }
  }

  lemma {:induction false} RootOfRoot(before: Parents, found: Parents, a: nat)
    requires SameRoots(before, found) && a in before
    ensures Root(before, a) in found && found[Root(before, a)] == Root(before, a)
  {
    assert Root(found, a) == Root(before, a);
  }

  /** The sets of `a` and `b` are one, represented by the smaller root; every other set is as before. */
  ghost predicate Joined(before: Parents, after: Parents, a: nat, b: nat)
    requires Sane(before) && Sane(after) && a in before && b in before && after.Keys == before.Keys
  {
    forall x {:trigger Root(after, x)} {:trigger Root(before, x)} ::
      x in before ==> Root(after, x) == JoinedRoot(Root(before, x), Root(before, a), Root(before, b))
  }

  function JoinedRoot(r: nat, ra: nat, rb: nat): nat {
    if r != ra && r != rb then r else if ra <= rb then ra else rb
  }
}
