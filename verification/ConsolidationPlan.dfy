/**
  The merge plan of the consolidation: ingredients that share a lemma or a dictionary entry form a group,
  the group's best name survives, and the others are folded into it.  How names are reduced is arbitrary.
 */
module ConsolidationPlan {
  import opened Wrappers
  import opened Collections
  import opened DisjointSets
  import opened ConsolidationJournal
  import opened ConsolidationDedup

  /**
    `reduced` gives the lemma of a name, `entry` the dictionary entry it belongs to, `normal` its normalised
    form and `slug` its canonical form; `keys` are the names of the dictionary entries.
   */
  datatype Dictionary = Dictionary(
    reduced: string -> string, entry: string -> Option<string>, normal: string -> string, slug: string -> string,
    keys: set<string>)

  type Names = map<nat, string>

  /** Two ingredients are linked when their names share a lemma or an entry. */
  predicate AreLinked(d: Dictionary, names: Names, a: nat, b: nat)
    requires a in names && b in names
  {
    d.reduced(names[a]) == d.reduced(names[b]) || (d.entry(names[a]).Some? && d.entry(names[a]) == d.entry(names[b]))
  }

  ghost predicate Equated(parent: Parents, a: nat, b: nat)
    requires Sane(parent)
  {
    a in parent && b in parent && Root(parent, a) == Root(parent, b)
  }

  /** Whatever was in one set still is. */
  ghost predicate Coarser(before: Parents, after: Parents)
    requires Sane(before) && Sane(after)
  {
    forall a, b :: Equated(before, a, b) ==> Equated(after, a, b)
  }

  /** No two items of different classes are in one set. */
  ghost predicate WithinClasses(parent: Parents, cls: nat -> nat)
    requires Sane(parent)
  {
    forall a, b :: Equated(parent, a, b) ==> cls(a) == cls(b)
  }

  lemma {:induction false} JoinedIsCoarser(before: Parents, after: Parents, a: nat, b: nat)
    requires Sane(before) && Sane(after) && a in before && b in before && after.Keys == before.Keys && Joined(before, after, a, b)
    ensures Coarser(before, after) && Equated(after, a, b)
  {
    forall x, y | Equated(before, x, y) ensures Equated(after, x, y) {
      assert x in after && y in after;
    }
  }

  lemma {:induction false} JoinedWithinClasses(before: Parents, after: Parents, a: nat, b: nat, cls: nat -> nat)
    requires Sane(before) && Sane(after) && a in before && b in before && after.Keys == before.Keys && Joined(before, after, a, b)
    requires WithinClasses(before, cls) && cls(a) == cls(b)
    ensures WithinClasses(after, cls)
  {
    forall x, y | Equated(after, x, y) ensures cls(x) == cls(y) {
      ClassOfJoined(before, after, a, b, cls, x);
      ClassOfJoined(before, after, a, b, cls, y);
      assert Root(before, x) == Root(before, y) ==> Equated(before, x, y);
    }
  }

  /** An item keeps its root, or has the class of the two that were joined. */
  lemma {:induction false} ClassOfJoined(before: Parents, after: Parents, a: nat, b: nat, cls: nat -> nat, x: nat)
    requires Sane(before) && Sane(after) && a in before && b in before && after.Keys == before.Keys && Joined(before, after, a, b)
    requires WithinClasses(before, cls) && cls(a) == cls(b) && x in before
    ensures cls(x) == cls(a) || (Root(after, x) == Root(before, x) && Root(before, x) != Root(before, a) && Root(before, x) != Root(before, b))
  {
    if Root(before, x) == Root(before, a) {
      assert Equated(before, x, a);
    } else if Root(before, x) == Root(before, b) {
      assert Equated(before, x, b);
    }
  }

  // ----- Anchors --------------------------------------------------------------------------------

  /** The first item seen with each key. */
  type Anchors = map<string, nat>

  /** Every item of `done` with a key is in the set of the first one with that key. */
  ghost predicate Anchored(parent: Parents, names: Names, done: set<nat>, anchors: Anchors, keyOf: string -> Option<string>)
    requires Sane(parent)
  {
    && (forall k :: k in anchors ==> IsAnchor(parent, names, anchors[k], keyOf, k))
    && (forall x :: x in done ==> AnchoredAt(parent, names, anchors, keyOf, x))
  }

  ghost predicate IsAnchor(parent: Parents, names: Names, anchor: nat, keyOf: string -> Option<string>, k: string) {
    anchor in parent && anchor in names && keyOf(names[anchor]) == Some(k)
  }

  ghost predicate AnchoredAt(parent: Parents, names: Names, anchors: Anchors, keyOf: string -> Option<string>, x: nat)
    requires Sane(parent)
  {
    x in names && keyOf(names[x]).Some? ==>
      keyOf(names[x]).value in anchors && Equated(parent, x, anchors[keyOf(names[x]).value])
  }

  lemma {:induction false} AnchoredStays(before: Parents, after: Parents, names: Names, done: set<nat>, anchors: Anchors,
                                         keyOf: string -> Option<string>)
    requires Sane(before) && Sane(after) && Coarser(before, after) && forall x :: x in before ==> x in after
    requires Anchored(before, names, done, anchors, keyOf)
    ensures Anchored(after, names, done, anchors, keyOf)
  {
    forall x | x in done ensures AnchoredAt(after, names, anchors, keyOf, x) {
      AnchoredAtStays(before, after, names, anchors, anchors, keyOf, x);
    }
    forall k | k in anchors ensures IsAnchor(after, names, anchors[k], keyOf, k) {
      assert IsAnchor(before, names, anchors[k], keyOf, k);
    }
  }

  lemma {:induction false} IsAnchorStays(before: Parents, after: Parents, names: Names, anchor: nat, keyOf: string -> Option<string>, k: string)
    requires IsAnchor(before, names, anchor, keyOf, k) && after.Keys == before.Keys
    ensures IsAnchor(after, names, anchor, keyOf, k)
  {
    assert anchor in before.Keys;
  }

  /** The anchors there were are kept. */
  ghost predicate Extends(anchors: Anchors, longer: Anchors) {
    forall k :: k in anchors ==> k in longer && longer[k] == anchors[k]
  }

  lemma {:induction false} AnchoredAtStays(before: Parents, after: Parents, names: Names, anchors: Anchors, longer: Anchors,
                                           keyOf: string -> Option<string>, x: nat)
    requires Sane(before) && Sane(after) && Coarser(before, after) && Extends(anchors, longer)
    requires AnchoredAt(before, names, anchors, keyOf, x)
    ensures AnchoredAt(after, names, longer, keyOf, x)
  {
  }

  /** Two anchored items with one key are in one set. */
  lemma {:induction false} SameKeySameSet(parent: Parents, names: Names, done: set<nat>, anchors: Anchors, keyOf: string -> Option<string>,
                                          a: nat, b: nat)
    requires Sane(parent) && Anchored(parent, names, done, anchors, keyOf)
    requires a in done && b in done && a in names && b in names && keyOf(names[a]).Some? && keyOf(names[a]) == keyOf(names[b])
    ensures Equated(parent, a, b)
  {
    assert AnchoredAt(parent, names, anchors, keyOf, a) && AnchoredAt(parent, names, anchors, keyOf, b);
  }

  /** Items with one key belong to one class. */
  ghost predicate Respects(names: Names, keyOf: string -> Option<string>, cls: nat -> nat) {
    forall a, b :: a in names && b in names && keyOf(names[a]).Some? && keyOf(names[a]) == keyOf(names[b]) ==> cls(a) == cls(b)
  }

  /** Joins an item with the first one that has its key. */
  method Attach(dsu: DisjointSet, names: Names, id: nat, key: Option<string>, anchors0: Anchors, ghost done: set<nat>,
                ghost keyOf: string -> Option<string>, ghost cls: nat -> nat) returns (anchors: Anchors)
    requires dsu.Valid() && id in dsu.parent && id in names && key == keyOf(names[id])
    requires Anchored(dsu.parent, names, done, anchors0, keyOf)
    requires WithinClasses(dsu.parent, cls) && Respects(names, keyOf, cls)
    modifies dsu
    ensures dsu.Valid() && dsu.parent.Keys == old(dsu.parent).Keys && Coarser(old(dsu.parent), dsu.parent)
    ensures Anchored(dsu.parent, names, done + {id}, anchors, keyOf)
    ensures WithinClasses(dsu.parent, cls)
  {
    anchors := anchors0;
    if key.None? {
      assert AnchoredAt(dsu.parent, names, anchors, keyOf, id);
      return;
    }
    var first := id;
    if key.value in anchors {
      first := anchors[key.value];
      assert IsAnchor(dsu.parent, names, first, keyOf, key.value);
    } else {
      anchors := anchors[key.value := id];
    }
    ghost var before := dsu.parent;
    dsu.Union(id, first);
    JoinedIsCoarser(before, dsu.parent, id, first);
    JoinedWithinClasses(before, dsu.parent, id, first, cls);
    AnchoredWith(before, dsu.parent, names, done, anchors0, anchors, keyOf, id, key.value);
  }

  lemma {:induction false} AnchoredWith(before: Parents, after: Parents, names: Names, done: set<nat>, anchors0: Anchors, anchors: Anchors,
                                        keyOf: string -> Option<string>, id: nat, key: string)
    requires Sane(before) && Sane(after) && after.Keys == before.Keys && Coarser(before, after)
    requires id in before && id in names && keyOf(names[id]) == Some(key)
    requires Anchored(before, names, done, anchors0, keyOf) && Extends(anchors0, anchors)
    requires key in anchors && Equated(after, id, anchors[key])
    requires forall k :: k in anchors ==> k in anchors0 || (k == key && anchors[k] == id)
    ensures Anchored(after, names, done + {id}, anchors, keyOf)
  {
    forall x | x in done ensures AnchoredAt(after, names, anchors, keyOf, x) {
      AnchoredAtStays(before, after, names, anchors0, anchors, keyOf, x);
    }
    assert AnchoredAt(after, names, anchors, keyOf, id);
    forall k | k in anchors ensures IsAnchor(after, names, anchors[k], keyOf, k) {
      assert IsAnchor(before, names, id, keyOf, key);
      assert k in anchors0 ==> IsAnchor(before, names, anchors0[k], keyOf, k);
      IsAnchorStays(before, after, names, anchors[k], keyOf, k);
    }
  }

  // ----- Groups ---------------------------------------------------------------------------------

  function LemmaKey(d: Dictionary): string -> Option<string> {
    n => Some(d.reduced(n))
  }

  /** Classes that no link crosses. */
  ghost predicate IsClassing(d: Dictionary, names: Names, cls: nat -> nat) {
    forall a, b :: a in names && b in names && AreLinked(d, names, a, b) ==> cls(a) == cls(b)
  }

  /** Linked ingredients are in one set, and no set crosses the classes. */
  ghost predicate GroupsWithin(d: Dictionary, names: Names, parent: Parents, cls: nat -> nat)
    requires Sane(parent)
  {
    && parent.Keys == names.Keys
    && (forall a, b :: a in names && b in names && AreLinked(d, names, a, b) ==> Equated(parent, a, b))
    && WithinClasses(parent, cls)
  }

  // ----- Chains of links ------------------------------------------------------------------------

  ghost predicate IsChain(d: Dictionary, names: Names, chain: seq<nat>) {
    && chain != [] && (forall i | 0 <= i < |chain| :: chain[i] in names)
    && (forall i | 0 < i < |chain| :: AreLinked(d, names, chain[i - 1], chain[i]))
  }

  ghost predicate Joins(d: Dictionary, names: Names, chain: seq<nat>, a: nat, b: nat) {
    IsChain(d, names, chain) && chain[0] == a && chain[|chain| - 1] == b
  }

  /** A chain of links leads from one ingredient to the other. */
  ghost predicate Connected(d: Dictionary, names: Names, a: nat, b: nat) {
    exists chain :: Joins(d, names, chain, a, b)
  }

  /** The groups: two ingredients are in one exactly when a chain of links leads from one to the other. */
  ghost predicate Groups(d: Dictionary, names: Names, parent: Parents)
    requires Sane(parent)
  {
    parent.Keys == names.Keys && forall a, b :: Equated(parent, a, b) <==> Connected(d, names, a, b)
  }

  lemma {:induction false} SelfConnected(d: Dictionary, names: Names, a: nat)
    requires a in names
    ensures Connected(d, names, a, a)
  {
    assert Joins(d, names, [a], a, a);
  }

  lemma {:induction false} LinkExtends(d: Dictionary, names: Names, a: nat, b: nat, c: nat)
    requires Connected(d, names, a, b) && b in names && c in names && AreLinked(d, names, b, c)
    ensures Connected(d, names, a, c)
  {
    var chain :| Joins(d, names, chain, a, b);
    assert Joins(d, names, chain + [c], a, c);
  }

  /** What every link keeps, a chain of links keeps. */
  lemma {:induction false} ChainInClass(d: Dictionary, names: Names, chain: seq<nat>, cls: nat -> nat)
    requires IsChain(d, names, chain) && IsClassing(d, names, cls)
    ensures cls(chain[0]) == cls(chain[|chain| - 1])
  {
    if |chain| > 1 {
      var most := chain[..|chain| - 1];
      assert IsChain(d, names, most);
      ChainInClass(d, names, most, cls);
    }
  }

  lemma {:induction false} ConnectedInClass(d: Dictionary, names: Names, a: nat, b: nat, cls: nat -> nat)
    requires Connected(d, names, a, b) && IsClassing(d, names, cls)
    ensures a in names && b in names && cls(a) == cls(b)
  {
    var chain :| Joins(d, names, chain, a, b);
    ChainInClass(d, names, chain, cls);
  }

  /** What a chain of links reaches. */
  ghost function Reached(d: Dictionary, names: Names, a: nat): set<nat> {
    set b | b in names && Connected(d, names, a, b)
  }

  /** Linked ingredients reach the same ones. */
  lemma {:induction false} LinkReaches(d: Dictionary, names: Names, a: nat, b: nat)
    requires a in names && b in names && AreLinked(d, names, a, b)
    ensures Reached(d, names, a) <= Reached(d, names, b)
  {
    forall c | c in Reached(d, names, a) ensures c in Reached(d, names, b) {
      var chain :| Joins(d, names, chain, a, c);
      assert Joins(d, names, [b] + chain, b, c);
    }
  }

  /** Each ingredient is labelled by the least one it is connected to: the finest classes that no link crosses. */
  ghost function Labels(d: Dictionary, names: Names): nat -> nat {
    a => var reached := Reached(d, names, a); if reached == {} then 0 else Min(reached)
  }

  lemma {:induction false} LabelsAreClassing(d: Dictionary, names: Names)
    ensures IsClassing(d, names, Labels(d, names))
  {
    forall a, b | a in names && b in names && AreLinked(d, names, a, b) ensures Labels(d, names)(a) == Labels(d, names)(b) {
      LinkReaches(d, names, a, b);
      LinkReaches(d, names, b, a);
      assert Reached(d, names, a) == Reached(d, names, b);
    }
  }

  /** Whatever has the same label is connected. */
  lemma {:induction false} SameLabelConnected(d: Dictionary, names: Names, a: nat, b: nat)
    requires a in names && b in names && Labels(d, names)(a) == Labels(d, names)(b)
    ensures Connected(d, names, a, b)
  {
    SelfConnected(d, names, a);
    SelfConnected(d, names, b);
    assert a in Reached(d, names, a) && b in Reached(d, names, b);
    var m := Min(Reached(d, names, a));
    assert m in Reached(d, names, a) && m in Reached(d, names, b);
    Back(d, names, b, m);
    Through(d, names, a, m, b);
  }

  lemma {:induction false} Back(d: Dictionary, names: Names, a: nat, b: nat)
    requires Connected(d, names, a, b)
    ensures Connected(d, names, b, a)
  {
    var chain :| Joins(d, names, chain, a, b);
    var back := seq(|chain|, i requires 0 <= i < |chain| => chain[|chain| - 1 - i]);
    assert Joins(d, names, back, b, a);
  }

  lemma {:induction false} Through(d: Dictionary, names: Names, a: nat, b: nat, c: nat)
    requires Connected(d, names, a, b) && Connected(d, names, b, c)
    ensures Connected(d, names, a, c)
  {
    var first :| Joins(d, names, first, a, b);
    var second :| Joins(d, names, second, b, c);
    assert Joins(d, names, first + second, a, c) by {
      assert AreLinked(d, names, b, b);
    }
  }

  /** Sets that keep linked ingredients together and cross no label are the groups. */
  lemma {:induction false} FinestAreGroups(d: Dictionary, names: Names, parent: Parents)
    requires Sane(parent) && GroupsWithin(d, names, parent, Labels(d, names))
    ensures Groups(d, names, parent)
  {
    forall a, b ensures Equated(parent, a, b) <==> Connected(d, names, a, b) {
      if Connected(d, names, a, b) {
        ConnectedEquated(d, names, parent, a, b);
      }
      if Equated(parent, a, b) {
        assert a in names.Keys && b in names.Keys;
        SameLabelConnected(d, names, a, b);
      }
    }
  }

  lemma {:induction false} ConnectedEquated(d: Dictionary, names: Names, parent: Parents, a: nat, b: nat)
    requires Sane(parent) && GroupsWithin(d, names, parent, Labels(d, names)) && Connected(d, names, a, b)
    ensures Equated(parent, a, b)
  {
    var roots := (x: nat) => if x in parent then Root(parent, x) else 0;
    assert IsClassing(d, names, roots);
    ConnectedInClass(d, names, a, b, roots);
    assert a in parent.Keys && b in parent.Keys;
  }

  /** The state of the grouping after the ingredients `done`. */
  ghost predicate Grouped(d: Dictionary, names: Names, parent: Parents, done: set<nat>, lemmas: Anchors, entries: Anchors, cls: nat -> nat) {
    && Sane(parent) && parent.Keys == done
    && Anchored(parent, names, done, lemmas, LemmaKey(d)) && Anchored(parent, names, done, entries, d.entry)
    && WithinClasses(parent, cls)
  }

  method Group(d: Dictionary, names: Names, ghost cls: nat -> nat) returns (dsu: DisjointSet)
    requires IsClassing(d, names, cls)
    ensures fresh(dsu) && dsu.Valid() && GroupsWithin(d, names, dsu.parent, cls)
  {
    dsu := new DisjointSet();
    var lemmas: Anchors, entries: Anchors := map[], map[];
    var todo := names.Keys;
    ghost var done: set<nat> := {};
    while todo != {}
      invariant fresh(dsu) && todo <= names.Keys && todo !! done
      invariant forall x :: x in names <==> x in todo || x in done
      invariant Grouped(d, names, dsu.parent, done, lemmas, entries, cls)
    {
      var id :| id in todo;
      lemmas, entries := GroupOne(d, dsu, names, id, lemmas, entries, done, cls);
      todo, done := todo - {id}, done + {id};
    }
    GroupsMade(d, names, dsu.parent, done, lemmas, entries, cls);
  }

  lemma {:induction false} GroupsMade(d: Dictionary, names: Names, parent: Parents, done: set<nat>, lemmas: Anchors, entries: Anchors,
                                      cls: nat -> nat)
    requires Grouped(d, names, parent, done, lemmas, entries, cls) && forall x :: x in names <==> x in done
    ensures GroupsWithin(d, names, parent, cls)
  {
    LinkedAreEquated(d, names, parent, done, lemmas, entries);
    assert done == names.Keys;
  }

  lemma {:induction false} LinkedAreEquated(d: Dictionary, names: Names, parent: Parents, done: set<nat>, lemmas: Anchors, entries: Anchors)
    requires Sane(parent) && forall x :: x in names ==> x in done
    requires Anchored(parent, names, done, lemmas, LemmaKey(d)) && Anchored(parent, names, done, entries, d.entry)
    ensures forall a, b :: a in names && b in names && AreLinked(d, names, a, b) ==> Equated(parent, a, b)
  {
    forall a, b | a in names && b in names && AreLinked(d, names, a, b) ensures Equated(parent, a, b) {
      if d.reduced(names[a]) == d.reduced(names[b]) {
        SameKeySameSet(parent, names, done, lemmas, LemmaKey(d), a, b);
      } else {
        SameKeySameSet(parent, names, done, entries, d.entry, a, b);
      }
    }
  }

  /** One ingredient joins the group of its lemma and the group of its entry. */
  method GroupOne(d: Dictionary, dsu: DisjointSet, names: Names, id: nat, lemmas0: Anchors, entries0: Anchors,
                  ghost done: set<nat>, ghost cls: nat -> nat) returns (lemmas: Anchors, entries: Anchors)
    requires id in names && id !in done && IsClassing(d, names, cls)
    requires Grouped(d, names, dsu.parent, done, lemmas0, entries0, cls)
    modifies dsu
    ensures Grouped(d, names, dsu.parent, done + {id}, lemmas, entries, cls)
  {
    ghost var before := dsu.parent;
    dsu.Add(id);
    AddedStays(d, before, dsu.parent, names, id, done, lemmas0, entries0, cls);
    ClassesRespected(d, names, cls);
    ghost var added := dsu.parent;
    lemmas := Attach(dsu, names, id, Some(d.reduced(names[id])), lemmas0, done, LemmaKey(d), cls);
    AnchoredStays(added, dsu.parent, names, done, entries0, d.entry);
    ghost var attached := dsu.parent;
    entries := Attach(dsu, names, id, d.entry(names[id]), entries0, done, d.entry, cls);
    AnchoredStays(attached, dsu.parent, names, done + {id}, lemmas, LemmaKey(d));
  }

  lemma {:induction false} AddedStays(d: Dictionary, before: Parents, after: Parents, names: Names, id: nat, done: set<nat>,
                                      lemmas: Anchors, entries: Anchors, cls: nat -> nat)
    requires Sane(before) && Sane(after) && id !in before && after.Keys == before.Keys + {id}
    requires forall x {:trigger Root(after, x)} :: x in before ==> Root(after, x) == Root(before, x)
    requires Root(after, id) == id && Grouped(d, names, before, done, lemmas, entries, cls)
    ensures Anchored(after, names, done, lemmas, LemmaKey(d)) && Anchored(after, names, done, entries, d.entry)
    ensures WithinClasses(after, cls)
  {
    AddedWithinClasses(before, after, id, cls);
    AnchoredStays(before, after, names, done, lemmas, LemmaKey(d));
    AnchoredStays(before, after, names, done, entries, d.entry);
  }

  lemma {:induction false} ClassesRespected(d: Dictionary, names: Names, cls: nat -> nat)
    requires IsClassing(d, names, cls)
    ensures Respects(names, LemmaKey(d), cls) && Respects(names, d.entry, cls)
  {
    forall a, b | a in names && b in names && LemmaKey(d)(names[a]) == LemmaKey(d)(names[b]) ensures cls(a) == cls(b) {
      assert AreLinked(d, names, a, b);
    }
    forall a, b | a in names && b in names && d.entry(names[a]).Some? && d.entry(names[a]) == d.entry(names[b]) ensures cls(a) == cls(b) {
      assert AreLinked(d, names, a, b);
    }
  }

  lemma {:induction false} AddedWithinClasses(before: Parents, after: Parents, id: nat, cls: nat -> nat)
    requires Sane(before) && Sane(after) && id !in before && after.Keys == before.Keys + {id}
    requires forall x {:trigger Root(after, x)} :: x in before ==> Root(after, x) == Root(before, x)
    requires Root(after, id) == id && WithinClasses(before, cls)
    ensures WithinClasses(after, cls) && Coarser(before, after)
  {
    AddedIsCoarser(before, after, id);
    forall a, b | Equated(after, a, b) ensures cls(a) == cls(b) {
      if a != id {
        AloneIn(before, after, id, a, b);
        assert Equated(before, a, b);
      } else if b != id {
        AloneIn(before, after, id, b, a);
      }
    }
  }

  lemma {:induction false} AddedIsCoarser(before: Parents, after: Parents, id: nat)
    requires Sane(before) && Sane(after) && after.Keys == before.Keys + {id}
    requires forall x {:trigger Root(after, x)} :: x in before ==> Root(after, x) == Root(before, x)
    ensures Coarser(before, after)
  {
    forall a, b | Equated(before, a, b) ensures Equated(after, a, b) {
      assert a in after.Keys && b in after.Keys;
    }
  }

  /** A new item is in no set but its own. */
  lemma {:induction false} AloneIn(before: Parents, after: Parents, id: nat, a: nat, b: nat)
    requires Sane(before) && Sane(after) && id !in before && after.Keys == before.Keys + {id}
    requires forall x {:trigger Root(after, x)} :: x in before ==> Root(after, x) == Root(before, x)
    requires Root(after, id) == id && Equated(after, a, b) && a != id
    ensures a in before && b in before
  {
    assert a in after.Keys && b in after.Keys;
    assert Root(before, a) in before;
  }

  // ----- Survivors ------------------------------------------------------------------------------

  /** A dictionary name comes first, then an ingredient with an active mapping, then a canonical name, then the smaller id. */
  predicate Outranks(d: Dictionary, names: Names, active: set<nat>, x: nat, y: nat)
    requires x in names && y in names
  {
    var ax, ay := names[x] in d.keys, names[y] in d.keys;
    var bx, by' := x in active, y in active;
    var cx, cy := names[x] == d.slug(names[x]), names[y] == d.slug(names[y]);
    if ax != ay then ax else if bx != by' then bx else if cx != cy then cx else x < y
  }

  /** If the other has an advantage, the survivor has it too, or one that counts for more. */
  ghost predicate Prefers(d: Dictionary, names: Names, active: set<nat>, s: nat, y: nat) {
    s in names && y in names ==>
      && (names[y] in d.keys ==> names[s] in d.keys)
      && (y in active ==> s in active || (names[s] in d.keys && names[y] !in d.keys))
      && (names[y] == d.slug(names[y]) ==>
            || names[s] == d.slug(names[s])
            || (names[s] in d.keys && names[y] !in d.keys)
            || (s in active && y !in active))
      && (y < s ==>
            || (names[s] in d.keys && names[y] !in d.keys)
            || (s in active && y !in active)
            || (names[s] == d.slug(names[s]) && names[y] != d.slug(names[y])))
  }

  ghost predicate IsBest(d: Dictionary, names: Names, active: set<nat>, members: set<nat>, s: nat) {
    s in members && s in names && forall y :: y in members && y in names && y != s ==> Outranks(d, names, active, s, y)
  }

  /** The survivor of its group. */
  ghost predicate IsSurvivor(d: Dictionary, names: Names, active: set<nat>, parent: Parents, s: nat)
    requires Sane(parent)
  {
    s in names && forall y :: y in names && Equated(parent, s, y) && y != s ==> Outranks(d, names, active, s, y)
  }

  method PickSurvivor(d: Dictionary, names: Names, active: set<nat>, members: set<nat>) returns (s: nat)
    requires members != {} && forall x :: x in members ==> x in names
    ensures IsBest(d, names, active, members, s)
    ensures forall y :: y in members ==> Prefers(d, names, active, s, y)
  {
    s :| s in members;
    var todo := members - {s};
    while todo != {}
      invariant todo <= members && s in members && s !in todo
      invariant forall y :: y in members && y !in todo && y != s ==> Outranks(d, names, active, s, y)
    {
      var x :| x in todo;
      if Outranks(d, names, active, x, s) {
        s := x;
      }
      todo := todo - {x};
    }
  }

  // ----- The members of each group --------------------------------------------------------------

  type Members = map<nat, set<nat>>

  /** Each of the ingredients `done` is filed under its root. */
  ghost predicate Files(parent: Parents, done: set<nat>, groups: Members)
    requires Sane(parent)
  {
    && (forall x :: x in done && x in parent ==> Root(parent, x) in groups && x in groups[Root(parent, x)])
    && (forall r, x :: r in groups && x in groups[r] ==> x in done && x in parent && Root(parent, x) == r)
    && (forall r :: r in groups ==> groups[r] != {})
  }

  lemma {:induction false} FilesStep(parent: Parents, done: set<nat>, groups: Members, id: nat)
    requires Sane(parent) && Files(parent, done, groups) && id in parent
    ensures var r := Root(parent, id);
      Files(parent, done + {id}, groups[r := (if r in groups then groups[r] else {}) + {id}])
  {
  }

  lemma {:induction false} FilesStay(before: Parents, after: Parents, done: set<nat>, groups: Members)
    requires SameRoots(before, after) && Files(before, done, groups)
    ensures Files(after, done, groups)
  {
    forall x | x in done && x in after ensures Root(after, x) in groups && x in groups[Root(after, x)] {
      assert x in before.Keys;
    }
    forall r, x | r in groups && x in groups[r] ensures x in after && Root(after, x) == r {
      assert x in before.Keys;
    }
  }

  method Assemble(dsu: DisjointSet, names: Names) returns (groups: Members)
    requires dsu.Valid() && dsu.parent.Keys == names.Keys
    modifies dsu
    ensures SameRoots(old(dsu.parent), dsu.parent) && Files(dsu.parent, names.Keys, groups)
  {
    groups := map[];
    var todo := names.Keys;
    ghost var done: set<nat> := {};
    while todo != {}
      invariant SameRoots(old(dsu.parent), dsu.parent) && todo <= names.Keys
      invariant forall x :: x in names <==> x in todo || x in done
      invariant Files(dsu.parent, done, groups)
    {
      var id :| id in todo;
      ghost var before := dsu.parent;
      assert id in old(dsu.parent).Keys;
      var root := dsu.Find(id);
      SameRootsTwice(old(dsu.parent), before, dsu.parent);
      FilesStay(before, dsu.parent, done, groups);
      FilesStep(dsu.parent, done, groups, id);
      groups := groups[root := (if root in groups then groups[root] else {}) + {id}];
      todo, done := todo - {id}, done + {id};
    }
    assert done == names.Keys;
  }

  // ----- The plan -------------------------------------------------------------------------------

  /** The fold of one ingredient into the survivor of its group. */
  ghost predicate IsFold(d: Dictionary, names: Names, active: set<nat>, parent: Parents, m: Merge)
    requires Sane(parent)
  {
    && m.oldId in names && m.newId in names && m.oldName == names[m.oldId] && m.newName == names[m.newId]
    && m.oldId != m.newId && Equated(parent, m.oldId, m.newId) && IsSurvivor(d, names, active, parent, m.newId)
  }

  /** The alias that a fold leaves behind, if its name says anything new. */
  function AliasOf(d: Dictionary, m: Merge): Option<Alias> {
    if d.normal(m.oldName) == "" || d.normal(m.oldName) == d.normal(m.newName) then None
    else Some(Alias(d.normal(m.oldName), m.newId))
  }

  predicate Disappears(merges: seq<Merge>, id: nat) {
    exists i | 0 <= i < |merges| :: merges[i].oldId == id
  }

  /** The folds are those of the groups in `done`, each ingredient at most once. */
  ghost predicate FoldsOfGroups(d: Dictionary, names: Names, active: set<nat>, parent: Parents, done: set<nat>, merges: seq<Merge>)
    requires Sane(parent)
  {
    && (forall i | 0 <= i < |merges| :: IsFold(d, names, active, parent, merges[i]) && merges[i].oldId in done)
    && (forall i, j | 0 <= i < j < |merges| :: merges[i].oldId != merges[j].oldId)
    && (forall x :: x in done && x in names ==> IsSurvivor(d, names, active, parent, x) || Disappears(merges, x))
  }

  ghost predicate LeftBy(d: Dictionary, merges: seq<Merge>, alias: Alias) {
    exists j | 0 <= j < |merges| :: AliasOf(d, merges[j]) == Some(alias)
  }

  predicate HasText(aliases: seq<Alias>, text: string) {
    exists i | 0 <= i < |aliases| :: aliases[i].text == text
  }

  /** Every alias comes from a fold, every fold leaves its text, and no text is recorded twice. */
  ghost predicate AliasesOf(d: Dictionary, merges: seq<Merge>, aliases: seq<Alias>) {
    && (forall j | 0 <= j < |merges| && AliasOf(d, merges[j]).Some? :: HasText(aliases, AliasOf(d, merges[j]).value.text))
    && (forall i | 0 <= i < |aliases| :: LeftBy(d, merges, aliases[i]))
    && (forall i, j | 0 <= i < j < |aliases| :: aliases[i].text != aliases[j].text)
  }

  lemma {:induction false} SurvivorsDiffer(d: Dictionary, names: Names, active: set<nat>, parent: Parents, x: nat, y: nat)
    requires Sane(parent) && IsSurvivor(d, names, active, parent, x) && IsSurvivor(d, names, active, parent, y) && Equated(parent, x, y)
    ensures x == y
  {
    assert Equated(parent, y, x);
  }

  lemma {:induction false} FoldStep(d: Dictionary, names: Names, active: set<nat>, parent: Parents, done: set<nat>, merges: seq<Merge>,
                                    id: nat, survivor: nat)
    requires Sane(parent) && FoldsOfGroups(d, names, active, parent, done, merges)
    requires id in names && id !in done && IsSurvivor(d, names, active, parent, survivor) && Equated(parent, id, survivor)
    ensures FoldsOfGroups(d, names, active, parent, done + {id},
                          if id == survivor then merges else merges + [Merge(id, survivor, names[id], names[survivor])])
  {
    var m := Merge(id, survivor, names[id], names[survivor]);
    var after := if id == survivor then merges else merges + [m];
    forall x | x in done + {id} && x in names ensures IsSurvivor(d, names, active, parent, x) || Disappears(after, x) {
      if x == id && id != survivor {
        assert after[|merges|].oldId == id;
      } else if x != id && Disappears(merges, x) {
        var i :| 0 <= i < |merges| && merges[i].oldId == x;
        assert after[i].oldId == x;
      }
    }
  }

  /** The aliases after one more fold: a text that is recorded already is not recorded again. */
  function WithAlias(aliases: seq<Alias>, alias: Option<Alias>): seq<Alias> {
    if alias.Some? && !HasText(aliases, alias.value.text) then aliases + [alias.value] else aliases
  }

  lemma {:induction false} TextsKept(aliases: seq<Alias>, alias: Option<Alias>, text: string)
    ensures HasText(aliases, text) ==> HasText(WithAlias(aliases, alias), text)
    ensures alias.Some? ==> HasText(WithAlias(aliases, alias), alias.value.text)
  {
    var after := WithAlias(aliases, alias);
    if HasText(aliases, text) {
      var i :| 0 <= i < |aliases| && aliases[i].text == text;
      assert after[i].text == text;
    }
    if alias.Some? && !HasText(aliases, alias.value.text) {
      assert after[|aliases|] == alias.value;
    }
  }

  lemma {:induction false} AliasStep(d: Dictionary, merges: seq<Merge>, aliases: seq<Alias>, m: Merge)
    requires AliasesOf(d, merges, aliases)
    ensures AliasesOf(d, merges + [m], WithAlias(aliases, AliasOf(d, m)))
  {
    var after, aliases' := merges + [m], WithAlias(aliases, AliasOf(d, m));
    forall i | 0 <= i < |aliases'| ensures LeftBy(d, after, aliases'[i]) {
      if i < |aliases| {
        assert LeftBy(d, merges, aliases[i]);
        var j :| 0 <= j < |merges| && AliasOf(d, merges[j]) == Some(aliases[i]);
        assert AliasOf(d, after[j]) == Some(aliases[i]);
      } else {
        assert AliasOf(d, after[|merges|]) == Some(aliases'[i]);
      }
    }
    forall j | 0 <= j < |after| && AliasOf(d, after[j]).Some? ensures HasText(aliases', AliasOf(d, after[j]).value.text) {
      TextsKept(aliases, AliasOf(d, m), AliasOf(d, after[j]).value.text);
    }
  }

  /** Folds one member of a group. */
  method FoldMember(d: Dictionary, names: Names, plan0: Plan, id: nat, survivor: nat, ghost active: set<nat>, ghost parent: Parents,
                    ghost done: set<nat>) returns (plan: Plan)
    requires Sane(parent) && FoldsOfGroups(d, names, active, parent, done, plan0.merges) && AliasesOf(d, plan0.merges, plan0.aliases)
    requires id in names && id !in done && IsSurvivor(d, names, active, parent, survivor) && Equated(parent, id, survivor)
    ensures FoldsOfGroups(d, names, active, parent, done + {id}, plan.merges) && AliasesOf(d, plan.merges, plan.aliases)
  {
    plan := plan0;
    FoldStep(d, names, active, parent, done, plan.merges, id, survivor);
    if id == survivor {
      return;
    }
    var m := Merge(id, survivor, names[id], names[survivor]);
    AliasStep(d, plan.merges, plan.aliases, m);
    plan := Plan(plan.merges + [m], WithAlias(plan.aliases, AliasOf(d, m)));
  }

  /** Folds a group into its survivor; a group of one has nothing to fold. */
  method FoldGroup(d: Dictionary, names: Names, active: set<nat>, plan0: Plan, members: set<nat>, ghost parent: Parents,
                   ghost done0: set<nat>) returns (plan: Plan)
    requires Sane(parent) && FoldsOfGroups(d, names, active, parent, done0, plan0.merges) && AliasesOf(d, plan0.merges, plan0.aliases)
    requires members != {} && IsGroup(names, parent, members) && members !! done0
    ensures FoldsOfGroups(d, names, active, parent, done0 + members, plan.merges) && AliasesOf(d, plan.merges, plan.aliases)
  {
    plan := plan0;
    var survivor := PickSurvivor(d, names, active, members);
    BestSurvives(d, names, active, parent, members, survivor);
    var todo := members;
    ghost var done := done0;
    while todo != {}
      invariant todo <= members && todo !! done
      invariant forall x :: x in done0 + members <==> x in done || x in todo
      invariant FoldsOfGroups(d, names, active, parent, done, plan.merges) && AliasesOf(d, plan.merges, plan.aliases)
    {
      var id :| id in todo;
      plan := FoldMember(d, names, plan, id, survivor, active, parent, done);
      todo, done := todo - {id}, done + {id};
    }
    assert done == done0 + members;
  }

  /** All ingredients with one root. */
  ghost predicate IsGroup(names: Names, parent: Parents, members: set<nat>)
    requires Sane(parent)
  {
    && (forall x :: x in members ==> x in names && x in parent)
    && (forall x, y :: x in members && Equated(parent, x, y) && y in names ==> y in members)
    && (forall x, y :: x in members && y in members ==> Equated(parent, x, y))
  }

  lemma {:induction false} BestSurvives(d: Dictionary, names: Names, active: set<nat>, parent: Parents, members: set<nat>, s: nat)
    requires Sane(parent) && IsGroup(names, parent, members) && IsBest(d, names, active, members, s)
    ensures IsSurvivor(d, names, active, parent, s)
    ensures forall x :: x in members ==> Equated(parent, x, s)
  {
  }

  lemma {:induction false} FiledIsGroup(names: Names, parent: Parents, groups: Members, r: nat)
    requires Sane(parent) && parent.Keys == names.Keys && Files(parent, names.Keys, groups) && r in groups
    ensures IsGroup(names, parent, groups[r])
  {
    forall x, y | x in groups[r] && Equated(parent, x, y) && y in names ensures y in groups[r] {
      assert Root(parent, x) == r;
    }
    forall x | x in groups[r] ensures x in names && x in parent {
      assert x in names.Keys;
    }
  }

  /** The plan of a snapshot: its folds are exactly those of its groups. */
  ghost predicate IsPlan(d: Dictionary, names: Names, active: set<nat>, parent: Parents, plan: Plan)
    requires Sane(parent)
  {
    && FoldsOfGroups(d, names, active, parent, names.Keys, plan.merges)
    && AliasesOf(d, plan.merges, plan.aliases)
  }

  /** Every id of the plan is known, each is folded at most once, and no survivor is folded. */
  ghost predicate WellFormed(names: Names, plan: Plan) {
    && (forall i | 0 <= i < |plan.merges| :: plan.merges[i].oldId in names && plan.merges[i].newId in names)
    && (forall i, j | 0 <= i < j < |plan.merges| :: plan.merges[i].oldId != plan.merges[j].oldId)
    && (forall i, j | 0 <= i < |plan.merges| && 0 <= j < |plan.merges| :: plan.merges[i].oldId != plan.merges[j].newId)
    && (forall k | 0 <= k < |plan.aliases| :: plan.aliases[k].ingredientId in names)
    && (forall k, j | 0 <= k < |plan.aliases| && 0 <= j < |plan.merges| :: plan.aliases[k].ingredientId != plan.merges[j].oldId)
  }

  /** `build_consolidation_plan`. */
  method BuildPlan(d: Dictionary, names: Names, active: set<nat>) returns (plan: Plan, ghost parent: Parents)
    ensures Sane(parent) && Groups(d, names, parent) && IsPlan(d, names, active, parent, plan)
    ensures WellFormed(names, plan)
    ensures Unlinked(d, Remaining(names, plan))
  {
    LabelsAreClassing(d, names);
    var dsu := Group(d, names, Labels(d, names));
    FinestAreGroups(d, names, dsu.parent);
    ghost var grouped := dsu.parent;
    var groups := Assemble(dsu, names);
    parent := dsu.parent;
    GroupsKept(d, names, grouped, parent);
    plan := FoldGroups(d, names, active, groups, parent);
    PlanIsWellFormed(d, names, active, parent, plan);
    RemainingUnlinked(d, names, active, parent, plan);
  }

  method FoldGroups(d: Dictionary, names: Names, active: set<nat>, groups: Members, ghost parent: Parents) returns (plan: Plan)
    requires Sane(parent) && parent.Keys == names.Keys && Files(parent, names.Keys, groups)
    ensures IsPlan(d, names, active, parent, plan)
  {
    plan := Plan([], []);
    var todo := groups.Keys;
    ghost var done: set<nat> := {};
    while todo != {}
      invariant todo <= groups.Keys && done <= names.Keys
      invariant forall x :: x in names ==> (x in done <==> Root(parent, x) !in todo)
      invariant FoldsOfGroups(d, names, active, parent, done, plan.merges) && AliasesOf(d, plan.merges, plan.aliases)
    {
      var r :| r in todo;
      FiledIsGroup(names, parent, groups, r);
      GroupNotDone(names, parent, groups, todo, done, r);
      plan := FoldGroup(d, names, active, plan, groups[r], parent, done);
      todo, done := todo - {r}, done + groups[r];
    }
    assert done == names.Keys;
  }

  lemma {:induction false} GroupNotDone(names: Names, parent: Parents, groups: Members, todo: set<nat>, done: set<nat>, r: nat)
    requires Sane(parent) && parent.Keys == names.Keys && Files(parent, names.Keys, groups) && r in groups && r in todo
    requires forall x :: x in names ==> (x in done <==> Root(parent, x) !in todo)
    ensures groups[r] !! done && groups[r] <= names.Keys
    ensures forall x :: x in names ==> (x in done + groups[r] <==> Root(parent, x) !in todo - {r})
  {
  }

  lemma {:induction false} GroupsKept(d: Dictionary, names: Names, before: Parents, after: Parents)
    requires SameRoots(before, after) && Groups(d, names, before)
    ensures Groups(d, names, after)
  {
    forall a, b ensures Equated(before, a, b) <==> Equated(after, a, b) {
      assert a in before.Keys <==> a in after.Keys;
      assert b in before.Keys <==> b in after.Keys;
    }
  }

  // ----- What the plan guarantees ---------------------------------------------------------------

  function NamesOf(ingredients: Ingredients): Names {
    map id | id in ingredients :: ingredients[id].canonicalName
  }

  lemma {:induction false} PlanIsWellFormed(d: Dictionary, names: Names, active: set<nat>, parent: Parents, plan: Plan)
    requires Sane(parent) && IsPlan(d, names, active, parent, plan)
    ensures WellFormed(names, plan)
  {
    forall i, j | 0 <= i < |plan.merges| && 0 <= j < |plan.merges| ensures plan.merges[i].oldId != plan.merges[j].newId {
      NeverFolded(d, names, active, parent, plan.merges[i], plan.merges[j]);
    }
    forall k | 0 <= k < |plan.aliases|
      ensures plan.aliases[k].ingredientId in names
      ensures forall i | 0 <= i < |plan.merges| :: plan.aliases[k].ingredientId != plan.merges[i].oldId
    {
      assert LeftBy(d, plan.merges, plan.aliases[k]);
      var j :| 0 <= j < |plan.merges| && AliasOf(d, plan.merges[j]) == Some(plan.aliases[k]);
      assert plan.aliases[k].ingredientId == plan.merges[j].newId;
      assert IsFold(d, names, active, parent, plan.merges[j]);
    }
  }

  /** The aliases are the normalised names of the folded ingredients that say anything the survivor's does not. */
  lemma {:induction false} AliasesAreOldNames(d: Dictionary, merges: seq<Merge>, aliases: seq<Alias>)
    requires AliasesOf(d, merges, aliases)
    ensures forall alias | alias in aliases :: exists j | 0 <= j < |merges| ::
      && alias.text == d.normal(merges[j].oldName) != "" && alias.text != d.normal(merges[j].newName)
      && alias.ingredientId == merges[j].newId
    ensures forall j | 0 <= j < |merges| && d.normal(merges[j].oldName) != "" && d.normal(merges[j].oldName) != d.normal(merges[j].newName) ::
      exists i | 0 <= i < |aliases| :: aliases[i].text == d.normal(merges[j].oldName)
  {
    forall alias | alias in aliases
      ensures exists j | 0 <= j < |merges| ::
        && alias.text == d.normal(merges[j].oldName) != "" && alias.text != d.normal(merges[j].newName)
        && alias.ingredientId == merges[j].newId
    {
      assert LeftBy(d, merges, alias);
      var j :| 0 <= j < |merges| && AliasOf(d, merges[j]) == Some(alias);
    }
    forall j | 0 <= j < |merges| && d.normal(merges[j].oldName) != "" && d.normal(merges[j].oldName) != d.normal(merges[j].newName)
      ensures exists i | 0 <= i < |aliases| :: aliases[i].text == d.normal(merges[j].oldName)
    {
      assert HasText(aliases, AliasOf(d, merges[j]).value.text);
    }
  }

  /** A plan of the ingredients meets the conditions under which the migration is reversible. */
  lemma {:induction false} PlanIsSound(ingredients: Ingredients, plan: Plan)
    requires WellFormed(NamesOf(ingredients), plan)
    ensures Sound(plan, ingredients)
  {
    forall i | 0 <= i < |plan.merges| ensures plan.merges[i].oldId in ingredients && plan.merges[i].newId in ingredients {
      assert plan.merges[i].oldId in NamesOf(ingredients) && plan.merges[i].newId in NamesOf(ingredients);
    }
    forall k | 0 <= k < |plan.aliases| ensures plan.aliases[k].ingredientId in ingredients {
      assert plan.aliases[k].ingredientId in NamesOf(ingredients);
    }
  }

  lemma {:induction false} NeverFolded(d: Dictionary, names: Names, active: set<nat>, parent: Parents, m: Merge, n: Merge)
    requires Sane(parent) && IsFold(d, names, active, parent, m) && IsFold(d, names, active, parent, n)
    ensures m.oldId != n.newId
  {
    if m.oldId == n.newId {
      SurvivorsDiffer(d, names, active, parent, n.newId, m.newId);
    }
  }

  /** What is left after the folds. */
  function Remaining(names: Names, plan: Plan): Names {
    map id | id in names && !Disappears(plan.merges, id) :: names[id]
  }

  /** No two ingredients are linked. */
  ghost predicate Unlinked(d: Dictionary, names: Names) {
    forall a, b :: a in names && b in names && AreLinked(d, names, a, b) ==> a == b
  }

  /** Linked ingredients that remain are one and the same. */
  lemma {:induction false} RemainingUnlinked(d: Dictionary, names: Names, active: set<nat>, parent: Parents, plan: Plan)
    requires Sane(parent) && Groups(d, names, parent) && IsPlan(d, names, active, parent, plan)
    ensures Unlinked(d, Remaining(names, plan))
  {
    var left := Remaining(names, plan);
    forall a, b | a in left && b in left && AreLinked(d, left, a, b) ensures a == b {
      SelfConnected(d, names, a);
      LinkExtends(d, names, a, a, b);
      assert Equated(parent, a, b);
      SurvivorsDiffer(d, names, active, parent, a, b);
    }
  }

  /** A plan of ingredients among which no two are linked folds nothing. */
  lemma {:induction false} NothingToFold(d: Dictionary, names: Names, active: set<nat>, parent: Parents, plan: Plan)
    requires Sane(parent) && Groups(d, names, parent) && IsPlan(d, names, active, parent, plan)
    requires Unlinked(d, names)
    ensures plan.merges == [] && plan.aliases == []
  {
    if plan.merges != [] {
      var m := plan.merges[0];
      assert IsFold(d, names, active, parent, m);
      assert Connected(d, names, m.oldId, m.newId);
      ConnectedInClass(d, names, m.oldId, m.newId, x => x);
    }
    assert plan.aliases != [] ==> LeftBy(d, plan.merges, plan.aliases[0]);
  }

  /** The plan is one of this snapshot. */
  ghost predicate PlanOf(d: Dictionary, names: Names, active: set<nat>, plan: Plan) {
    exists parent :: Sane(parent) && Groups(d, names, parent) && IsPlan(d, names, active, parent, plan)
  }

  /** Planning again after the folds, whatever the mappings are by then, gives an empty plan. */
  method PlanAgain(d: Dictionary, names: Names, active: set<nat>, later: set<nat>) returns (first: Plan, second: Plan)
    ensures PlanOf(d, names, active, first) && PlanOf(d, Remaining(names, first), later, second)
    ensures second.merges == [] && second.aliases == []
  {
    ghost var parent, parent';
    first, parent := BuildPlan(d, names, active);
    var left := Remaining(names, first);
    second, parent' := BuildPlan(d, left, later);
    NothingToFold(d, left, later, parent', second);
  }
}
