/** From a canonical ingredient name to a product of the catalogue, possibly through a substitute. */
module Matching {
  import opened Wrappers
  import opened Contracts

  type ByName = map<string, Product>
  type Groups = map<string, seq<string>>

  /** The first product of the catalogue with the name. */
  function FirstNamed(catalog: seq<Product>, name: string): Option<Product> {
    if catalog == [] then None
    else if catalog[0].name == name then Some(catalog[0])
    else FirstNamed(catalog[1..], name)
  }

  lemma {:induction false} FirstNamedAppend(catalog: seq<Product>, product: Product, name: string)
    ensures FirstNamed(catalog + [product], name) ==
      if FirstNamed(catalog, name).Some? then FirstNamed(catalog, name)
      else if product.name == name then Some(product) else None
  {
    if catalog != [] && catalog[0].name != name {
      assert (catalog + [product])[1..] == catalog[1..] + [product];
      FirstNamedAppend(catalog[1..], product, name);
    }
  }

  lemma {:induction false} FirstNamedIn(catalog: seq<Product>, name: string)
    ensures FirstNamed(catalog, name).Some? ==>
      FirstNamed(catalog, name).value in catalog && FirstNamed(catalog, name).value.name == name
  {
    if catalog != [] && catalog[0].name != name {
      FirstNamedIn(catalog[1..], name);
    }
  }

  ghost predicate Indexes(byName: ByName, catalog: seq<Product>) {
    forall name: string :: FirstNamed(catalog, name) == if name in byName then Some(byName[name]) else None
  }

  /** The index of the matcher: the first product of each name wins. */
  method IndexCatalog(catalog: seq<Product>) returns (byName: ByName)
    ensures Indexes(byName, catalog)
  {
    byName := map[];
    for i := 0 to |catalog|
      invariant Indexes(byName, catalog[..i])
    {
      assert catalog[..i + 1] == catalog[..i] + [catalog[i]];
      forall name: string
        ensures FirstNamed(catalog[..i + 1], name) ==
          if FirstNamed(catalog[..i], name).Some? then FirstNamed(catalog[..i], name)
          else if catalog[i].name == name then Some(catalog[i]) else None
      {
        FirstNamedAppend(catalog[..i], catalog[i], name);
      }
      if catalog[i].name !in byName {
        byName := byName[catalog[i].name := catalog[i]];
      }
    }
    assert catalog[..|catalog|] == catalog;
  }

  /** The first name of the list that has a product. */
  function FirstAvailable(byName: ByName, names: seq<string>): Option<Product> {
    if names == [] then None
    else if names[0] in byName then Some(byName[names[0]])
    else FirstAvailable(byName, names[1..])
  }

  function Match(byName: ByName, groups: Groups, name: string, group: Option<string>): Option<Product> {
    if name in byName then Some(byName[name])
    else if group.Some? && group.value in groups then FirstAvailable(byName, groups[group.value])
    else None
  }

  method MatchIngredient(byName: ByName, groups: Groups, ingredient: RecipeIngredient) returns (product: Option<Product>)
    ensures product == Match(byName, groups, ingredient.name, ingredient.substitutionGroup)
  {
    if ingredient.name in byName {
      return Some(byName[ingredient.name]);
    }
    if ingredient.substitutionGroup.Some? && ingredient.substitutionGroup.value in groups {
      var names := groups[ingredient.substitutionGroup.value];
      for i := 0 to |names|
        invariant FirstAvailable(byName, names) == FirstAvailable(byName, names[i..])
      {
        if names[i] in byName {
          return Some(byName[names[i]]);
        }
      }
    }
    return None;
  }

  // ----- Substitution groups --------------------------------------------------------------------

  /** Files an ingredient under its group, once. */
  function Join(groups: Groups, ingredient: RecipeIngredient): Groups {
    if ingredient.substitutionGroup.None? || ingredient.substitutionGroup.value == "" then groups
    else
      var group := ingredient.substitutionGroup.value;
      var names := if group in groups then groups[group] else [];
      groups[group := if ingredient.name in names then names else names + [ingredient.name]]
  }

  function GroupsIn(groups: Groups, ingredients: seq<RecipeIngredient>): Groups {
    if ingredients == [] then groups
    else Join(GroupsIn(groups, ingredients[..|ingredients| - 1]), ingredients[|ingredients| - 1])
  }

  function GroupsOf(candidates: seq<Recipe>): Groups {
    if candidates == [] then map[]
    else GroupsIn(GroupsOf(candidates[..|candidates| - 1]), candidates[|candidates| - 1].ingredients)
  }

  /** The name is filed under the group. */
  predicate Filed(groups: Groups, group: string, name: string) {
    group in groups && name in groups[group]
  }

  lemma {:induction false} FiledIn(groups: Groups, ingredients: seq<RecipeIngredient>, group: string, name: string)
    ensures Filed(GroupsIn(groups, ingredients), group, name) <==>
      || Filed(groups, group, name)
      || exists i | 0 <= i < |ingredients| ::
           group != "" && ingredients[i].substitutionGroup == Some(group) && ingredients[i].name == name
  {
    if ingredients != [] {
      FiledIn(groups, ingredients[..|ingredients| - 1], group, name);
    }
  }

  /** A substitution group holds exactly the ingredients that some candidate calls for as members of it. */
  lemma {:induction false} GroupsExactly(candidates: seq<Recipe>, group: string, name: string)
    ensures Filed(GroupsOf(candidates), group, name) <==>
      exists r, ingredient | r in candidates && ingredient in r.ingredients ::
        group != "" && ingredient.substitutionGroup == Some(group) && ingredient.name == name
  {
    if candidates != [] {
      var rest, last := candidates[..|candidates| - 1], candidates[|candidates| - 1];
      GroupsExactly(rest, group, name);
      FiledIn(GroupsOf(rest), last.ingredients, group, name);
      assert candidates == rest + [last];
    }
  }
}
