/**
  The hard safety gates of the planner: allergens and dietary restrictions.  Normalisation, aliases and
  restriction tables are arbitrary (a Vocabulary).
 */
module Validators {
  import opened Wrappers
  import opened Collections
  import opened Contracts
  import opened Matching

  /**
    `lower` trims and lowers; `canon` and `diet` resolve aliases of a lowered code; `words` splits a lowered
    name; `forbidden` and `category` are the tables of restrictions and ingredient categories.
   */
  datatype Vocabulary = Vocabulary(
    lower: string -> string, canon: string -> string, diet: string -> string, words: string -> set<string>,
    forbidden: map<string, set<string>>, category: map<string, set<string>>)

  datatype Member = Member(
    alias: string, allergens: set<string>, strictAllergens: set<string>, hardRestrictions: set<string>,
    softPreferences: seq<string>, rejectedRecipes: set<nat>)

  type ByIngredient = map<string, set<string>>

  function LowerSet(v: Vocabulary, values: set<string>): set<string> {
    set x | x in values && v.lower(x) != "" :: v.lower(x)
  }

  function Canon(v: Vocabulary, values: set<string>): set<string> {
    set x | x in values && v.lower(x) != "" :: v.canon(v.lower(x))
  }

  predicate Disjoint(a: set<string>, b: set<string>) {
    forall x | x in a :: x !in b
  }

  // ----- The catalogue --------------------------------------------------------------------------

  function DerivedFrom(byIngredient: ByIngredient, name: string): set<string> {
    if name in byIngredient then byIngredient[name] else {}
  }

  /** Every allergen of every product is filed under the product's canonical name. */
  ghost predicate Files(v: Vocabulary, byIngredient: ByIngredient, catalog: seq<Product>) {
    && (forall name: string :: name in byIngredient <==> Sold(catalog, name))
    && (forall name: string, x: string :: x in DerivedFrom(byIngredient, name) <==> Carries(v, catalog, name, x))
  }

  ghost predicate Sold(catalog: seq<Product>, name: string) {
    exists i | 0 <= i < |catalog| :: catalog[i].name == name
  }

  ghost predicate Carries(v: Vocabulary, catalog: seq<Product>, name: string, x: string) {
    exists i | 0 <= i < |catalog| :: catalog[i].name == name && x in LowerSet(v, catalog[i].allergens)
  }

  lemma {:induction false} CarriesStep(v: Vocabulary, catalog: seq<Product>, product: Product, name: string, x: string)
    ensures Sold(catalog + [product], name) <==> Sold(catalog, name) || product.name == name
    ensures Carries(v, catalog + [product], name, x) <==>
      Carries(v, catalog, name, x) || (product.name == name && x in LowerSet(v, product.allergens))
  {
    var longer := catalog + [product];
    assert longer[|catalog|] == product && forall i | 0 <= i < |catalog| :: longer[i] == catalog[i];
    if Sold(catalog, name) {
      var i :| 0 <= i < |catalog| && catalog[i].name == name;
      assert longer[i].name == name;
    }
    if Carries(v, catalog, name, x) {
      var i :| 0 <= i < |catalog| && catalog[i].name == name && x in LowerSet(v, catalog[i].allergens);
      assert longer[i].name == name && x in LowerSet(v, longer[i].allergens);
    }
  }

  lemma {:induction false} FilesStep(v: Vocabulary, byIngredient: ByIngredient, catalog: seq<Product>, product: Product)
    requires Files(v, byIngredient, catalog)
    ensures Files(v, byIngredient[product.name := DerivedFrom(byIngredient, product.name) + LowerSet(v, product.allergens)],
                  catalog + [product])
  {
    var after := byIngredient[product.name := DerivedFrom(byIngredient, product.name) + LowerSet(v, product.allergens)];
    forall name: string ensures name in after <==> Sold(catalog + [product], name) {
      CarriesStep(v, catalog, product, name, "");
    }
    forall name: string, x: string ensures x in DerivedFrom(after, name) <==> Carries(v, catalog + [product], name, x) {
      CarriesStep(v, catalog, product, name, x);
      assert x in DerivedFrom(byIngredient, name) <==> Carries(v, catalog, name, x);
    }
  }

  method IndexAllergens(v: Vocabulary, catalog: seq<Product>) returns (byIngredient: ByIngredient)
    ensures Files(v, byIngredient, catalog)
  {
    byIngredient := map[];
    for i := 0 to |catalog|
      invariant Files(v, byIngredient, catalog[..i])
    {
      PrefixStep(catalog, i);
      FilesStep(v, byIngredient, catalog[..i], catalog[i]);
      byIngredient := byIngredient[catalog[i].name := DerivedFrom(byIngredient, catalog[i].name) + LowerSet(v, catalog[i].allergens)];
    }
    FullPrefix(catalog);
  }

  // ----- Allergens ------------------------------------------------------------------------------

  /** The declared codes and those of the first ingredients. */
  function RawAllergens(v: Vocabulary, byIngredient: ByIngredient, recipe: Recipe, n: nat): set<string>
    requires n <= |recipe.ingredients|
  {
    if n == 0 then LowerSet(v, recipe.allergensDeclared)
    else RawAllergens(v, byIngredient, recipe, n - 1) + DerivedFrom(byIngredient, recipe.ingredients[n - 1].name)
  }

  function DerivedAllergens(v: Vocabulary, byIngredient: ByIngredient, recipe: Recipe): set<string> {
    Canon(v, RawAllergens(v, byIngredient, recipe, |recipe.ingredients|))
  }

  lemma {:induction false} RawHas(v: Vocabulary, byIngredient: ByIngredient, recipe: Recipe, n: nat, code: string)
    requires n <= |recipe.ingredients|
    ensures code in RawAllergens(v, byIngredient, recipe, n) <==>
      || code in LowerSet(v, recipe.allergensDeclared)
      || exists i | 0 <= i < n :: code in DerivedFrom(byIngredient, recipe.ingredients[i].name)
  {
    if n > 0 {
      RawHas(v, byIngredient, recipe, n - 1, code);
    }
  }

  method CollectAllergens(v: Vocabulary, byIngredient: ByIngredient, recipe: Recipe) returns (codes: set<string>)
    ensures codes == DerivedAllergens(v, byIngredient, recipe)
  {
    var raw := LowerSet(v, recipe.allergensDeclared);
    for i := 0 to |recipe.ingredients|
      invariant raw == RawAllergens(v, byIngredient, recipe, i)
    {
      raw := raw + DerivedFrom(byIngredient, recipe.ingredients[i].name);
    }
    codes := Canon(v, raw);
  }

  /** No member shares an allergen with the recipe. */
  ghost predicate NoConflict(v: Vocabulary, byIngredient: ByIngredient, recipe: Recipe, members: seq<Member>) {
    forall i | 0 <= i < |members| :: Disjoint(DerivedAllergens(v, byIngredient, recipe), Canon(v, members[i].allergens))
  }

  ghost predicate AnyStrict(v: Vocabulary, members: seq<Member>) {
    exists i | 0 <= i < |members| :: Canon(v, members[i].strictAllergens) != {}
  }

  predicate AllAssessed(recipe: Recipe) {
    forall i | 0 <= i < |recipe.ingredients| :: recipe.ingredients[i].allergenAssessed
  }

  ghost predicate AllergenSafe(v: Vocabulary, byIngredient: ByIngredient, recipe: Recipe, members: seq<Member>) {
    NoConflict(v, byIngredient, recipe, members) && (AnyStrict(v, members) ==> AllAssessed(recipe))
  }

  /** The unions over the household that the gate works with. */
  ghost predicate Gathers(v: Vocabulary, members: seq<Member>, household: set<string>, strict: set<string>) {
    && (forall x: string :: x in household <==> exists i | 0 <= i < |members| :: x in Canon(v, members[i].allergens))
    && (strict != {} <==> AnyStrict(v, members))
  }

  lemma {:induction false} GathersStep(v: Vocabulary, members: seq<Member>, member: Member, household: set<string>, strict: set<string>)
    requires Gathers(v, members, household, strict)
    ensures Gathers(v, members + [member], household + Canon(v, member.allergens), strict + Canon(v, member.strictAllergens))
  {
    var longer := members + [member];
    assert forall i | 0 <= i < |members| :: longer[i] == members[i];
    assert longer[|members|] == member;
    if strict + Canon(v, member.strictAllergens) != {} {
      if Canon(v, member.strictAllergens) != {} {
        assert AnyStrict(v, longer);
      } else {
        assert strict != {};
        var i :| 0 <= i < |members| && Canon(v, members[i].strictAllergens) != {};
        assert Canon(v, longer[i].strictAllergens) != {};
      }
    }
    if AnyStrict(v, longer) {
      var i :| 0 <= i < |longer| && Canon(v, longer[i].strictAllergens) != {};
      if i < |members| {
        assert Canon(v, members[i].strictAllergens) != {};
      }
    }
    forall x: string | x in household + Canon(v, member.allergens)
      ensures exists i | 0 <= i < |longer| :: x in Canon(v, longer[i].allergens)
    {
      if x in Canon(v, member.allergens) {
        assert x in Canon(v, longer[|members|].allergens);
      } else {
        var i :| 0 <= i < |members| && x in Canon(v, members[i].allergens);
        assert x in Canon(v, longer[i].allergens);
      }
    }
  }

  method GatherAllergens(v: Vocabulary, members: seq<Member>) returns (household: set<string>, strict: set<string>)
    ensures Gathers(v, members, household, strict)
  {
    household, strict := {}, {};
    for i := 0 to |members|
      invariant Gathers(v, members[..i], household, strict)
    {
      PrefixStep(members, i);
      GathersStep(v, members[..i], members[i], household, strict);
      household := household + Canon(v, members[i].allergens);
      strict := strict + Canon(v, members[i].strictAllergens);
    }
    FullPrefix(members);
  }

  lemma {:induction false} ConflictIsShared(v: Vocabulary, byIngredient: ByIngredient, recipe: Recipe, members: seq<Member>,
                         household: set<string>, strict: set<string>)
    requires Gathers(v, members, household, strict)
    ensures Disjoint(DerivedAllergens(v, byIngredient, recipe), household) <==> NoConflict(v, byIngredient, recipe, members)
  {
    var codes := DerivedAllergens(v, byIngredient, recipe);
    if NoConflict(v, byIngredient, recipe, members) {
      forall i, x | 0 <= i < |members| && x in codes ensures x !in Canon(v, members[i].allergens) {
        assert Disjoint(codes, Canon(v, members[i].allergens));
      }
    }
    if Disjoint(codes, household) {
      forall i, x | 0 <= i < |members| && x in codes ensures x !in Canon(v, members[i].allergens) {
        assert x in Canon(v, members[i].allergens) ==> x in household;
      }
    }
  }

  /** The gate on allergens: a recipe passes exactly when it is safe for every member. */
  method ValidateAllergens(v: Vocabulary, byIngredient: ByIngredient, recipe: Recipe, members: seq<Member>) returns (valid: bool)
    ensures valid <==> AllergenSafe(v, byIngredient, recipe, members)
  {
    var household, strict := GatherAllergens(v, members);
    ConflictIsShared(v, byIngredient, recipe, members, household, strict);
    valid := true;
    if household != {} {
      var codes := CollectAllergens(v, byIngredient, recipe);
      if !Disjoint(codes, household) {
        valid := false;
      }
    }
    if strict != {} && !AllAssessed(recipe) {
      valid := false;
    }
  }

  // ----- Dietary restrictions -------------------------------------------------------------------

  function IngredientTokens(v: Vocabulary, byIngredient: ByIngredient, ingredient: RecipeIngredient): set<string> {
    var name := v.lower(ingredient.name);
    var category := if ingredient.category.Some? then v.lower(ingredient.category.value) else "";
    {name} + v.words(name) + DerivedFrom(byIngredient, ingredient.name)
    + if ingredient.category.Some? && ingredient.category.value != "" && category in v.category then v.category[category] else {}
  }

  function Tokens(v: Vocabulary, byIngredient: ByIngredient, recipe: Recipe, n: nat): set<string>
    requires n <= |recipe.ingredients|
  {
    if n == 0 then LowerSet(v, set t | t in recipe.tags) + LowerSet(v, recipe.allergensDeclared)
    else Tokens(v, byIngredient, recipe, n - 1) + IngredientTokens(v, byIngredient, recipe.ingredients[n - 1])
  }

  function RecipeTokens(v: Vocabulary, byIngredient: ByIngredient, recipe: Recipe): set<string> {
    Tokens(v, byIngredient, recipe, |recipe.ingredients|)
  }

  /** What a recipe is judged by: its tags and declared allergens, and what each of its ingredients says. */
  ghost predicate Says(v: Vocabulary, byIngredient: ByIngredient, recipe: Recipe, token: string) {
    || (exists tag | tag in recipe.tags :: v.lower(tag) == token != "")
    || (exists code | code in recipe.allergensDeclared :: v.lower(code) == token != "")
    || (exists i | 0 <= i < |recipe.ingredients| :: SaidBy(v, byIngredient, recipe.ingredients[i], token))
  }

  /** By name, a word of it, an allergen of a product of that name, or what stands for its category. */
  ghost predicate SaidBy(v: Vocabulary, byIngredient: ByIngredient, ingredient: RecipeIngredient, token: string) {
    || token == v.lower(ingredient.name) || token in v.words(v.lower(ingredient.name))
    || (ingredient.name in byIngredient && token in byIngredient[ingredient.name])
    || (ingredient.category.Some? && ingredient.category.value != "" && v.lower(ingredient.category.value) in v.category
        && token in v.category[v.lower(ingredient.category.value)])
  }

  lemma {:induction false} FirstTokens(v: Vocabulary, byIngredient: ByIngredient, recipe: Recipe, n: nat, token: string)
    requires n <= |recipe.ingredients|
    ensures token in Tokens(v, byIngredient, recipe, n) <==>
      || token in LowerSet(v, set t | t in recipe.tags) || token in LowerSet(v, recipe.allergensDeclared)
      || exists i | 0 <= i < n :: SaidBy(v, byIngredient, recipe.ingredients[i], token)
  {
    if n > 0 {
      FirstTokens(v, byIngredient, recipe, n - 1, token);
      assert token in IngredientTokens(v, byIngredient, recipe.ingredients[n - 1]) <==>
        SaidBy(v, byIngredient, recipe.ingredients[n - 1], token);
    }
  }

  lemma {:induction false} TokensExactly(v: Vocabulary, byIngredient: ByIngredient, recipe: Recipe, token: string)
    ensures token in RecipeTokens(v, byIngredient, recipe) <==> Says(v, byIngredient, recipe, token)
  {
    FirstTokens(v, byIngredient, recipe, |recipe.ingredients|, token);
  }

  method CollectTokens(v: Vocabulary, byIngredient: ByIngredient, recipe: Recipe) returns (tokens: set<string>)
    ensures tokens == RecipeTokens(v, byIngredient, recipe)
  {
    tokens := LowerSet(v, set t | t in recipe.tags) + LowerSet(v, recipe.allergensDeclared);
    for i := 0 to |recipe.ingredients|
      invariant tokens == Tokens(v, byIngredient, recipe, i)
    {
      tokens := tokens + IngredientTokens(v, byIngredient, recipe.ingredients[i]);
    }
  }

  /** A diet forbids classes of ingredients; any other restriction names what it excludes. */
  predicate Violates(v: Vocabulary, tokens: set<string>, restriction: string) {
    var diet := v.diet(restriction);
    if diet in v.forbidden then !Disjoint(tokens, v.forbidden[diet]) else restriction in tokens
  }

  /** No member's hard restriction is hit. */
  ghost predicate DietSafe(v: Vocabulary, byIngredient: ByIngredient, recipe: Recipe, members: seq<Member>) {
    var tokens := RecipeTokens(v, byIngredient, recipe);
    forall i, r | 0 <= i < |members| && r in LowerSet(v, members[i].hardRestrictions) :: !Violates(v, tokens, r)
  }

  /** A restriction is hit when the recipe says one of the classes its diet forbids, or, for any other restriction, says it itself. */
  ghost predicate Hits(v: Vocabulary, byIngredient: ByIngredient, recipe: Recipe, restriction: string) {
    if v.diet(restriction) in v.forbidden
    then exists token | token in v.forbidden[v.diet(restriction)] :: Says(v, byIngredient, recipe, token)
    else Says(v, byIngredient, recipe, restriction)
  }

  lemma {:induction false} HitsExactly(v: Vocabulary, byIngredient: ByIngredient, recipe: Recipe, restriction: string)
    ensures Violates(v, RecipeTokens(v, byIngredient, recipe), restriction) <==> Hits(v, byIngredient, recipe, restriction)
  {
    forall token ensures token in RecipeTokens(v, byIngredient, recipe) <==> Says(v, byIngredient, recipe, token) {
      TokensExactly(v, byIngredient, recipe, token);
    }
  }

  /** The avoided token of a preference `avoid:token`. */
  function Avoided(v: Vocabulary, preference: string): Option<string> {
    var token := v.lower(preference);
    if "avoid:" <= token && |token| > 6 then Some(token[6..]) else None
  }

  function SoftHits(v: Vocabulary, tokens: set<string>, preferences: seq<string>): nat {
    if preferences == [] then 0
    else
      var avoided := Avoided(v, preferences[|preferences| - 1]);
      SoftHits(v, tokens, preferences[..|preferences| - 1]) + if avoided.Some? && avoided.value in tokens then 1 else 0
  }

  function SoftHitsOf(v: Vocabulary, tokens: set<string>, members: seq<Member>): nat {
    if members == [] then 0
    else SoftHitsOf(v, tokens, members[..|members| - 1]) + SoftHits(v, tokens, members[|members| - 1].softPreferences)
  }

  /** The hard restrictions of one member. */
  method CheckRestrictions(v: Vocabulary, tokens: set<string>, member: Member) returns (ok: bool)
    ensures ok <==> forall r | r in LowerSet(v, member.hardRestrictions) :: !Violates(v, tokens, r)
  {
    ok := true;
    var restrictions := LowerSet(v, member.hardRestrictions);
    var todo := restrictions;
    while todo != {}
      invariant todo <= restrictions
      invariant ok <==> forall r | r in restrictions && r !in todo :: !Violates(v, tokens, r)
    {
      var restriction :| restriction in todo;
      var diet := v.diet(restriction);
      if diet in v.forbidden {
        if !Disjoint(tokens, v.forbidden[diet]) {
          ok := false;
        }
      } else if restriction in tokens {
        ok := false;
      }
      todo := todo - {restriction};
    }
  }

  method CountAvoided(v: Vocabulary, tokens: set<string>, preferences: seq<string>) returns (hits: nat)
    ensures hits == SoftHits(v, tokens, preferences)
  {
    hits := 0;
    for i := 0 to |preferences|
      invariant hits == SoftHits(v, tokens, preferences[..i])
    {
      assert preferences[..i + 1][..i] == preferences[..i];
      var avoided := Avoided(v, preferences[i]);
      if avoided.Some? && avoided.value in tokens {
        hits := hits + 1;
      }
    }
    FullPrefix(preferences);
  }

  /** The gate on restrictions, and the number of soft preferences that are not met. */
  method ValidateDiet(v: Vocabulary, byIngredient: ByIngredient, recipe: Recipe, members: seq<Member>)
    returns (valid: bool, soft: nat)
    ensures valid <==> DietSafe(v, byIngredient, recipe, members)
    ensures soft == SoftHitsOf(v, RecipeTokens(v, byIngredient, recipe), members)
  {
    var tokens := CollectTokens(v, byIngredient, recipe);
    valid, soft := true, 0;
    for i := 0 to |members|
      invariant valid <==> forall j, r | 0 <= j < i && r in LowerSet(v, members[j].hardRestrictions) :: !Violates(v, tokens, r)
      invariant soft == SoftHitsOf(v, tokens, members[..i])
    {
      assert members[..i + 1][..i] == members[..i];
      var ok := CheckRestrictions(v, tokens, members[i]);
      if !ok {
        valid := false;
      }
      var hits := CountAvoided(v, tokens, members[i].softPreferences);
      soft := soft + hits;
    }
    FullPrefix(members);
  }

  // ----- The products that are bought -----------------------------------------------------------

  /** A product matched by the ingredient's own name carries no allergen of any member. */
  lemma {:induction false} DirectMatchIsSafe(v: Vocabulary, byIngredient: ByIngredient, catalog: seq<Product>, byName: ByName, groups: Groups,
                          recipe: Recipe, members: seq<Member>, i: nat, m: nat, x: string)
    requires Files(v, byIngredient, catalog) && Indexes(byName, catalog)
    requires forall s: string :: v.lower(v.lower(s)) == v.lower(s)
    requires AllergenSafe(v, byIngredient, recipe, members) && m < |members|
    requires i < |recipe.ingredients| && recipe.ingredients[i].name in byName
    ensures var product := Match(byName, groups, recipe.ingredients[i].name, recipe.ingredients[i].substitutionGroup);
      product.Some? && (x in Canon(v, product.value.allergens) ==> x !in Canon(v, members[m].allergens))
  {
    var ingredient := recipe.ingredients[i];
    DirectIsKnown(v, byIngredient, catalog, byName, ingredient, byName[ingredient.name], recipe);
  }

  /** Whoever may eat the recipe may eat the product. */
  ghost predicate FreeForAll(v: Vocabulary, byIngredient: ByIngredient, recipe: Recipe, product: Product) {
    forall members: seq<Member> :: AllergenSafe(v, byIngredient, recipe, members) ==> FreeFor(v, product, members)
  }

  ghost predicate FreeFor(v: Vocabulary, product: Product, members: seq<Member>) {
    forall m | 0 <= m < |members| :: Disjoint(Canon(v, product.allergens), Canon(v, members[m].allergens))
  }

  function Allergic(allergens: set<string>): Member {
    Member("", allergens, {}, {}, [], {})
  }

  /** A product is free for everyone who passes the gate exactly when the gate knew all of its allergens. */
  lemma {:induction false} FreeExactly(v: Vocabulary, byIngredient: ByIngredient, recipe: Recipe, product: Product)
    ensures FreeForAll(v, byIngredient, recipe, product) <==>
      Canon(v, product.allergens) <= DerivedAllergens(v, byIngredient, recipe)
  {
    var known := DerivedAllergens(v, byIngredient, recipe);
    if Canon(v, product.allergens) <= known {
      forall members: seq<Member> | AllergenSafe(v, byIngredient, recipe, members) ensures FreeFor(v, product, members) {
        forall m | 0 <= m < |members| ensures Disjoint(Canon(v, product.allergens), Canon(v, members[m].allergens)) {
          assert Disjoint(known, Canon(v, members[m].allergens));
        }
      }
    } else {
      var raw :| raw in product.allergens && v.lower(raw) != "" && v.canon(v.lower(raw)) !in known;
      UnknownIsNotFree(v, byIngredient, recipe, product, raw);
    }
  }

  /** Someone with an allergy the gate did not see passes it. */
  lemma {:induction false} UnknownIsNotFree(v: Vocabulary, byIngredient: ByIngredient, recipe: Recipe, product: Product, raw: string)
    requires raw in product.allergens && v.lower(raw) != "" && v.canon(v.lower(raw)) !in DerivedAllergens(v, byIngredient, recipe)
    ensures AllergenSafe(v, byIngredient, recipe, [Allergic({raw})]) && !FreeFor(v, product, [Allergic({raw})])
  {
    var members, code := [Allergic({raw})], v.canon(v.lower(raw));
    assert forall x :: x in Canon(v, {raw}) ==> x == code;
    assert Canon(v, members[0].strictAllergens) == {};
    assert code in Canon(v, product.allergens) && code in Canon(v, members[0].allergens);
    assert !Disjoint(Canon(v, product.allergens), Canon(v, members[0].allergens));
  }

  /** Every recipe that calls for the ingredient. */
  ghost predicate AlwaysFree(v: Vocabulary, byIngredient: ByIngredient, ingredient: RecipeIngredient, product: Product) {
    forall recipe: Recipe :: ingredient in recipe.ingredients ==> FreeForAll(v, byIngredient, recipe, product)
  }

  /**
    A product that is bought for an ingredient is free for everyone in every recipe exactly when it is bought
    under the ingredient's own name, or has no allergen at all: a substitute's allergens are not checked.
   */
  lemma {:induction false} SubstituteIsNotChecked(v: Vocabulary, byIngredient: ByIngredient, catalog: seq<Product>, byName: ByName,
                                                  groups: Groups, ingredient: RecipeIngredient, product: Product)
    requires Files(v, byIngredient, catalog) && Indexes(byName, catalog)
    requires forall s: string :: v.lower(v.lower(s)) == v.lower(s)
    requires Match(byName, groups, ingredient.name, ingredient.substitutionGroup) == Some(product)
    ensures AlwaysFree(v, byIngredient, ingredient, product) <==>
      ingredient.name in byName || Canon(v, product.allergens) == {}
  {
    if ingredient.name in byName || Canon(v, product.allergens) == {} {
      forall recipe: Recipe | ingredient in recipe.ingredients ensures FreeForAll(v, byIngredient, recipe, product) {
        DirectIsKnown(v, byIngredient, catalog, byName, ingredient, product, recipe);
        FreeExactly(v, byIngredient, recipe, product);
      }
    } else {
      var recipe := JustThe(ingredient);
      assert ingredient == recipe.ingredients[0];
      NothingKnown(v, byIngredient, catalog, byName, ingredient);
      FreeExactly(v, byIngredient, recipe, product);
    }
  }

  /** The gate knows the allergens of a product that is bought under the ingredient's own name. */
  lemma {:induction false} DirectIsKnown(v: Vocabulary, byIngredient: ByIngredient, catalog: seq<Product>, byName: ByName,
                                         ingredient: RecipeIngredient, product: Product, recipe: Recipe)
    requires Files(v, byIngredient, catalog) && Indexes(byName, catalog)
    requires forall s: string :: v.lower(v.lower(s)) == v.lower(s)
    requires ingredient in recipe.ingredients && (ingredient.name in byName ==> byName[ingredient.name] == product)
    requires ingredient.name in byName || Canon(v, product.allergens) == {}
    ensures Canon(v, product.allergens) <= DerivedAllergens(v, byIngredient, recipe)
  {
    forall x | x in Canon(v, product.allergens) ensures x in DerivedAllergens(v, byIngredient, recipe) {
      var raw :| raw in product.allergens && v.lower(raw) != "" && x == v.canon(v.lower(raw));
      FirstNamedIn(catalog, ingredient.name);
      var code := v.lower(raw);
      assert code in LowerSet(v, product.allergens);
      assert Carries(v, catalog, ingredient.name, code);
      assert code in DerivedFrom(byIngredient, ingredient.name);
      RawHas(v, byIngredient, recipe, |recipe.ingredients|, code);
      assert v.lower(code) == code;
    }
  }

  /** A recipe that calls for nothing else. */
  function JustThe(ingredient: RecipeIngredient): Recipe {
    Recipe(0, "", 1, {}, [], [ingredient], 0, 0, {}, {})
  }

  /** Of an ingredient that is not sold the gate knows nothing. */
  lemma {:induction false} NothingKnown(v: Vocabulary, byIngredient: ByIngredient, catalog: seq<Product>, byName: ByName,
                                        ingredient: RecipeIngredient)
    requires Files(v, byIngredient, catalog) && Indexes(byName, catalog) && ingredient.name !in byName
    ensures DerivedAllergens(v, byIngredient, JustThe(ingredient)) == {}
  {
    SoldIsFirstNamed(catalog, ingredient.name);
    assert !Sold(catalog, ingredient.name);
    var recipe := JustThe(ingredient);
    assert RawAllergens(v, byIngredient, recipe, 0) == {};
    assert RawAllergens(v, byIngredient, recipe, 1) == {};
  }

  lemma {:induction false} SoldIsFirstNamed(catalog: seq<Product>, name: string)
    ensures Sold(catalog, name) ==> FirstNamed(catalog, name).Some?
  {
    if Sold(catalog, name) && catalog[0].name != name {
      var i :| 0 <= i < |catalog| && catalog[i].name == name;
      assert catalog[1..][i - 1].name == name;
      SoldIsFirstNamed(catalog[1..], name);
    }
  }

  // ----- A substitute with an allergen ----------------------------------------------------------

  const NUT_FLOUR := Product(7, "almond_flour", "Almond flour", "dry", [], {"tree_nut"})
  const FLOUR := RecipeIngredient("flour", "Flour", 100.0, "g", Some("flours"), None, true)
  const ALMOND_FLOUR := FLOUR.(name := "almond_flour", displayName := "Almond flour")
  const CAKE := Recipe(3, "Cake", 1, {"snack"}, [], [FLOUR], 0, 0, {}, {})
  const MARZIPAN := Recipe(4, "Marzipan", 1, {"snack"}, [], [ALMOND_FLOUR], 0, 0, {}, {})

  /** With cake and marzipan as candidates, almond flour is bought for the cake, which passes for someone allergic to nuts. */
  lemma {:induction false} CakeWithAlmonds(v: Vocabulary, byIngredient: ByIngredient, byName: ByName)
    requires Files(v, byIngredient, [NUT_FLOUR]) && Indexes(byName, [NUT_FLOUR]) && v.lower("tree_nut") != ""
    ensures Match(byName, GroupsOf([CAKE, MARZIPAN]), FLOUR.name, FLOUR.substitutionGroup) == Some(NUT_FLOUR)
    ensures AllergenSafe(v, byIngredient, CAKE, [Allergic({"tree_nut"})]) && !FreeFor(v, NUT_FLOUR, [Allergic({"tree_nut"})])
  {
    CakeIsMatched(byName);
    assert !Sold([NUT_FLOUR], "flour");
    assert RawAllergens(v, byIngredient, CAKE, 0) == {};
    assert RawAllergens(v, byIngredient, CAKE, 1) == {};
    UnknownIsNotFree(v, byIngredient, CAKE, NUT_FLOUR, "tree_nut");
  }

  lemma {:induction false} GroupOfFlours()
    ensures GroupsOf([CAKE, MARZIPAN]) == map["flours" := ["flour", "almond_flour"]]
  {
    var none: Groups, one: Groups := map[], map["flours" := ["flour"]];
    assert [CAKE, MARZIPAN][..1] == [CAKE] && [CAKE][..0] == [];
    assert [] + ["flour"] == ["flour"] && ["flour"] + ["almond_flour"] == ["flour", "almond_flour"];
    assert Join(none, FLOUR) == one;
    GroupsInOne(none, FLOUR);
    GroupsInOne(one, ALMOND_FLOUR);
    assert GroupsOf([]) == none && GroupsOf([CAKE]) == one;
  }

  lemma {:induction false} GroupsInOne(groups: Groups, ingredient: RecipeIngredient)
    ensures GroupsIn(groups, [ingredient]) == Join(groups, ingredient)
  {
    assert [ingredient][..0] == [];
    assert GroupsIn(groups, []) == groups;
  }

  lemma {:induction false} CakeIsMatched(byName: ByName)
    requires Indexes(byName, [NUT_FLOUR])
    ensures Match(byName, GroupsOf([CAKE, MARZIPAN]), FLOUR.name, FLOUR.substitutionGroup) == Some(NUT_FLOUR)
  {
    GroupOfFlours();
    var names := ["flour", "almond_flour"];
    assert [NUT_FLOUR][1..] == [] && FirstNamed([NUT_FLOUR], "flour") == None;
    assert FirstNamed([NUT_FLOUR], "almond_flour") == Some(NUT_FLOUR);
    assert names[1..] == ["almond_flour"];
    assert FirstAvailable(byName, ["almond_flour"]) == Some(NUT_FLOUR);
  }
}
