/** The inputs of the planning engine.  Dates and identifiers are numbers; money and quantities are exact. */
module Contracts {
  import opened Wrappers
  import opened Packaging

  type Positive = n: nat | n >= 1 witness 1

  datatype RecipeIngredient = RecipeIngredient(
    name: string, displayName: string, quantity: real, unit: string,
    substitutionGroup: Option<string>, category: Option<string>, allergenAssessed: bool)

  datatype Recipe = Recipe(
    recipeId: nat, title: string, servings: Positive, mealTypes: set<string>, tags: seq<string>,
    ingredients: seq<RecipeIngredient>, preparationMinutes: int, cookingMinutes: int,
    requiredEquipment: set<string>, allergensDeclared: set<string>)

  datatype Product = Product(
    productId: nat, name: string, displayName: string, category: string,
    packages: seq<PackageOption>, allergens: set<string>)

  datatype PantryItem = PantryItem(name: string, quantity: real, unit: string, expiresAt: Option<int>)
}
