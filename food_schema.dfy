/** The `food_entries` table and its payloads. */
module FoodSchema {
  import opened Common
  import opened UserModel

  /** The eleven nutrition columns, each independently nullable. */
  datatype Nutrients = Nutrients(
    calories: Option<real>,
    protein: Option<real>,
    carbs: Option<real>,
    fat: Option<real>,
    saturatedFat: Option<real>,
    fiber: Option<real>,
    sugar: Option<real>,
    cholesterol: Option<real>,
    sodium: Option<real>,
    calcium: Option<real>,
    iron: Option<real>)

  /** The nutrition fields of a payload that supplies none of them: all null, none zero. */
  function NoNutrients(): (n: Nutrients)
    ensures n.calories.None? && n.protein.None? && n.carbs.None? && n.fat.None?
    ensures n.saturatedFat.None? && n.fiber.None? && n.sugar.None? && n.cholesterol.None?
    ensures n.sodium.None? && n.calcium.None? && n.iron.None?
  {
    Nutrients(None, None, None, None, None, None, None, None, None, None, None)
  }

  /** The fields every food entry carries. */
  datatype FoodEntryBase = FoodEntryBase(foodName: string, mode: ModeType, nutrients: Nutrients)

  /** A payload that gives only a name; the mode and every nutrition field take their defaults. */
  function MinimalFoodEntryBase(foodName: string): (b: FoodEntryBase)
    ensures b.foodName == foodName && b.mode == Swasthya && b.nutrients == NoNutrients()
  {
    FoodEntryBase(foodName, Swasthya, NoNutrients())
  }

  /** What a stored entry holds besides id, owner and stamp: the base fields and the optional image path. */
  datatype StoredFood = StoredFood(base: FoodEntryBase, imagePath: Option<string>)
}
