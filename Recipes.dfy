/**
 * The canonical recipe record and the normaliser that turns the
 * search-endpoint shape into it (mapSpoonacularRecipe).
 */
module Recipes {
  import opened Wrappers
  import opened Text

  /** The internal recipe: what a card shows and what the favorites list stores. */
  datatype Recipe = Recipe(
    id: int,
    title: string,
    image: string,
    ingredients: seq<string>,
    instructions: string)

  /** An element of usedIngredients or missedIngredients; only its name is read. */
  datatype SearchIngredient = SearchIngredient(name: string)

  /** A recipe as the ingredient search returns it; the two lists and the image may be absent. */
  datatype SearchRecipe = SearchRecipe(
    id: int,
    title: string,
    image: Option<string>,
    usedIngredients: Option<seq<SearchIngredient>>,
    missedIngredients: Option<seq<SearchIngredient>>)

  const NoImageUrl := "https://placehold.co/600x400?text=No+Image"
  // Written in three pieces so that the verifier can read off its first and last character.
  const InstructionsNotLoaded := "Click for more details " + "(instructions not loaded " + "yet in this basic version)."

  /** `list || []`: an absent list reads as empty. */
  function OrEmpty(list: Option<seq<SearchIngredient>>): seq<SearchIngredient>
  {
    if list.Some? then list.value else []
  }

  function Names(list: seq<SearchIngredient>): seq<string>
  {
    seq(|list|, i requires 0 <= i < |list| => list[i].name)
  }

  /**
   * mapSpoonacularRecipe: the id and title are kept, the ingredients are the
   * names of the used ingredients followed by those of the missed ones, each
   * list in its own order, and the instructions are always the placeholder.
   */
  function MapSpoonacularRecipe(raw: SearchRecipe): (r: Recipe)
    ensures r.id == raw.id && r.title == raw.title
    ensures |r.ingredients| == |OrEmpty(raw.usedIngredients)| + |OrEmpty(raw.missedIngredients)|
    ensures forall i :: 0 <= i < |OrEmpty(raw.usedIngredients)| ==>
              r.ingredients[i] == OrEmpty(raw.usedIngredients)[i].name
    ensures forall j :: 0 <= j < |OrEmpty(raw.missedIngredients)| ==>
              r.ingredients[|OrEmpty(raw.usedIngredients)| + j] == OrEmpty(raw.missedIngredients)[j].name
    ensures r.instructions == InstructionsNotLoaded
    ensures Present(raw.image) ==> r.image == raw.image.value
    ensures !Present(raw.image) ==> r.image == NoImageUrl
  {
    var all := OrEmpty(raw.usedIngredients) + OrEmpty(raw.missedIngredients);
    Recipe(raw.id, raw.title, OrElse(raw.image, NoImageUrl), Names(all), InstructionsNotLoaded)
  }

  /** `apiRecipes.map(mapSpoonacularRecipe)`. */
  function MapAll(raws: seq<SearchRecipe>): (recipes: seq<Recipe>)
    ensures |recipes| == |raws|
    ensures forall i :: 0 <= i < |raws| ==> recipes[i] == MapSpoonacularRecipe(raws[i])
    ensures forall i :: 0 <= i < |raws| ==> recipes[i].id == raws[i].id
  {
    seq(|raws|, i requires 0 <= i < |raws| => MapSpoonacularRecipe(raws[i]))
  }
}
