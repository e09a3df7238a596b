/**
 * The recipe card: what createRecipeCard renders (its text nodes and the
 * favorite button), and the reverse direction used by the favorite toggle,
 * which rebuilds a recipe by reading the card's text back.
 */
module Cards {
  import opened Wrappers
  import opened Text
  import opened Recipes
  import opened Favorites
  import opened Sequences

  /** A favorite button: its label and its CSS classes. */
  datatype ButtonState = ButtonState(caption: string, classes: set<string>)

  const SavedLabel := "Saved"
  const SaveLabel := "Save to favorites"
  const FixedButtonClasses: set<string> := {"btn", "mt-2", "btn-save-favorite"}
  const FavoriteClasses: set<string> := {"btn-success", "is-favorite"}
  const NotFavoriteClasses: set<string> := {"btn-outline-primary"}

  /** The button createRecipeCard renders: "Saved" and solid style exactly for a favorite. */
  function FavoriteButton(alreadyFavorite: bool): (b: ButtonState)
    ensures b.caption == SavedLabel <==> alreadyFavorite
    ensures b.caption == SaveLabel <==> !alreadyFavorite
    ensures FavoriteClasses <= b.classes <==> alreadyFavorite
    ensures "is-favorite" in b.classes <==> alreadyFavorite
    ensures "btn-success" in b.classes <==> alreadyFavorite
    ensures "btn-outline-primary" in b.classes <==> !alreadyFavorite
    ensures FixedButtonClasses <= b.classes
    ensures b.classes <= FixedButtonClasses + FavoriteClasses + NotFavoriteClasses
  {
    if alreadyFavorite then ButtonState(SavedLabel, FixedButtonClasses + FavoriteClasses)
    else ButtonState(SaveLabel, FixedButtonClasses + NotFavoriteClasses)
  }

  /**
   * The toggle's in-place update of the clicked button: whatever it showed
   * before, afterwards its label and style match the new membership, and its
   * other classes are untouched.
   */
  function Restyle(b: ButtonState, nowFavorite: bool): (b': ButtonState)
    ensures b'.caption == SavedLabel <==> nowFavorite
    ensures b'.caption == SaveLabel <==> !nowFavorite
    ensures FavoriteClasses <= b'.classes <==> nowFavorite
    ensures "is-favorite" in b'.classes <==> nowFavorite
    ensures "btn-success" in b'.classes <==> nowFavorite
    ensures "btn-outline-primary" in b'.classes <==> !nowFavorite
    ensures b'.classes - FavoriteClasses - NotFavoriteClasses == b.classes - FavoriteClasses - NotFavoriteClasses
  {
    if nowFavorite then ButtonState(SavedLabel, b.classes - NotFavoriteClasses + FavoriteClasses)
    else ButtonState(SaveLabel, b.classes - FavoriteClasses + NotFavoriteClasses)
  }

  /** A card as rendered: its id attribute, image, title and the text of its two paragraphs. */
  datatype Card = Card(
    recipeId: int,
    imageSrc: string,
    imageAlt: string,
    title: string,
    ingredientsText: string,
    instructionsText: string,
    button: ButtonState)

  /** The whitespace the card template puts around each paragraph's text. */
  const TextLead := "\n          "
  const TextTrail := "\n        "
  const IngredientsLabel := "Ingredients:"
  const UnknownTitle := "Unknown recipe"

  /**
   * createRecipeCard: the paragraphs carry the comma-joined ingredients and
   * the instructions; the button reflects whether the id is in the favorites.
   */
  function CreateRecipeCard(recipe: Recipe, favorites: seq<Recipe>): (card: Card)
    ensures card.recipeId == recipe.id
    ensures card.button.caption == SavedLabel <==> exists i :: 0 <= i < |favorites| && favorites[i].id == recipe.id
    ensures "is-favorite" in card.button.classes <==> exists i :: 0 <= i < |favorites| && favorites[i].id == recipe.id
    ensures "btn-outline-primary" in card.button.classes <==> !exists i :: 0 <= i < |favorites| && favorites[i].id == recipe.id
  {
    Card(recipe.id, recipe.image, recipe.title, recipe.title,
         IngredientsLine(recipe.ingredients),
         TextLead + recipe.instructions + TextTrail,
         FavoriteButton(IsFavorite(favorites, recipe.id)))
  }

  /** One card per recipe, in order, each button judged against the same favorites. */
  function CardsFor(recipes: seq<Recipe>, favorites: seq<Recipe>): (cards: seq<Card>)
    ensures |cards| == |recipes|
    ensures forall i :: 0 <= i < |recipes| ==> cards[i].recipeId == recipes[i].id && cards[i].title == recipes[i].title
    ensures forall i :: 0 <= i < |recipes| ==> (cards[i].button.caption == SavedLabel <==> IsFavorite(favorites, recipes[i].id))
  {
    seq(|recipes|, i requires 0 <= i < |recipes| => CreateRecipeCard(recipes[i], favorites))
  }

  /**
   * What the toggle handler can query on a card: the title element's text,
   * the image's src and the texts of the ".card-text" paragraphs; the first
   * two may be missing on a card not built by createRecipeCard.
   */
  datatype CardDom = CardDom(titleText: Option<string>, imageSrc: Option<string>, cardTexts: seq<string>)

  function DomOf(card: Card): CardDom
  {
    CardDom(Some(card.title), Some(card.imageSrc), [card.ingredientsText, card.instructionsText])
  }

  /** The first paragraph with "Ingredients:" removed and trimmed; "" without a paragraph. */
  function IngredientsText(cardTexts: seq<string>): string
  {
    if |cardTexts| > 0 then Trim(ReplaceFirst(cardTexts[0], IngredientsLabel, "")) else ""
  }

  /** A name that survives the card unchanged: no comma, no whitespace at either end. */
  predicate FitsCard(name: string)
  {
    ',' !in name && Trimmed(name)
  }

  /**
   * The ingredient parse: empty text gives [], otherwise the comma-separated
   * pieces, each trimmed. Every piece it yields fits a card again.
   */
  function ParseIngredients(cardTexts: seq<string>): (ingredients: seq<string>)
    ensures ingredients == [] <==> IngredientsText(cardTexts) == ""
    ensures forall i :: 0 <= i < |ingredients| ==> FitsCard(ingredients[i])
    ensures ingredients != [""]
  {
    var text := IngredientsText(cardTexts);
    if text == "" then []
    else
      var parts := Split(text, ',');
      TrimAllFits(parts);
      assert |parts| == 1 ==> Trim(parts[0]) != "" by {
        if |parts| == 1 {
          assert Join(parts, [',']) == parts[0];
          TrimOfTrimmed(text);
        }
      }
      TrimAll(parts)
  }

  /** `textEls[1]?.textContent.trim() || placeholder`. */
  function CardInstructions(cardTexts: seq<string>): (text: string)
    ensures text != "" && Trimmed(text)
    ensures |cardTexts| >= 2 && Trim(cardTexts[1]) != "" ==> text == Trim(cardTexts[1])
    ensures |cardTexts| < 2 || Trim(cardTexts[1]) == "" ==> text == InstructionsNotLoaded
  {
    PlaceholderTrimmed();
    if |cardTexts| >= 2 && Trim(cardTexts[1]) != "" then Trim(cardTexts[1]) else InstructionsNotLoaded
  }

  /**
   * The recipe the toggle handler builds from a card: the given id, the
   * trimmed title or "Unknown recipe", the image src or the placeholder, the
   * parsed ingredients and the card's instructions or the placeholder.
   * Whatever the card holds, the result is something a card shows unchanged.
   */
  function RecipeFromCard(id: int, dom: CardDom): (r: Recipe)
    ensures r.id == id
    ensures dom.titleText.Some? ==> r.title == Trim(dom.titleText.value)
    ensures dom.titleText.None? ==> r.title == UnknownTitle
    ensures dom.imageSrc.Some? ==> r.image == dom.imageSrc.value
    ensures dom.imageSrc.None? ==> r.image == NoImageUrl
    ensures r.ingredients == ParseIngredients(dom.cardTexts)
    ensures r.instructions == CardInstructions(dom.cardTexts)
    ensures Trimmed(r.title) && r.instructions != "" && Trimmed(r.instructions)
    ensures r.ingredients != [""] && forall i :: 0 <= i < |r.ingredients| ==> FitsCard(r.ingredients[i])
  {
    var title := if dom.titleText.Some? then Trim(dom.titleText.value) else UnknownTitle;
    var image := dom.imageSrc.GetOr(NoImageUrl);
    Recipe(id, title, image, ParseIngredients(dom.cardTexts), CardInstructions(dom.cardTexts))
  }

  // ---------------------------------------------------------------------
  // Lemmas

  /** Restyling a rendered button gives the button a fresh render would show. */
  lemma {:induction false} RestyleMatchesRender(wasFavorite: bool, nowFavorite: bool)
    ensures Restyle(FavoriteButton(wasFavorite), nowFavorite) == FavoriteButton(nowFavorite)
  {
    var before := FavoriteButton(wasFavorite);
    var after := Restyle(before, nowFavorite);
    assert "btn" != "btn-success" && "btn" != "is-favorite" && "btn" != "btn-outline-primary";
    assert "mt-2" != "btn-success" && "mt-2" != "is-favorite" && "mt-2" != "btn-outline-primary";
    assert "btn-save-favorite" != "btn-success" && "btn-save-favorite" != "is-favorite";
    assert "btn-save-favorite" != "btn-outline-primary";
    assert "btn-success" != "btn-outline-primary" && "is-favorite" != "btn-outline-primary";
    assert after.classes == FavoriteButton(nowFavorite).classes;
  }

  lemma {:induction false} TrimOfTrimmed(s: string)
    requires Trimmed(s)
    ensures Trim(s) == s
  {
    TrimPadded([], s, []);
    assert [] + s + [] == s;
  }

  lemma {:induction false} TrimKeepsOut(s: string, c: char)
    requires c !in s
    ensures c !in Trim(s)
  {
    var r := Trim(s);
    var i := LeadingWhitespace(s);
    TrimInfix(s);
    forall k | 0 <= k < |r| ensures r[k] != c {
      assert r[k] == (s[..i] + r)[i + k] == s[i + k];
    }
  }

  lemma {:induction false} TrimAllFits(parts: seq<string>)
    requires forall i :: 0 <= i < |parts| ==> ',' !in parts[i]
    ensures forall i :: 0 <= i < |parts| ==> FitsCard(TrimAll(parts)[i])
  {
    forall i | 0 <= i < |parts| ensures FitsCard(TrimAll(parts)[i]) {
      TrimKeepsOut(parts[i], ',');
    }
  }

  lemma {:induction false} PlaceholderTrimmed()
    ensures Trimmed(InstructionsNotLoaded) && InstructionsNotLoaded != ""
  {
    assert InstructionsNotLoaded[0] == 'C';
    assert InstructionsNotLoaded[|InstructionsNotLoaded| - 1] == '.';
  }

  lemma {:induction false} TrimAllSnoc(parts: seq<string>, last: string)
    ensures TrimAll(parts + [last]) == TrimAll(parts) + [Trim(last)]
  {
    if parts == [] {
      ConcatEmpty([last]);
    } else {
      TailOfConcat(parts, [last]);
      TrimAllSnoc(parts[1..], last);
    }
  }

  /** The joined text starts with a non-whitespace character unless it is empty. */
  lemma {:induction false} JoinStartsClean(xs: seq<string>)
    requires xs != [] && Trimmed(xs[0])
    ensures Join(xs, ", ") == [] || !IsWhitespace(Join(xs, ", ")[0])
  {
    if |xs| > 1 {
      var j := Join(xs, ", ");
      assert j == xs[0] + ", " + Join(xs[1..], ", ");
      if xs[0] == [] {
        assert j[0] == ',';
      } else {
        assert j[0] == xs[0][0];
      }
    }
  }

  lemma {:induction false} AllWhitespaceConcat(a: string, b: string)
    requires AllWhitespace(a) && AllWhitespace(b)
    ensures AllWhitespace(a + b)
  {
    assert forall i :: 0 <= i < |a + b| ==> (a + b)[i] == if i < |a| then a[i] else b[i - |a|];
  }

  /** The ingredient paragraph createRecipeCard writes. */
  function IngredientsLine(xs: seq<string>): string
  {
    TextLead + IngredientsLabel + " " + Join(xs, ", ") + TextTrail
  }

  /** The template whitespace is whitespace to trim. */
  lemma {:induction false} TemplateWhitespace()
    ensures AllWhitespace(TextLead + " ") && AllWhitespace(TextLead) && AllWhitespace(TextTrail)
  {
  }

  /** Removing the label leaves the joined names between template whitespace. */
  lemma {:induction false} StrippedLine(xs: seq<string>)
    ensures ReplaceFirst(IngredientsLine(xs), IngredientsLabel, "") == (TextLead + " ") + Join(xs, ", ") + TextTrail
  {
    var joined := Join(xs, ", ");
    var rest := " " + joined + TextTrail;
    ConcatAssoc(TextLead + IngredientsLabel, " ", joined);
    ConcatAssoc(TextLead + IngredientsLabel, " " + joined, TextTrail);
    ReplaceAfterLead(TextLead, IngredientsLabel, rest, "");
    ConcatEmpty(TextLead);
    ConcatAssoc(TextLead, " ", joined);
    ConcatAssoc(TextLead, " " + joined, TextTrail);
  }

  /** Names whose last one is not empty join to a trimmed, non-empty text. */
  lemma {:induction false} JoinLastNonEmpty(xs: seq<string>)
    requires xs != [] && Trimmed(xs[0]) && xs[|xs| - 1] != [] && Trimmed(xs[|xs| - 1])
    ensures Join(xs, ", ") != [] && Trimmed(Join(xs, ", "))
  {
    if |xs| > 1 {
      var init := xs[..|xs| - 1];
      var last := xs[|xs| - 1];
      FrontLast(xs);
      JoinSnoc(init, last, ", ");
      JoinStartsClean(init);
      TrimmedAroundComma(Join(init, ", "), last);
    }
  }

  lemma {:induction false} TrimmedAroundComma(u: string, last: string)
    requires last != [] && Trimmed(last) && (u == [] || !IsWhitespace(u[0]))
    ensures Trimmed(u + ", " + last)
  {
    assert (u + ", " + last)[|u + ", " + last| - 1] == last[|last| - 1];
    if u != [] {
      assert (u + ", " + last)[0] == u[0];
    }
  }

  lemma {:induction false} CommaSpace()
    ensures ", " == [','] + [' ']
  {
  }

  lemma {:induction false} TrimmedBeforeComma(u: string)
    requires u == [] || !IsWhitespace(u[0])
    ensures Trimmed(u + [','])
  {
    if u != [] {
      assert (u + [','])[0] == u[0];
    }
  }

  lemma {:induction false} JoinLastEmpty(xs: seq<string>)
    requires |xs| > 1 && xs[|xs| - 1] == [] && Trimmed(xs[0])
    ensures Join(xs, ", ") == Join(xs[..|xs| - 1], ", ") + [','] + [' ']
    ensures Trimmed(Join(xs[..|xs| - 1], ", ") + [','])
  {
    var init := xs[..|xs| - 1];
    FrontLast(xs);
    JoinSnoc(init, [], ", ");
    CommaSpace();
    JoinStartsClean(init);
    TrimmedBeforeComma(Join(init, ", "));
  }

  /** Between whitespace, an empty list of names trims to "". */
  lemma {:induction false} ParsesEmpty(pad: string, trail: string)
    requires AllWhitespace(pad) && AllWhitespace(trail)
    ensures Trim(pad + Join([], ", ") + trail) == ""
  {
    assert pad + Join([], ", ") + trail == pad + [] + trail;
    TrimPadded(pad, [], trail);
  }

  /** Between whitespace, names ending in a non-empty one trim to their join, which splits back into them. */
  lemma {:induction false} ParsesLastNonEmpty(pad: string, xs: seq<string>, trail: string)
    requires AllWhitespace(pad) && AllWhitespace(trail)
    requires xs != [] && xs[|xs| - 1] != [] && forall i :: 0 <= i < |xs| ==> FitsCard(xs[i])
    ensures var text := Trim(pad + Join(xs, ", ") + trail); text != "" && TrimAll(Split(text, ',')) == xs
  {
    var j := Join(xs, ", ");
    JoinLastNonEmpty(xs);
    TrimPadded(pad, j, trail);
    SplitJoinComma(xs, []);
    assert [] + j == j;
  }

  lemma {:induction false} FitsInit(xs: seq<string>, init: seq<string>)
    requires xs != [] && init == xs[..|xs| - 1] && forall i :: 0 <= i < |xs| ==> FitsCard(xs[i])
    ensures forall i :: 0 <= i < |init| ==> FitsCard(init[i])
  {
    assert forall i :: 0 <= i < |init| ==> init[i] == xs[i];
  }

  lemma {:induction false} SpaceToTrail(pad: string, m: string, trail: string)
    ensures pad + (m + [' ']) + trail == pad + m + ([' '] + trail)
  {
  }

  /** Between whitespace, names ending in "" trim to the join of the others plus a comma. */
  lemma {:induction false} LastEmptyTrims(pad: string, xs: seq<string>, trail: string)
    requires AllWhitespace(pad) && AllWhitespace(trail)
    requires |xs| > 1 && xs[|xs| - 1] == [] && Trimmed(xs[0])
    ensures Trim(pad + Join(xs, ", ") + trail) == Join(xs[..|xs| - 1], ", ") + [',']
  {
    var m := Join(xs[..|xs| - 1], ", ") + [','];
    JoinLastEmpty(xs);
    SpaceToTrail(pad, m, trail);
    AllWhitespaceConcat([' '], trail);
    TrimPadded(pad, m, [' '] + trail);
  }

  /** The join of names plus a trailing comma splits into the names and one "". */
  lemma {:induction false} TrailingCommaSplits(init: seq<string>)
    requires init != [] && forall i :: 0 <= i < |init| ==> FitsCard(init[i])
    ensures TrimAll(Split(Join(init, ", ") + [','], ',')) == init + [[]]
  {
    SplitTrailingSeparator(Join(init, ", "), ',');
    TrimAllSnoc(Split(Join(init, ", "), ','), []);
    SplitJoinComma(init, []);
    assert [] + Join(init, ", ") == Join(init, ", ");
    assert Trim([]) == [];
  }

  lemma {:induction false} ParsesLastEmpty(pad: string, xs: seq<string>, trail: string)
    requires AllWhitespace(pad) && AllWhitespace(trail)
    requires |xs| > 1 && xs[|xs| - 1] == [] && forall i :: 0 <= i < |xs| ==> FitsCard(xs[i])
    ensures var text := Trim(pad + Join(xs, ", ") + trail); text != "" && TrimAll(Split(text, ',')) == xs
  {
    var init := xs[..|xs| - 1];
    FitsInit(xs, init);
    LastEmptyTrims(pad, xs, trail);
    TrailingCommaSplits(init);
    FrontLast(xs);
  }

  /**
   * Trimming and splitting the joined names between any whitespace gives
   * the names back, except the list [""].
   */
  lemma {:induction false} PaddedJoinParses(pad: string, xs: seq<string>, trail: string)
    requires AllWhitespace(pad) && AllWhitespace(trail)
    requires xs != [""] && forall i :: 0 <= i < |xs| ==> FitsCard(xs[i])
    ensures var text := Trim(pad + Join(xs, ", ") + trail);
            (text == "" <==> xs == []) && (xs != [] ==> TrimAll(Split(text, ',')) == xs)
  {
    if xs == [] {
      ParsesEmpty(pad, trail);
    } else if xs[|xs| - 1] != [] {
      ParsesLastNonEmpty(pad, xs, trail);
    } else {
      ParsesLastEmpty(pad, xs, trail);
    }
  }

  /**
   * The ingredient line round trip: parsing the text createRecipeCard writes
   * gives the list back, for comma-free trimmed names, except the list [""],
   * whose line is blank and parses to [].
   */
  lemma {:induction false} IngredientsRoundTrip(xs: seq<string>, instructionsText: string)
    requires xs != [""] && forall i :: 0 <= i < |xs| ==> FitsCard(xs[i])
    ensures ParseIngredients([IngredientsLine(xs), instructionsText]) == xs
  {
    StrippedLine(xs);
    TemplateWhitespace();
    PaddedJoinParses(TextLead + " ", xs, TextTrail);
  }

  /**
   * Saving a rendered card rebuilds the same recipe, provided its title and
   * instructions have no surrounding whitespace, its instructions are not
   * empty and its ingredient names fit a card.
   */
  lemma {:induction false} CardRoundTrip(recipe: Recipe, favorites: seq<Recipe>)
    requires Trimmed(recipe.title) && recipe.instructions != "" && Trimmed(recipe.instructions)
    requires recipe.ingredients != [""] && forall i :: 0 <= i < |recipe.ingredients| ==> FitsCard(recipe.ingredients[i])
    ensures RecipeFromCard(recipe.id, DomOf(CreateRecipeCard(recipe, favorites))) == recipe
  {
    var texts := DomOf(CreateRecipeCard(recipe, favorites)).cardTexts;
    var shown := TextLead + recipe.instructions + TextTrail;
    assert texts == [IngredientsLine(recipe.ingredients), shown];
    IngredientsRoundTrip(recipe.ingredients, shown);
    TrimOfTrimmed(recipe.title);
    TemplateWhitespace();
    TrimPadded(TextLead, recipe.instructions, TextTrail);
  }

  /** A blank ingredient line: the one list besides [] that is lost is [""]. */
  lemma {:induction false} SingleBlankNameIsLost(recipe: Recipe, favorites: seq<Recipe>)
    requires recipe.ingredients == [""]
    ensures RecipeFromCard(recipe.id, DomOf(CreateRecipeCard(recipe, favorites))).ingredients == []
  {
    StrippedLine([""]);
    TemplateWhitespace();
    assert (TextLead + " ") + Join([""], ", ") + TextTrail == (TextLead + " ") + [] + TextTrail;
    TrimPadded(TextLead + " ", [], TextTrail);
  }

  /** Reading a card back is stable: rendering a rebuilt recipe and reading it again changes nothing. */
  lemma {:induction false} RebuildIsStable(id: int, dom: CardDom, favorites: seq<Recipe>)
    ensures var r := RecipeFromCard(id, dom); RecipeFromCard(id, DomOf(CreateRecipeCard(r, favorites))) == r
  {
    CardRoundTrip(RecipeFromCard(id, dom), favorites);
  }

  /**
   * A favorite saved from a search-result card is the normalised recipe
   * itself, so it carries the placeholder instructions, not real ones.
   */
  lemma {:induction false} SearchCardSavesNormalised(raw: SearchRecipe, favorites: seq<Recipe>)
    requires Trimmed(raw.title)
    requires forall i :: 0 <= i < |OrEmpty(raw.usedIngredients)| ==> FitsCard(OrEmpty(raw.usedIngredients)[i].name)
    requires forall i :: 0 <= i < |OrEmpty(raw.missedIngredients)| ==> FitsCard(OrEmpty(raw.missedIngredients)[i].name)
    requires MapSpoonacularRecipe(raw).ingredients != [""]
    ensures RecipeFromCard(raw.id, DomOf(CreateRecipeCard(MapSpoonacularRecipe(raw), favorites))) == MapSpoonacularRecipe(raw)
    ensures RecipeFromCard(raw.id, DomOf(CreateRecipeCard(MapSpoonacularRecipe(raw), favorites))).instructions == InstructionsNotLoaded
  {
    var r := MapSpoonacularRecipe(raw);
    var used := OrEmpty(raw.usedIngredients);
    forall i | 0 <= i < |r.ingredients| ensures FitsCard(r.ingredients[i]) {
      if i >= |used| {
        assert r.ingredients[i] == OrEmpty(raw.missedIngredients)[i - |used|].name;
      }
    }
    PlaceholderTrimmed();
    CardRoundTrip(r, favorites);
  }

  /** In the favorites grid, where each card is judged against the list it came from, every button reads "Saved". */
  lemma {:induction false} FavoriteCardsShowSaved(favorites: seq<Recipe>)
    ensures forall i :: 0 <= i < |favorites| ==> CardsFor(favorites, favorites)[i].button.caption == SavedLabel
  {
    forall i | 0 <= i < |favorites| ensures IsFavorite(favorites, favorites[i].id) {
      assert favorites[i].id == favorites[i].id;
    }
  }
}
