/**
 * The page controller: the search results area with its loading and error
 * regions, the favorites panel, and the handlers that drive them (the
 * search form's submit, the save-button click, the card click that opens
 * the details modal). The network requests are not part of this model:
 * what an awaited request settles to is a parameter of the handler that
 * continues after it.
 */
module Page {
  import opened Wrappers
  import opened Text
  import opened Numbers
  import opened Recipes
  import opened Favorites
  import opened Cards
  import opened Details

  const EnterIngredients := "Please enter at least one ingredient."
  const NoRecipesFound := "No recipes found. Try different ingredients."
  const SearchFailed := "Something went wrong while fetching recipes. Please try again later."
  const ShowFavoritesLabel := "Show favorites"
  const HideFavoritesLabel := "Hide favorites"

  /**
   * What the awaited search request produced: a list of search-shape
   * recipes, a body that is null, or a failure (a response that is not ok,
   * a body that is not JSON).
   */
  datatype SearchResponse = Found(items: seq<SearchRecipe>) | NoBody | RequestFailed

  /** The response that leads to cards being shown: a non-empty list. */
  predicate HasResults(response: SearchResponse)
  {
    response.Found? && response.items != []
  }

  /** The message a search that shows no cards ends with. */
  function FailureMessage(response: SearchResponse): (message: string)
    ensures message == SearchFailed <==> response.RequestFailed?
    ensures message == NoRecipesFound <==> !response.RequestFailed?
  {
    if response.RequestFailed? then SearchFailed else NoRecipesFound
  }

  /**
   * The forEach loop of renderRecipes and renderFavorites: one card per
   * recipe appended to the cleared grid, in order, every button judged
   * against the same favorites.
   */
  method AppendCards(recipes: seq<Recipe>, favorites: seq<Recipe>) returns (grid: seq<Card>)
    ensures grid == CardsFor(recipes, favorites)
  {
    grid := [];
    var i := 0;
    while i < |recipes|
      invariant 0 <= i <= |recipes|
      invariant |grid| == i
      invariant forall k :: 0 <= k < i ==> grid[k] == CreateRecipeCard(recipes[k], favorites)
    {
      grid := grid + [CreateRecipeCard(recipes[i], favorites)];
      i := i + 1;
    }
  }

  /**
   * The list update of the save handler: `favorites.filter(...)` when the
   * id is stored, `favorites.push(candidate)` otherwise.
   */
  method ToggleList(favorites: seq<Recipe>, id: int, candidate: Recipe) returns (updated: seq<Recipe>)
    ensures updated == Toggle(favorites, id, candidate)
  {
    updated := favorites;
    if IsFavorite(updated, id) {
      updated := RemoveById(updated, id);
    } else {
      updated := updated + [candidate];
    }
  }

  /** The search results area: the loading and error regions, the results title and the results grid. */
  class SearchView {
    var loadingVisible: bool
    var errorVisible: bool
    var errorMessage: string
    var resultsTitleVisible: bool
    var results: seq<Card>

    /** The area as the page starts: nothing shown and no cards. */
    constructor ()
      ensures !loadingVisible && !errorVisible && errorMessage == ""
      ensures !resultsTitleVisible && results == []
    {
      loadingVisible, errorVisible, errorMessage := false, false, "";
      resultsTitleVisible, results := false, [];
    }

    /** showLoading. */
    method ShowLoading()
      modifies this
      ensures loadingVisible
      ensures errorVisible == old(errorVisible) && errorMessage == old(errorMessage)
      ensures resultsTitleVisible == old(resultsTitleVisible) && results == old(results)
    {
      loadingVisible := true;
    }

    /** hideLoading. */
    method HideLoading()
      modifies this
      ensures !loadingVisible
      ensures errorVisible == old(errorVisible) && errorMessage == old(errorMessage)
      ensures resultsTitleVisible == old(resultsTitleVisible) && results == old(results)
    {
      loadingVisible := false;
    }

    /** showError: the message is set and the error region shown. */
    method ShowError(message: string)
      modifies this
      ensures errorVisible && errorMessage == message
      ensures loadingVisible == old(loadingVisible)
      ensures resultsTitleVisible == old(resultsTitleVisible) && results == old(results)
    {
      errorMessage := message;
      errorVisible := true;
    }

    /** clearError: the error region hidden and its message emptied. */
    method ClearError()
      modifies this
      ensures !errorVisible && errorMessage == ""
      ensures loadingVisible == old(loadingVisible)
      ensures resultsTitleVisible == old(resultsTitleVisible) && results == old(results)
    {
      errorVisible := false;
      errorMessage := "";
    }

    /** clearResults: no cards and no results title. */
    method ClearResults()
      modifies this
      ensures results == [] && !resultsTitleVisible
      ensures loadingVisible == old(loadingVisible)
      ensures errorVisible == old(errorVisible) && errorMessage == old(errorMessage)
    {
      results := [];
      resultsTitleVisible := false;
    }

    /** The save handler's restyle of the clicked button, on a card of the results grid; nothing else changes. */
    method SetButton(index: nat, pressed: ButtonState)
      requires index < |results|
      modifies this
      ensures results == old(results)[index := old(results)[index].(button := pressed)]
      ensures loadingVisible == old(loadingVisible) && resultsTitleVisible == old(resultsTitleVisible)
      ensures errorVisible == old(errorVisible) && errorMessage == old(errorMessage)
    {
      results := results[index := results[index].(button := pressed)];
    }

    /**
     * renderRecipes: the grid is cleared; an empty list shows the
     * "No recipes found" error, otherwise the title is shown and one card
     * per recipe is appended, in order, each button judged against the
     * stored favorites.
     */
    method RenderRecipes(recipes: seq<Recipe>, storage: Storage)
      modifies this
      ensures results == CardsFor(recipes, Load(storage))
      ensures resultsTitleVisible <==> recipes != []
      ensures recipes == [] ==> errorVisible && errorMessage == NoRecipesFound
      ensures recipes != [] ==> errorVisible == old(errorVisible) && errorMessage == old(errorMessage)
      ensures loadingVisible == old(loadingVisible)
    {
      ClearResults();
      if recipes == [] {
        ShowError(NoRecipesFound);
        return;
      }
      resultsTitleVisible := true;
      results := AppendCards(recipes, Load(storage));
    }
  }

  /** The favorites panel: its visibility, the toggle button's label, the empty message and the grid. */
  class FavoritesView {
    var panelVisible: bool
    var toggleLabel: string
    var emptyMessageVisible: bool
    var cards: seq<Card>

    /** The toggle button names the action it offers. */
    predicate LabelMirrors()
      reads this
    {
      toggleLabel == (if panelVisible then HideFavoritesLabel else ShowFavoritesLabel)
    }

    /** The panel as the page starts: hidden, offering "Show favorites", the empty message shown. */
    constructor ()
      ensures !panelVisible && toggleLabel == ShowFavoritesLabel && LabelMirrors()
      ensures emptyMessageVisible && cards == []
    {
      panelVisible, toggleLabel := false, ShowFavoritesLabel;
      emptyMessageVisible, cards := true, [];
    }

    /**
     * renderFavorites: the grid is cleared; with no stored favorites the
     * empty message is shown, otherwise it is hidden and one card per
     * favorite is appended, in stored order.
     */
    method Render(storage: Storage)
      modifies this
      ensures cards == CardsFor(Load(storage), Load(storage))
      ensures emptyMessageVisible <==> Load(storage) == []
      ensures panelVisible == old(panelVisible) && toggleLabel == old(toggleLabel)
    {
      var favorites := Load(storage);
      cards := [];
      if favorites == [] {
        emptyMessageVisible := true;
        return;
      }
      emptyMessageVisible := false;
      cards := AppendCards(favorites, favorites);
    }

    /** The toggle button's click: the panel flips and the label follows it. */
    method TogglePanel()
      modifies this
      ensures panelVisible == !old(panelVisible)
      ensures LabelMirrors()
      ensures emptyMessageVisible == old(emptyMessageVisible) && cards == old(cards)
    {
      if panelVisible {
        panelVisible := false;
        toggleLabel := ShowFavoritesLabel;
      } else {
        panelVisible := true;
        toggleLabel := HideFavoritesLabel;
      }
    }
  }

  /** The page: the storage and the three parts of the interface. */
  class App {
    var storage: Storage
    const search: SearchView
    const favorites: FavoritesView
    const details: DetailsModal

    /** Page load: the parts as the markup provides them, then renderFavorites from storage. */
    constructor (initial: Storage)
      ensures storage == initial && fresh(search) && fresh(favorites) && fresh(details)
      ensures favorites.cards == CardsFor(Load(initial), Load(initial))
      ensures favorites.emptyMessageVisible <==> Load(initial) == []
      ensures !favorites.panelVisible && favorites.LabelMirrors()
      ensures !search.loadingVisible && !search.errorVisible && search.results == []
      ensures !details.isShown
    {
      storage := initial;
      search := new SearchView();
      favorites := new FavoritesView();
      details := new DetailsModal(false, false, false);
      new;
      favorites.Render(storage);
    }

    /**
     * The submit handler up to the request: the error and the results are
     * cleared and the input trimmed; blank input shows the validation
     * message and stops there, leaving the loading region as it was;
     * otherwise loading is shown and the trimmed text is the query to send.
     */
    method OnSubmit(input: string) returns (query: Option<string>)
      modifies search
      ensures query.None? <==> Trim(input) == ""
      ensures query.Some? ==> query.value == Trim(input)
      ensures search.results == [] && !search.resultsTitleVisible
      ensures query.None? ==> search.errorVisible && search.errorMessage == EnterIngredients
                              && search.loadingVisible == old(search.loadingVisible)
      ensures query.Some? ==> search.loadingVisible && !search.errorVisible && search.errorMessage == ""
    {
      search.ClearError();
      search.ClearResults();
      var ingredients := Trim(input);
      if ingredients == "" {
        search.ShowError(EnterIngredients);
        return None;
      }
      search.ShowLoading();
      return Some(ingredients);
    }

    /**
     * The rest of the submit handler, once the request settles: loading is
     * hidden; a non-empty list is normalised and rendered; an empty list or
     * a null body shows "No recipes found", a failure the generic message.
     */
    method OnSearchResponse(response: SearchResponse)
      modifies search
      ensures !search.loadingVisible
      ensures HasResults(response) ==> search.results == CardsFor(MapAll(response.items), Load(storage))
                                       && search.resultsTitleVisible
                                       && search.errorVisible == old(search.errorVisible)
                                       && search.errorMessage == old(search.errorMessage)
      ensures !HasResults(response) ==> search.errorVisible && search.errorMessage == FailureMessage(response)
                                        && search.results == old(search.results)
                                        && search.resultsTitleVisible == old(search.resultsTitleVisible)
    {
      match response {
        case Found(items) =>
          if items == [] {
            search.HideLoading();
            search.ShowError(NoRecipesFound);
            return;
          }
          var recipes := MapAll(items);
          search.HideLoading();
          search.RenderRecipes(recipes, storage);
        case NoBody =>
          search.HideLoading();
          search.ShowError(NoRecipesFound);
        case RequestFailed =>
          search.HideLoading();
          search.ShowError(SearchFailed);
      }
    }

    /**
     * A whole search, the request settling to `response` when one is sent:
     * blank input is rejected before any request; afterwards loading is
     * hidden; a search that shows no cards shows an error instead, and one
     * that finds recipes shows one card per recipe, in order, and no error.
     */
    method Search(input: string, response: SearchResponse) returns (query: Option<string>)
      modifies search
      ensures query.None? <==> Trim(input) == ""
      ensures query.None? ==> search.errorVisible && search.errorMessage == EnterIngredients
                              && search.results == [] && !search.resultsTitleVisible
                              && search.loadingVisible == old(search.loadingVisible)
      ensures query.Some? ==> !search.loadingVisible
      ensures query.Some? && HasResults(response) ==>
                search.results == CardsFor(MapAll(response.items), Load(storage))
                && search.resultsTitleVisible && !search.errorVisible && search.errorMessage == ""
      ensures query.Some? && !HasResults(response) ==>
                search.results == [] && !search.resultsTitleVisible
                && search.errorVisible && search.errorMessage == FailureMessage(response)
    {
      query := OnSubmit(input);
      if query.Some? {
        OnSearchResponse(response);
      }
    }

    /** The card a click lands on: one of the favorites grid or one of the results grid. */
    function ClickedCard(inFavorites: bool, index: nat): Card
      reads this, favorites, search
      requires if inFavorites then index < |favorites.cards| else index < |search.results|
    {
      if inFavorites then favorites.cards[index] else search.results[index]
    }

    /** The recipe the save handler stores for a card that is not yet a favorite. */
    function Candidate(card: Card): (r: Recipe)
      ensures r.id == card.recipeId
    {
      RecipeFromCard(card.recipeId, DomOf(card))
    }

    /**
     * The storage half of the save-button click on `card`: the id is read
     * back from the button's data-id; the stored list is toggled (filtered
     * when the id is stored, the recipe rebuilt from the card pushed
     * otherwise) and saved; the favorites grid is rendered again. The
     * result is the new membership of the id, the opposite of the old one,
     * and a list unique by id stays unique.
     */
    method SaveToggled(card: Card) returns (nowFavorite: bool)
      modifies this, favorites
      ensures storage == Saved(old(storage), Toggle(Load(old(storage)), card.recipeId, Candidate(card)))
      ensures nowFavorite <==> IsFavorite(Load(storage), card.recipeId)
      ensures nowFavorite <==> !IsFavorite(Load(old(storage)), card.recipeId)
      ensures UniqueIds(Load(old(storage))) ==> UniqueIds(Load(storage))
      ensures favorites.cards == CardsFor(Load(storage), Load(storage))
      ensures favorites.emptyMessageVisible <==> Load(storage) == []
      ensures favorites.panelVisible == old(favorites.panelVisible) && favorites.toggleLabel == old(favorites.toggleLabel)
    {
      var parsed := ParseInt(IntToDecimal(card.recipeId));
      ParseIntOfDecimal(card.recipeId);
      var id := parsed.value;
      var before := Load(storage);
      var candidate := Candidate(card);
      ToggleFlips(before, id, candidate);
      var list := ToggleList(before, id, candidate);
      storage := Saved(storage, list);
      LoadAfterSave(old(storage), list);
      nowFavorite := IsFavorite(list, id);
      favorites.Render(storage);
    }

    /**
     * The save-button click on a card of either grid: the storage is
     * toggled as SaveToggled states, and the clicked button is restyled to
     * the new membership. A card of the results grid keeps the restyled
     * button; one of the favorites grid was replaced by the new render.
     */
    method OnSaveClick(inFavorites: bool, index: nat) returns (pressed: ButtonState)
      requires if inFavorites then index < |favorites.cards| else index < |search.results|
      modifies this, favorites, search
      ensures var card := old(ClickedCard(inFavorites, index));
              storage == Saved(old(storage), Toggle(Load(old(storage)), card.recipeId, Candidate(card)))
              && pressed == Restyle(card.button, IsFavorite(Load(storage), card.recipeId))
      ensures favorites.cards == CardsFor(Load(storage), Load(storage))
      ensures favorites.emptyMessageVisible <==> Load(storage) == []
      ensures favorites.panelVisible == old(favorites.panelVisible) && favorites.toggleLabel == old(favorites.toggleLabel)
      ensures search.loadingVisible == old(search.loadingVisible) && search.errorVisible == old(search.errorVisible)
      ensures search.errorMessage == old(search.errorMessage)
      ensures search.resultsTitleVisible == old(search.resultsTitleVisible)
      ensures !inFavorites ==> search.results == old(search.results)[index := old(search.results)[index].(button := pressed)]
      ensures inFavorites ==> search.results == old(search.results)
    {
      var card := ClickedCard(inFavorites, index);
      var nowFavorite := SaveToggled(card);
      pressed := Restyle(card.button, nowFavorite);
      if !inFavorites {
        search.SetButton(index, pressed);
      }
    }

    /**
     * The card click outside the save button: the details modal opens with
     * the id of the card, read back from its data-recipe-id, unless it is 0.
     */
    method OnCardClick(inFavorites: bool, index: nat) returns (request: Option<int>)
      requires if inFavorites then index < |favorites.cards| else index < |search.results|
      modifies details
      ensures var id := ClickedCard(inFavorites, index).recipeId;
              request == (if id == 0 then None else Some(id))
      ensures request.Some? ==> details.loadingVisible && !details.contentVisible && !details.errorVisible
                                && details.isShown
      ensures request.None? ==> details.loadingVisible == old(details.loadingVisible)
                                && details.contentVisible == old(details.contentVisible)
                                && details.errorVisible == old(details.errorVisible)
                                && details.isShown == old(details.isShown)
      ensures details.View() == old(details.View())
    {
      var id := ClickedCard(inFavorites, index).recipeId;
      CardIdRequested(id);
      request := details.Open(Some(IntToDecimal(id)));
    }
  }
}
