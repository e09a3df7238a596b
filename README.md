# What Do I Cook: a verified model of the browser controller

This project models `script.js`, the browser-side controller of a small
recipe-search app, and proves properties of the model. The controller does
the following:

- It sends a trimmed ingredient query to a backend and turns each result
  into the app's own recipe record (`mapSpoonacularRecipe`).
- It renders result cards with a "Save to favorites" button.
- It keeps the favorites as one JSON list in `localStorage` under the key
  `wdic_favorites`.
- It opens a details modal with field fallbacks when a card is clicked.

The modules follow the parts of the script:

- `Wrappers`: the `Option` type. `Sequences`: a few generic sequence facts.
- `Text`: the JavaScript string operations the handlers rely on, with the
  semantics of ECMA-262:
  - `trim`, with the full WhiteSpace and LineTerminator sets of sections 12.2 and 12.3;
  - `split` on a one-character separator;
  - `Array.prototype.join`;
  - `indexOf` and `replace` with a string pattern;
  - the `x || fallback` test on optional strings.
- `Numbers`: `String(n)` for the integer ids the card template writes, and
  `parseInt(s, 10)` that the click handlers use to read them back (section
  19.2.5 of ECMA-262). NaN is `None`.
- `Recipes`: the recipe record, the search-result shape and `mapSpoonacularRecipe`.
- `Favorites`: storage as a map from key to stored value, with
  `loadFavorites` and `saveFavorites`. The favorites list is modelled as a
  sequence, with the `some`, `filter` and `push` operations of the save
  handler.
- `Cards`: what `createRecipeCard` renders and what the save handler reads
  back from it:
  - the card's text nodes, written literally with the template's line
    breaks and indentation;
  - the favorite button as a label and a set of CSS classes.
- `Details`: the fallbacks of `renderRecipeDetails` and the details modal
  as a class. Its fields are the visibility of its three regions and the
  content it shows.
- `Page`: these classes and the handlers that drive them:
  - `SearchView` (loading, error, results title and results grid);
  - `FavoritesView` (panel, toggle label, empty message and grid);
  - `App` (storage plus the three views).

  `App` holds the submit, save-click and card-click handlers.

## Model

| member | source | states |
|---|---|---|
| Favorites.LoadAfterSave | script.js:53-65 | loading right after `saveFavorites(xs)` yields exactly `xs`, and every other storage key is unchanged |
| Favorites.LoadFailsSoft | script.js:53-61 | a missing key or content that does not parse loads as the empty list |
| Favorites.IsFavorite | script.js:67-70 | `some(fav => fav.id === id)` holds exactly when some entry has that id |
| Favorites.RemoveById | script.js:262 | the filter keeps exactly the entries whose id differs, in their original order (a subsequence); the number removed is the number of entries with the id |
| Favorites.RemoveAbsent | script.js:262 | filtering out an id that no entry has returns the list unchanged |
| Favorites.RemoveKeepsUnique | script.js:262 | filtering a list that is unique by id leaves it unique by id |
| Favorites.ToggleRemovesPresent | script.js:257-271 | when the id is stored, the toggle leaves no entry with it, keeps the rest in order and loses no other entry |
| Favorites.ToggleAppendsAbsent | script.js:291-302 | when the id is absent, the toggle appends the candidate at the end and the result holds exactly one entry with the id |
| Favorites.ToggleKeepsUnique | script.js:257-302 | the toggle keeps the list unique by id |
| Favorites.ToggleFlips | script.js:257-302 | after the toggle the id is stored exactly when it was not stored before, and a list unique by id stays unique |
| Favorites.ToggleTwiceAbsent | script.js:257-302 | toggling an absent id twice gives back the original list |
| Favorites.ToggleTwicePresent | script.js:257-302 | toggling a stored id twice gives the list without the id, with the rebuilt record appended at the end (the order is not restored) |
| Recipes.MapSpoonacularRecipe | script.js:229-245 | keeps id and title; the ingredients are the used names followed by the missed names, each list in its own order, and a missing list counts as empty; the instructions are always the placeholder; the image is the placeholder URL exactly when the input has no image |
| Recipes.MapAll | script.js:372 | one recipe per search result, in order: the i-th is `mapSpoonacularRecipe` of the i-th result, so it keeps that result's id |
| Cards.FavoriteButton | script.js:113-117 | the button reads "Saved" and carries "btn-success" and "is-favorite" exactly for a favorite; otherwise it reads "Save to favorites" and carries "btn-outline-primary"; besides the fixed classes it carries no other class |
| Cards.Restyle | script.js:266-308 | after the click the label matches the new membership, "btn-success" and "is-favorite" are present exactly for a favorite and "btn-outline-primary" exactly for a non-favorite, whatever they were before; the button's other classes are untouched |
| Cards.RestyleMatchesRender | script.js:266-308 | restyling a rendered button gives the button a fresh render would show for the new membership |
| Cards.CreateRecipeCard | script.js:109-138 | the card carries the recipe's id, and its button shows favorite status exactly when the id is among the stored favorites |
| Cards.CardsFor | script.js:151-154 | one card per recipe, in order, with each card's id and title taken from its recipe and its button judged against the favorites |
| Cards.FavoriteCardsShowSaved | script.js:72-87 | every card in the favorites grid shows "Saved" |
| Cards.ParseIngredients | script.js:282-289 | blank text gives []; the result is never [""]; every piece it yields is comma-free and trimmed |
| Cards.CardInstructions | script.js:296-298 | the trimmed second paragraph when it is non-empty, otherwise the placeholder instructions; never empty and always trimmed |
| Cards.RecipeFromCard | script.js:274-299 | the rebuilt recipe has the given id; the title is the trimmed title text, or "Unknown recipe" without a title element; the image is the src, or the placeholder URL without an image; the ingredients are ParseIngredients and the instructions CardInstructions of the card texts; title and instructions are trimmed, the instructions are non-empty, and every ingredient fits a card |
| Cards.IngredientsRoundTrip | script.js:282-289 | parsing the ingredient paragraph written by `"Ingredients: " + join(", ")` gives back the list, for every list of comma-free trimmed names except [""] |
| Cards.SingleBlankNameIsLost | script.js:282-289 | the list [""] renders a blank line and is saved as [] |
| Cards.CardRoundTrip | script.js:274-299 | saving a rendered card rebuilds the same recipe when its title and instructions are trimmed, its instructions are non-empty and its ingredient names fit a card |
| Cards.RebuildIsStable | script.js:274-299 | a recipe rebuilt from any card is rebuilt unchanged from its own card |
| Cards.SearchCardSavesNormalised | script.js:274-299 | a favorite saved from a search-result card equals the normalised search recipe, so it carries the placeholder instructions |
| Text.Trim | script.js:278 | the result has no whitespace at either end and is no longer than the input; a string without such whitespace is returned unchanged |
| Text.TrimInfix | script.js:278 | the result of trim is an infix of the input with only whitespace around it |
| Text.TrimPadded | script.js:297 | trim removes exactly the whitespace padding around a trimmed string |
| Text.Split | script.js:288 | `split(",")` yields at least one piece; no piece holds the separator; joining the pieces with the separator gives the input back |
| Text.SplitJoinComma | script.js:288 | splitting a whitespace-led `join(", ")` of comma-free trimmed names on "," and trimming each piece gives the names back |
| Text.IndexOf | script.js:285 | returns the first position where the pattern occurs, or None when it occurs nowhere |
| Text.ReplaceAfterLead | script.js:285 | `replace` removes the label that follows a whitespace lead and keeps everything else |
| Numbers.ParseInt | script.js:324 | NaN exactly when no digit follows the optional sign after the leading whitespace; otherwise the magnitude is the value of the run of digits read there, and the sign of the result follows the sign read |
| Numbers.ParseIntOfDecimal | script.js:255 | parseInt reads back every integer that the template wrote with String(n) |
| Details.IngredientLine | script.js:203 | `original` when present, else `name` when present, else ""; the line is empty exactly when both are missing |
| Details.IngredientLines | script.js:199-206 | no items when extendedIngredients is not an array; otherwise one item per element, in order |
| Details.AppendItems | script.js:200-206 | the forEach loop appends exactly the items IngredientLines describes |
| Details.InstructionsFor | script.js:209-216 | instructions markup when present, otherwise summary markup, otherwise the "No detailed instructions available" text; markup appears exactly when one of the two is present |
| Details.SourceFor | script.js:219-225 | a source link appears exactly when sourceName or sourceUrl is present; the missing part falls back to "Source" or "#", so neither part is empty |
| Details.RenderedView | script.js:192-226 | the title doubles as heading and alt text, with fallbacks "Recipe details" and "Recipe image"; a missing image gives the 800x400 placeholder; no shown text is empty |
| Details.RequestedId | script.js:321-325 | an id is requested exactly when the attribute is present and non-empty and parseInt of it is neither NaN nor 0 |
| Details.CardIdRequested | script.js:321-325 | clicking a rendered card requests that card's own id, unless the id is 0 |
| Details.DetailsModal.constructor | script.js:12-15 | the modal starts closed with empty content and the given region visibility |
| Details.DetailsModal.Reset | script.js:186-190 | all three regions are hidden and nothing else changes |
| Details.DetailsModal.RenderDetails | script.js:192-226 | the content fields become RenderedView of the response; visibility is untouched |
| Details.DetailsModal.Open | script.js:318-332 | without an acceptable id nothing changes; otherwise loading alone is visible, the modal is shown and the parsed id is the one requested |
| Details.DetailsModal.Resolve | script.js:334-343 | exactly one region is visible afterwards: content for a loaded response (rendering it, whichever request it answers), error for a failure (leaving the old content hidden) |
| Page.FailureMessage | script.js:365-381 | a failed request ends with the generic "Something went wrong" message; an empty list or a null body ends with "No recipes found" |
| Page.AppendCards | script.js:151-154 | the forEach loop builds exactly CardsFor of its list |
| Page.ToggleList | script.js:260-301 | the handler's filter-or-push update is the Toggle of the stored list |
| Page.SearchView.constructor | script.js:4-8 | the search area starts with no region shown and no cards |
| Page.SearchView.ShowLoading | script.js:27-29 | the loading region is shown and nothing else changes |
| Page.SearchView.HideLoading | script.js:31-33 | the loading region is hidden and nothing else changes |
| Page.SearchView.ShowError | script.js:35-38 | the message is set and the error region shown; nothing else changes |
| Page.SearchView.ClearError | script.js:40-43 | the error region is hidden with an empty message; nothing else changes |
| Page.SearchView.ClearResults | script.js:45-48 | no cards and no results title; nothing else changes |
| Page.SearchView.SetButton | script.js:266-308 | the clicked results card gets the restyled button; every other card and every region of the search area stays as it was |
| Page.SearchView.RenderRecipes | script.js:141-155 | the grid becomes CardsFor of the recipes against the stored favorites; the title is shown exactly for a non-empty list; an empty list shows "No recipes found"; loading is untouched |
| Page.FavoritesView.constructor | script.js:9-21 | the panel starts hidden with the label "Show favorites" and the empty message shown, as assumed (see ## Left out) |
| Page.FavoritesView.Render | script.js:72-87 | the grid becomes one card per stored favorite, in stored order; the empty message is shown exactly when none is stored; the panel is untouched |
| Page.FavoritesView.TogglePanel | script.js:90-100 | the panel flips and afterwards the label names the action it offers ("Hide favorites" while shown) |
| Page.App.constructor | script.js:385-386 | at page load the favorites grid is rendered from storage |
| Page.App.OnSubmit | script.js:347-359 | blank input (after trim) shows only "Please enter at least one ingredient.", sends no query and leaves loading as it was; otherwise loading is shown without an error and the trimmed text is the query; results are cleared either way |
| Page.App.OnSearchResponse | script.js:361-382 | loading is hidden; a non-empty list renders one card per normalised recipe in order; otherwise an error message is shown and no card is added |
| Page.App.Search | script.js:347-383 | a whole search: blank input shows only the validation message, no cards and no results title, and leaves loading as it was; once a query was sent loading is hidden; success shows one card per result in order, the results title and no error (empty message); any empty or failed outcome shows an error and no cards |
| Page.App.Candidate | script.js:291-299 | the record the add branch pushes carries the clicked card's id |
| Page.App.SaveToggled | script.js:255-303 | storage holds the toggled list; the id's membership flips; uniqueness by id is kept; the favorites grid is re-rendered from the new list, with the empty message shown exactly when it is empty; the panel and its label are untouched |
| Page.App.OnSaveClick | script.js:248-309 | the storage half as in SaveToggled, with the re-rendered grid and empty message; the clicked button is restyled to the new membership; a results-grid card keeps the restyled button and no other card changes; the search regions, results title, panel and label are untouched |
| Page.App.OnCardClick | script.js:312-332 | clicking a card opens the modal in its loading state for that card's id; for id 0 the regions and the modal stay as they were; the content is untouched either way |

## Left out

- The network: `fetchRecipesByIngredients` and `fetchRecipeDetails` (script.js:158-184) are not modelled. What an awaited request settles to is a parameter: `SearchResponse` and `DetailResponse`. The URL building and `API_BASE_URL` are left out with them, and so is `backend/server.js`.
- JSON and `localStorage` internals: storage is a map from key to a stored recipe list or to content that does not parse. Stored JSON that parses to something other than a list of recipes (`null`, a number, an object) is not modelled. The code would throw on some of those.
- HTML: markup strings, `innerHTML` and CSS-class mechanics are not modelled. The model keeps only the visibility flags, the chosen strings and the card's text nodes. Instructions and summaries in the details modal are carried as opaque markup strings.
- Cards.CreateRecipeCard: takes each text node of the card to be the interpolated string, character for character, and the image src to be the attribute text. The script assigns the template through `innerHTML` (script.js:119-135), so a browser first parses it as HTML: an entity such as `&amp;` reads back as `&`, a tag such as `<b>x</b>` reads back as `x`, and `imgEl.src` (script.js:279) returns the resolved URL. `Cards.CardRoundTrip`, `Cards.IngredientsRoundTrip`, `Cards.RebuildIsStable` and `Cards.SearchCardSavesNormalised` therefore hold for the script only for titles, ingredient names and instructions without `<` or `&`, and for images given as absolute, already normalised URLs.
- Cards.FavoriteButton: the label is the bare word. The rendered button's text node also carries the template's line break and indentation around it (script.js:130-132), while the click handler sets the bare word (script.js:269, 308). `Cards.RestyleMatchesRender` is therefore equality of label and classes up to that whitespace, not of the text node.
- DOM traversal (`closest`, `querySelector`): a click is given as the grid and the index of the card it lands on.
- Bootstrap's `Modal`: only "the modal is shown" is kept. Closing the modal and `console.error` are not modelled.
- Asynchrony: each handler runs to completion, and the continuation after an await is a separate method (`OnSearchResponse`, `DetailsModal.Resolve`). Other events between the two halves are not modelled.
- Exceptions thrown while handling a response are modelled through the failure responses, and for two of them that is exact:
  - a `null` entry in a search result's ingredient list throws inside `apiRecipes.map` (script.js:235, 372) before `hideLoading`, and the catch ends as `RequestFailed` does;
  - a details body of `null` throws at `data.title` (script.js:194) before any write, and the catch ends as `DetailFailed` does: the error region alone is shown and the content is untouched.
- A `null` element of `extendedIngredients` is not captured exactly. Before `ing.original` throws (script.js:203), the title, image, alt text and the list items before that element are already written into the hidden content region (script.js:194-204). `Details.DetailsModal.Resolve` with `DetailFailed` keeps the old content instead.
- Number limits: ids are unbounded integers. `String(n)` switches to exponent notation from 10^21, and `parseInt` rounds beyond 2^53; the model does not capture either. A save button whose data-id is not a number cannot occur on rendered cards, so it is not modelled.
- Search records are modelled with a string title. An absent title, which the template would show as "undefined", is not modelled. Neither is an ingredient without a `name`: `ing.name` is then undefined (script.js:235), and `join(", ")` renders it as "" (script.js:125); `Recipes.SearchIngredient` always carries a string name.
- The initial markup (`index.html`) is not part of this model. The constructors assume that no region is shown and that the favorites panel is closed, with the label "Show favorites" and its empty message shown. Only the panel and its label have support in the script: the start-up code that would open the panel is commented out (script.js:102-106).
- `isFavorite` (script.js:67-70) is never called by the script. It is modelled as `IsFavorite` over the loaded list.
- Details.DetailsModal.Resolve: renders whichever details response arrives. The script discards none, not even a response to an earlier card click, so the model states no such property.

## Notes on the behaviour of the script

- Toggling an id twice restores the original list only when the id was absent. For a stored id the record comes back at the end, rebuilt from the card (`Favorites.ToggleTwicePresent`).
- A save click in the favorites grid re-renders that grid but leaves every results-grid card as it was (`Page.App.OnSaveClick`, last clause). A results card for the same recipe then still reads "Saved" after the favorite was removed. Its next click adds the recipe back.
- The ingredient round trip holds for comma-free trimmed names, under the text-node assumption stated under "## Left out". The one exception is the list [""], which is saved as [] (`Cards.SingleBlankNameIsLost`). A name containing a comma is split in two.
