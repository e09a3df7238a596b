/**
 * The recipe details modal: the field fallbacks renderRecipeDetails
 * applies to the details response, and the three regions of the modal
 * (loading, content, error) that the card-click handler switches between.
 */
module Details {
  import opened Wrappers
  import opened Text
  import opened Numbers

  /** An element of extendedIngredients; both texts may be absent or empty. */
  datatype ExtendedIngredient = ExtendedIngredient(original: Option<string>, name: Option<string>)

  /**
   * The details response as renderRecipeDetails reads it. extendedIngredients
   * is None when the field is not an array.
   */
  datatype RecipeDetail = RecipeDetail(
    title: Option<string>,
    image: Option<string>,
    extendedIngredients: Option<seq<ExtendedIngredient>>,
    instructions: Option<string>,
    summary: Option<string>,
    sourceName: Option<string>,
    sourceUrl: Option<string>)

  const DefaultTitle := "Recipe details"
  const DefaultAlt := "Recipe image"
  const NoDetailImageUrl := "https://placehold.co/800x400?text=No+Image"
  const NoInstructions := "No detailed instructions available for this recipe."
  const DefaultSourceName := "Source"
  const DefaultSourceUrl := "#"

  /** The instructions region holds either markup from the response or a fixed plain text. */
  datatype InstructionsView = Markup(html: string) | PlainText(text: string)

  /** The source line: empty, or a link with a name and a target. */
  datatype SourceView = NoSource | SourceLink(name: string, url: string)

  /** Everything renderRecipeDetails writes into the content region. */
  datatype DetailView = DetailView(
    title: string,
    imageSrc: string,
    imageAlt: string,
    ingredients: seq<string>,
    instructions: InstructionsView,
    source: SourceView)

  /** `ing.original || ing.name || ""`. */
  function IngredientLine(ing: ExtendedIngredient): (line: string)
    ensures Present(ing.original) ==> line == ing.original.value
    ensures !Present(ing.original) && Present(ing.name) ==> line == ing.name.value
    ensures line == "" <==> !Present(ing.original) && !Present(ing.name)
  {
    OrElse(ing.original, OrElse(ing.name, ""))
  }

  /** The list items: one per element, in order, when extendedIngredients is an array; none otherwise. */
  function IngredientLines(list: Option<seq<ExtendedIngredient>>): (lines: seq<string>)
    ensures list.None? ==> lines == []
    ensures list.Some? ==> |lines| == |list.value|
    ensures list.Some? ==> forall i :: 0 <= i < |list.value| ==> lines[i] == IngredientLine(list.value[i])
  {
    if list.None? then []
    else seq(|list.value|, i requires 0 <= i < |list.value| => IngredientLine(list.value[i]))
  }

  /** Instructions when present, otherwise the summary, otherwise the fixed notice as plain text. */
  function InstructionsFor(data: RecipeDetail): (v: InstructionsView)
    ensures v.Markup? <==> Present(data.instructions) || Present(data.summary)
    ensures Present(data.instructions) ==> v == Markup(data.instructions.value)
    ensures !Present(data.instructions) && Present(data.summary) ==> v == Markup(data.summary.value)
    ensures v.PlainText? ==> v.text == NoInstructions
  {
    if Present(data.instructions) then Markup(data.instructions.value)
    else if Present(data.summary) then Markup(data.summary.value)
    else PlainText(NoInstructions)
  }

  /**
   * A source link exactly when a source name or URL is present; the missing
   * one falls back to "Source" or "#", so neither part of a link is empty.
   */
  function SourceFor(data: RecipeDetail): (v: SourceView)
    ensures v.SourceLink? <==> Present(data.sourceName) || Present(data.sourceUrl)
    ensures v.SourceLink? ==> v.name != "" && v.url != ""
    ensures v.SourceLink? && Present(data.sourceName) ==> v.name == data.sourceName.value
    ensures v.SourceLink? && !Present(data.sourceName) ==> v.name == DefaultSourceName
    ensures v.SourceLink? && Present(data.sourceUrl) ==> v.url == data.sourceUrl.value
    ensures v.SourceLink? && !Present(data.sourceUrl) ==> v.url == DefaultSourceUrl
  {
    if Present(data.sourceName) || Present(data.sourceUrl) then
      SourceLink(OrElse(data.sourceName, DefaultSourceName), OrElse(data.sourceUrl, DefaultSourceUrl))
    else
      NoSource
  }

  /**
   * renderRecipeDetails as a value: the title serves as heading and image
   * alt text, with their own fallbacks, and no shown text is ever empty.
   */
  function RenderedView(data: RecipeDetail): (v: DetailView)
    ensures v.title != "" && v.imageSrc != "" && v.imageAlt != ""
    ensures Present(data.title) ==> v.title == data.title.value && v.imageAlt == data.title.value
    ensures !Present(data.title) ==> v.title == DefaultTitle && v.imageAlt == DefaultAlt
    ensures Present(data.image) ==> v.imageSrc == data.image.value
    ensures !Present(data.image) ==> v.imageSrc == NoDetailImageUrl
    ensures v.ingredients == IngredientLines(data.extendedIngredients)
    ensures v.instructions == InstructionsFor(data) && v.source == SourceFor(data)
  {
    DetailView(
      OrElse(data.title, DefaultTitle),
      OrElse(data.image, NoDetailImageUrl),
      OrElse(data.title, DefaultAlt),
      IngredientLines(data.extendedIngredients),
      InstructionsFor(data),
      SourceFor(data))
  }

  /**
   * The id the details handler accepts from a card's data-recipe-id
   * attribute: the attribute must be present and non-empty, and parseInt
   * of it must be neither NaN nor 0.
   */
  function RequestedId(idAttr: Option<string>): (id: Option<int>)
    ensures id.Some? <==> Present(idAttr) && ParseInt(idAttr.value).Some? && ParseInt(idAttr.value).value != 0
    ensures id.Some? ==> id == ParseInt(idAttr.value)
  {
    if !Present(idAttr) then None
    else
      var parsed := ParseInt(idAttr.value);
      if parsed.Some? && parsed.value != 0 then parsed else None
  }

  /** What the awaited details request produced: a body, or a failure of the request or of rendering. */
  datatype DetailResponse = Loaded(detail: RecipeDetail) | DetailFailed

  // ---------------------------------------------------------------------
  // Lemmas

  /** A card's rendered id opens the details for that same id, unless the id is 0. */
  lemma {:induction false} CardIdRequested(recipeId: int)
    ensures RequestedId(Some(IntToDecimal(recipeId))) == (if recipeId == 0 then None else Some(recipeId))
  {
    ParseIntOfDecimal(recipeId);
  }

  /** The forEach loop of renderRecipeDetails: one list item per ingredient, in order. */
  method AppendItems(list: seq<ExtendedIngredient>) returns (items: seq<string>)
    ensures items == IngredientLines(Some(list))
  {
    items := [];
    var i := 0;
    while i < |list|
      invariant 0 <= i <= |list|
      invariant |items| == i
      invariant forall k :: 0 <= k < i ==> items[k] == IngredientLine(list[k])
    {
      items := items + [IngredientLine(list[i])];
      i := i + 1;
    }
  }

  /**
   * The modal's state: the visibility of its three regions, whether the
   * modal has been opened, and what the content region shows.
   */
  class DetailsModal {
    var loadingVisible: bool
    var contentVisible: bool
    var errorVisible: bool
    var isShown: bool
    var title: string
    var imageSrc: string
    var imageAlt: string
    var ingredientItems: seq<string>
    var instructions: InstructionsView
    var source: SourceView

    /** The content region's fields as one value. */
    function View(): DetailView
      reads this
    {
      DetailView(title, imageSrc, imageAlt, ingredientItems, instructions, source)
    }

    /** Exactly one of the three regions is visible. */
    predicate ExactlyOneRegion()
      reads this
    {
      (if loadingVisible then 1 else 0) + (if contentVisible then 1 else 0) + (if errorVisible then 1 else 0) == 1
    }

    /** The modal as the page markup provides it: hidden, with the given regions visible and empty content. */
    constructor (loading: bool, content: bool, error: bool)
      ensures loadingVisible == loading && contentVisible == content && errorVisible == error
      ensures !isShown
      ensures View() == DetailView("", "", "", [], PlainText(""), NoSource)
    {
      loadingVisible, contentVisible, errorVisible := loading, content, error;
      isShown := false;
      title, imageSrc, imageAlt := "", "", "";
      ingredientItems := [];
      instructions := PlainText("");
      source := NoSource;
    }

    /** resetDetailsModalState: all three regions hidden, nothing else touched. */
    method Reset()
      modifies this
      ensures !loadingVisible && !contentVisible && !errorVisible
      ensures isShown == old(isShown) && View() == old(View())
    {
      loadingVisible := false;
      contentVisible := false;
      errorVisible := false;
    }

    /**
     * renderRecipeDetails: each field set from the response or its fallback;
     * the list is cleared and one item appended per ingredient.
     */
    method RenderDetails(data: RecipeDetail)
      modifies this
      ensures View() == RenderedView(data)
      ensures loadingVisible == old(loadingVisible) && contentVisible == old(contentVisible)
      ensures errorVisible == old(errorVisible) && isShown == old(isShown)
    {
      title := OrElse(data.title, DefaultTitle);
      imageSrc := OrElse(data.image, NoDetailImageUrl);
      imageAlt := OrElse(data.title, DefaultAlt);
      ingredientItems := [];
      if data.extendedIngredients.Some? {
        ingredientItems := AppendItems(data.extendedIngredients.value);
      }
      instructions := InstructionsFor(data);
      source := SourceFor(data);
    }

    /**
     * The first half of the card-click handler, given the card's
     * data-recipe-id attribute: without an acceptable id nothing changes;
     * otherwise the regions are reset, loading alone is shown, the modal is
     * opened and the id to request is returned.
     */
    method Open(idAttr: Option<string>) returns (request: Option<int>)
      modifies this
      ensures request == RequestedId(idAttr)
      ensures request.None? ==> loadingVisible == old(loadingVisible) && contentVisible == old(contentVisible)
                                && errorVisible == old(errorVisible) && isShown == old(isShown)
      ensures request.Some? ==> loadingVisible && !contentVisible && !errorVisible && isShown
      ensures View() == old(View())
    {
      request := RequestedId(idAttr);
      if request.Some? {
        Reset();
        loadingVisible := true;
        isShown := true;
      }
    }

    /**
     * The second half, once the request settles: the regions are reset, then
     * the rendered content is shown on success and the error region on
     * failure. A failure leaves the previous content in the hidden region.
     */
    method Resolve(response: DetailResponse)
      modifies this
      ensures ExactlyOneRegion()
      ensures contentVisible <==> response.Loaded?
      ensures errorVisible <==> response.DetailFailed?
      ensures response.Loaded? ==> View() == RenderedView(response.detail)
      ensures response.DetailFailed? ==> View() == old(View())
      ensures isShown == old(isShown)
    {
      Reset();
      match response {
        case Loaded(detail) =>
          RenderDetails(detail);
          contentVisible := true;
        case DetailFailed =>
          errorVisible := true;
      }
    }
  }
}
