/** The coffee recipe explorer: one fetch of the recipe list on mount, the
    loading / error / data outcome of that fetch, the render selection between
    spinner, error panel and card grid, and the rule that turns an ingredient
    string carrying a `*` marker into an "optional" label.

    The fetch result is an input (a `Response`); its completion is one call of
    `Explorer.FetchCoffeeData`. */
module CoffeeExplorer {
  import opened JsValues

  /** Message recorded when the fetch fails without a message of its own. */
  const FetchFailedMessage := "An error occurred while fetching coffee data"

  /** The marker that tags an ingredient as optional. */
  const OptionalMarker := '*'

  /** One recipe record of the recipe endpoint. */
  datatype Coffee = Coffee(id: int, title: string, description: string, image: string, ingredients: seq<string>)

  /** What the GET against the recipe endpoint produced. */
  datatype Response =
    | Loaded(data: seq<Coffee>)   // the response body, a list of recipes
    | Rejected(message: string)   // the rejection's message, possibly empty

  // ---------------------------------------------------------------------------
  // The ingredient label rule
  // ---------------------------------------------------------------------------

  /** How one ingredient is shown: its text, and whether it is tagged optional. */
  datatype IngredientLabel = IngredientLabel(text: string, optional: bool)

  /** `s.indexOf(c)` when `c` occurs in `s`: the position of its first occurrence. */
  function FirstIndexOf(s: string, c: char): (k: nat)
    requires c in s
    ensures k < |s| && s[k] == c
    ensures c !in s[..k]
  {
    if s[0] == c then 0
    else
      assert c in s[1..] by { assert s == [s[0]] + s[1..]; }
      var k := 1 + FirstIndexOf(s[1..], c);
      assert s[..k] == [s[0]] + s[1..][..k - 1];
      k
  }

  /** `s.replace(c, '')` with a one-character string pattern: only the first
      occurrence of `c` is removed. */
  function ReplaceFirst(s: string, c: char): (r: string)
    ensures c !in s ==> r == s
    ensures c in s ==> |r| == |s| - 1
    ensures c in s ==> exists k :: (0 <= k < |s| && s[k] == c && c !in s[..k] && r == s[..k] + s[k + 1..])
  {
    if c in s then
      var k := FirstIndexOf(s, c);
      s[..k] + s[k + 1..]
    else s
  }

  /** The label rule: an ingredient containing the marker is shown with its
      first marker removed and tagged optional; any other ingredient is shown
      as it is, untagged. */
  function LabelIngredient(ingredient: string): (r: IngredientLabel)
    ensures r.optional <==> OptionalMarker in ingredient
    ensures !r.optional ==> r.text == ingredient
    ensures r.optional ==> |r.text| == |ingredient| - 1
    ensures r.optional ==> exists k :: (0 <= k < |ingredient| && ingredient[k] == OptionalMarker &&
      OptionalMarker !in ingredient[..k] && r.text == ingredient[..k] + ingredient[k + 1..])
  {
    if OptionalMarker in ingredient then
      IngredientLabel(ReplaceFirst(ingredient, OptionalMarker), true)
    else
      IngredientLabel(ingredient, false)
  }

  /** Removing the marker loses nothing else: the shown text has exactly the
      characters of the ingredient less one marker, so every later marker is
      still there. */
  lemma LabelKeepsOtherCharacters(ingredient: string)
    requires OptionalMarker in ingredient
    ensures multiset(LabelIngredient(ingredient).text) + multiset{OptionalMarker} == multiset(ingredient)
  {
    var k := FirstIndexOf(ingredient, OptionalMarker);
    assert ingredient == ingredient[..k] + [ingredient[k]] + ingredient[k + 1..];
  }

  // ---------------------------------------------------------------------------
  // Rendering
  // ---------------------------------------------------------------------------

  /** One recipe card: title, description, image and one list item per ingredient. */
  datatype Card = Card(title: string, description: string, image: string, items: seq<IngredientLabel>)

  /** What the component renders. */
  datatype ExplorerView =
    | Spinner
    | ErrorPanel(message: string)
    | Grid(cards: seq<Card>)

  /** The card of one recipe. */
  function CardOf(coffee: Coffee): (card: Card)
    ensures card.title == coffee.title && card.description == coffee.description && card.image == coffee.image
    ensures |card.items| == |coffee.ingredients|
    ensures forall j :: 0 <= j < |coffee.ingredients| ==>
      card.items[j] == LabelIngredient(coffee.ingredients[j]) &&
      (card.items[j].optional <==> OptionalMarker in coffee.ingredients[j])
  {
    Card(coffee.title, coffee.description, coffee.image,
         seq(|coffee.ingredients|, j requires 0 <= j < |coffee.ingredients| => LabelIngredient(coffee.ingredients[j])))
  }

  /** The render selection: the spinner while loading; otherwise the error
      panel when an error is recorded; otherwise one card per recipe, in list
      order. */
  function Render(loading: bool, error: Option<string>, coffeeList: seq<Coffee>): (v: ExplorerView)
    ensures v.Spinner? <==> loading
    ensures v.ErrorPanel? <==> !loading && Truthy(error)
    ensures v.ErrorPanel? ==> v.message == error.value
    ensures v.Grid? ==> |v.cards| == |coffeeList|
    ensures v.Grid? ==> forall i :: 0 <= i < |coffeeList| ==> v.cards[i] == CardOf(coffeeList[i])
  {
    if loading then Spinner
    else if Truthy(error) then ErrorPanel(error.value)
    else Grid(seq(|coffeeList|, i requires 0 <= i < |coffeeList| => CardOf(coffeeList[i])))
  }

  // ---------------------------------------------------------------------------
  // The component's state
  // ---------------------------------------------------------------------------

  /** The explorer component: its three state cells and the fetch that fills them. */
  class Explorer {
    var coffeeList: seq<Coffee>
    var loading: bool
    var error: Option<string>

    /** A recorded error is never the empty string. */
    ghost predicate Valid()
      reads this
    {
      error.Some? ==> error.value != ""
    }

    /** The state on mount: loading, no recipes, no error. */
    constructor ()
      ensures Valid()
      ensures coffeeList == [] && loading && error == None
    {
      coffeeList := [];
      loading := true;
      error := None;
    }

    /** What the component renders in the current state. Because a recorded
        error is never empty, the error panel shows exactly when loading is
        over and an error is recorded. */
    function View(): (v: ExplorerView)
      reads this
      requires Valid()
      ensures v.ErrorPanel? <==> !loading && error.Some?
      ensures v.Grid? <==> !loading && error.None?
    {
      Render(loading, error, coffeeList)
    }

    /** The fetch's completion: on success the recipe list becomes the
        response's list; on failure the error becomes the rejection's message
        (or the default) and the list is left as it was. Loading is over
        either way. */
    method FetchCoffeeData(response: Response)
      requires Valid()
      modifies this
      ensures Valid()
      ensures !loading
      ensures response.Loaded? ==> coffeeList == response.data && error == old(error)
      ensures response.Rejected? ==> coffeeList == old(coffeeList) && error == Some(OrElse(response.message, FetchFailedMessage))
    {
      loading := true;
      match response {
        case Loaded(data) =>
          coffeeList := data;
          loading := false;
        case Rejected(message) =>
          error := Some(OrElse(message, FetchFailedMessage));
          loading := false;
      }
    }
  }

  /** A mount whose fetch returns a recipe with the ingredient "milk*": the
      grid shows it as "milk", tagged optional. */
  method OptionalIngredientOnMount()
  {
    var e := new Explorer();
    var latte := Coffee(1, "Iced Latte", "Espresso over ice", "latte.jpg", ["espresso", "milk*"]);
    e.FetchCoffeeData(Loaded([latte]));
    var v := e.View();
    assert v.Grid?;
    assert "milk*"[4] == OptionalMarker;
    assert v.cards[0].items[1] == IngredientLabel("milk", true);
  }
}
