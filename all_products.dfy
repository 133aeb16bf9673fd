/**
 * The catalogue page's live filter: typing in the search box or changing the
 * category re-runs `filterProducts`, which shows or hides each card by the
 * same rule as the product grid's search, and changes nothing else.
 */
module AllProducts {
  import opened Catalogue
  import ProductCards

  /** The catalogue page: its cards in document order and the two inputs. */
  class CatalogueView {
    var cards: seq<Card>
    var searchValue: string
    var categoryValue: string

    constructor (cards: seq<Card>)
      ensures this.cards == cards && searchValue == "" && categoryValue == ""
    {
      this.cards := cards;
      searchValue := "";
      categoryValue := "";
    }

    /**
     * `filterProducts`: each card's `display` becomes `'block'` when it
     * matches the inputs and `'none'` when it does not.
     */
    method FilterProducts()
      modifies this`cards
      ensures |cards| == |old(cards)|
      ensures forall i :: 0 <= i < |cards| ==>
                cards[i] == WithDisplay(old(cards)[i], CardMatches(old(cards)[i].title, old(cards)[i].category, searchValue, categoryValue))
    {
      var i := 0;
      while i < |cards|
        invariant 0 <= i <= |cards| == |old(cards)|
        invariant forall j :: 0 <= j < i ==>
                    cards[j] == WithDisplay(old(cards)[j], CardMatches(old(cards)[j].title, old(cards)[j].category, searchValue, categoryValue))
        invariant forall j :: i <= j < |cards| ==> cards[j] == old(cards)[j]
      {
        var card := cards[i];
        var matches := CardMatches(card.title, card.category, searchValue, categoryValue);
        cards := cards[i := WithDisplay(card, matches)];
        i := i + 1;
      }
    }

    /** The search box's `input` listener. */
    method OnSearchInput(value: string)
      modifies this`cards, this`searchValue
      ensures searchValue == value && |cards| == |old(cards)|
      ensures forall i :: 0 <= i < |cards| ==>
                cards[i] == WithDisplay(old(cards)[i], CardMatches(old(cards)[i].title, old(cards)[i].category, value, categoryValue))
    {
      searchValue := value;
      FilterProducts();
    }

    /** The category select's `change` listener. */
    method OnCategoryChange(value: string)
      modifies this`cards, this`categoryValue
      ensures categoryValue == value && |cards| == |old(cards)|
      ensures forall i :: 0 <= i < |cards| ==>
                cards[i] == WithDisplay(old(cards)[i], CardMatches(old(cards)[i].title, old(cards)[i].category, searchValue, value))
    {
      categoryValue := value;
      FilterProducts();
    }
  }

  /** With both inputs empty every card is shown. */
  method EmptyFilterShowsAll(cards: seq<Card>) returns (after: seq<Card>)
    ensures |after| == |cards|
    ensures forall i :: 0 <= i < |after| ==> after[i].display == "block"
  {
    var view := new CatalogueView(cards);
    view.FilterProducts();
    forall i | 0 <= i < |cards| ensures CardMatches(cards[i].title, cards[i].category, "", "") {
      EmptySearchMatches(cards[i].title, cards[i].category);
    }
    after := view.cards;
  }

  /** Filtering again with the same inputs leaves every card as the first run left it. */
  method FilterTwice(cards: seq<Card>, term: string, category: string) returns (once: seq<Card>, twice: seq<Card>)
    ensures once == twice
  {
    var view := new CatalogueView(cards);
    view.searchValue, view.categoryValue := term, category;
    view.FilterProducts();
    once := view.cards;
    view.FilterProducts();
    twice := view.cards;
  }

  /**
   * The catalogue filter and the product grid's search, given the same cards
   * and the same inputs, show exactly the same cards.
   */
  method SameVisibilityAsSearch(cards: seq<Card>, term: string, category: string) returns (filtered: seq<Card>, searched: seq<Card>)
    ensures |filtered| == |searched| == |cards|
    ensures forall i :: 0 <= i < |cards| ==> filtered[i].display == searched[i].display
  {
    var view := new CatalogueView(cards);
    view.searchValue, view.categoryValue := term, category;
    view.FilterProducts();
    filtered := view.cards;
    var grid := new ProductCards.ProductGrid(cards, true);
    grid.searchValue, grid.categoryValue := term, category;
    var _ := grid.SearchProducts();
    searched := grid.cards;
  }
}
