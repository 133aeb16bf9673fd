/**
 * The product grid page: the search box and category filter over the cards,
 * the count badge, the "no products found" placeholder, the Escape shortcut,
 * card flipping, and the add button's states around the request that adds
 * the product to the user's collection.
 */
module ProductCards {
  import opened Text
  import opened Wrappers
  import opened Catalogue

  /**
   * A card after `searchProducts`: shown and fading in when it matches,
   * hidden and without `fade-in` when it does not; nothing else on it changes.
   */
  function Searched(c: Card, term: string, filter: string): (r: Card)
    ensures r.display == "block" <==> CardMatches(c.title, c.category, term, filter)
    ensures "fade-in" in r.classes <==> r.display == "block"
    ensures r.classes - {"fade-in"} == c.classes - {"fade-in"}
    ensures r.title == c.title && r.category == c.category && r.faceClasses == c.faceClasses
  {
    var shown := CardMatches(c.title, c.category, term, filter);
    WithDisplay(c, shown).(classes := if shown then c.classes + {"fade-in"} else c.classes - {"fade-in"})
  }

  /**
   * The page: its cards in document order, the values of the search box and
   * the category filter, the count badge (absent, or the count it shows), the
   * number of `.empty-state` placeholders and of the `col-12` elements
   * inserted to hold them.
   */
  class ProductGrid {
    var cards: seq<Card>
    var searchValue: string
    var categoryValue: string
    var badge: Option<nat>
    var emptyStates: nat
    var holders: nat

    /** At most one placeholder, each inside a holder the page inserted. */
    ghost predicate Valid()
      reads this
    {
      emptyStates <= 1 && emptyStates <= holders
    }

    constructor (cards: seq<Card>, hasBadge: bool)
      ensures Valid()
      ensures this.cards == cards && searchValue == "" && categoryValue == ""
      ensures badge == (if hasBadge then Some(|cards|) else None)
      ensures emptyStates == 0 && holders == 0
    {
      this.cards := cards;
      searchValue := "";
      categoryValue := "";
      badge := if hasBadge then Some(|cards|) else None;
      emptyStates := 0;
      holders := 0;
    }

    /**
     * `showEmptyState(show)`: a placeholder is inserted (in a new holder) when
     * one is wanted and none exists, and the existing one is removed when none
     * is wanted. Removing takes out the placeholder but leaves its holder.
     */
    method ShowEmptyState(show: bool)
      requires Valid()
      modifies this`emptyStates, this`holders
      ensures Valid()
      ensures emptyStates == if show then 1 else 0
      ensures holders == old(holders) + (if show && old(emptyStates) == 0 then 1 else 0)
      ensures old(emptyStates) == (if show then 1 else 0) ==> emptyStates == old(emptyStates) && holders == old(holders)
    {
      if show && emptyStates == 0 {
        holders := holders + 1;
        emptyStates := 1;
      } else if !show && emptyStates > 0 {
        emptyStates := 0;
      }
    }

    /** The `forEach` of `searchProducts`: each card shown or hidden in turn, counting the shown ones. */
    method SearchCards() returns (visibleCount: nat)
      modifies this`cards
      ensures |cards| == |old(cards)|
      ensures forall i :: 0 <= i < |cards| ==> cards[i] == Searched(old(cards)[i], searchValue, categoryValue)
      ensures visibleCount == CountShown(cards)
    {
      visibleCount := 0;
      var i := 0;
      while i < |cards|
        invariant 0 <= i <= |cards| == |old(cards)|
        invariant forall j :: 0 <= j < i ==> cards[j] == Searched(old(cards)[j], searchValue, categoryValue)
        invariant forall j :: i <= j < |cards| ==> cards[j] == old(cards)[j]
        invariant visibleCount == CountShown(cards[..i])
      {
        var card := Searched(cards[i], searchValue, categoryValue);
        cards := cards[i := card];
        assert cards[..i + 1][..i] == cards[..i];
        if card.display == "block" {
          visibleCount := visibleCount + 1;
        }
        i := i + 1;
      }
      assert cards[..i] == cards;
    }

    /**
     * `searchProducts`: every card is shown or hidden by the search rule, the
     * shown ones fade in, the badge (if the page has one) shows how many are
     * shown, and the placeholder appears exactly when none is.
     */
    method SearchProducts() returns (visibleCount: nat)
      requires Valid()
      modifies this`cards, this`badge, this`emptyStates, this`holders
      ensures Valid()
      ensures |cards| == |old(cards)|
      ensures forall i :: 0 <= i < |cards| ==> cards[i] == Searched(old(cards)[i], searchValue, categoryValue)
      ensures visibleCount == CountShown(cards)
      ensures badge == if old(badge).Some? then Some(visibleCount) else None
      ensures emptyStates == if visibleCount == 0 then 1 else 0
      ensures holders == old(holders) + (if visibleCount == 0 && old(emptyStates) == 0 then 1 else 0)
    {
      visibleCount := SearchCards();
      if badge.Some? {
        badge := Some(visibleCount);
      }
      ShowEmptyState(visibleCount == 0);
    }

    /**
     * The `keydown` listener's Escape branch: both inputs are cleared and the
     * search re-run, so every card is shown and the placeholder is gone
     * unless the page has no cards at all.
     */
    method OnEscape() returns (visibleCount: nat)
      requires Valid()
      modifies this
      ensures Valid()
      ensures searchValue == "" && categoryValue == ""
      ensures |cards| == |old(cards)|
      ensures forall i :: 0 <= i < |cards| ==> cards[i] == Searched(old(cards)[i], "", "")
      ensures forall i :: 0 <= i < |cards| ==> cards[i].display == "block" && "fade-in" in cards[i].classes
      ensures visibleCount == |cards|
      ensures badge == if old(badge).Some? then Some(|cards|) else None
      ensures emptyStates == if cards == [] then 1 else 0
      ensures holders == old(holders) + (if cards == [] && old(emptyStates) == 0 then 1 else 0)
    {
      searchValue := "";
      categoryValue := "";
      forall i | 0 <= i < |cards| ensures CardMatches(cards[i].title, cards[i].category, "", "") {
        EmptySearchMatches(cards[i].title, cards[i].category);
      }
      visibleCount := SearchProducts();
      CountShownAll(cards);
    }

    /** `flipCard` on card `k`: its face toggles `flipped`; no other card changes. */
    method FlipCard(k: nat)
      requires k < |cards|
      modifies this`cards
      ensures |cards| == |old(cards)|
      ensures cards[k] == old(cards[k]).(faceClasses := Toggle(old(cards[k].faceClasses), "flipped"))
      ensures forall i :: 0 <= i < |cards| && i != k ==> cards[i] == old(cards[i])
    {
      cards := cards[k := cards[k].(faceClasses := Toggle(cards[k].faceClasses, "flipped"))];
    }
  }

  /** Flipping a card twice turns it back. */
  method FlipTwice(cards: seq<Card>, k: nat) returns (after: seq<Card>)
    requires k < |cards|
    ensures after == cards
  {
    var grid := new ProductGrid(cards, false);
    grid.FlipCard(k);
    grid.FlipCard(k);
    ToggleTwice(cards[k].faceClasses, "flipped");
    after := grid.cards;
  }

  /** The answer of the add request: the decoded JSON reply, or a network or parsing failure. */
  datatype Response = Replied(status: string, message: string) | Failed

  datatype ToastKind = Success | Error

  /** The toast `showToast` pops up. */
  datatype Toast = Toast(message: string, kind: ToastKind)

  const NetworkErrorText := "Network error. Please try again."
  const AddCaption := "<i class=\"bi bi-plus-circle me-1\"></i>Add"
  const AddedCaption := "<i class=\"bi bi-check-circle me-1\"></i>Added!"

  /** The toast `addProduct` shows for a response. */
  function ToastFor(r: Response): (t: Toast)
    ensures t.kind == Success <==> r.Replied? && r.status == "success"
    ensures r.Failed? ==> t.message == NetworkErrorText
    ensures r.Replied? ==> t.message == r.message
  {
    match r
    case Replied(status, message) => Toast(message, if status == "success" then Success else Error)
    case Failed => Toast(NetworkErrorText, Error)
  }

  /** A card's add button: its class list, whether it is disabled, and its caption. */
  class AddButton {
    var classes: set<string>
    var disabled: bool
    var caption: string

    /**
     * The button is disabled while it is loading and while it shows success,
     * and it is never in both states at once.
     */
    ghost predicate Valid()
      reads this
    {
      ("loading" in classes ==> disabled) && ("success" in classes ==> disabled) &&
      !("loading" in classes && "success" in classes)
    }

    constructor (classes: set<string>)
      requires "loading" !in classes && "success" !in classes
      ensures Valid() && this.classes == classes && !disabled && caption == AddCaption
    {
      this.classes := classes;
      disabled := false;
      caption := AddCaption;
    }

    /** The click, before the request: the loading state, disabled. */
    method BeginAdd()
      requires Valid() && !disabled
      modifies this`classes, this`disabled
      ensures Valid()
      ensures classes == old(classes) + {"loading"} && disabled
    {
      classes := classes + {"loading"};
      disabled := true;
    }

    /**
     * The response arrives: on success the button shows success and stays
     * disabled; on an error reply or a failed request it leaves the loading
     * state and is enabled again. The toast for the response is returned.
     */
    method FinishAdd(response: Response) returns (toast: Toast)
      requires Valid() && "loading" in classes
      modifies this
      ensures Valid()
      ensures toast == ToastFor(response)
      ensures "loading" !in classes
      ensures toast.kind == Success ==>
                classes == old(classes) - {"loading"} + {"success"} && disabled && caption == AddedCaption
      ensures toast.kind == Error ==>
                classes == old(classes) - {"loading"} && !disabled && caption == old(caption)
    {
      toast := ToastFor(response);
      classes := classes - {"loading"};
      if response.Replied? && response.status == "success" {
        classes := classes + {"success"};
        caption := AddedCaption;
      } else {
        disabled := false;
      }
    }

    /** The step the success timer runs: the success state is cleared and the button enabled. */
    method ResetAfterSuccess()
      requires Valid() && "success" in classes
      modifies this
      ensures Valid()
      ensures classes == old(classes) - {"success"} && !disabled && caption == AddCaption
    {
      classes := classes - {"success"};
      caption := AddCaption;
      disabled := false;
    }

    /** `addProduct` up to the response: loading, then the outcome. */
    method AddProduct(response: Response) returns (toast: Toast)
      requires Valid() && !disabled
      modifies this
      ensures Valid()
      ensures toast == ToastFor(response)
      ensures toast.kind == Success ==>
                classes == old(classes) - {"loading"} + {"success"} && disabled && caption == AddedCaption
      ensures toast.kind == Error ==>
                classes == old(classes) - {"loading"} && !disabled && caption == old(caption)
    {
      BeginAdd();
      toast := FinishAdd(response);
    }
  }

  /**
   * A full round from an idle button: whatever the response, once the
   * success timer (if any) has run, the button is idle again with its
   * original classes.
   */
  method AddRound(classes: set<string>, response: Response) returns (after: set<string>, disabled: bool, caption: string)
    requires "loading" !in classes && "success" !in classes
    ensures after == classes && !disabled && caption == AddCaption
  {
    var button := new AddButton(classes);
    var toast := button.AddProduct(response);
    if toast.kind == Success {
      button.ResetAfterSuccess();
    }
    after, disabled, caption := button.classes, button.disabled, button.caption;
  }
}
