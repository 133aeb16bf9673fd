/**
 * The product cards both catalogue pages show, and the search rule both
 * pages apply to them: a card stays visible when its title contains the
 * search term and, if a category is chosen, its category contains that
 * category, both compared in lower case.
 */
module Catalogue {
  import opened Text

  /**
   * A `.product-card-wrapper` element: the texts of its `.card-title` and
   * `.card-category`, its `style.display`, its own class list and the class
   * list of the `.product-card` inside it.
   */
  datatype Card = Card(title: string, category: string, display: string,
                       classes: set<string>, faceClasses: set<string>)

  /**
   * The visibility rule of `searchProducts` and `filterProducts`: the search
   * term and the category are lowered, the category test passes when the
   * lowered category is empty, and `includes` is substring search.
   */
  predicate CardMatches(title: string, category: string, term: string, filter: string)
    ensures CardMatches(title, category, term, filter) ==> Contains(Lower(title), Lower(term))
    ensures filter == "" ==> (CardMatches(title, category, term, filter) <==> Contains(Lower(title), Lower(term)))
  {
    var t := Lower(term);
    var f := Lower(filter);
    Contains(Lower(title), t) && (f == "" || Contains(Lower(category), f))
  }

  /** The card as a filter leaves it: shown with `display = 'block'` or hidden with `'none'`. */
  function WithDisplay(c: Card, shown: bool): (r: Card)
    ensures r.display == "block" || r.display == "none"
    ensures r.display == "block" <==> shown
    ensures r.(display := c.display) == c
  {
    c.(display := if shown then "block" else "none")
  }

  /** How many cards are shown with `display = 'block'`. */
  function CountShown(cards: seq<Card>): (n: nat)
    ensures n <= |cards|
  {
    if cards == [] then 0
    else CountShown(cards[..|cards| - 1]) + (if cards[|cards| - 1].display == "block" then 1 else 0)
  }

  /** No card is counted exactly when none is shown. */
  lemma {:induction false} CountShownZero(cards: seq<Card>)
    ensures CountShown(cards) == 0 <==> forall i :: 0 <= i < |cards| ==> cards[i].display != "block"
  {
    if cards != [] {
      var init := cards[..|cards| - 1];
      CountShownZero(init);
      assert forall i :: 0 <= i < |init| ==> init[i] == cards[i];
    }
  }

  /** All cards are counted exactly when all are shown. */
  lemma {:induction false} CountShownAll(cards: seq<Card>)
    ensures CountShown(cards) == |cards| <==> forall i :: 0 <= i < |cards| ==> cards[i].display == "block"
  {
    if cards != [] {
      var init := cards[..|cards| - 1];
      CountShownAll(init);
      assert forall i :: 0 <= i < |init| ==> init[i] == cards[i];
    }
  }

  /** Lowering is idempotent. */
  lemma LowerLower(s: string)
    ensures Lower(Lower(s)) == Lower(s)
  {
  }

  /** The rule ignores case: lowering any of its four texts first changes nothing. */
  lemma MatchIgnoresCase(title: string, category: string, term: string, filter: string)
    ensures CardMatches(title, category, term, filter) ==
            CardMatches(Lower(title), Lower(category), Lower(term), Lower(filter))
  {
    LowerLower(title);
    LowerLower(category);
    LowerLower(term);
    LowerLower(filter);
  }

  /** With no search term and no category every card matches. */
  lemma EmptySearchMatches(title: string, category: string)
    ensures CardMatches(title, category, "", "")
  {
    assert Lower("") == "";
    ContainsEmpty(Lower(title));
  }

  /** Lowering distributes over concatenation. */
  lemma LowerAppend(a: string, b: string)
    ensures Lower(a + b) == Lower(a) + Lower(b)
  {
  }

  /** A text that contains `t + u` contains `t`. */
  lemma ContainsPrefix(s: string, t: string, u: string)
    requires Contains(s, t + u)
    ensures Contains(s, t)
  {
    var i :| 0 <= i <= |s| && StartsWith(s[i..], t + u);
    assert s[i..][..|t|] == (t + u)[..|t|] == t;
  }

  /** Typing more of the search term never brings a hidden card back. */
  lemma LongerTermMatchesLess(title: string, category: string, term: string, more: string, filter: string)
    requires CardMatches(title, category, term + more, filter)
    ensures CardMatches(title, category, term, filter)
  {
    LowerAppend(term, more);
    ContainsPrefix(Lower(title), Lower(term), Lower(more));
  }

  /** `classList.toggle(c)`: `c` is added when absent and removed when present. */
  function Toggle(classes: set<string>, c: string): (r: set<string>)
    ensures c in r <==> c !in classes
    ensures r - {c} == classes - {c}
  {
    if c in classes then classes - {c} else classes + {c}
  }

  /** Toggling the same class twice restores the class list. */
  lemma ToggleTwice(classes: set<string>, c: string)
    ensures Toggle(Toggle(classes, c), c) == classes
  {
    var r := Toggle(Toggle(classes, c), c);
    assert c in r <==> c in classes;
    assert r - {c} == classes - {c};
    assert forall x :: x in r <==> x in classes;
  }
}
