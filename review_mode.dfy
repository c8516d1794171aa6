/** The ReviewMode component: its state fields, the two effects and the handlers.
    Each effect is a method the component runs after a render in which its inputs
    changed; `inView` is the intersection observer's signal. */
module ReviewModeComponent {
  import opened Wrappers
  import opened Seqs
  import opened Cards
  import opened Review

  datatype ReviewState = ReviewState(
    selectedCategory: string,
    cardsToShow: seq<Card>,
    visibleCards: seq<Card>,
    hasMore: bool,
    showBookmarked: bool,
    currentLetter: Option<char>,
    bookmarkedCards: seq<Card>)

  class ReviewMode {
    const flashcardsData: seq<Card>
    /** The bookmark list passed down by the parent. */
    var bookmarkedCards: seq<Card>
    var selectedCategory: string
    var cardsToShow: seq<Card>
    var visibleCards: seq<Card>
    var hasMore: bool
    var showBookmarked: bool
    var currentLetter: Option<char>

    function State(): ReviewState
      reads this
    {
      ReviewState(selectedCategory, cardsToShow, visibleCards, hasMore, showBookmarked, currentLetter, bookmarkedCards)
    }

    /** The shown cards are a prefix of the filtered cards, and while more remain the
        prefix is a whole number of pages. */
    predicate Valid()
      reads this
    {
      && IsPrefix(visibleCards, cardsToShow)
      && (hasMore ==> |visibleCards| % CardsPerPage == 0)
    }

    /** After a load, `hasMore` says exactly whether cards remain unshown. */
    predicate Synced()
      reads this
    {
      hasMore <==> |visibleCards| < |cardsToShow|
    }

    constructor (flashcardsData: seq<Card>, bookmarkedCards: seq<Card>)
      ensures this.flashcardsData == flashcardsData
      ensures State() == ReviewState(AllCategories, [], [], true, false, None, bookmarkedCards)
      ensures Valid()
    {
      this.flashcardsData := flashcardsData;
      this.bookmarkedCards := bookmarkedCards;
      selectedCategory := AllCategories;
      cardsToShow := [];
      visibleCards := [];
      hasMore := true;
      showBookmarked := false;
      currentLetter := None;
    }

    /** A new bookmark list from the parent. */
    method ReceiveBookmarks(bookmarks: seq<Card>)
      modifies this
      ensures State() == old(State()).(bookmarkedCards := bookmarks)
    {
      bookmarkedCards := bookmarks;
    }

    /** The effect of lines 80-82 (loadInitialCards). */
    method LoadInitialCards()
      modifies this
      ensures cardsToShow == FilterCards(flashcardsData, bookmarkedCards, showBookmarked, selectedCategory, currentLetter)
      ensures visibleCards == InitialVisible(cardsToShow)
      ensures hasMore == (|cardsToShow| > CardsPerPage)
      ensures State() == old(State()).(cardsToShow := cardsToShow, visibleCards := visibleCards, hasMore := hasMore)
      ensures Valid() && Synced()
    {
      var filteredCards := FilterCards(flashcardsData, bookmarkedCards, showBookmarked, selectedCategory, currentLetter);
      cardsToShow := filteredCards;
      visibleCards := filteredCards[..Min(CardsPerPage, |filteredCards|)];
      hasMore := |filteredCards| > CardsPerPage;
    }

    /** loadMoreCards: one page more than is shown, capped at the end of the cards. */
    method LoadMoreCards()
      modifies this
      ensures visibleCards == LoadMoreVisible(cardsToShow, old(visibleCards))
      ensures |visibleCards| == Min(|old(visibleCards)| + CardsPerPage, |cardsToShow|)
      ensures hasMore == (|visibleCards| < |cardsToShow|)
      ensures State() == old(State()).(visibleCards := visibleCards, hasMore := hasMore)
      ensures old(Valid()) && old(hasMore) ==> Valid()
      ensures Synced()
    {
      var nextPage: real := (|visibleCards| as real) / (CardsPerPage as real) + 1.0;
      var end := (nextPage * (CardsPerPage as real)).Floor;
      assert end == LoadMoreEnd(|visibleCards|);
      var newVisibleCards := cardsToShow[..Min(end, |cardsToShow|)];
      if IsPrefix(visibleCards, cardsToShow) {
        LoadMoreSpec(cardsToShow, visibleCards);
      }
      hasMore := |newVisibleCards| < |cardsToShow|;
      visibleCards := newVisibleCards;
    }

    /** The effect of lines 85-89: load more only when the sentinel is in view, more
        cards remain and bookmark mode is off. */
    method LoadMoreEffect(inView: bool) returns (fired: bool)
      modifies this
      ensures fired == (inView && old(hasMore) && !showBookmarked)
      ensures fired ==> visibleCards == LoadMoreVisible(cardsToShow, old(visibleCards))
      ensures !fired ==> State() == old(State())
      ensures State() == old(State()).(visibleCards := visibleCards, hasMore := hasMore)
      ensures old(Valid()) ==> Valid()
    {
      fired := inView && hasMore && !showBookmarked;
      if fired {
        LoadMoreCards();
      }
    }

    method HandleCategoryChange(category: string)
      modifies this
      ensures State() == old(State()).(selectedCategory := category, currentLetter := None, showBookmarked := false)
    {
      selectedCategory := category;
      currentLetter := None;
      showBookmarked := false;
    }

    method HandleLetterClick(letter: char)
      modifies this
      ensures State() == old(State()).(currentLetter := Some(letter))
    {
      currentLetter := Some(letter);
    }

    /** The "All" letter button. */
    method ClearLetter()
      modifies this
      ensures State() == old(State()).(currentLetter := None)
    {
      currentLetter := None;
    }

    /** The "Show Bookmarked Terms" / "Show All Terms" button. */
    method ToggleBookmarkedMode()
      modifies this
      ensures State() == old(State()).(showBookmarked := !old(showBookmarked), currentLetter := None)
    {
      showBookmarked := !showBookmarked;
      currentLetter := None;
    }

    /** The letters that have terms in the source before letter filtering. */
    function Letters(): set<string>
      reads this
    {
      AvailableLetters(Source(flashcardsData, bookmarkedCards, showBookmarked, selectedCategory))
    }

    predicate LetterDisabled(letter: char)
      reads this
    {
      [letter] !in Letters()
    }

    /** The cards shown: the sorted bookmark view in bookmark mode (no pagination),
        otherwise the visible page prefix. */
    function DisplayedCards(): seq<Card>
      reads this
    {
      if showBookmarked then BookmarkedView(bookmarkedCards, currentLetter) else visibleCards
    }
  }
}
