/** The FlashcardMode component: one card of the selected category at a time, with
    next/previous navigation clamped to the deck, a flip flag and a shuffle. The
    300 ms delay before the index moves after un-flipping is an immediate step. */
module FlashcardModeComponent {
  import opened Cards
  import opened Helpers
  import opened Review

  /** The index after "next": one further unless that would leave the deck. */
  function NextIndex(index: nat, length: nat): nat {
    if index + 1 < length then index + 1 else index
  }

  /** The index after "previous": one back unless that would go below 0. */
  function PrevIndex(index: nat): nat {
    if index >= 1 then index - 1 else index
  }

  /** Next moves by one exactly when a later card exists, never leaves a non-empty deck
      and never moves backwards. */
  lemma NextIndexSpec(index: nat, length: nat)
    ensures NextIndex(index, length) == index + 1 <==> index + 1 < length
    ensures NextIndex(index, length) == index <==> index + 1 >= length
    ensures index < length ==> NextIndex(index, length) < length
  {
  }

  /** Previous moves by one exactly when an earlier card exists and stays in the deck. */
  lemma PrevIndexSpec(index: nat, length: nat)
    ensures PrevIndex(index) + 1 == index <==> index >= 1
    ensures PrevIndex(index) == index <==> index == 0
    ensures index < length ==> PrevIndex(index) < length
  {
  }

  /** Previous undoes a next that moved, and next undoes a previous that moved. */
  lemma NextPrevInverse(index: nat, length: nat)
    ensures index + 1 < length ==> PrevIndex(NextIndex(index, length)) == index
    ensures 1 <= index < length ==> NextIndex(PrevIndex(index), length) == index
  {
  }

  datatype FlashcardState = FlashcardState(
    currentIndex: nat,
    selectedCategory: string,
    cardsToShow: seq<Card>,
    isFlipped: bool,
    bookmarkedCards: seq<Card>)

  class FlashcardMode {
    const flashcardsData: seq<Card>
    /** The bookmark list passed down by the parent. */
    var bookmarkedCards: seq<Card>
    var currentIndex: nat
    var selectedCategory: string
    var cardsToShow: seq<Card>
    var isFlipped: bool

    function State(): FlashcardState
      reads this
    {
      FlashcardState(currentIndex, selectedCategory, cardsToShow, isFlipped, bookmarkedCards)
    }

    /** With a non-empty deck the index names one of its cards; with an empty deck it is 0. */
    predicate Valid()
      reads this
    {
      currentIndex == 0 || currentIndex < |cardsToShow|
    }

    constructor (flashcardsData: seq<Card>, bookmarkedCards: seq<Card>)
      ensures this.flashcardsData == flashcardsData
      ensures State() == FlashcardState(0, AllCategories, [], false, bookmarkedCards)
      ensures Valid()
    {
      this.flashcardsData := flashcardsData;
      this.bookmarkedCards := bookmarkedCards;
      currentIndex := 0;
      selectedCategory := AllCategories;
      cardsToShow := [];
      isFlipped := false;
    }

    /** A new bookmark list from the parent. */
    method ReceiveBookmarks(bookmarks: seq<Card>)
      modifies this
      ensures State() == old(State()).(bookmarkedCards := bookmarks)
    {
      bookmarkedCards := bookmarks;
    }

    /** The effect of lines 23-31, run whenever the category or the pool changes: the
        deck becomes the category's cards, shown from the first, term side up. */
    method CategoryEffect()
      modifies this
      ensures cardsToShow == CategoryCards(flashcardsData, selectedCategory)
      ensures State() == old(State()).(cardsToShow := cardsToShow, currentIndex := 0, isFlipped := false)
      ensures Valid()
    {
      var filteredCards := CategoryCards(flashcardsData, selectedCategory);
      cardsToShow := filteredCards;
      currentIndex := 0;
      isFlipped := false;
    }

    method HandleCategoryChange(category: string)
      modifies this
      ensures State() == old(State()).(selectedCategory := category)
    {
      selectedCategory := category;
    }

    /** shuffleFlashcards; `js` is the shuffle's index oracle. */
    method ShuffleFlashcards(js: seq<nat>)
      requires ValidSwapOracle(js, |cardsToShow|)
      modifies this
      ensures cardsToShow == FisherYates(old(cardsToShow), js)
      ensures multiset(cardsToShow) == multiset(old(cardsToShow))
      ensures State() == old(State()).(cardsToShow := cardsToShow, currentIndex := 0, isFlipped := false)
      ensures Valid()
    {
      var shuffledCards := ShuffleArray(cardsToShow, js);
      cardsToShow := shuffledCards;
      currentIndex := 0;
      isFlipped := false;
    }

    /** nextCard: the card is turned term side up, then the index moves on if it can. */
    method NextCard()
      requires Valid()
      modifies this
      ensures currentIndex == NextIndex(old(currentIndex), |cardsToShow|)
      ensures State() == old(State()).(currentIndex := currentIndex, isFlipped := false)
      ensures Valid()
    {
      if isFlipped {
        isFlipped := false;
      }
      currentIndex := if currentIndex + 1 < |cardsToShow| then currentIndex + 1 else currentIndex;
    }

    /** prevCard: the card is turned term side up, then the index moves back if it can. */
    method PrevCard()
      requires Valid()
      modifies this
      ensures currentIndex == PrevIndex(old(currentIndex))
      ensures State() == old(State()).(currentIndex := currentIndex, isFlipped := false)
      ensures Valid()
    {
      if isFlipped {
        isFlipped := false;
      }
      currentIndex := if currentIndex - 1 >= 0 then currentIndex - 1 else currentIndex;
    }

    /** handleCardFlip: flipping twice restores the side shown. */
    method HandleCardFlip()
      modifies this
      ensures isFlipped == !old(isFlipped)
      ensures State() == old(State()).(isFlipped := isFlipped)
    {
      isFlipped := !isFlipped;
    }

    /** isBookmarked: some bookmark has the card's term. */
    predicate IsBookmarked(card: Card)
      reads this
    {
      HasTerm(bookmarkedCards, card.term)
    }
  }
}
