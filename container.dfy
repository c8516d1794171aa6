/** client/src/components/modes/FlashcardReviewContainer.js: a second bookmark state,
    handed to both study views together with its toggle. A toggle from either view
    re-renders both with the new list. */
module Container {
  import opened Wrappers
  import opened Cards
  import opened Storage
  import opened Bookmarks
  import opened Review
  import opened FlashcardModeComponent
  import opened ReviewModeComponent

  class FlashcardReviewContainer {
    const bookmarks: BookmarkList
    const flashcardMode: FlashcardMode
    const reviewMode: ReviewMode

    /** Both views hold the container's bookmark list. */
    predicate Valid()
      reads this, bookmarks, flashcardMode, reviewMode
    {
      && flashcardMode.bookmarkedCards == bookmarks.bookmarkedCards
      && reviewMode.bookmarkedCards == bookmarks.bookmarkedCards
    }

    /** The lazy initial list (the stored list, or empty), passed to both views. */
    constructor (flashcardsData: seq<Card>, storage: LocalStorage)
      ensures bookmarks.storage == storage
      ensures storage.bookmarkedCards.Some? ==> bookmarks.bookmarkedCards == storage.bookmarkedCards.value
      ensures storage.bookmarkedCards.None? ==> bookmarks.bookmarkedCards == []
      ensures flashcardMode.flashcardsData == flashcardsData && reviewMode.flashcardsData == flashcardsData
      ensures flashcardMode.State() == FlashcardState(0, AllCategories, [], false, bookmarks.bookmarkedCards)
      ensures reviewMode.State() == ReviewState(AllCategories, [], [], true, false, None, bookmarks.bookmarkedCards)
      ensures fresh(bookmarks) && fresh(flashcardMode) && fresh(reviewMode)
      ensures Valid()
    {
      var list := new BookmarkList(storage);
      bookmarks := list;
      flashcardMode := new FlashcardMode(flashcardsData, list.bookmarkedCards);
      reviewMode := new ReviewMode(flashcardsData, list.bookmarkedCards);
    }

    /** toggleBookmark, called from either view: the toggled list becomes the state, is
        written to storage and reaches both views; nothing else in the views changes. */
    method ToggleBookmark(card: Card)
      modifies bookmarks, bookmarks.storage, flashcardMode, reviewMode
      ensures bookmarks.bookmarkedCards == Toggled(old(bookmarks.bookmarkedCards), card)
      ensures bookmarks.storage.bookmarkedCards == Some(bookmarks.bookmarkedCards)
      ensures bookmarks.storage.token == old(bookmarks.storage.token)
      ensures flashcardMode.State() == old(flashcardMode.State()).(bookmarkedCards := bookmarks.bookmarkedCards)
      ensures reviewMode.State() == old(reviewMode.State()).(bookmarkedCards := bookmarks.bookmarkedCards)
      ensures Valid()
    {
      bookmarks.ToggleBookmark(card);
      flashcardMode.ReceiveBookmarks(bookmarks.bookmarkedCards);
      reviewMode.ReceiveBookmarks(bookmarks.bookmarkedCards);
    }
  }
}
