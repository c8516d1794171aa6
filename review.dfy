/** The pure parts of client/src/components/modes/ReviewMode.js: which cards a filter
    selects, the letters that have terms, 20-card pagination and the sorted bookmark
    view. */
module Review {
  import opened Wrappers
  import opened Seqs
  import opened Sorting
  import opened Cards

  const CardsPerPage: nat := 20
  /** The category value that stands for the whole pool. */
  const AllCategories: string := "All"

  function InCategory(category: string): Card -> bool {
    (c: Card) => c.category == category
  }

  /** The whole pool for "All", otherwise the pool cards of that category. The flashcard
      and the review browser select their cards this way. */
  function CategoryCards(pool: seq<Card>, category: string): seq<Card> {
    if category == AllCategories then pool else Filter(pool, InCategory(category))
  }

  /** "All" keeps the pool; any other category keeps exactly its cards, in pool order. */
  lemma CategoryCardsSpec(pool: seq<Card>, category: string)
    ensures category == AllCategories ==> CategoryCards(pool, category) == pool
    ensures category != AllCategories ==>
      && IsSubsequence(CategoryCards(pool, category), pool)
      && forall c :: c in CategoryCards(pool, category) <==> c in pool && c.category == category
  {
    FilterIsSubsequence(pool, InCategory(category));
    FilterMembership(pool, InCategory(category));
  }

  /** The cards before letter filtering: the bookmarks in bookmark mode, otherwise the
      whole pool for "All" or the pool cards of the selected category. */
  function Source(pool: seq<Card>, bookmarks: seq<Card>, showBookmarked: bool, selectedCategory: string): seq<Card> {
    if showBookmarked then bookmarks else CategoryCards(pool, selectedCategory)
  }

  function StartsWithLetter(letter: char): Card -> bool {
    (c: Card) => FirstLetterKey(c.term) == [letter]
  }

  /** The letter filter: no letter keeps every card. */
  function LetterFilter(cards: seq<Card>, letter: Option<char>): seq<Card> {
    match letter
    case None => cards
    case Some(l) => Filter(cards, StartsWithLetter(l))
  }

  /** filterCards */
  function FilterCards(pool: seq<Card>, bookmarks: seq<Card>, showBookmarked: bool,
                       selectedCategory: string, letter: Option<char>): seq<Card> {
    LetterFilter(Source(pool, bookmarks, showBookmarked, selectedCategory), letter)
  }

  lemma SourceSpec(pool: seq<Card>, bookmarks: seq<Card>, showBookmarked: bool, selectedCategory: string)
    ensures showBookmarked ==> Source(pool, bookmarks, showBookmarked, selectedCategory) == bookmarks
    ensures !showBookmarked && selectedCategory == AllCategories ==>
      Source(pool, bookmarks, showBookmarked, selectedCategory) == pool
    ensures !showBookmarked && selectedCategory != AllCategories ==>
      && IsSubsequence(Source(pool, bookmarks, showBookmarked, selectedCategory), pool)
      && forall c :: c in Source(pool, bookmarks, showBookmarked, selectedCategory) <==> c in pool && c.category == selectedCategory
  {
    CategoryCardsSpec(pool, selectedCategory);
  }

  /** With a letter, exactly the cards whose uppercased first character is that letter,
      in order; with none, the cards unchanged. */
  lemma LetterFilterSpec(cards: seq<Card>, letter: Option<char>)
    ensures letter.None? ==> LetterFilter(cards, letter) == cards
    ensures letter.Some? ==> IsSubsequence(LetterFilter(cards, letter), cards)
    ensures letter.Some? ==> forall c :: c in LetterFilter(cards, letter) <==>
      c in cards && |c.term| > 0 && ToUpperAscii(c.term[0]) == letter.value
  {
    if letter.Some? {
      FilterIsSubsequence(cards, StartsWithLetter(letter.value));
      FilterMembership(cards, StartsWithLetter(letter.value));
    }
  }

  /** getLettersWithTerms: the uppercased first characters of the terms ("" for an empty term). */
  function AvailableLetters(cards: seq<Card>): set<string> {
    set c | c in cards :: FirstLetterKey(c.term)
  }

  /** A letter button is enabled exactly when choosing it shows at least one card. */
  lemma AvailableLettersIff(cards: seq<Card>, letter: char)
    ensures [letter] in AvailableLetters(cards) <==> LetterFilter(cards, Some(letter)) != []
  {
    LetterFilterSpec(cards, Some(letter));
    if [letter] in AvailableLetters(cards) {
      var c :| c in cards && FirstLetterKey(c.term) == [letter];
      assert c in LetterFilter(cards, Some(letter));
    }
    if LetterFilter(cards, Some(letter)) != [] {
      var c := LetterFilter(cards, Some(letter))[0];
      assert c in LetterFilter(cards, Some(letter));
      assert FirstLetterKey(c.term) in AvailableLetters(cards);
    }
  }

  // ---------------------------------------------------------------- pagination

  predicate IsPrefix<T(==)>(a: seq<T>, b: seq<T>) {
    |a| <= |b| && a == b[..|a|]
  }

  /** loadInitialCards: the first page and whether more remain. */
  function InitialVisible(cards: seq<Card>): seq<Card> {
    cards[..Min(CardsPerPage, |cards|)]
  }

  lemma InitialVisibleSpec(cards: seq<Card>)
    ensures IsPrefix(InitialVisible(cards), cards)
    ensures |InitialVisible(cards)| == Min(CardsPerPage, |cards|)
    ensures |InitialVisible(cards)| < |cards| <==> |cards| > CardsPerPage
  {
  }

  /** The end index of loadMoreCards' slice. `nextPage` is computed with real division,
      as JavaScript numbers do, and `slice` truncates a fractional end. */
  function LoadMoreEnd(shown: nat): (r: nat)
    ensures r == shown + CardsPerPage
  {
    var nextPage: real := (shown as real) / (CardsPerPage as real) + 1.0;
    var end: real := nextPage * (CardsPerPage as real);
    assert end == (shown + CardsPerPage) as real;
    end.Floor
  }

  /** loadMoreCards: the prefix of the cards that ends at nextPage * 20. */
  function LoadMoreVisible(cards: seq<Card>, visible: seq<Card>): seq<Card> {
    cards[..Min(LoadMoreEnd(|visible|), |cards|)]
  }

  /** Load-more keeps a prefix of the cards, shows exactly one page more than before,
      capped at the end, and so grows whenever cards remain. */
  lemma LoadMoreSpec(cards: seq<Card>, visible: seq<Card>)
    requires IsPrefix(visible, cards)
    ensures IsPrefix(LoadMoreVisible(cards, visible), cards)
    ensures |LoadMoreVisible(cards, visible)| == Min(|visible| + CardsPerPage, |cards|)
    ensures |visible| <= |LoadMoreVisible(cards, visible)|
    ensures |visible| < |cards| ==> |visible| < |LoadMoreVisible(cards, visible)|
  {
  }

  // ---------------------------------------------------------------- bookmark view

  /** `a.term.localeCompare(b.term) <= 0`, with code-point order standing for the locale. */
  predicate TermLeq(a: Card, b: Card) {
    LexLeq(a.term, b.term)
  }

  /** The list shown in bookmark mode: the letter-filtered bookmarks ordered by term. */
  function BookmarkedView(bookmarks: seq<Card>, letter: Option<char>): seq<Card> {
    Sort(LetterFilter(bookmarks, letter), TermLeq)
  }

  lemma TermLeqIsTotalPreorder()
    ensures TotalPreorder(TermLeq)
  {
    forall a: Card, b: Card ensures TermLeq(a, b) || TermLeq(b, a) {
      LexLeqTotal(a.term, b.term);
    }
    forall a: Card, b: Card, c: Card | TermLeq(a, b) && TermLeq(b, c) ensures TermLeq(a, c) {
      LexLeqTransitive(a.term, b.term, c.term);
    }
  }

  /** The bookmark view is ordered by term, holds exactly the letter-filtered bookmarks,
      and keeps bookmarks of equal terms in bookmark order. */
  lemma BookmarkedViewSpec(bookmarks: seq<Card>, letter: Option<char>)
    ensures SortedBy(BookmarkedView(bookmarks, letter), TermLeq)
    ensures multiset(BookmarkedView(bookmarks, letter)) == multiset(LetterFilter(bookmarks, letter))
    ensures forall e :: Filter(BookmarkedView(bookmarks, letter), EquivalentTo(TermLeq, e))
                     == Filter(LetterFilter(bookmarks, letter), EquivalentTo(TermLeq, e))
  {
    TermLeqIsTotalPreorder();
    SortSorted(LetterFilter(bookmarks, letter), TermLeq);
    SortMultiset(LetterFilter(bookmarks, letter), TermLeq);
    forall e ensures Filter(BookmarkedView(bookmarks, letter), EquivalentTo(TermLeq, e))
                  == Filter(LetterFilter(bookmarks, letter), EquivalentTo(TermLeq, e)) {
      SortStable(LetterFilter(bookmarks, letter), TermLeq, e);
    }
  }
}
