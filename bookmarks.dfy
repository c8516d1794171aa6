/** The bookmark list, keyed by term, that App.js and FlashcardReviewContainer.js each
    keep in their state and persist, as a whole list, under the key "bookmarkedCards". */
module Bookmarks {
  import opened Wrappers
  import opened Seqs
  import opened Cards
  import opened Storage

  /** The list after toggling `card`: every entry with its term removed when one is
      present, otherwise the card appended. */
  function Toggled(bookmarks: seq<Card>, card: Card): seq<Card> {
    if HasTerm(bookmarks, card.term) then Filter(bookmarks, HasOtherTerm(card.term))
    else bookmarks + [card]
  }

  /** A present term is removed, entirely, and every other entry is kept in order and
      with its multiplicity. */
  lemma ToggleRemovesPresentTerm(bookmarks: seq<Card>, card: Card)
    requires HasTerm(bookmarks, card.term)
    ensures !HasTerm(Toggled(bookmarks, card), card.term)
    ensures forall c :: c in Toggled(bookmarks, card) <==> c in bookmarks && c.term != card.term
    ensures IsSubsequence(Toggled(bookmarks, card), bookmarks)
    ensures |Toggled(bookmarks, card)| < |bookmarks|
    ensures forall c: Card :: c.term != card.term ==> multiset(Toggled(bookmarks, card))[c] == multiset(bookmarks)[c]
  {
    var f := HasOtherTerm(card.term);
    forall c: Card | c.term != card.term
      ensures multiset(Toggled(bookmarks, card))[c] == multiset(bookmarks)[c]
    {
      FilterCount(bookmarks, f, c);
    }
    FilterMembership(bookmarks, f);
    FilterIsSubsequence(bookmarks, f);
    var i :| 0 <= i < |bookmarks| && bookmarks[i].term == card.term;
    FilterDropsOne(bookmarks, f, i);
  }

  /** An absent term is appended at the end; nothing else changes. */
  lemma ToggleAppendsAbsentTerm(bookmarks: seq<Card>, card: Card)
    requires !HasTerm(bookmarks, card.term)
    ensures Toggled(bookmarks, card) == bookmarks + [card]
    ensures HasTerm(Toggled(bookmarks, card), card.term)
  {
    assert Toggled(bookmarks, card)[|bookmarks|] == card;
  }

  /** After a toggle the term is bookmarked exactly when it was not before. */
  lemma ToggleFlipsMembership(bookmarks: seq<Card>, card: Card)
    ensures HasTerm(Toggled(bookmarks, card), card.term) <==> !HasTerm(bookmarks, card.term)
  {
    if HasTerm(bookmarks, card.term) {
      ToggleRemovesPresentTerm(bookmarks, card);
    } else {
      ToggleAppendsAbsentTerm(bookmarks, card);
    }
  }

  /** Toggling an absent term twice restores the original list. */
  lemma ToggleTwiceRestores(bookmarks: seq<Card>, card: Card)
    requires !HasTerm(bookmarks, card.term)
    ensures Toggled(Toggled(bookmarks, card), card) == bookmarks
  {
    var once := bookmarks + [card];
    assert once[|bookmarks|].term == card.term;
    FilterConcat(bookmarks, [card], HasOtherTerm(card.term));
    FilterKeepsAll(bookmarks, HasOtherTerm(card.term));
  }

  lemma {:induction false} FilterKeepsUniqueTerms(s: seq<Card>, f: Card -> bool)
    requires UniqueTerms(s)
    ensures UniqueTerms(Filter(s, f))
  {
    if s != [] {
      FilterKeepsUniqueTerms(s[1..], f);
      FilterMembership(s[1..], f);
      var rest := Filter(s[1..], f);
      forall j | 0 <= j < |rest| ensures rest[j].term != s[0].term {
        assert rest[j] in s[1..];
      }
    }
  }

  /** A list without two entries of the same term keeps that property. */
  lemma ToggleKeepsUniqueTerms(bookmarks: seq<Card>, card: Card)
    requires UniqueTerms(bookmarks)
    ensures UniqueTerms(Toggled(bookmarks, card))
  {
    if HasTerm(bookmarks, card.term) {
      FilterKeepsUniqueTerms(bookmarks, HasOtherTerm(card.term));
    }
  }

  /** The bookmark state of one component together with the shared storage it persists to. */
  class BookmarkList {
    var bookmarkedCards: seq<Card>
    const storage: LocalStorage

    /** The lazy initial state: the stored list, or the empty list when nothing is stored. */
    constructor (storage: LocalStorage)
      ensures this.storage == storage
      ensures storage.bookmarkedCards.Some? ==> bookmarkedCards == storage.bookmarkedCards.value
      ensures storage.bookmarkedCards.None? ==> bookmarkedCards == []
    {
      this.storage := storage;
      bookmarkedCards := storage.bookmarkedCards.GetOr([]);
    }

    /** toggleBookmark: replace the state and write the new list to storage. */
    method ToggleBookmark(card: Card)
      modifies this, storage
      ensures bookmarkedCards == Toggled(old(bookmarkedCards), card)
      ensures storage.bookmarkedCards == Some(bookmarkedCards)
      ensures storage.token == old(storage.token)
    {
      var updated: seq<Card>;
      if HasTerm(bookmarkedCards, card.term) {
        updated := Filter(bookmarkedCards, HasOtherTerm(card.term));
      } else {
        updated := bookmarkedCards + [card];
      }
      bookmarkedCards := updated;
      storage.bookmarkedCards := Some(updated);
    }
  }
}
