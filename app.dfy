/** client/src/App.js: the category list derived from the pool and the application's
    own bookmark state. */
module App {
  import opened Wrappers
  import opened Seqs
  import opened Cards
  import opened Storage
  import opened Bookmarks

  /** The position where x first occurs in s. */
  function FirstIndex<T(==)>(s: seq<T>, x: T): (r: nat)
    requires x in s
    ensures r < |s| && s[r] == x
    ensures forall k :: 0 <= k < r ==> s[k] != x
  {
    if s[0] == x then 0 else 1 + FirstIndex(s[1..], x)
  }

  /** `[...new Set(s)]`: iterate left to right, keeping each value the first time it is seen. */
  function Dedupe<T(==)>(s: seq<T>): (r: seq<T>)
    ensures forall i :: 0 <= i < |r| ==> r[i] in s
    ensures forall i :: 0 <= i < |s| ==> s[i] in r
  {
    if s == [] then []
    else
      var d := Dedupe(s[..|s| - 1]);
      assert s == s[..|s| - 1] + [s[|s| - 1]];
      if s[|s| - 1] in d then d else d + [s[|s| - 1]]
  }

  lemma {:induction false} DedupeNoDuplicates<T>(s: seq<T>)
    ensures NoDuplicates(Dedupe(s))
  {
    if s != [] {
      DedupeNoDuplicates(s[..|s| - 1]);
    }
  }

  /** Two values kept by the dedupe appear in the order in which they first occur in s. */
  lemma {:induction false} DedupeFirstAppearanceOrder<T>(s: seq<T>)
    ensures forall i, j :: 0 <= i < j < |Dedupe(s)| ==> FirstIndex(s, Dedupe(s)[i]) < FirstIndex(s, Dedupe(s)[j])
  {
    if s != [] {
      var front := s[..|s| - 1];
      DedupeFirstAppearanceOrder(front);
      var d := Dedupe(front);
      forall y | y in front ensures FirstIndex(s, y) == FirstIndex(front, y) {
        var k := FirstIndex(front, y);
        assert s[k] == y;
        FirstIndexIsLeast(s, y, k);
      }
      if s[|s| - 1] !in d {
        FirstIndexIsLeast(s, s[|s| - 1], |s| - 1);
      }
    }
  }

  lemma FirstIndexIsLeast<T>(s: seq<T>, x: T, k: nat)
    requires k < |s| && s[k] == x
    requires forall k' :: 0 <= k' < k ==> s[k'] != x
    ensures FirstIndex(s, x) == k
  {
  }

  /** The categories of the pool, once each, in order of first appearance. */
  function Categories(pool: seq<Card>): seq<string> {
    Dedupe(Map(pool, (c: Card) => c.category))
  }

  lemma CategoriesSpec(pool: seq<Card>)
    ensures NoDuplicates(Categories(pool))
    ensures forall c :: c in pool ==> c.category in Categories(pool)
    ensures forall x :: x in Categories(pool) ==> exists c :: c in pool && c.category == x
    ensures forall i, j :: 0 <= i < j < |Categories(pool)| ==>
      FirstIndex(Map(pool, (c: Card) => c.category), Categories(pool)[i])
        < FirstIndex(Map(pool, (c: Card) => c.category), Categories(pool)[j])
  {
    var cats := Map(pool, (c: Card) => c.category);
    DedupeNoDuplicates(cats);
    DedupeFirstAppearanceOrder(cats);
    forall c | c in pool ensures c.category in Categories(pool) {
      var i :| 0 <= i < |pool| && pool[i] == c;
      assert cats[i] == c.category;
    }
    forall x | x in Categories(pool) ensures exists c :: c in pool && c.category == x {
      var j :| 0 <= j < |Categories(pool)| && Categories(pool)[j] == x;
      var i :| 0 <= i < |cats| && cats[i] == x;
      assert pool[i] in pool;
    }
  }

  /** The application component: the categories it hands down and its bookmark state. */
  class App {
    const categories: seq<string>
    const bookmarks: BookmarkList

    constructor (pool: seq<Card>, storage: LocalStorage)
      ensures categories == Categories(pool)
      ensures bookmarks.storage == storage
      ensures storage.bookmarkedCards.Some? ==> bookmarks.bookmarkedCards == storage.bookmarkedCards.value
      ensures storage.bookmarkedCards.None? ==> bookmarks.bookmarkedCards == []
    {
      categories := Categories(pool);
      bookmarks := new BookmarkList(storage);
    }

    method ToggleBookmark(card: Card)
      modifies bookmarks, bookmarks.storage
      ensures bookmarks.bookmarkedCards == Toggled(old(bookmarks.bookmarkedCards), card)
      ensures bookmarks.storage.bookmarkedCards == Some(bookmarks.bookmarkedCards)
      ensures bookmarks.storage.token == old(bookmarks.storage.token)
    {
      bookmarks.ToggleBookmark(card);
    }
  }
}
