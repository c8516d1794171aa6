/** client/src/components/common/CategorySelect.js: the category options, ordered by
    chapter number through a stable sort of a copy of the list. */
module CategorySelect {
  import opened Wrappers
  import opened Seqs
  import opened Sorting
  import opened Helpers

  /** `extractChapterNumber(c) || 0`: a category without a chapter number sorts as 0. */
  function ChapterKey(category: string): nat {
    ExtractChapterNumber(category).GetOr(0)
  }

  /** The comparator `numA - numB`, read as "a may come before b". */
  predicate ChapterLeq(a: string, b: string) {
    ChapterKey(a) <= ChapterKey(b)
  }

  /** The categories with a given chapter key. */
  function HasChapterKey(k: nat): string -> bool {
    c => ChapterKey(c) == k
  }

  /** The sorted copy the select renders; the argument is a value and stays as it was. */
  function SortedCategories(categories: seq<string>): seq<string> {
    Sort(categories, ChapterLeq)
  }

  lemma ChapterLeqIsTotalPreorder()
    ensures TotalPreorder(ChapterLeq)
  {
  }

  /** The sorted list is a permutation of the input. */
  lemma SortedCategoriesPermutation(categories: seq<string>)
    ensures |SortedCategories(categories)| == |categories|
    ensures multiset(SortedCategories(categories)) == multiset(categories)
  {
    SortMultiset(categories, ChapterLeq);
  }

  /** Chapter keys never decrease along the sorted list. */
  lemma SortedCategoriesOrdered(categories: seq<string>)
    ensures forall i, j :: 0 <= i < j < |SortedCategories(categories)| ==>
      ChapterKey(SortedCategories(categories)[i]) <= ChapterKey(SortedCategories(categories)[j])
  {
    SortSorted(categories, ChapterLeq);
  }

  lemma {:induction false} FilterSamePredicate<T>(s: seq<T>, f: T -> bool, g: T -> bool)
    requires forall x :: f(x) == g(x)
    ensures Filter(s, f) == Filter(s, g)
  {
    if s != [] {
      FilterSamePredicate(s[1..], f, g);
    }
  }

  /** Stability: the categories of one chapter key keep their input order. */
  lemma SortedCategoriesStable(categories: seq<string>, k: nat)
    ensures Filter(SortedCategories(categories), HasChapterKey(k)) == Filter(categories, HasChapterKey(k))
  {
    var sorted := SortedCategories(categories);
    SortMultiset(categories, ChapterLeq);
    if e :| e in categories && ChapterKey(e) == k {
      SortStable(categories, ChapterLeq, e);
      FilterSamePredicate(sorted, EquivalentTo(ChapterLeq, e), HasChapterKey(k));
      FilterSamePredicate(categories, EquivalentTo(ChapterLeq, e), HasChapterKey(k));
    } else {
      forall x | x in sorted ensures !HasChapterKey(k)(x) {
        assert x in multiset(sorted);
      }
      FilterNone(sorted, HasChapterKey(k));
      FilterNone(categories, HasChapterKey(k));
    }
  }

  lemma {:induction false} FilterNone<T>(s: seq<T>, f: T -> bool)
    requires forall x :: x in s ==> !f(x)
    ensures Filter(s, f) == []
  {
    if s != [] {
      FilterNone(s[1..], f);
    }
  }

  lemma AllHasNoChapter()
    ensures ExtractChapterNumber("All") == None
  {
    assert !ChapterMarkAt("All", 0, true);
  }

  /** "All" (key 0) precedes every category of a chapter numbered 1 or more. */
  lemma AllSortsBeforeChapters(categories: seq<string>)
    ensures forall i, j ::
      (0 <= i < |SortedCategories(categories)| && 0 <= j < |SortedCategories(categories)|
       && SortedCategories(categories)[i] == "All" && ChapterKey(SortedCategories(categories)[j]) >= 1) ==> i < j
  {
    AllHasNoChapter();
    SortedCategoriesOrdered(categories);
  }
}
