/** The term record of the study pool and the character helpers the components use.
    Upper- and lower-casing are modelled for ASCII letters only. */
module Cards {
  import opened Seqs

  /** One entry of the term pool. An absent pronunciation or category is "", which
      JavaScript treats as falsy just like a missing property. */
  datatype Card = Card(term: string, definition: string, pronunciation: string, category: string)

  predicate IsUpperAscii(c: char) { 'A' <= c <= 'Z' }
  predicate IsLowerAscii(c: char) { 'a' <= c <= 'z' }
  predicate IsDigit(c: char) { '0' <= c <= '9' }

  function ToUpperAscii(c: char): (r: char)
    ensures IsLowerAscii(c) ==> IsUpperAscii(r)
    ensures !IsLowerAscii(c) ==> r == c
  {
    if IsLowerAscii(c) then (c as int - 32) as char else c
  }

  function ToLowerAscii(c: char): (r: char)
    ensures IsUpperAscii(c) ==> IsLowerAscii(r)
    ensures !IsUpperAscii(c) ==> r == c
  {
    if IsUpperAscii(c) then (c as int + 32) as char else c
  }

  /** Casing moves an ASCII letter by 32 code points, to the same letter of the other
      case, so upper- and lower-casing undo each other on ASCII letters. */
  lemma CaseConversion(c: char)
    ensures IsLowerAscii(c) ==> ToUpperAscii(c) as int == c as int - 32
    ensures IsUpperAscii(c) ==> ToLowerAscii(c) as int == c as int + 32
    ensures IsLowerAscii(c) ==> ToLowerAscii(ToUpperAscii(c)) == c
    ensures IsUpperAscii(c) ==> ToUpperAscii(ToLowerAscii(c)) == c
  {
  }

  /** `term.charAt(0).toUpperCase()`: "" for an empty term. */
  function FirstLetterKey(term: string): (r: string)
    ensures |r| <= 1
    ensures term != [] ==> r == [ToUpperAscii(term[0])]
  {
    if term == [] then "" else [ToUpperAscii(term[0])]
  }

  function Terms(cards: seq<Card>): (r: seq<string>)
    ensures |r| == |cards|
    ensures forall i :: 0 <= i < |cards| ==> r[i] == cards[i].term
  {
    Map(cards, (c: Card) => c.term)
  }

  /** `cards.some((c) => c.term === term)` */
  predicate HasTerm(cards: seq<Card>, term: string) {
    exists i :: 0 <= i < |cards| && cards[i].term == term
  }

  function HasOtherTerm(term: string): Card -> bool {
    (c: Card) => c.term != term
  }

  ghost predicate UniqueTerms(cards: seq<Card>) {
    forall i, j :: 0 <= i < j < |cards| ==> cards[i].term != cards[j].term
  }
}
