/** The pure parts of client/src/components/modes/QuizMode.js: category selection,
    question sampling, answer choices, scoring and the retry set. Every random
    reordering is an index permutation chosen by the caller. */
module Quiz {
  import opened Seqs
  import opened Permutations
  import opened Cards

  /** The question counts offered by the settings screen, and the initial one. */
  const NumQuestionOptions: seq<nat> := [5, 15, 25, 35, 65, 75]
  const DefaultNumQuestions: nat := 5
  /** At most this many wrong terms are offered with each question. */
  const MaxDistractors: nat := 3

  // ---------------------------------------------------------------- category selection

  function Differs(category: string): string -> bool {
    x => x != category
  }

  /** handleCategoryChange: remove the category when it is selected, else append it. */
  function ToggledSelection(selected: seq<string>, category: string): seq<string> {
    if category in selected then Filter(selected, Differs(category)) else selected + [category]
  }

  /** Toggling flips the membership of that category and of no other. */
  lemma ToggledSelectionMembership(selected: seq<string>, category: string)
    ensures category in ToggledSelection(selected, category) <==> category !in selected
    ensures forall x :: x != category ==> (x in ToggledSelection(selected, category) <==> x in selected)
  {
    FilterMembership(selected, Differs(category));
  }

  /** Toggling twice restores the set of selected categories, and restores the list
      itself when the category was not selected. */
  lemma ToggleSelectionTwice(selected: seq<string>, category: string)
    ensures forall x :: x in ToggledSelection(ToggledSelection(selected, category), category) <==> x in selected
    ensures category !in selected ==> ToggledSelection(ToggledSelection(selected, category), category) == selected
  {
    ToggledSelectionMembership(selected, category);
    ToggledSelectionMembership(ToggledSelection(selected, category), category);
    if category !in selected {
      var once := selected + [category];
      assert once[|selected|] == category;
      FilterConcat(selected, [category], Differs(category));
      FilterKeepsAll(selected, Differs(category));
    }
  }

  lemma {:induction false} FilterKeepsNoDuplicates<T>(s: seq<T>, f: T -> bool)
    requires NoDuplicates(s)
    ensures NoDuplicates(Filter(s, f))
  {
    if s != [] {
      FilterKeepsNoDuplicates(s[1..], f);
      FilterMembership(s[1..], f);
      assert s[0] !in s[1..];
    }
  }

  /** A selection without repeats stays without repeats. */
  lemma ToggledSelectionNoDuplicates(selected: seq<string>, category: string)
    requires NoDuplicates(selected)
    ensures NoDuplicates(ToggledSelection(selected, category))
  {
    if category in selected {
      FilterKeepsNoDuplicates(selected, Differs(category));
    }
  }

  // ---------------------------------------------------------------- the question set

  function InSelection(selected: seq<string>): Card -> bool {
    (c: Card) => c.category in selected
  }

  /** The cards a quiz draws from: the whole pool when nothing is selected. */
  function FilteredCards(pool: seq<Card>, selected: seq<string>): seq<Card> {
    if |selected| == 0 then pool else Filter(pool, InSelection(selected))
  }

  /** With a selection, exactly the cards of the selected categories, each as often as
      in the pool, in pool order. */
  lemma FilteredCardsSpec(pool: seq<Card>, selected: seq<string>)
    ensures selected == [] ==> FilteredCards(pool, selected) == pool
    ensures selected != [] ==> forall c :: multiset(FilteredCards(pool, selected))[c]
                                          == (if c.category in selected then multiset(pool)[c] else 0)
    ensures selected != [] ==> forall c :: c in FilteredCards(pool, selected) <==> c in pool && c.category in selected
    ensures IsSubsequence(FilteredCards(pool, selected), pool)
  {
    FilterIsSubsequence(pool, InSelection(selected));
    FilterMembership(pool, InSelection(selected));
    forall c ensures multiset(Filter(pool, InSelection(selected)))[c] == if c.category in selected then multiset(pool)[c] else 0 {
      FilterCount(pool, InSelection(selected), c);
    }
    if selected == [] {
      SubsequenceReflexive(pool);
    }
  }

  lemma {:induction false} SubsequenceReflexive<T>(s: seq<T>)
    ensures IsSubsequence(s, s)
  {
    if s != [] {
      SubsequenceReflexive(s[1..]);
    }
  }

  /** The first numQuestions cards of the reordered filtered cards. */
  function QuizQuestions(filtered: seq<Card>, order: seq<nat>, numQuestions: nat): seq<Card>
    requires IsPermutation(order, |filtered|)
  {
    Permute(filtered, order)[..Min(numQuestions, |filtered|)]
  }

  /** min(numQuestions, |filtered|) questions, drawn from the filtered cards without
      replacement. */
  lemma QuizQuestionsSpec(filtered: seq<Card>, order: seq<nat>, numQuestions: nat)
    requires IsPermutation(order, |filtered|)
    ensures |QuizQuestions(filtered, order, numQuestions)| == Min(numQuestions, |filtered|)
    ensures multiset(QuizQuestions(filtered, order, numQuestions)) <= multiset(filtered)
    ensures forall c :: c in QuizQuestions(filtered, order, numQuestions) ==> c in filtered
  {
    PermutePrefix(filtered, order, Min(numQuestions, |filtered|));
    var q := QuizQuestions(filtered, order, numQuestions);
    forall c | c in q ensures c in filtered {
      assert c in multiset(q);
    }
  }

  // ---------------------------------------------------------------- answer choices

  /** The two random reorderings behind one question's choice list. */
  datatype ChoiceOrder = ChoiceOrder(distractorOrder: seq<nat>, choiceOrder: seq<nat>)

  /** The terms of the cards whose term differs from `term`, in source order. */
  function OtherTerms(source: seq<Card>, term: string): seq<string> {
    Terms(Filter(source, HasOtherTerm(term)))
  }

  predicate ValidChoiceOrder(o: ChoiceOrder, numOthers: nat) {
    && IsPermutation(o.distractorOrder, numOthers)
    && IsPermutation(o.choiceOrder, 1 + Min(MaxDistractors, numOthers))
  }

  /** `[term, ...others reordered and cut to 3]` reordered. */
  function AnswerChoices(term: string, others: seq<string>, o: ChoiceOrder): seq<string>
    requires ValidChoiceOrder(o, |others|)
  {
    var distractors := Permute(others, o.distractorOrder)[..Min(MaxDistractors, |others|)];
    Permute([term] + distractors, o.choiceOrder)
  }

  lemma OtherTermsSpec(source: seq<Card>, term: string)
    ensures |OtherTerms(source, term)| == |Filter(source, HasOtherTerm(term))|
    ensures term !in OtherTerms(source, term)
    ensures forall x :: x in OtherTerms(source, term) ==> HasTerm(source, x)
  {
    var kept := Filter(source, HasOtherTerm(term));
    FilterMembership(source, HasOtherTerm(term));
    forall x | x in OtherTerms(source, term) ensures HasTerm(source, x) {
      var i :| 0 <= i < |kept| && kept[i].term == x;
      assert kept[i] in source;
      var j :| 0 <= j < |source| && source[j] == kept[i];
    }
  }

  /** The choice list holds the correct term exactly once; every other entry is the
      term of a different card of the source, drawn without replacement; and there
      are 1 + min(3, number of other cards) entries. */
  lemma AnswerChoicesSpec(term: string, source: seq<Card>, o: ChoiceOrder)
    requires ValidChoiceOrder(o, |OtherTerms(source, term)|)
    ensures |AnswerChoices(term, OtherTerms(source, term), o)|
         == 1 + Min(MaxDistractors, |Filter(source, HasOtherTerm(term))|)
    ensures multiset(AnswerChoices(term, OtherTerms(source, term), o))[term] == 1
    ensures multiset(AnswerChoices(term, OtherTerms(source, term), o)) - multiset{term}
         <= multiset(OtherTerms(source, term))
    ensures forall x :: x in AnswerChoices(term, OtherTerms(source, term), o) && x != term ==> HasTerm(source, x)
  {
    var others := OtherTerms(source, term);
    OtherTermsSpec(source, term);
    var k := Min(MaxDistractors, |others|);
    var distractors := Permute(others, o.distractorOrder)[..k];
    PermutePrefix(others, o.distractorOrder, k);
    var r := AnswerChoices(term, others, o);
    PermuteMultiset([term] + distractors, o.choiceOrder);
    assert multiset(r) == multiset{term} + multiset(distractors);
    assert multiset(others)[term] == 0;
    forall x | x in r && x != term ensures HasTerm(source, x) {
      assert x in multiset(r);
      assert x in multiset(others);
    }
  }

  predicate ValidChoiceOrders(questions: seq<Card>, source: seq<Card>, orders: seq<ChoiceOrder>) {
    && |orders| == |questions|
    && forall i {:trigger orders[i]} :: 0 <= i < |questions| ==> ValidChoiceOrder(orders[i], |OtherTerms(source, questions[i].term)|)
  }

  /** One choice list per question, with distractors drawn from `source`. */
  function ChoicesList(questions: seq<Card>, source: seq<Card>, orders: seq<ChoiceOrder>): (r: seq<seq<string>>)
    requires ValidChoiceOrders(questions, source, orders)
    ensures |r| == |questions|
  {
    seq(|questions|, i requires 0 <= i < |questions| =>
      AnswerChoices(questions[i].term, OtherTerms(source, questions[i].term), orders[i]))
  }

  /** One list per question, each offering that question's term exactly once. */
  ghost predicate OffersEachTermOnce(questions: seq<Card>, choices: seq<seq<string>>) {
    && |choices| == |questions|
    && forall i {:trigger choices[i]} :: 0 <= i < |questions| ==> multiset(choices[i])[questions[i].term] == 1
  }

  lemma ChoicesListOffersTerms(questions: seq<Card>, source: seq<Card>, orders: seq<ChoiceOrder>)
    requires ValidChoiceOrders(questions, source, orders)
    ensures OffersEachTermOnce(questions, ChoicesList(questions, source, orders))
  {
    forall i | 0 <= i < |questions|
      ensures multiset(ChoicesList(questions, source, orders)[i])[questions[i].term] == 1
    {
      AnswerChoicesSpec(questions[i].term, source, orders[i]);
    }
  }

  /** Every other entry of a question's list is the term of a card of the source. */
  lemma ChoicesListDistractors(questions: seq<Card>, source: seq<Card>, orders: seq<ChoiceOrder>, i: nat, x: string)
    requires ValidChoiceOrders(questions, source, orders)
    requires i < |questions| && x in ChoicesList(questions, source, orders)[i] && x != questions[i].term
    ensures HasTerm(source, x)
  {
    AnswerChoicesSpec(questions[i].term, source, orders[i]);
  }

  // ---------------------------------------------------------------- scoring

  /** `selectedAnswers[index] === card.term`: an unanswered question is never correct. */
  predicate AnsweredCorrectly(answers: map<nat, string>, i: nat, card: Card) {
    i in answers && answers[i] == card.term
  }

  /** The number of correct answers among the first k questions. */
  function ScoreUpTo(questions: seq<Card>, answers: map<nat, string>, k: nat): nat
    requires k <= |questions|
  {
    if k == 0 then 0
    else ScoreUpTo(questions, answers, k - 1) + (if AnsweredCorrectly(answers, k - 1, questions[k - 1]) then 1 else 0)
  }

  /** The indices among the first k whose answer is not correct, ascending. */
  function MissedIndicesUpTo(questions: seq<Card>, answers: map<nat, string>, k: nat): seq<nat>
    requires k <= |questions|
  {
    if k == 0 then []
    else MissedIndicesUpTo(questions, answers, k - 1) + (if AnsweredCorrectly(answers, k - 1, questions[k - 1]) then [] else [k - 1])
  }

  /** The missed cards among the first k questions, in question order. */
  function MissedUpTo(questions: seq<Card>, answers: map<nat, string>, k: nat): seq<Card>
    requires k <= |questions|
  {
    if k == 0 then []
    else MissedUpTo(questions, answers, k - 1) + (if AnsweredCorrectly(answers, k - 1, questions[k - 1]) then [] else [questions[k - 1]])
  }

  /** Every question is either scored or missed. */
  lemma {:induction false} ScorePlusMissed(questions: seq<Card>, answers: map<nat, string>, k: nat)
    requires k <= |questions|
    ensures ScoreUpTo(questions, answers, k) + |MissedUpTo(questions, answers, k)| == k
  {
    if k > 0 {
      ScorePlusMissed(questions, answers, k - 1);
    }
  }

  lemma {:induction false} MissedIndicesMembership(questions: seq<Card>, answers: map<nat, string>, k: nat)
    requires k <= |questions|
    ensures forall i :: i in MissedIndicesUpTo(questions, answers, k) <==>
      0 <= i < k && !AnsweredCorrectly(answers, i, questions[i])
  {
    if k > 0 {
      MissedIndicesMembership(questions, answers, k - 1);
    }
  }

  lemma {:induction false} MissedIndicesAscending(questions: seq<Card>, answers: map<nat, string>, k: nat)
    requires k <= |questions|
    ensures forall j :: 0 <= j < |MissedIndicesUpTo(questions, answers, k)| ==> MissedIndicesUpTo(questions, answers, k)[j] < k
    ensures forall a, b :: 0 <= a < b < |MissedIndicesUpTo(questions, answers, k)| ==>
      MissedIndicesUpTo(questions, answers, k)[a] < MissedIndicesUpTo(questions, answers, k)[b]
  {
    if k > 0 {
      MissedIndicesAscending(questions, answers, k - 1);
      var prev := MissedIndicesUpTo(questions, answers, k - 1);
      assert MissedIndicesUpTo(questions, answers, k)
          == prev + (if AnsweredCorrectly(answers, k - 1, questions[k - 1]) then [] else [k - 1]);
    }
  }

  lemma {:induction false} MissedAtIndices(questions: seq<Card>, answers: map<nat, string>, k: nat)
    requires k <= |questions|
    ensures |MissedUpTo(questions, answers, k)| == |MissedIndicesUpTo(questions, answers, k)|
    ensures forall j :: 0 <= j < |MissedUpTo(questions, answers, k)| ==>
      MissedIndicesUpTo(questions, answers, k)[j] < k &&
      MissedUpTo(questions, answers, k)[j] == questions[MissedIndicesUpTo(questions, answers, k)[j]]
  {
    if k > 0 {
      MissedAtIndices(questions, answers, k - 1);
    }
  }

  /** The missed list is the cards at the strictly ascending indices of the questions
      not answered correctly, and only those. */
  lemma MissedSpec(questions: seq<Card>, answers: map<nat, string>, k: nat)
    requires k <= |questions|
    ensures forall i :: i in MissedIndicesUpTo(questions, answers, k) <==>
      0 <= i < k && !AnsweredCorrectly(answers, i, questions[i])
    ensures forall a, b :: 0 <= a < b < |MissedIndicesUpTo(questions, answers, k)| ==>
      MissedIndicesUpTo(questions, answers, k)[a] < MissedIndicesUpTo(questions, answers, k)[b]
    ensures |MissedUpTo(questions, answers, k)| == |MissedIndicesUpTo(questions, answers, k)|
    ensures forall j :: 0 <= j < |MissedUpTo(questions, answers, k)| ==>
      MissedIndicesUpTo(questions, answers, k)[j] < k &&
      MissedUpTo(questions, answers, k)[j] == questions[MissedIndicesUpTo(questions, answers, k)[j]]
  {
    MissedIndicesMembership(questions, answers, k);
    MissedIndicesAscending(questions, answers, k);
    MissedAtIndices(questions, answers, k);
  }

  /** An unanswered question is always missed. */
  lemma UnansweredIsMissed(questions: seq<Card>, answers: map<nat, string>, i: nat)
    requires i < |questions| && i !in answers
    ensures i in MissedIndicesUpTo(questions, answers, |questions|)
  {
    MissedSpec(questions, answers, |questions|);
  }

  /** handleSubmitQuiz's forEach: count the correct answers and collect the missed cards. */
  method ScoreQuiz(questions: seq<Card>, answers: map<nat, string>) returns (score: nat, missed: seq<Card>)
    ensures score == ScoreUpTo(questions, answers, |questions|)
    ensures missed == MissedUpTo(questions, answers, |questions|)
    ensures score + |missed| == |questions|
  {
    score := 0;
    missed := [];
    var index := 0;
    while index < |questions|
      invariant index <= |questions|
      invariant score == ScoreUpTo(questions, answers, index)
      invariant missed == MissedUpTo(questions, answers, index)
    {
      var card := questions[index];
      if index in answers && answers[index] == card.term {
        score := score + 1;
      } else {
        missed := missed + [card];
      }
      index := index + 1;
    }
    ScorePlusMissed(questions, answers, |questions|);
  }

  /** The submit button is enabled when there are as many answer keys as questions. */
  predicate AllQuestionsAnswered(answers: map<nat, string>, numQuestions: nat) {
    |answers.Keys| == numQuestions
  }

  function Range(n: nat): (r: set<nat>)
    ensures forall i: nat :: i in r <==> i < n
    ensures |r| == n
  {
    if n == 0 then {} else Range(n - 1) + {n - 1}
  }

  lemma SubsetOfEqualSize<T>(a: set<T>, b: set<T>)
    requires a <= b && |a| == |b|
    ensures a == b
  {
    assert b == a + (b - a);
  }

  /** When every answer key is a question index, the count test means every question
      has an answer. */
  lemma AllQuestionsAnsweredIff(answers: map<nat, string>, numQuestions: nat)
    requires forall k :: k in answers ==> k < numQuestions
    ensures AllQuestionsAnswered(answers, numQuestions) <==> forall i :: 0 <= i < numQuestions ==> i in answers
  {
    assert answers.Keys <= Range(numQuestions);
    if AllQuestionsAnswered(answers, numQuestions) {
      SubsetOfEqualSize(answers.Keys, Range(numQuestions));
    }
    if forall i :: 0 <= i < numQuestions ==> i in answers {
      assert answers.Keys == Range(numQuestions);
    }
  }

  // ---------------------------------------------------------------- retry with missed

  function NotAmong(missed: seq<Card>): Card -> bool {
    (c: Card) => !HasTerm(missed, c.term)
  }

  /** The pool cards whose term is not among the missed cards' terms, in pool order. */
  function OtherQuestions(pool: seq<Card>, missed: seq<Card>): seq<Card> {
    Filter(pool, NotAmong(missed))
  }

  /** How many pool cards are added: max(numQuestions, |missed|) - |missed|, as far as
      there are other cards. */
  function NumAdditional(pool: seq<Card>, missed: seq<Card>, numQuestions: nat): nat {
    Min(Max(numQuestions, |missed|) - |missed|, |OtherQuestions(pool, missed)|)
  }

  function AdditionalQuestions(pool: seq<Card>, missed: seq<Card>, numQuestions: nat, otherOrder: seq<nat>): (r: seq<Card>)
    requires IsPermutation(otherOrder, |OtherQuestions(pool, missed)|)
    ensures |r| == NumAdditional(pool, missed, numQuestions)
  {
    Permute(OtherQuestions(pool, missed), otherOrder)[..NumAdditional(pool, missed, numQuestions)]
  }

  /** The new question list: the missed cards and the additional ones, reordered. */
  function RetryQuestions(pool: seq<Card>, missed: seq<Card>, numQuestions: nat, otherOrder: seq<nat>, combinedOrder: seq<nat>): seq<Card>
    requires IsPermutation(otherOrder, |OtherQuestions(pool, missed)|)
    requires IsPermutation(combinedOrder, |missed| + NumAdditional(pool, missed, numQuestions))
  {
    Permute(missed + AdditionalQuestions(pool, missed, numQuestions, otherOrder), combinedOrder)
  }

  /** The retry keeps every missed card, tops up with at most max(numQuestions, |missed|)
      - |missed| distinct pool cards whose terms were not missed, and nothing else. */
  lemma RetryQuestionsSpec(pool: seq<Card>, missed: seq<Card>, numQuestions: nat, otherOrder: seq<nat>, combinedOrder: seq<nat>)
    requires IsPermutation(otherOrder, |OtherQuestions(pool, missed)|)
    requires IsPermutation(combinedOrder, |missed| + NumAdditional(pool, missed, numQuestions))
    ensures multiset(RetryQuestions(pool, missed, numQuestions, otherOrder, combinedOrder))
         == multiset(missed) + multiset(AdditionalQuestions(pool, missed, numQuestions, otherOrder))
    ensures |AdditionalQuestions(pool, missed, numQuestions, otherOrder)| <= Max(numQuestions, |missed|) - |missed|
    ensures multiset(AdditionalQuestions(pool, missed, numQuestions, otherOrder)) <= multiset(OtherQuestions(pool, missed))
    ensures forall c :: c in AdditionalQuestions(pool, missed, numQuestions, otherOrder) ==> c in pool && !HasTerm(missed, c.term)
    ensures |RetryQuestions(pool, missed, numQuestions, otherOrder, combinedOrder)| <= Max(numQuestions, |missed|)
  {
    var others := OtherQuestions(pool, missed);
    var extra := AdditionalQuestions(pool, missed, numQuestions, otherOrder);
    PermutePrefix(others, otherOrder, NumAdditional(pool, missed, numQuestions));
    PermuteMultiset(missed + extra, combinedOrder);
    FilterMembership(pool, NotAmong(missed));
    forall c | c in extra ensures c in pool && !HasTerm(missed, c.term) {
      assert c in multiset(extra);
      assert c in others;
    }
  }

  /** What the caller's reorderings must satisfy for a retry. */
  predicate RetryOrdersValid(pool: seq<Card>, missed: seq<Card>, numQuestions: nat,
                             otherOrder: seq<nat>, combinedOrder: seq<nat>, choiceOrders: seq<ChoiceOrder>) {
    && IsPermutation(otherOrder, |OtherQuestions(pool, missed)|)
    && IsPermutation(combinedOrder, |missed| + NumAdditional(pool, missed, numQuestions))
    && ValidChoiceOrders(RetryQuestions(pool, missed, numQuestions, otherOrder, combinedOrder), pool, choiceOrders)
  }

  /** The computation of handleRestartWithMissedQuestions, step by step: the question
      count, the other cards, the reordered top-up, the combined list and its choices. */
  method RetryQuiz(pool: seq<Card>, missed: seq<Card>, numQuestions: nat,
                   otherOrder: seq<nat>, combinedOrder: seq<nat>, choiceOrders: seq<ChoiceOrder>)
    returns (newCardsToShow: seq<Card>, choices: seq<seq<string>>)
    requires RetryOrdersValid(pool, missed, numQuestions, otherOrder, combinedOrder, choiceOrders)
    ensures newCardsToShow == RetryQuestions(pool, missed, numQuestions, otherOrder, combinedOrder)
    ensures choices == ChoicesList(newCardsToShow, pool, choiceOrders)
    ensures OffersEachTermOnce(newCardsToShow, choices)
  {
    var totalQuestions := Max(numQuestions, |missed|);
    var numAdditionalQuestions := totalQuestions - |missed|;
    var otherQuestions := Filter(pool, NotAmong(missed));
    var shuffledOtherQuestions := Permute(otherQuestions, otherOrder);
    var additionalQuestions := shuffledOtherQuestions[..Min(numAdditionalQuestions, |otherQuestions|)];
    var combinedQuestions := missed + additionalQuestions;
    newCardsToShow := Permute(combinedQuestions, combinedOrder);
    choices := ChoicesList(newCardsToShow, pool, choiceOrders);
    ChoicesListOffersTerms(newCardsToShow, pool, choiceOrders);
  }
}
