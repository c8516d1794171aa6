/** The QuizMode component of client/src/components/modes/QuizMode.js: its state
    fields and the handlers that overwrite them. The pool is the array the parent
    passes down; starting a quiz with no category selected reorders it in place. */
module QuizModeComponent {
  import opened Seqs
  import opened Permutations
  import opened Cards
  import opened Quiz

  /** A snapshot of every state field, for stating what a handler leaves unchanged. */
  datatype QuizState = QuizState(
    selectedCategories: seq<string>,
    numQuestions: nat,
    cardsToShow: seq<Card>,
    currentQuestionIndex: nat,
    score: nat,
    selectedAnswers: map<nat, string>,
    showScore: bool,
    quizStarted: bool,
    answerChoicesList: seq<seq<string>>,
    missedQuestions: seq<Card>)

  class QuizMode {
    const flashcardsData: array<Card>
    var selectedCategories: seq<string>
    var numQuestions: nat
    var cardsToShow: seq<Card>
    var currentQuestionIndex: nat
    var score: nat
    var selectedAnswers: map<nat, string>
    var showScore: bool
    var quizStarted: bool
    var answerChoicesList: seq<seq<string>>
    var missedQuestions: seq<Card>

    function State(): QuizState
      reads this
    {
      QuizState(selectedCategories, numQuestions, cardsToShow, currentQuestionIndex, score,
                selectedAnswers, showScore, quizStarted, answerChoicesList, missedQuestions)
    }

    /** While a quiz runs, each question has a choice list that offers its term once
        and the current question is one of the quiz's; answers are recorded only for
        questions of the quiz. */
    ghost predicate Valid()
      reads this
    {
      && (quizStarted ==> OffersEachTermOnce(cardsToShow, answerChoicesList))
      && (quizStarted && |cardsToShow| > 0 ==> currentQuestionIndex < |cardsToShow|)
      && (forall k :: k in selectedAnswers ==> k < |cardsToShow|)
    }

    constructor (flashcardsData: array<Card>)
      ensures this.flashcardsData == flashcardsData
      ensures State() == QuizState([], DefaultNumQuestions, [], 0, 0, map[], false, false, [], [])
      ensures Valid()
    {
      this.flashcardsData := flashcardsData;
      selectedCategories := [];
      numQuestions := DefaultNumQuestions;
      cardsToShow := [];
      currentQuestionIndex := 0;
      score := 0;
      selectedAnswers := map[];
      showScore := false;
      quizStarted := false;
      answerChoicesList := [];
      missedQuestions := [];
    }

    method HandleCategoryChange(category: string)
      modifies this
      ensures State() == old(State()).(selectedCategories := ToggledSelection(old(selectedCategories), category))
      ensures old(Valid()) ==> Valid()
    {
      selectedCategories := ToggledSelection(selectedCategories, category);
    }

    method HandleNumQuestionsChange(num: nat)
      modifies this
      ensures State() == old(State()).(numQuestions := num)
      ensures old(Valid()) ==> Valid()
    {
      numQuestions := num;
    }

    /** handleStartQuiz. `order` is the reordering of the filtered cards, `choiceOrders`
        the two reorderings for each question's choice list. */
    method HandleStartQuiz(order: seq<nat>, choiceOrders: seq<ChoiceOrder>)
      requires IsPermutation(order, |FilteredCards(flashcardsData[..], selectedCategories)|)
      requires ValidChoiceOrders(
        QuizQuestions(FilteredCards(flashcardsData[..], selectedCategories), order, numQuestions),
        Permute(FilteredCards(flashcardsData[..], selectedCategories), order), choiceOrders)
      modifies this, flashcardsData
      // with no selection the filtered cards are the pool itself, now reordered
      ensures old(selectedCategories) == [] ==>
        flashcardsData[..] == Permute(FilteredCards(old(flashcardsData[..]), old(selectedCategories)), order)
      ensures old(selectedCategories) != [] ==> flashcardsData[..] == old(flashcardsData[..])
      ensures cardsToShow == QuizQuestions(FilteredCards(old(flashcardsData[..]), old(selectedCategories)), order, old(numQuestions))
      ensures answerChoicesList == ChoicesList(cardsToShow,
        Permute(FilteredCards(old(flashcardsData[..]), old(selectedCategories)), order), choiceOrders)
      ensures State() == old(State()).(cardsToShow := cardsToShow, answerChoicesList := answerChoicesList,
        currentQuestionIndex := 0, score := 0, selectedAnswers := map[], showScore := false, quizStarted := true)
      ensures Valid()
    {
      var noSelection := |selectedCategories| == 0;
      var filtered := FilteredCards(flashcardsData[..], selectedCategories);
      var reordered := Permute(filtered, order);
      var shuffledCards := reordered[..Min(numQuestions, |filtered|)];
      var choices := ChoicesList(shuffledCards, reordered, choiceOrders);
      ChoicesListOffersTerms(shuffledCards, reordered, choiceOrders);
      cardsToShow := shuffledCards;
      answerChoicesList := choices;
      currentQuestionIndex := 0;
      score := 0;
      selectedAnswers := map[];
      showScore := false;
      quizStarted := true;
      if noSelection {
        // the in-place sort of line 74 reorders the pool array itself
        OverwritePool(reordered);
      }
    }

    method OverwritePool(cards: seq<Card>)
      requires |cards| == flashcardsData.Length
      modifies flashcardsData
      ensures flashcardsData[..] == cards
    {
      forall i | 0 <= i < flashcardsData.Length {
        flashcardsData[i] := cards[i];
      }
    }

    /** Record `value` as the answer to the current question, and nothing else. The
        choices are rendered only beside a displayed question. */
    method HandleAnswerSelect(value: string)
      requires currentQuestionIndex < |cardsToShow|
      modifies this
      ensures selectedAnswers == old(selectedAnswers)[currentQuestionIndex := value]
      ensures forall k :: k != currentQuestionIndex ==>
        (k in selectedAnswers <==> k in old(selectedAnswers)) &&
        (k in selectedAnswers ==> selectedAnswers[k] == old(selectedAnswers)[k])
      ensures State() == old(State()).(selectedAnswers := selectedAnswers)
      ensures old(Valid()) ==> Valid()
    {
      selectedAnswers := selectedAnswers[currentQuestionIndex := value];
    }

    /** Whether the submit button is enabled. */
    predicate SubmitEnabled()
      reads this
    {
      AllQuestionsAnswered(selectedAnswers, |cardsToShow|)
    }

    method HandleSubmitQuiz()
      modifies this
      ensures score == ScoreUpTo(cardsToShow, selectedAnswers, |cardsToShow|)
      ensures missedQuestions == MissedUpTo(cardsToShow, selectedAnswers, |cardsToShow|)
      ensures score + |missedQuestions| == |cardsToShow|
      ensures State() == old(State()).(score := score, missedQuestions := missedQuestions, showScore := true)
      ensures old(Valid()) ==> Valid()
    {
      var scoreCount, missedQuestionsArray := ScoreQuiz(cardsToShow, selectedAnswers);
      missedQuestions := missedQuestionsArray;
      score := scoreCount;
      showScore := true;
    }

    /** Previous, Next and the numbered buttons: each offers only the number of a
        question of the quiz. */
    method HandleNavigateQuestion(index: nat)
      requires index < |cardsToShow|
      modifies this
      ensures State() == old(State()).(currentQuestionIndex := index)
      ensures old(Valid()) ==> Valid()
    {
      currentQuestionIndex := index;
    }

    /** Back to the settings screen with the default settings. The choice lists are
        left as they were; nothing shows them until a quiz starts again. */
    method HandleRestartQuiz()
      modifies this
      ensures State() == old(State()).(quizStarted := false, selectedCategories := [],
        numQuestions := DefaultNumQuestions, cardsToShow := [], currentQuestionIndex := 0, score := 0,
        selectedAnswers := map[], showScore := false, missedQuestions := [])
      ensures Valid()
    {
      quizStarted := false;
      selectedCategories := [];
      numQuestions := DefaultNumQuestions;
      cardsToShow := [];
      currentQuestionIndex := 0;
      score := 0;
      selectedAnswers := map[];
      showScore := false;
      missedQuestions := [];
    }

    /** handleRestartWithMissedQuestions: `otherOrder` reorders the other pool cards,
        `combinedOrder` the combined list, `choiceOrders` each choice list, whose
        distractors come from the whole pool. The pool itself is not reordered. */
    method HandleRestartWithMissedQuestions(otherOrder: seq<nat>, combinedOrder: seq<nat>, choiceOrders: seq<ChoiceOrder>)
      requires RetryOrdersValid(flashcardsData[..], missedQuestions, numQuestions, otherOrder, combinedOrder, choiceOrders)
      modifies this
      ensures cardsToShow == RetryQuestions(old(flashcardsData[..]), old(missedQuestions), old(numQuestions), otherOrder, combinedOrder)
      ensures answerChoicesList == ChoicesList(cardsToShow, old(flashcardsData[..]), choiceOrders)
      ensures State() == old(State()).(cardsToShow := cardsToShow, answerChoicesList := answerChoicesList,
        currentQuestionIndex := 0, score := 0, selectedAnswers := map[], showScore := false, quizStarted := true)
      ensures Valid()
    {
      var newCardsToShow, choices := RetryQuiz(flashcardsData[..], missedQuestions, numQuestions,
                                               otherOrder, combinedOrder, choiceOrders);
      cardsToShow := newCardsToShow;
      answerChoicesList := choices;
      currentQuestionIndex := 0;
      score := 0;
      selectedAnswers := map[];
      showScore := false;
      quizStarted := true;
    }
  }
}
