# Medical-term study app: a Dafny model of its logic

The application is a React client with an Express server for studying medical
terms. It offers flashcard, review and quiz modes over a pool of term cards, bookmarks
stored in localStorage, and login by password or 4-digit PIN. This project models the
sequential logic behind its event handlers and proves properties of it:

- **Quiz engine** (`Quiz`, `QuizModeComponent`). It covers:
  - category selection;
  - the question sample (filter, reorder, truncate);
  - one choice list per question (the correct term plus up to three distractor terms, reordered);
  - scoring into a score and a missed list;
  - the retry quiz, which keeps every missed card and tops it up from the rest of the pool.

  Each `sort(() => 0.5 - Math.random())` is an index permutation supplied by the
  caller, so every property holds for every reordering. Starting a quiz with no
  category selected reorders the shared pool array in place. The model keeps that
  pool as an `array` and writes the reordering back into it.
- **Review browser** (`Review`, `ReviewModeComponent`). It covers:
  - source selection;
  - the first-letter filter and the set of letters that have terms;
  - 20-card prefix pagination with its `hasMore` flag;
  - the bookmark view, sorted by term;
  - the mode and category resets.
- **Bookmarks** (`Bookmarks`, `App`, `Container`). Toggling by term adds the card when
  its term is absent and removes every card with that term when present. The whole
  list is persisted to a shared `Storage.LocalStorage` object. The category list is a
  dedupe that keeps the order of first appearance.
- **Helpers** (`Helpers`, `CategorySelect`, `Audio`). They cover:
  - the Fisher–Yates shuffle, driven by an index oracle, as a loop over an array;
  - `extractChapterNumber`;
  - the chapter-ordered category sort, a stable insertion sort (`Sorting`);
  - the audio path, the "Ch. N" label and the pronunciation split.
- **Small state machines**. They cover:
  - flashcard navigation (`FlashcardModeComponent`);
  - the audio guards of a review card and the single current-audio registries (`ReviewCardComponent`, `AudioRegistry`);
  - the PIN keypad, auto-submit and failure handling (`LoginComponent`);
  - client registration checks (`RegisterComponent`);
  - the server's registration, login and token-validation decisions (`Server`);
  - session state (`Auth`) and route gating (`ProtectedRouteComponent`).

The modelling choices:

- Component state is a `class` whose handlers are methods. Each class has a
  `State()` snapshot, so every handler states its whole new state.
- Network replies, the audio HEAD check, bcrypt, `isEmail`, JWT signing and JWT
  verification are inputs. So are the random choices.
- Strings are `seq<char>`, one element per Unicode character. Where the client compares a JavaScript `.length`, which counts UTF-16 code units, the model counts those units (`RegisterComponent.Utf16Length`). Case mapping covers ASCII letters only. A missing field is "",
  which JavaScript also treats as falsy.

## Model

| member | source | states |
|---|---|---|
| Helpers.SwapElements | client/src/utils/helpers.js:6 | one step trades the elements at i and j and leaves every other position unchanged |
| Helpers.ShuffleFromMultiset | client/src/utils/helpers.js:3-7 | the swaps for i = k down to 1, with any j <= i, keep the multiset of the array |
| Helpers.FisherYatesIsPermutation | client/src/utils/helpers.js:2-8 | for every index oracle with j <= i, the shuffle has the input's length and multiset |
| Helpers.ShuffleArray | client/src/utils/helpers.js:1-9 | the loop over a copied array computes the shuffle of the input, a permutation of it; arrays of length 0 or 1 come back unchanged; the argument is a value and cannot change |
| Helpers.FindChapterMark | client/src/utils/helpers.js:12 | the leftmost position at or after `from` where "ch" + digit starts, or None when there is none |
| Helpers.DigitRun | client/src/utils/helpers.js:12 | the greedy `\d+`: a maximal run of digits starting at the position |
| Helpers.MatchChapter | client/src/utils/helpers.js:12 | None exactly when no position matches; otherwise the leftmost match and its non-empty maximal digit run |
| Helpers.ExtractChapterNumber | client/src/utils/helpers.js:11-14 | null exactly when no case-insensitive "ch" followed by a digit occurs; otherwise the base-10 value of the digit run after the leftmost such mark, wherever it stands in the category |
| Helpers.DecimalValueOfNumeral | client/src/utils/helpers.js:13 | parseInt base 10 inverts the decimal numeral of n |
| Helpers.ExtractChapterNumberOfLabel | client/src/utils/helpers.js:12-13 | round trip: "Ch" + numeral(n), in any letter case, followed by any text that does not start with a digit (a title, say), gives n |
| Helpers.ExtractChapterNumberLeadingZero | client/src/utils/helpers.js:12-13 | "Ch05" gives 5 |
| Permutations.PermuteMultiset | client/src/components/modes/QuizMode.js:74-75 | a reordering by any index permutation keeps every element with its multiplicity |
| Permutations.PermutePrefix | client/src/components/modes/QuizMode.js:74-76 | a prefix of a reordering draws from the input without replacement |
| CategorySelect.ChapterLeqIsTotalPreorder | client/src/components/common/CategorySelect.js:12-16 | the key comparator `numA - numB` is total and transitive, so the sort is well defined |
| CategorySelect.SortedCategoriesPermutation | client/src/components/common/CategorySelect.js:12 | the sorted copy is a permutation of the categories |
| CategorySelect.SortedCategoriesOrdered | client/src/components/common/CategorySelect.js:12-16 | chapter keys never decrease along the sorted list |
| CategorySelect.SortedCategoriesStable | client/src/components/common/CategorySelect.js:12-16 | categories with equal keys keep their input order |
| CategorySelect.AllHasNoChapter | client/src/components/common/CategorySelect.js:13-14 | "All" has no chapter number, so its key is 0 |
| CategorySelect.AllSortsBeforeChapters | client/src/components/common/CategorySelect.js:12-16 | "All" precedes every category of chapter 1 or more |
| Quiz.ToggledSelectionMembership | client/src/components/modes/QuizMode.js:51-57 | selecting a category adds it when absent and removes it when present; no other category changes |
| Quiz.ToggleSelectionTwice | client/src/components/modes/QuizMode.js:51-57 | selecting twice restores the selected set, and the list itself when the category was absent |
| Quiz.ToggledSelectionNoDuplicates | client/src/components/modes/QuizMode.js:51-57 | a selection without repeats stays without repeats |
| Quiz.FilteredCardsSpec | client/src/components/modes/QuizMode.js:66-71 | an empty selection uses the whole pool; otherwise exactly the cards of the selected categories, each as often as in the pool, in pool order |
| Quiz.QuizQuestionsSpec | client/src/components/modes/QuizMode.js:74-76 | min(numQuestions, filtered) questions, drawn from the filtered cards without replacement |
| Quiz.OtherTermsSpec | client/src/components/modes/QuizMode.js:80-82 | the candidate distractors never include the correct term; each is the term of a source card |
| Quiz.AnswerChoicesSpec | client/src/components/modes/QuizMode.js:79-87 | the list holds the correct term exactly once, distractors drawn without replacement from the other terms, and has 1 + min(3, other cards) entries |
| Quiz.ChoicesList | client/src/components/modes/QuizMode.js:79-87 | one choice list per question |
| Quiz.ChoicesListOffersTerms | client/src/components/modes/QuizMode.js:79-87 | every question's list offers its own term exactly once |
| Quiz.ChoicesListDistractors | client/src/components/modes/QuizMode.js:80-82 | every other entry of a list is the term of a card of the source |
| Quiz.ScorePlusMissed | client/src/components/modes/QuizMode.js:107-125 | score + number of missed questions = number of questions |
| Quiz.MissedSpec | client/src/components/modes/QuizMode.js:112-118 | a question is missed exactly when its recorded answer is not its term; the missed cards come at strictly ascending question indices |
| Quiz.UnansweredIsMissed | client/src/components/modes/QuizMode.js:113 | an unanswered question is missed |
| Quiz.ScoreQuiz | client/src/components/modes/QuizMode.js:108-118 | the forEach loop yields the score and the missed list in question order, and they add up to the number of questions |
| Quiz.AllQuestionsAnsweredIff | client/src/components/modes/QuizMode.js:200-201 | when the answer keys are question indices, the key count equals the question count exactly when every question is answered |
| Quiz.AdditionalQuestions | client/src/components/modes/QuizMode.js:150-171 | the top-up has min(max(numQuestions, missed) - missed, other cards) entries |
| Quiz.RetryQuestionsSpec | client/src/components/modes/QuizMode.js:146-177 | the retry is a permutation of all missed cards plus at most max(numQuestions, missed) - missed distinct pool cards whose terms were not missed |
| Quiz.RetryQuiz | client/src/components/modes/QuizMode.js:146-188 | the step-by-step retry computes the retry question list and its choice lists, with distractors from the whole pool; each list offers its question's term once |
| QuizModeComponent.QuizMode.constructor | client/src/components/modes/QuizMode.js:20-29 | the initial state: nothing selected, 5 questions, no quiz |
| QuizModeComponent.QuizMode.HandleCategoryChange | client/src/components/modes/QuizMode.js:51-57 | only the selection changes, to the toggled selection |
| QuizModeComponent.QuizMode.HandleNumQuestionsChange | client/src/components/modes/QuizMode.js:60-62 | only the question count changes |
| QuizModeComponent.QuizMode.HandleStartQuiz | client/src/components/modes/QuizMode.js:65-96 | the quiz is the sampled questions and their choice lists; index, score and answers are reset; with no selection the pool array is left reordered, otherwise it is unchanged; every list offers its term once |
| QuizModeComponent.QuizMode.HandleAnswerSelect | client/src/components/modes/QuizMode.js:99-104 | only the current question's answer changes; every other recorded answer stays; answers stay keyed by questions of the quiz |
| QuizModeComponent.QuizMode.HandleSubmitQuiz | client/src/components/modes/QuizMode.js:107-125 | the score and the missed list are those of the recorded answers and add up to the question count; the score is shown |
| QuizModeComponent.QuizMode.HandleNavigateQuestion | client/src/components/modes/QuizMode.js:128-130 | only the current index changes, to a question of the quiz |
| QuizModeComponent.QuizMode.HandleRestartQuiz | client/src/components/modes/QuizMode.js:133-143 | back to the default settings; the choice lists stay as they were, as in the source |
| QuizModeComponent.QuizMode.HandleRestartWithMissedQuestions | client/src/components/modes/QuizMode.js:146-197 | the new quiz is the retry list with choice lists from the whole pool; score, answers and index are reset |
| Review.CategoryCardsSpec | client/src/components/modes/ReviewMode.js:43-45 | "All" is the whole pool; another category gives exactly its cards, in pool order |
| Review.SourceSpec | client/src/components/modes/ReviewMode.js:41-45 | the bookmarks in bookmark mode; otherwise the pool, whole or filtered to the category |
| Review.LetterFilterSpec | client/src/components/modes/ReviewMode.js:47-52 | with a letter, exactly the cards whose uppercased first character is that letter, in order; with none, the cards unchanged |
| Review.AvailableLettersIff | client/src/components/modes/ReviewMode.js:102-113 | a letter is available, so its button is enabled (line 173), exactly when filtering by it shows a card |
| Review.InitialVisibleSpec | client/src/components/modes/ReviewMode.js:62-67 | the first min(20, n) cards, with more remaining exactly when n > 20 |
| Review.LoadMoreSpec | client/src/components/modes/ReviewMode.js:70-76 | load-more from any shown prefix gives a prefix of exactly 20 more cards, capped at the end of the cards; it never shrinks and grows while cards remain |
| Review.TermLeqIsTotalPreorder | client/src/components/modes/ReviewMode.js:123 | ordering by term is total and transitive |
| Review.BookmarkedViewSpec | client/src/components/modes/ReviewMode.js:116-124 | the bookmark view is sorted by term, is a permutation of the letter-filtered bookmarks, and keeps equal terms in bookmark order |
| ReviewModeComponent.ReviewMode.constructor | client/src/components/modes/ReviewMode.js:20-25 | the initial state: "All", nothing loaded, hasMore, not in bookmark mode, no letter |
| ReviewModeComponent.ReviewMode.ReceiveBookmarks | client/src/components/modes/ReviewMode.js:17 | a new bookmark prop changes only the bookmark list |
| ReviewModeComponent.ReviewMode.LoadInitialCards | client/src/components/modes/ReviewMode.js:62-67 | the filtered cards, their first page and `hasMore = n > 20`; pagination is consistent afterwards |
| ReviewModeComponent.ReviewMode.LoadMoreCards | client/src/components/modes/ReviewMode.js:70-77 | `(shown / 20 + 1) * 20` cards, computed with real division, which is 20 more than shown whatever the count: the first min(shown + 20, total) cards; hasMore is true exactly when cards remain unshown; nothing else changes |
| ReviewModeComponent.ReviewMode.LoadMoreEffect | client/src/components/modes/ReviewMode.js:85-89 | load-more fires exactly when in view, hasMore holds and bookmark mode is off; otherwise nothing changes |
| ReviewModeComponent.ReviewMode.HandleCategoryChange | client/src/components/modes/ReviewMode.js:91-95 | the category is set, the letter cleared and bookmark mode turned off |
| ReviewModeComponent.ReviewMode.HandleLetterClick | client/src/components/modes/ReviewMode.js:97-99 | only the letter changes |
| ReviewModeComponent.ReviewMode.ClearLetter | client/src/components/modes/ReviewMode.js:180 | only the letter is cleared |
| ReviewModeComponent.ReviewMode.ToggleBookmarkedMode | client/src/components/modes/ReviewMode.js:191-194 | bookmark mode flips and the letter is cleared |
| App.Dedupe | client/src/App.js:41 | every element of the result is in the input and every input element is in the result |
| App.DedupeNoDuplicates | client/src/App.js:41 | the deduped list has no repeats |
| App.DedupeFirstAppearanceOrder | client/src/App.js:41 | the deduped list is ordered by first appearance in the input |
| App.CategoriesSpec | client/src/App.js:41 | the categories have no duplicates, contain every card's category and nothing else, in order of first appearance |
| App.App.constructor | client/src/App.js:41-47 | the categories of the pool; the bookmarks are the stored list, or empty when nothing is stored |
| App.App.ToggleBookmark | client/src/App.js:50-59 | the bookmarks become the toggled list and storage holds exactly that list |
| Bookmarks.ToggleRemovesPresentTerm | client/src/App.js:52-53 | a present term is removed entirely; every other entry is kept in order and with its multiplicity, and the list shrinks |
| Bookmarks.ToggleAppendsAbsentTerm | client/src/App.js:54-56 | an absent term is appended at the end and nothing else changes |
| Bookmarks.ToggleFlipsMembership | client/src/App.js:52-56 | after a toggle the term is bookmarked exactly when it was not before |
| Bookmarks.ToggleTwiceRestores | client/src/App.js:52-56 | toggling an absent term twice restores the list |
| Bookmarks.ToggleKeepsUniqueTerms | client/src/App.js:52-56 | a list with distinct terms keeps distinct terms |
| Bookmarks.BookmarkList.constructor | client/src/App.js:44-47 | the initial list is the stored list, or empty when nothing is stored |
| Bookmarks.BookmarkList.ToggleBookmark | client/src/App.js:50-59 | the state becomes the toggled list and the persisted list equals it; the token entry is untouched |
| Container.FlashcardReviewContainer.constructor | client/src/components/modes/FlashcardReviewContainer.js:7-38 | the initial list is the stored list, or empty when nothing is stored; both views start with that list |
| Container.FlashcardReviewContainer.ToggleBookmark | client/src/components/modes/FlashcardReviewContainer.js:13-38 | a toggle from either view: the toggled list becomes the state, is persisted, and is what both the flashcard view and the review view now hold; nothing else in the views changes |
| FlashcardModeComponent.NextIndexSpec | client/src/components/modes/FlashcardMode.js:52-54 | next moves by one exactly when index + 1 < length, and never leaves a non-empty deck |
| FlashcardModeComponent.PrevIndexSpec | client/src/components/modes/FlashcardMode.js:67-69 | previous moves back by one exactly when index - 1 >= 0, and stays in the deck |
| FlashcardModeComponent.NextPrevInverse | client/src/components/modes/FlashcardMode.js:48-76 | previous undoes a next that moved, and next undoes a previous that moved |
| FlashcardModeComponent.FlashcardMode.constructor | client/src/components/modes/FlashcardMode.js:14-17 | index 0, "All", no cards, term side up |
| FlashcardModeComponent.FlashcardMode.ReceiveBookmarks | client/src/components/modes/FlashcardMode.js:11 | a new bookmark prop changes only the bookmark list |
| FlashcardModeComponent.FlashcardMode.CategoryEffect | client/src/components/modes/FlashcardMode.js:23-31 | the deck becomes the whole pool for "All" or that category's cards; index 0, un-flipped |
| FlashcardModeComponent.FlashcardMode.HandleCategoryChange | client/src/components/modes/FlashcardMode.js:34-36 | only the category changes |
| FlashcardModeComponent.FlashcardMode.ShuffleFlashcards | client/src/components/modes/FlashcardMode.js:39-44 | the deck becomes its shuffle, a permutation of itself; index 0, un-flipped |
| FlashcardModeComponent.FlashcardMode.NextCard | client/src/components/modes/FlashcardMode.js:48-61 | un-flipped, and the index moves on only when index + 1 < length, so it stays in range |
| FlashcardModeComponent.FlashcardMode.PrevCard | client/src/components/modes/FlashcardMode.js:63-76 | un-flipped, and the index moves back only when index - 1 >= 0, so it stays in range |
| FlashcardModeComponent.FlashcardMode.HandleCardFlip | client/src/components/modes/FlashcardMode.js:78-80 | the flip flag is negated and nothing else changes, so two flips restore it |
| Audio.AudioFileName | client/src/components/modes/Flashcard.js:94-96 | same length, no spaces and no uppercase letters; spaces become "_", uppercase letters become their lowercase letter and every other character stays |
| Cards.CaseConversion | client/src/components/modes/Flashcard.js:95 | casing moves an ASCII letter 32 code points to the same letter of the other case, so upper- and lower-casing undo each other |
| Audio.AudioFileNameIdempotent | client/src/components/modes/Flashcard.js:94-96 | a file name is its own file name |
| Audio.ConstructAudioPath | client/src/components/modes/Flashcard.js:81-97 | null exactly for a missing card, an empty category or no case-sensitive "Ch" + digit; otherwise PUBLIC_URL/audio/ch<digits>_audio/<file name>.mp3; ReviewCard.js:29-47 repeats this construction |
| Audio.AudioPathOfChapterLabel | client/src/components/modes/Flashcard.js:87-96 | a category beginning "Ch<n>" gives the folder ch<n>_audio |
| Audio.LeadingChapterDigits | client/src/components/modes/Flashcard.js:87 | `/Ch(\d+)/` on "Ch<n>" + a non-digit matches at 0 and captures n |
| Audio.ChapterInfo | client/src/components/modes/ReviewCard.js:151-152 | "" exactly when there is no "Ch" + digit; otherwise "Ch. " followed by digits |
| Audio.ChapterInfoMatchesAudioPath | client/src/components/modes/ReviewCard.js:151-152 | a card shows a chapter label exactly when it has an audio path, with the same digits |
| Audio.ChapterInfoOfLabel | client/src/components/modes/ReviewCard.js:151-152 | the category "Ch<n>..." is labelled "Ch. n" |
| Audio.SplitPronunciation | client/src/components/modes/Flashcard.js:165 | an odd number of pieces: separator-free text at even positions, one captured separator at odd positions |
| Audio.ConcatSplitPronunciation | client/src/components/modes/Flashcard.js:165 | the pieces concatenate back to the pronunciation |
| Audio.MatchesUpperFromIff | client/src/components/modes/Flashcard.js:166 | the `/[A-Z]+/` search succeeds exactly when some character is A–Z |
| Audio.RenderPronunciation | client/src/components/modes/Flashcard.js:164-176 | one span per piece, highlighted exactly when the piece holds an uppercase A–Z letter; ReviewCard.js:136-148 repeats this segmentation |
| Audio.SeparatorsPlain | client/src/components/modes/Flashcard.js:165-174 | separator pieces are never highlighted |
| ReviewCardComponent.ReviewCard.constructor | client/src/components/modes/ReviewCard.js:13-15 | not playing, availability unknown, no instance |
| ReviewCardComponent.ReviewCard.CheckAudioAvailability | client/src/components/modes/ReviewCard.js:50-67 | audio is available when the path exists and the HEAD reply is ok; no path or a failed request means no audio |
| ReviewCardComponent.ReviewCard.PlayAudio | client/src/components/modes/ReviewCard.js:70-116 | nothing happens without audio or a path. Otherwise another card's current instance is stopped and the global cleared first, and a new instance for the path is created unless this card is already playing |
| ReviewCardComponent.ReviewCard.OnPlay | client/src/components/modes/ReviewCard.js:90-93 | playing, and this card's instance becomes the global one |
| ReviewCardComponent.ReviewCard.OnEnd | client/src/components/modes/ReviewCard.js:94-97 | not playing, and the global is cleared |
| ReviewCardComponent.ReviewCard.OnStop | client/src/components/modes/ReviewCard.js:98-103 | not playing; the global is cleared only when it is this card's instance |
| ReviewCardComponent.ReviewCard.StopAudio | client/src/components/modes/ReviewCard.js:119-123 | only a playing instance is told to stop |
| ReviewCardComponent.ReviewCard.HandleAudioToggle | client/src/components/modes/ReviewCard.js:126-133 | the flags stay, for the callbacks to set. While playing, the own instance is told to stop and nothing else changes. Otherwise nothing changes without audio or a path; with both, another current instance is stopped and the global cleared, and a new unstopped instance for the path is created |
| AudioRegistry.AudioProvider.constructor | client/src/context/AudioContext.js:6 | no current instance |
| AudioRegistry.AudioProvider.PlayAudio | client/src/context/AudioContext.js:8-13 | the instance becomes current; a different previous instance is stopped; the same instance, or none, stops nothing |
| LoginComponent.PinAfterPress | client/src/components/Login.js:40-45 | a digit is appended only below four characters, so the PIN never exceeds four |
| LoginComponent.PressesKeepFirstFour | client/src/components/Login.js:40-45 | a sequence of presses keeps exactly the first four digits |
| LoginComponent.RequestBody | client/src/components/Login.js:58-61 | PIN mode sends only username and PIN; password mode sends the whole form |
| LoginComponent.PinRequestChecksPin | client/src/components/Login.js:58-61 | a PIN-mode request succeeds exactly when the user exists, a PIN was typed, it matches the stored PIN hash and signing succeeds; the typed password plays no part |
| LoginComponent.FailureMessage | client/src/components/Login.js:64-65 | the server's `msg` when non-empty, otherwise "Incorrect credentials, please try again" |
| LoginComponent.LoginFailureMessages | client/src/components/Login.js:64-65 | against the server, an unknown user reads "Invalid credentials" and a validation error gets the default text |
| LoginComponent.Login.constructor | client/src/components/Login.js:25-33 | empty form, no errors, password mode, no flash |
| LoginComponent.Login.HandleChange | client/src/components/Login.js:36-38 | only the named field changes |
| LoginComponent.Login.HandlePinInput | client/src/components/Login.js:40-45 | the PIN becomes the capped append and nothing else changes; the PIN stays at most four long |
| LoginComponent.Login.TogglePinMode | client/src/components/Login.js:203 | only PIN mode flips |
| LoginComponent.Login.HandleSubmit | client/src/components/Login.js:53-82 | errors are cleared first. Success stores the token, authenticates and navigates, leaving the initialisation flag, the stored bookmarks and the form as they were. Failure sets the form error; in PIN mode it also clears the PIN and raises the flash, while in password mode the form is unchanged |
| LoginComponent.Login.AutoSubmitEffect | client/src/components/Login.js:47-51 | a PIN request is submitted exactly when PIN mode is on and the PIN has four characters. A successful submit clears the errors and starts the session at the application; a failed one shows the failure message, clears the PIN and raises the flash, with the session untouched; without a submit nothing changes |
| LoginComponent.Login.ClearFlash | client/src/components/Login.js:77-79 | only the flash flag is cleared |
| RegisterComponent.Utf16LengthSpec | client/src/components/Register.js:52 | the UTF-16 length equals the character count exactly when no character is astral |
| RegisterComponent.ClientCheck | client/src/components/Register.js:45-55 | a password mismatch is reported first; then a PIN whose UTF-16 length is not 4; the request may go only when both pass |
| RegisterComponent.ClientCheckImpliesServerPinRule | client/src/components/Register.js:52-55 | a form the client lets through passes the server's PIN rule exactly when its PIN has no astral character |
| RegisterComponent.EmojiPinPassesClientFailsServer | client/src/components/Register.js:52 | a PIN of two emoji has length 4 for the client, so it is sent, and fails the server's PIN rule |
| RegisterComponent.FailureMessage | client/src/components/Register.js:61-62 | the first `errors[].msg` exactly when the reply has a non-empty one; "Registration failed" for a reply without `errors` or with an empty first message |
| RegisterComponent.RegisterFailureMessages | client/src/components/Register.js:61-63 | against the server, a rule failure shows the first failing rule's message, while the duplicate-email reply shows "Registration failed" |
| RegisterComponent.Register.constructor | client/src/components/Register.js:20-27 | empty form, no errors |
| RegisterComponent.Register.HandleChange | client/src/components/Register.js:33-39 | only the named field changes |
| RegisterComponent.Register.HandleSubmit | client/src/components/Register.js:41-65 | at most one error key. A failed client check sends nothing and sets its error; otherwise the form is sent, success navigates to /login and failure sets the form error; the form is never changed |
| Server.RegistrationErrors | server/index.js:38-54 | no errors exactly when the username is non-empty, the email is valid, the password has at least 6 characters and the PIN exactly 4 |
| Server.RegistrationErrorsSpec | server/index.js:38-53 | each rule's message is present exactly when that rule fails (the PIN rule by length alone); the list holds one message per failing rule, and every two messages appear in the order of their rules |
| Server.RegisterDecision | server/index.js:50-100 | rule errors give 400 with the errors; an existing email gives 400 "User already exists"; both save nothing. A valid request with a fresh email saves the hashed user at the end and replies 200 with the token, or 500 "Server error" when signing fails |
| Server.RegisterKeepsEmailsUnique | server/index.js:60-63 | registration never stores a second user with an existing email |
| Server.RegisterAllowsDuplicateUsername | server/index.js:60-80 | usernames are not checked: a valid request with a fresh email is saved even when its username is taken |
| Server.UserCollection.Register | server/index.js:50-105 | the handler's reply and the new collection are those of the decision |
| Server.FirstUserIndex | server/index.js:129 | the position of the earliest user with the name, or the length when none has it |
| Server.FindByUsername | server/index.js:129 | None exactly when no user has the name; otherwise a stored user with that name |
| Server.LoginDecision | server/index.js:119-173 | 200 with the token exactly when the username is non-empty, the user exists, the secret matches (a non-empty password is checked, otherwise the PIN) and signing succeeds |
| Server.UnknownUserIgnoresSecrets | server/index.js:129-132 | an unknown user gets "Invalid credentials" whatever the secrets and the hash comparison |
| Server.PasswordTakesPrecedence | server/index.js:135-144 | with a password present the PIN plays no part |
| Server.NoSecretRequired | server/index.js:145-147 | a known user with neither secret gets "Password or PIN required" |
| Server.WrongSecretLooksLikeUnknownUser | server/index.js:131-143 | a wrong secret gets exactly the reply of an unknown user |
| Server.ValidateTokenDecision | server/index.js:176-189 | a missing token gives 400 `{valid:false}`; otherwise 200, valid exactly when the token verifies |
| Auth.ReplySaysValidIffVerifies | client/src/context/AuthContext.js:22-24 | against the server, the client reads "valid" exactly when the stored token verifies |
| Auth.AuthProvider.constructor | client/src/context/AuthContext.js:12-13 | not authenticated, not initialised |
| Auth.AuthProvider.ValidateToken | client/src/context/AuthContext.js:16-43 | always initialised afterwards. Without a stored token nothing else changes; a valid reply authenticates; an invalid reply or an error removes the token, de-authenticates and goes to /login |
| Auth.AuthProvider.Login | client/src/context/AuthContext.js:45-53 | the token is stored, the session is authenticated and the location is /medical-term-app |
| Auth.AuthProvider.Logout | client/src/context/AuthContext.js:55-63 | the token is removed, the session is de-authenticated and the location is /login |
| ProtectedRouteComponent.Gate | client/src/components/ProtectedRoute.js:6-18 | nothing before initialisation, a redirect when unauthenticated; the children exactly when both flags hold |

## Left out

- Rendering, styling and routing markup are not modelled. That covers the JSX, Chakra, colour modes, `getFontSize` in QuizMode.js and the option list of CategorySelect.
- Randomness: the distribution of the random-comparator sorts and of `Math.random` in the shuffle is not modelled; the caller supplies the permutation or index oracle. A random comparator is not a consistent comparator, so no particular sorting algorithm is assumed for it.
- QuizModeComponent.QuizMode.HandleStartQuiz, HandleRestartWithMissedQuestions and FlashcardModeComponent.FlashcardMode.ShuffleFlashcards require the supplied orders to be valid permutations or oracles of the right sizes. The source has no such precondition, because it draws them itself.
- Howler playback is foreign library I/O: the sound itself, load and play errors, and the unlock retry (ReviewCard.js:104-111). So are Flashcard.js's own playAudio (Flashcard.js:100-156) and its timer effects (Flashcard.js:39-78). A `Sound` records only that it was told to stop. Stopping another card's instance does not run that card's `onstop` callback.
- Timers: the 300 ms flip delay in FlashcardMode.js happens at once. The 500 ms flash reset in Login.js is the separate step `ClearFlash`.
- Effect scheduling: React runs effects after renders. Here the caller runs the methods (`CategoryEffect`, `LoadInitialCards`, `LoadMoreEffect`, `AutoSubmitEffect`, `CheckAudioAvailability`) in the order it chooses.
- Shared arrays: ReviewMode and FlashcardMode keep the pool as a value. The in-place reordering that starting a quiz applies to the shared pool array is therefore not seen by those components.
- A review card's `card` prop is fixed for the card's lifetime, so re-running the availability check on a new card is not modelled.
- `localeCompare` becomes plain lexicographic order on character codes. `toUpperCase` and `toLowerCase` map ASCII letters only.
- localStorage keeps two keys, modelled as optional values. The JSON text, a corrupt entry and a stored empty string are not modelled.
- Server.RegistrationErrors counts every character of the password and PIN. Later releases of validator.js, behind express-validator's `isLength`, also leave the variation selectors U+FE0E and U+FE0F out of the count; which release the server uses is not part of this model.
- LoginComponent.PinAfterPress counts characters where `pin.length` counts UTF-16 units. The keypad only supplies the digits 0-9, for which the two agree.
- ReviewModeComponent.ReviewMode.LoadMoreCards: `nextPage` and the slice end are computed with exact real arithmetic and truncated as `slice` truncates; the rounding of double-precision division is not modelled.
- QuizModeComponent.QuizMode.HandleNavigateQuestion and HandleAnswerSelect require the index to name a question of the quiz. The page calls them only from the Previous/Next buttons, the numbered buttons and the radio group of the displayed question, all of which stay inside the quiz.
- `parseInt` yields an unbounded natural number, so the loss of precision beyond 2^53 is not modelled.
- Network: every reply is an input, with None when a request fails without a response. The HEAD request of the audio check is an input too.
- Server: bcrypt hashes and comparison, `isEmail`, JWT signing and JWT verification are inputs or abstract predicates. So is the expiry of a token.
- Database errors are not modelled: the 500 replies of the catch blocks (server/index.js:101-104, 168-171).
- The lookup by username returns the earliest stored user with that name.
- Validation error objects keep only their `msg`.
- client/src/components/ForgotPassword.js and client/src/components/ForgotUsername.js are pure network forms and are not part of this model. client/src/hooks/useAudio.js, client/src/components/common/AudioToggle.js, client/src/pages/HomePage.js, client/src/index.js, client/src/styles/theme.js and server/models/Flashcard.js are not part of this model either.
- FlashcardModeComponent.FlashcardMode.IsBookmarked has no contract of its own. It is membership by term (`HasTerm`), whose behaviour under a toggle `Bookmarks.ToggleFlipsMembership` states.
- ReviewModeComponent.ReviewMode.DisplayedCards and LetterDisabled have no contract of their own. Their meaning is in `Review.BookmarkedViewSpec` and `Review.AvailableLettersIff`.
