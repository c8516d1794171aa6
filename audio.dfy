/** The string logic shared by client/src/components/modes/Flashcard.js and
    client/src/components/modes/ReviewCard.js: the audio file path of a card, the
    "Ch. N" label and the segmentation of a pronunciation into highlighted and plain
    parts. Both components match the chapter with the case-sensitive `/Ch(\d+)/`. */
module Audio {
  import opened Wrappers
  import opened Seqs
  import opened Cards
  import opened Helpers

  // ---------------------------------------------------------------- audio path

  /** `c.toLowerCase()` then `.replace(/ /g, "_")`, one character at a time. */
  function FileNameChar(c: char): char {
    var l := ToLowerAscii(c);
    if l == ' ' then '_' else l
  }

  /** The file-name part of the path: the term lowercased, every space made "_". */
  function AudioFileName(term: string): (r: string)
    ensures |r| == |term|
    ensures forall i :: 0 <= i < |r| ==> r[i] != ' ' && !IsUpperAscii(r[i])
    ensures forall i :: 0 <= i < |term| && term[i] == ' ' ==> r[i] == '_'
    ensures forall i :: 0 <= i < |term| && term[i] != ' ' && !IsUpperAscii(term[i]) ==> r[i] == term[i]
    ensures forall i :: 0 <= i < |term| && IsUpperAscii(term[i]) ==> r[i] == ToLowerAscii(term[i])
  {
    Map(term, FileNameChar)
  }

  /** Making a file name is idempotent: a file name is already its own file name. */
  lemma AudioFileNameIdempotent(term: string)
    ensures AudioFileName(AudioFileName(term)) == AudioFileName(term)
  {
  }

  /** constructAudioPath: null for a missing card or an empty category, null when the
      category holds no "Ch" followed by a digit, otherwise
      PUBLIC_URL/audio/ch<digits>_audio/<file name>.mp3 with the first such digit run.
      `publicUrl` is the build-time PUBLIC_URL. */
  function ConstructAudioPath(publicUrl: string, card: Option<Card>): (r: Option<string>)
    ensures r.None? <==>
      card.None? || card.value.category == [] || MatchChapter(card.value.category, false).None?
    ensures r.Some? ==>
      r.value == publicUrl + "/audio/ch" + MatchChapter(card.value.category, false).value.digits
                 + "_audio/" + AudioFileName(card.value.term) + ".mp3"
  {
    if card.None? || card.value.category == [] then None
    else match MatchChapter(card.value.category, false)
      case None => None
      case Some(m) => Some(publicUrl + "/audio/ch" + m.digits + "_audio/" + AudioFileName(card.value.term) + ".mp3")
  }

  /** A category that begins "Ch<n>" followed by a non-digit, or ends there, names
      chapter n's audio folder. */
  lemma {:induction false} AudioPathOfChapterLabel(publicUrl: string, n: nat, rest: string, card: Card)
    requires card.category == "Ch" + DecimalNumeral(n) + rest
    requires rest == [] || !IsDigit(rest[0])
    ensures ConstructAudioPath(publicUrl, Some(card))
         == Some(publicUrl + "/audio/ch" + DecimalNumeral(n) + "_audio/" + AudioFileName(card.term) + ".mp3")
  {
    LeadingChapterDigits(n, rest);
  }

  /** The case-sensitive match of "Ch<n>" + rest starts at 0 and captures n's numeral. */
  lemma LeadingChapterDigits(n: nat, rest: string)
    requires rest == [] || !IsDigit(rest[0])
    ensures MatchChapter("Ch" + DecimalNumeral(n) + rest, false) == Some(ChapterMatch(0, DecimalNumeral(n)))
  {
    var d := DecimalNumeral(n);
    var s := "Ch" + d + rest;
    assert s[2] == d[0];
    assert ChapterMarkAt(s, 0, false);
    assert FindChapterMark(s, false, 0) == Some(0);
    DigitRunPrefix(s, 2, |d|);
    assert s[2..2 + |d|] == d;
  }

  // ---------------------------------------------------------------- chapter label

  /** chapterInfo: "Ch. " and the first Ch-digit run of the category, or "". */
  function ChapterInfo(category: string): (r: string)
    ensures r == [] <==> MatchChapter(category, false).None?
    ensures r != [] ==> 5 <= |r| && r[..4] == "Ch. " && forall i :: 4 <= i < |r| ==> IsDigit(r[i])
  {
    match MatchChapter(category, false)
    case None => ""
    case Some(m) => "Ch. " + m.digits
  }

  /** A card shows a chapter label exactly when it has an audio path, and both carry the
      same digits. */
  lemma ChapterInfoMatchesAudioPath(publicUrl: string, card: Card)
    ensures ChapterInfo(card.category) != [] <==> ConstructAudioPath(publicUrl, Some(card)).Some?
    ensures ChapterInfo(card.category) != [] ==>
      ChapterInfo(card.category)[4..] == MatchChapter(card.category, false).value.digits
  {
  }

  /** The label of chapter n's category is "Ch. n". */
  lemma ChapterInfoOfLabel(n: nat, rest: string)
    requires rest == [] || !IsDigit(rest[0])
    ensures ChapterInfo("Ch" + DecimalNumeral(n) + rest) == "Ch. " + DecimalNumeral(n)
  {
    LeadingChapterDigits(n, rest);
  }

  // ---------------------------------------------------------------- pronunciation

  /** `\s` of a JavaScript regular expression: WhiteSpace and LineTerminator. */
  predicate IsJsSpace(c: char) {
    || '\U{0009}' <= c <= '\U{000D}'
    || c == ' ' || c == '\U{00A0}' || c == '\U{1680}' || '\U{2000}' <= c <= '\U{200A}'
    || c == '\U{2028}' || c == '\U{2029}' || c == '\U{202F}' || c == '\U{205F}'
    || c == '\U{3000}' || c == '\U{FEFF}'
  }

  /** What `(\s|-)` matches: one space character or a hyphen. */
  predicate IsSeparator(c: char) {
    IsJsSpace(c) || c == '-'
  }

  /** `pronunciation.split(/(\s|-)/)`: the pieces between separators, with each matched
      separator kept (the group captures it) between them. Separators next to each other
      or at an end leave empty pieces, and "" splits into [""]. */
  function SplitPronunciation(s: string): (r: seq<string>)
    ensures |r| % 2 == 1
    ensures forall k :: 0 <= k < |r| && k % 2 == 1 ==> |r[k]| == 1 && IsSeparator(r[k][0])
    ensures forall k :: 0 <= k < |r| && k % 2 == 0 ==> NoSeparator(r[k])
    decreases |s|
  {
    if s == [] then [""]
    else
      var t := SplitPronunciation(s[1..]);
      if IsSeparator(s[0]) then ["", [s[0]]] + t
      else [[s[0]] + t[0]] + t[1..]
  }

  predicate NoSeparator(piece: string) {
    forall i :: 0 <= i < |piece| ==> !IsSeparator(piece[i])
  }

  /** The pieces written one after another. */
  function Concat(pieces: seq<string>): string {
    if pieces == [] then "" else pieces[0] + Concat(pieces[1..])
  }

  /** Nothing is lost or reordered: the pieces concatenate back to the pronunciation. */
  lemma {:induction false} ConcatSplitPronunciation(s: string)
    ensures Concat(SplitPronunciation(s)) == s
    decreases |s|
  {
    if s != [] {
      var t := SplitPronunciation(s[1..]);
      ConcatSplitPronunciation(s[1..]);
      assert Concat(t) == t[0] + Concat(t[1..]);
      if IsSeparator(s[0]) {
        assert (["", [s[0]]] + t)[1..] == [[s[0]]] + t;
        assert ([[s[0]]] + t)[1..] == t;
      } else {
        assert ([[s[0]] + t[0]] + t[1..])[1..] == t[1..];
      }
      assert s == [s[0]] + s[1..];
    }
  }

  /** A rendered piece: its text and whether it is shown bold and red. */
  datatype Span = Span(text: string, highlighted: bool)

  /** `/[A-Z]+/` searched left to right from position k. */
  predicate MatchesUpperFrom(segment: string, k: nat)
    decreases |segment| - k
  {
    k < |segment| && (IsUpperAscii(segment[k]) || MatchesUpperFrom(segment, k + 1))
  }

  lemma {:induction false} MatchesUpperFromIff(segment: string, k: nat)
    ensures MatchesUpperFrom(segment, k) <==> exists i :: k <= i < |segment| && IsUpperAscii(segment[i])
    decreases |segment| - k
  {
    if k < |segment| {
      MatchesUpperFromIff(segment, k + 1);
      if !IsUpperAscii(segment[k]) && (exists i :: k <= i < |segment| && IsUpperAscii(segment[i])) {
        var i :| k <= i < |segment| && IsUpperAscii(segment[i]);
        assert k + 1 <= i;
      }
    }
  }

  /** renderPronunciation: every piece of the split, highlighted exactly when it holds
      an uppercase A-Z letter. */
  function RenderPronunciation(pronunciation: string): (r: seq<Span>)
    ensures |r| == |SplitPronunciation(pronunciation)|
    ensures forall k :: 0 <= k < |r| ==> r[k].text == SplitPronunciation(pronunciation)[k]
    ensures forall k :: 0 <= k < |r| ==>
      (r[k].highlighted <==> exists i :: 0 <= i < |r[k].text| && IsUpperAscii(r[k].text[i]))
  {
    var pieces := SplitPronunciation(pronunciation);
    forall k | 0 <= k < |pieces| {
      MatchesUpperFromIff(pieces[k], 0);
    }
    Map(pieces, (segment: string) => Span(segment, MatchesUpperFrom(segment, 0)))
  }

  /** Separator pieces are never highlighted. */
  lemma SeparatorsPlain(pronunciation: string, k: nat)
    requires k < |RenderPronunciation(pronunciation)| && k % 2 == 1
    ensures !RenderPronunciation(pronunciation)[k].highlighted
  {
    var r := RenderPronunciation(pronunciation);
    assert |r[k].text| == 1 && IsSeparator(r[k].text[0]);
  }
}
