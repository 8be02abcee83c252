/** One question on screen (src/components/QuestionCard.tsx): the buffer of
    selected words, bounded by the number of blanks of the sentence, the Next
    button, and the timer whose expiry submits the buffer as it stands. */
module QuestionCard {
  import opened Types
  import opened Text
  import opened Sequences
  import SentenceDisplay
  import WordOptions
  import Timer

  /** `(sentence.match(/_/g) || []).length`. */
  function BlanksCount(sentence: string): (n: nat)
    ensures n + 1 == |Split(sentence, SentenceDisplay.BLANK)|
  {
    Count(sentence, SentenceDisplay.BLANK)
  }

  /** The number of slots the sentence display shows is the blank count. */
  lemma SlotsMatchBlanks(sentence: string, words: seq<string>)
    ensures |SentenceDisplay.Layout(sentence, words)| - 1 == BlanksCount(sentence)
    ensures |Split(sentence, SentenceDisplay.BLANK)| - 1 == BlanksCount(sentence)
  {
  }

  /** The card's state cells `selectedWords` and `blanksCount`, the question
      it shows, and its timer (the `Timer` child, 30 seconds, always active). */
  class Card {
    var question: Question
    var selectedWords: seq<string>
    var blanksCount: nat
    const timer: Timer.Timer

    /** The buffer never holds more words than there are blanks. */
    ghost predicate Valid()
      reads this
    {
      blanksCount == BlanksCount(question.sentence) && |selectedWords| <= blanksCount
    }

    /** Mounting with a question, including the effect that runs for it. */
    constructor (q: Question)
      ensures Valid() && question == q && selectedWords == []
      ensures fresh(timer) && timer.duration == 30 && timer.timeLeft == 30
      ensures timer.isActive && timer.running && timer.timeUpCount == 0
    {
      question := q;
      selectedWords := [];
      blanksCount := BlanksCount(q.sentence);
      timer := new Timer.Timer(30, true);
    }

    /** A render with a new question. The effect on `[question]` empties the
        buffer and recounts the blanks. The render also hands the timer a new
        `handleNext` as `onTimeUp`, so its interval effect starts a new
        interval; its `duration` stays 30, so `timeLeft` is not reset. */
    method QuestionChanged(q: Question)
      modifies this, timer
      ensures Valid() && question == q && selectedWords == []
      ensures blanksCount == BlanksCount(q.sentence)
      ensures timer.running && timer.isActive
      ensures timer.timeLeft == old(timer.timeLeft) && timer.duration == old(timer.duration)
      ensures timer.timeUpCount == old(timer.timeUpCount)
    {
      question := q;
      selectedWords := [];
      blanksCount := BlanksCount(q.sentence);
      timer.IntervalEffect(true);
    }

    /** `handleSelectWord`: append the word unless every blank is taken. */
    method SelectWord(word: string)
      requires Valid()
      modifies this
      ensures Valid() && question == old(question) && blanksCount == old(blanksCount)
      ensures selectedWords ==
        if |old(selectedWords)| < blanksCount then old(selectedWords) + [word] else old(selectedWords)
    {
      if |selectedWords| < blanksCount {
        selectedWords := selectedWords + [word];
      }
    }

    /** `handleRemoveWord`: `splice(index, 1)` on a copy; an index past the
        end removes nothing. */
    method RemoveWord(index: nat)
      requires Valid()
      modifies this
      ensures Valid() && question == old(question) && blanksCount == old(blanksCount)
      ensures index < |old(selectedWords)| ==>
        selectedWords == old(selectedWords)[..index] + old(selectedWords)[index + 1..]
      ensures index >= |old(selectedWords)| ==> selectedWords == old(selectedWords)
    {
      if index < |selectedWords| {
        selectedWords := selectedWords[..index] + selectedWords[index + 1..];
      }
    }

    /** `allBlanksFilled`: in a valid card, the buffer holds one word per
        marker of the sentence, and no further word can be selected. */
    predicate AllBlanksFilled()
      reads this
      ensures Valid() ==> (AllBlanksFilled() <==> |selectedWords| == BlanksCount(question.sentence))
      ensures Valid() ==> (AllBlanksFilled() <==> !(|selectedWords| < blanksCount))
    {
      |selectedWords| == blanksCount
    }

    /** The Next button: disabled unless every blank is filled, and when
        clicked it hands the buffer to `onNext`. */
    method NextButton() returns (submitted: Option<seq<string>>)
      ensures submitted.Some? <==> |selectedWords| == blanksCount
      ensures submitted.Some? ==> submitted.value == selectedWords
    {
      submitted := if AllBlanksFilled() then Some(selectedWords) else None;
    }

    /** One tick of the timer; on expiry `onTimeUp` is `handleNext`, which
        hands the buffer to `onNext` whether or not every blank is filled. */
    method TimerTick() returns (submitted: Option<seq<string>>)
      modifies timer
      ensures submitted.Some? <==> old(timer.running) && old(timer.timeLeft) <= 1
      ensures submitted.Some? ==> submitted.value == selectedWords
      ensures timer.timeUpCount == old(timer.timeUpCount) + (if submitted.Some? then 1 else 0)
      ensures timer.timeLeft == (if old(timer.running) then Timer.Countdown(old(timer.timeLeft)) else old(timer.timeLeft))
      ensures timer.running == (old(timer.running) && submitted.None?)
      ensures timer.duration == old(timer.duration) && timer.isActive == old(timer.isActive)
    {
      var timeUp := timer.Tick();
      submitted := if timeUp then Some(selectedWords) else None;
    }

    /** A click on option button `i`: a disabled button does nothing, an
        enabled one selects its word. */
    method ChooseOption(i: nat)
      requires Valid() && i < |question.options|
      modifies this
      ensures Valid() && question == old(question)
      ensures var f := WordOptions.Click(WordOptions.Buttons(question.options, old(selectedWords))[i]);
        selectedWords == (if f.Some? && |old(selectedWords)| < blanksCount
                          then old(selectedWords) + [f.value] else old(selectedWords))
      ensures Distinct(old(selectedWords)) ==> Distinct(selectedWords)
    {
      var buttons := WordOptions.Buttons(question.options, selectedWords);
      var forwarded := WordOptions.Click(buttons[i]);
      if forwarded.Some? {
        WordOptions.ClickForwardsUnselected(question.options, selectedWords, i);
        if Distinct(selectedWords) {
          AppendKeepsDistinct(selectedWords, forwarded.value);
        }
        SelectWord(forwarded.value);
      }
    }

    /** A click on slot `i` of the sentence display removes its word only
        when the slot shows one. */
    method ClickSlot(i: nat)
      requires Valid()
      modifies this
      ensures Valid() && question == old(question)
      ensures i < |old(selectedWords)| && old(selectedWords)[i] != "" ==>
        selectedWords == old(selectedWords)[..i] + old(selectedWords)[i + 1..]
      ensures !(i < |old(selectedWords)| && old(selectedWords)[i] != "") ==> selectedWords == old(selectedWords)
      ensures Distinct(old(selectedWords)) ==> Distinct(selectedWords)
    {
      var removed := SentenceDisplay.SlotClick(selectedWords, i);
      if removed.Some? {
        if Distinct(selectedWords) {
          RemoveKeepsDistinct(selectedWords, removed.value);
        }
        RemoveWord(removed.value);
      }
    }
  }

  /** The countdown is shared by all questions: when it has run out on one
      question, the next question is submitted, with an empty buffer, on the
      first tick after it appears. */
  method ExpiryCarriesOver(card: Card, next: Question) returns (submitted: Option<seq<string>>)
    requires card.timer.timeLeft == 0
    modifies card, card.timer
    ensures submitted == Some([])
  {
    card.QuestionChanged(next);
    submitted := card.TimerTick();
  }
}
