/** The word buttons (src/components/WordOptions.tsx): one per option, in
    option order, disabled while the word is among the selected words. */
module WordOptions {
  import opened Types

  datatype OptionButton = OptionButton(word: string, disabled: bool)

  /** `options.map(word => <button disabled={selectedWords.includes(word)}>)`. */
  function Buttons(options: seq<string>, selectedWords: seq<string>): (buttons: seq<OptionButton>)
    ensures |buttons| == |options|
    ensures forall i :: 0 <= i < |options| ==> buttons[i].word == options[i]
    ensures forall i :: 0 <= i < |options| ==> (buttons[i].disabled <==> options[i] in selectedWords)
    ensures forall i, j :: 0 <= i < |options| && 0 <= j < |options| && options[i] == options[j] ==>
      buttons[i] == buttons[j]
  {
    seq(|options|, i requires 0 <= i < |options| => OptionButton(options[i], options[i] in selectedWords))
  }

  /** `onClick={() => onSelectWord(word)}`: the word a click forwards; a
      disabled button forwards nothing. */
  function Click(button: OptionButton): (forwarded: Option<string>)
    ensures forwarded.Some? <==> !button.disabled
    ensures forwarded.Some? ==> forwarded.value == button.word
  {
    if button.disabled then None else Some(button.word)
  }

  /** A word forwarded by a click is never one already selected. */
  lemma ClickForwardsUnselected(options: seq<string>, selectedWords: seq<string>, i: nat)
    requires i < |options|
    ensures var f := Click(Buttons(options, selectedWords)[i]);
      f.Some? ==> f.value == options[i] && f.value !in selectedWords
  {
  }
}
