/** The sentence under construction (src/components/SentenceDisplay.tsx):
    the sentence is split on `_`, each part is shown in order, and after
    every part but the last comes a slot showing the word selected for it. */
module SentenceDisplay {
  import opened Types
  import opened Text

  /** The blank marker of a sentence. */
  const BLANK := '_'

  /** One fragment of the rendering: a part of the sentence, followed by a
      slot holding a word when the part is not the last one. */
  datatype Cell = Cell(part: string, slot: Option<string>)

  /** `selectedWords[i] || ''`: the word in slot `i`, empty when missing. */
  function SlotWord(words: seq<string>, i: nat): string
  {
    if i < |words| then words[i] else ""
  }

  /** The fragments, one per part of `sentence.split('_')`, with slot `k`
      showing word `k` of `words`. */
  function Layout(sentence: string, words: seq<string>): (cells: seq<Cell>)
    ensures |cells| == Count(sentence, BLANK) + 1
    ensures forall k :: 0 <= k < |cells| ==> BLANK !in cells[k].part
    ensures forall k :: 0 <= k < |cells| ==> (cells[k].slot.Some? <==> k < |cells| - 1)
    ensures forall k :: 0 <= k < |cells| - 1 ==>
      cells[k].slot == Some(if k < |words| then words[k] else "")
  {
    var parts := Split(sentence, BLANK);
    seq(|parts|, k requires 0 <= k < |parts| =>
      Cell(parts[k], if k < |parts| - 1 then Some(SlotWord(words, k)) else None))
  }

  /** The text content of the rendering: parts and slot words in order. */
  function Render(cells: seq<Cell>): string
  {
    if cells == [] then ""
    else cells[0].part + (if cells[0].slot.Some? then cells[0].slot.value else "") + Render(cells[1..])
  }

  /** Every part shown, followed by every slot but the last, in order: the
      parts of the layout are exactly the pieces of the split. */
  lemma LayoutParts(sentence: string, words: seq<string>)
    ensures var cells := Layout(sentence, words);
      seq(|cells|, k requires 0 <= k < |cells| => cells[k].part) == Split(sentence, BLANK)
  {
  }

  /** A rendering whose slots all show `sep` spells out the join of its parts. */
  lemma {:induction false} RenderInterleaved(parts: seq<string>, cells: seq<Cell>, sep: string)
    requires |parts| >= 1 && |cells| == |parts|
    requires forall k :: 0 <= k < |parts| ==>
      cells[k] == Cell(parts[k], if k < |parts| - 1 then Some(sep) else None)
    ensures Render(cells) == Join(parts, sep)
  {
    if |parts| == 1 {
      assert cells[1..] == [];
      assert Render(cells) == parts[0] + "" + "";
    } else {
      RenderInterleaved(parts[1..], cells[1..], sep);
    }
  }

  /** `n` blank markers as words. */
  function Markers(n: nat): (words: seq<string>)
  {
    seq(n, _ => "_")
  }

  /** Filling every slot with the blank marker gives back the sentence: the
      slots sit exactly where the markers were. */
  lemma RenderMarkers(sentence: string)
    ensures Render(Layout(sentence, Markers(Count(sentence, BLANK)))) == sentence
  {
    var parts := Split(sentence, BLANK);
    var cells := Layout(sentence, Markers(Count(sentence, BLANK)));
    RenderInterleaved(parts, cells, [BLANK]);
    JoinSplit(sentence, BLANK);
  }

  /** `onClick={() => selectedWords[index] && onRemoveWord(index)}`: the index
      passed to `onRemoveWord` when slot `i` is clicked, if any. */
  function SlotClick(words: seq<string>, i: nat): (removed: Option<nat>)
    ensures removed.Some? <==> i < |words| && words[i] != ""
    ensures removed.Some? ==> removed.value == i
  {
    if i < |words| && words[i] != "" then Some(i) else None
  }
}
