/**
 * components/TokenComparison.tsx: the list of up to four symbols being
 * compared and the text box that adds to it. The state updates
 * (`setSymbols`, `setInputValue`) are applied in place; the per-symbol
 * detail requests are not part of this model.
 */
module TokenComparison {
  import opened Strs
  import Seqs

  const MaxSymbols := 4

  /** `addToken`'s guard: a non-blank input, room for one more, and not already listed. */
  predicate Accepts(symbols: seq<string>, input: string) {
    Trim(input) != "" && |symbols| < MaxSymbols && ToUpper(input) !in symbols
  }

  /** `symbols.filter((_, i) => i !== index)`. */
  function WithoutIndex(symbols: seq<string>, index: int): (r: seq<string>)
    ensures 0 <= index < |symbols| ==> |r| == |symbols| - 1
    ensures !(0 <= index < |symbols|) ==> r == symbols
  {
    if 0 <= index < |symbols| then symbols[..index] + symbols[index + 1..] else symbols
  }

  class Comparison {
    var symbols: seq<string>
    var inputValue: string

    /** At most four symbols are compared. */
    predicate Valid()
      reads this
    {
      |symbols| <= MaxSymbols
    }

    /** `useState(initialSymbols.slice(0, 4))` and an empty text box. */
    constructor (initialSymbols: seq<string>)
      ensures symbols == Seqs.Take(initialSymbols, MaxSymbols)
      ensures inputValue == ""
      ensures Valid()
    {
      symbols := Seqs.Take(initialSymbols, MaxSymbols);
      inputValue := "";
    }

    /** Typing into the text box. */
    method SetInput(value: string)
      modifies this
      ensures inputValue == value && symbols == old(symbols)
    {
      inputValue := value;
    }

    /**
     * `addToken`: an accepted input is appended upper-cased (but not
     * trimmed) and the box is cleared; otherwise nothing changes. The list
     * never grows past four.
     */
    method AddToken()
      modifies this
      ensures Accepts(old(symbols), old(inputValue)) ==>
        symbols == old(symbols) + [ToUpper(old(inputValue))] && inputValue == ""
      ensures !Accepts(old(symbols), old(inputValue)) ==>
        symbols == old(symbols) && inputValue == old(inputValue)
      ensures old(Valid()) ==> Valid()
    {
      if Trim(inputValue) != "" && |symbols| < MaxSymbols && ToUpper(inputValue) !in symbols {
        symbols := symbols + [ToUpper(inputValue)];
        inputValue := "";
      }
    }

    /** `removeToken(index)`: drops the symbol at `index`, if there is one. */
    method RemoveToken(index: int)
      modifies this
      ensures symbols == WithoutIndex(old(symbols), index) && inputValue == old(inputValue)
      ensures old(Valid()) ==> Valid()
    {
      symbols := WithoutIndex(symbols, index);
    }
  }

  /**
   * Removing index `i` keeps every other symbol in its order: those before
   * `i` in place, those after it moved down by one.
   */
  lemma WithoutIndexRules(symbols: seq<string>, i: int)
    requires 0 <= i < |symbols|
    ensures var r := WithoutIndex(symbols, i);
      && (forall k :: 0 <= k < i ==> r[k] == symbols[k])
      && (forall k :: i <= k < |r| ==> r[k] == symbols[k + 1])
  {
  }

  /**
   * An accepted add puts a symbol not yet listed, so a duplicate-free list
   * stays duplicate-free; removing it again restores the list.
   */
  lemma AddThenRemove(symbols: seq<string>, input: string)
    requires Accepts(symbols, input)
    ensures Seqs.NoDup(symbols) ==> Seqs.NoDup(symbols + [ToUpper(input)])
    ensures WithoutIndex(symbols + [ToUpper(input)], |symbols|) == symbols
  {
    var added := symbols + [ToUpper(input)];
    assert added[..|symbols|] == symbols;
  }
}
