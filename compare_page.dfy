/**
 * app/compare/page.tsx: the `tokens` query parameter of the comparison
 * page, read as a comma-separated list of symbols.
 */
module ComparePage {
  import opened Wrappers
  import opened Strs

  /** `tokens ? tokens.split(',').map(s => s.trim().toUpperCase()) : []`. */
  function TokenSymbols(tokens: Option<string>): (r: seq<string>)
    ensures !Truthy(tokens) ==> r == []
  {
    if !Truthy(tokens) then []
    else
      var parts := Split(tokens.value, ',');
      seq(|parts|, i requires 0 <= i < |parts| => ToUpper(Trim(parts[i])))
  }

  /**
   * A present parameter gives one symbol per comma-separated piece, empty
   * pieces included, in order; each is the piece trimmed and upper-cased,
   * so it holds no comma, is already upper case and has no surrounding
   * white space.
   */
  lemma TokenSymbolsRules(tokens: string)
    requires tokens != ""
    ensures var r := TokenSymbols(Some(tokens));
      && |r| == Occurrences(tokens, ',') + 1
      && (forall i :: 0 <= i < |r| ==>
            && r[i] == ToUpper(Trim(Split(tokens, ',')[i]))
            && CleanSymbol(r[i]))
  {
    var parts := Split(tokens, ',');
    SplitShape(tokens, ',');
    forall i | 0 <= i < |parts| ensures CleanSymbol(ToUpper(Trim(parts[i]))) {
      PieceGivesCleanSymbol(parts[i]);
    }
  }

  /** No comma, already upper case, and no white space at either end. */
  predicate CleanSymbol(s: string) {
    && ',' !in s
    && ToUpper(s) == s
    && (s == [] || (!IsSpace(s[0]) && !IsSpace(s[|s| - 1])))
  }

  lemma PieceGivesCleanSymbol(p: string)
    requires ',' !in p
    ensures CleanSymbol(ToUpper(Trim(p)))
  {
    var t := Trim(p);
    TrimRules(p);
    ToUpperIdempotent(t);
    assert ',' !in t by {
      forall k | 0 <= k < |t| ensures t[k] != ',' {
        assert t[k] in p;
      }
    }
    UpperKeepsSpaces(t);
  }

  /** Upper-casing changes letters only: no character becomes or stops being a comma or white space. */
  lemma UpperKeepsSpaces(t: string)
    ensures ',' !in t ==> ',' !in ToUpper(t)
    ensures t != [] ==> (IsSpace(ToUpper(t)[0]) <==> IsSpace(t[0]))
    ensures t != [] ==> (IsSpace(ToUpper(t)[|t| - 1]) <==> IsSpace(t[|t| - 1]))
  {
  }

  /** Empty pieces are kept: "a,,b" names three symbols, the middle one empty. */
  lemma EmptyPiecesKept()
    ensures TokenSymbols(Some("a,,b")) == ["A", "", "B"]
  {
    var parts := ["a", "", "b"];
    assert parts[1..] == ["", "b"] && parts[1..][1..] == ["b"];
    assert Join(["b"], ',') == "b";
    assert Join(["", "b"], ',') == ",b";
    assert Join(parts, ',') == "a,,b";
    SplitJoin(parts, ',');
    TrimKeeps("a");
    TrimKeeps("b");
    TrimKeeps("");
    var r := TokenSymbols(Some("a,,b"));
    assert |r| == 3;
    assert r[0] == ToUpper("a") == "A";
    assert r[1] == ToUpper("") == "";
    assert r[2] == ToUpper("b") == "B";
  }
}
