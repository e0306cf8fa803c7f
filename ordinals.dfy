// Query preprocessing: the common Italian ordinal words are rewritten as
// digits ("il terzo articolo" becomes "il 3 articolo") before the query is
// classified, each as a whole word and regardless of case.
module Ordinals {
  import opened Text
  import opened WordReplace

  /** The rewrite table, in the order the rewrites are applied. */
  const OrdinalTable: Table := [
    ("primo", "1"), ("secondo", "2"), ("terzo", "3"), ("quarto", "4"),
    ("quinto", "5"), ("sesto", "6"), ("settimo", "7"), ("ottavo", "8"),
    ("nono", "9"), ("decimo", "10"), ("prima", "1"), ("seconda", "2")
  ]

  /** The ordinal words. */
  function OrdinalWords(): set<string> {
    Keys(OrdinalTable)
  }

  /** `preprocess_query_for_ordinals`: one case-insensitive whole-word
      substitution per table entry, each applied to the previous result. */
  method PreprocessQuery(query: string) returns (processed: string)
    ensures processed == ApplyTable(query, OrdinalTable, true)
  {
    processed := query;
    var i := 0;
    while i < |OrdinalTable|
      invariant 0 <= i <= |OrdinalTable|
      invariant processed == ApplyTable(query, OrdinalTable[..i], true)
    {
      var (word, number) := OrdinalTable[i];
      ApplyTableStep(query, OrdinalTable, i, true);
      processed := ReplaceWord(processed, word, number, true);
      i := i + 1;
    }
    assert OrdinalTable[..|OrdinalTable|] == OrdinalTable;
  }

  /** The digits replacing the ordinals are words that are not ordinals. */
  lemma OrdinalTableWellFormed()
    ensures WellFormed(OrdinalTable, true)
  {
    NumeralTableWellFormed(OrdinalTable, true);
  }

  /** After preprocessing, no whole word spells an ordinal, in any case. */
  lemma PreprocessRemovesOrdinals(query: string)
    ensures NoRun(ApplyTable(query, OrdinalTable, true), OrdinalWords(), true)
  {
    OrdinalTableWellFormed();
    TableClears(query, OrdinalTable, true);
  }

  /** A query with no ordinal word is returned unchanged. */
  lemma PreprocessIdentity(query: string)
    requires NoRun(query, OrdinalWords(), true)
    ensures ApplyTable(query, OrdinalTable, true) == query
  {
    TableIdentity(query, OrdinalTable, OrdinalWords(), true);
  }

  /** Preprocessing keeps every character outside the words (spaces,
      punctuation, apostrophes), in order. */
  lemma PreprocessKeepsNonWord(query: string)
    ensures NonWord(ApplyTable(query, OrdinalTable, true)) == NonWord(query)
  {
    OrdinalTableWellFormed();
    TableKeepsNonWord(query, OrdinalTable, true);
  }

  /** An ordinal word standing alone (in any case) is replaced by its digit,
      and the text on either side is preprocessed independently. */
  lemma PreprocessReplacesOrdinal(before: string, word: string, after: string, j: nat)
    requires before == [] || !IsWordChar(before[|before| - 1])
    requires after == [] || !IsWordChar(after[0])
    requires j < |OrdinalTable| && word != [] && AllWord(word) && Lower(word) == OrdinalTable[j].0
    ensures ApplyTable(before + word + after, OrdinalTable, true)
         == ApplyTable(before, OrdinalTable, true) + OrdinalTable[j].1 + ApplyTable(after, OrdinalTable, true)
  {
    OrdinalTableWellFormed();
    var t := OrdinalTable;
    assert forall i, k :: 0 <= i < k < |t| ==> t[i].0 != t[k].0;
    TableReplacesAt(before, word, after, t, j, true);
  }
}
