/** Facts about the two literal tables of the label resolver, checked row by
    row: the shape and uniqueness of the keys, the uniqueness of the glyphs and
    how the class list lines up with the letter table. */
module TableFacts {
  import opened JsStrings
  import opened MalayalamAlphabet

  /** No two rows of the table share a key. */
  predicate KeysUnique(t: seq<Entry>)
  {
    forall i, j :: 0 <= i < j < |t| ==> t[i].key != t[j].key
  }

  /** No two records of the table show the same glyph. */
  predicate GlyphsUnique(t: seq<Entry>)
  {
    forall i, j :: 0 <= i < j < |t| ==> t[i].letter.malayalam != t[j].letter.malayalam
  }

  /** No two keys of the table agree ignoring case. */
  predicate KeysUniqueIgnoringCase(t: seq<Entry>)
  {
    forall i, j :: 0 <= i < j < |t| ==> !SameIgnoringCase(t[i].key, t[j].key)
  }

  lemma KeysCapitalizedFrom0()
    ensures forall i :: 0 <= i < 15 ==> Capitalized(GestureToMalayalam[i].key)
  {
  }

  lemma KeysCapitalizedFrom15()
    ensures forall i :: 15 <= i < 30 ==> Capitalized(GestureToMalayalam[i].key)
  {
  }

  lemma KeysCapitalizedFrom30()
    ensures forall i :: 30 <= i < 45 ==> Capitalized(GestureToMalayalam[i].key)
  {
  }

  lemma KeysCapitalizedFrom45()
    ensures forall i :: 45 <= i < 60 ==> Capitalized(GestureToMalayalam[i].key)
  {
  }

  /** Every key of `gestureToMalayalam` is a capitalized label. */
  lemma KeysCapitalized()
    ensures |GestureToMalayalam| == LetterCount
    ensures forall i :: 0 <= i < |GestureToMalayalam| ==> Capitalized(GestureToMalayalam[i].key)
  {
    KeysCapitalizedFrom0();
    KeysCapitalizedFrom15();
    KeysCapitalizedFrom30();
    KeysCapitalizedFrom45();
  }

  /** Keys of rows 0..9 against every later row. */
  lemma KeysDistinctFrom0()
    ensures forall i, j :: 0 <= i < 10 && i < j < LetterCount ==>
      GestureToMalayalam[i].key != GestureToMalayalam[j].key
  {
  }

  /** Keys of rows 10..19 against every later row. */
  lemma KeysDistinctFrom10()
    ensures forall i, j :: 10 <= i < 20 && i < j < LetterCount ==>
      GestureToMalayalam[i].key != GestureToMalayalam[j].key
  {
  }

  /** Keys of rows 20..29 against every later row. */
  lemma KeysDistinctFrom20()
    ensures forall i, j :: 20 <= i < 30 && i < j < LetterCount ==>
      GestureToMalayalam[i].key != GestureToMalayalam[j].key
  {
  }

  /** Keys of rows 30..59 against every later row. */
  lemma KeysDistinctFrom30()
    ensures forall i, j :: 30 <= i < 60 && i < j < LetterCount ==>
      GestureToMalayalam[i].key != GestureToMalayalam[j].key
  {
  }

  /** An object literal's keys are distinct: no key of `gestureToMalayalam`
      is written twice. */
  lemma KeysDistinct()
    ensures KeysUnique(GestureToMalayalam)
  {
    KeysDistinctFrom0();
    KeysDistinctFrom10();
    KeysDistinctFrom20();
    KeysDistinctFrom30();
  }

  /** No two keys agree even ignoring case, so the case-insensitive stage can
      match at most one row. */
  lemma KeysDistinctIgnoringCase()
    ensures KeysUniqueIgnoringCase(GestureToMalayalam)
  {
    KeysCapitalized();
    KeysDistinct();
    var t := GestureToMalayalam;
    forall i, j | 0 <= i < j < |t|
      ensures !SameIgnoringCase(t[i].key, t[j].key)
    {
      CapitalizedSameIgnoringCase(t[i].key, t[j].key);
    }
  }

  /** Glyphs of rows 0..9 against every later row. */
  lemma GlyphsDistinctFrom0()
    ensures forall i, j :: 0 <= i < 10 && i < j < LetterCount ==>
      GestureToMalayalam[i].letter.malayalam != GestureToMalayalam[j].letter.malayalam
  {
  }

  /** Glyphs of rows 10..19 against every later row. */
  lemma GlyphsDistinctFrom10()
    ensures forall i, j :: 10 <= i < 20 && i < j < LetterCount ==>
      GestureToMalayalam[i].letter.malayalam != GestureToMalayalam[j].letter.malayalam
  {
  }

  /** Glyphs of rows 20..29 against every later row. */
  lemma GlyphsDistinctFrom20()
    ensures forall i, j :: 20 <= i < 30 && i < j < LetterCount ==>
      GestureToMalayalam[i].letter.malayalam != GestureToMalayalam[j].letter.malayalam
  {
  }

  /** Glyphs of rows 30..59 against every later row. */
  lemma GlyphsDistinctFrom30()
    ensures forall i, j :: 30 <= i < 60 && i < j < LetterCount ==>
      GestureToMalayalam[i].letter.malayalam != GestureToMalayalam[j].letter.malayalam
  {
  }

  /** Every record shows its own glyph: no Malayalam string is used twice. */
  lemma GlyphsDistinct()
    ensures GlyphsUnique(GestureToMalayalam)
  {
    GlyphsDistinctFrom0();
    GlyphsDistinctFrom10();
    GlyphsDistinctFrom20();
    GlyphsDistinctFrom30();
  }

  /** No record of the table uses `?`, the glyph of the made-up record. */
  lemma NoGlyphIsQuestionMark()
    ensures forall i :: 0 <= i < |GestureToMalayalam| ==> GestureToMalayalam[i].letter.malayalam != "?"
  {
  }

  /** `classMapping` lists the sixty classes with the indices 0..59 in key
      order, and `Object.keys` lists their names in that order: the class at
      position `c` of `allGestureClasses` has index `c`. */
  lemma ClassIndicesInKeyOrder()
    ensures |ClassMapping| == ClassCount == |AllGestureClasses|
    ensures forall c :: 0 <= c < ClassCount ==> ClassMapping[c] == ClassEntry(AllGestureClasses[c], c)
  {
    forall c | 0 <= c < ClassCount
      ensures ClassMapping[c] == ClassEntry(AllGestureClasses[c], c)
    {
      assert ClassMapping[c] == ClassRow(c);
    }
  }

  /** Class names of rows 0..9 against every later row. */
  lemma ClassNamesDistinctFrom0()
    ensures forall i, j :: 0 <= i < 10 && i < j < ClassCount ==>
      ClassMapping[i].name != ClassMapping[j].name
  {
  }

  /** Class names of rows 10..19 against every later row. */
  lemma ClassNamesDistinctFrom10()
    ensures forall i, j :: 10 <= i < 20 && i < j < ClassCount ==>
      ClassMapping[i].name != ClassMapping[j].name
  {
  }

  /** Class names of rows 20..29 against every later row. */
  lemma ClassNamesDistinctFrom20()
    ensures forall i, j :: 20 <= i < 30 && i < j < ClassCount ==>
      ClassMapping[i].name != ClassMapping[j].name
  {
  }

  /** Class names of rows 30..59 against every later row. */
  lemma ClassNamesDistinctFrom30()
    ensures forall i, j :: 30 <= i < 60 && i < j < ClassCount ==>
      ClassMapping[i].name != ClassMapping[j].name
  {
  }

  /** No class name is written twice in `classMapping`, so
      `allGestureClasses` never repeats a name. */
  lemma ClassNamesDistinct()
    ensures |AllGestureClasses| == ClassCount
    ensures forall i, j :: 0 <= i < j < |AllGestureClasses| ==> AllGestureClasses[i] != AllGestureClasses[j]
  {
    ClassNamesDistinctFrom0();
    ClassNamesDistinctFrom10();
    ClassNamesDistinctFrom20();
    ClassNamesDistinctFrom30();
  }

  /** Where the record for each class sits in `gestureToMalayalam`; -1 for
      `Ee`, the one class without a record. */
  function LetterRowOfClass(c: nat): int
    requires c < ClassCount
  {
    match c
    case 0 => 0
    case 1 => 1
    case 2 => 14
    case 3 => 9
    case 4 => 13
    case 5 => 12
    case 6 => 37
    case 7 => 38
    case 8 => 20
    case 9 => 21
    case 10 => 28
    case 11 => 33
    case 12 => 27
    case 13 => 32
    case 14 => 7
    case 15 => 8
    case 17 => 55
    case 18 => 17
    case 19 => 18
    case 20 => 49
    case 21 => 2
    case 22 => 3
    case 23 => 52
    case 24 => 51
    case 25 => 53
    case 26 => 54
    case 27 => 22
    case 28 => 15
    case 29 => 16
    case 30 => 43
    case 31 => 44
    case 32 => 39
    case 33 => 34
    case 34 => 29
    case 35 => 19
    case 36 => 24
    case 37 => 58
    case 38 => 10
    case 39 => 11
    case 40 => 35
    case 41 => 36
    case 42 => 6
    case 43 => 41
    case 44 => 42
    case 45 => 48
    case 46 => 46
    case 47 => 47
    case 48 => 59
    case 49 => 26
    case 50 => 31
    case 51 => 25
    case 52 => 30
    case 53 => 4
    case 54 => 57
    case 55 => 5
    case 56 => 56
    case 57 => 45
    case 58 => 40
    case 59 => 50
    case _ => -1
  }

  lemma ClassesAreKeysBelow30()
    ensures forall c :: 0 <= c < 30 && c != 16 ==>
      0 <= LetterRowOfClass(c) < LetterCount && LetterRow(LetterRowOfClass(c)).key == ClassRow(c).name
  {
  }

  lemma ClassesAreKeysFrom30()
    ensures forall c :: 30 <= c < ClassCount ==>
      0 <= LetterRowOfClass(c) < LetterCount && LetterRow(LetterRowOfClass(c)).key == ClassRow(c).name
  {
  }

  /** Every class label except `Ee` is a key of `gestureToMalayalam`, at the
      row LetterRowOfClass gives. */
  lemma ClassesAreKeys()
    ensures |AllGestureClasses| == ClassCount
    ensures forall c :: 0 <= c < |AllGestureClasses| && c != 16 ==>
      0 <= LetterRowOfClass(c) < |GestureToMalayalam| &&
      GestureToMalayalam[LetterRowOfClass(c)].key == AllGestureClasses[c]
  {
    ClassesAreKeysBelow30();
    ClassesAreKeysFrom30();
    ClassIndicesInKeyOrder();
    forall c | 0 <= c < ClassCount && c != 16
      ensures GestureToMalayalam[LetterRowOfClass(c)].key == AllGestureClasses[c]
    {
      assert ClassMapping[c] == ClassRow(c);
      assert GestureToMalayalam[LetterRowOfClass(c)] == LetterRow(LetterRowOfClass(c));
    }
  }

  /** Class 16, `Ee`, has no record: no key of the table is `Ee`. */
  lemma EeIsNotAKey()
    ensures AllGestureClasses[16] == "Ee"
    ensures forall i :: 0 <= i < |GestureToMalayalam| ==> GestureToMalayalam[i].key != "Ee"
  {
  }

  /** The record keyed `Jha` (row 23) belongs to no class: the classifier never
      produces it. */
  lemma JhaHasNoClass()
    ensures GestureToMalayalam[23].key == "Jha"
    ensures "Jha" !in AllGestureClasses
  {
  }

  /** The last two rows are the sentinels: `Nothing` with an all-empty record
      and `Space` with a blank one. */
  lemma SentinelRows()
    ensures |GestureToMalayalam| == LetterCount
    ensures GestureToMalayalam[58] == Entry("Nothing", MalayalamLetter("", "", ""))
    ensures GestureToMalayalam[59] == Entry("Space", MalayalamLetter(" ", " ", "space"))
  {
  }

  /** `Nothing` and `Space` are classes 37 and 48, and no other class is named
      like either. */
  lemma SentinelClasses()
    ensures |AllGestureClasses| == ClassCount
    ensures AllGestureClasses[37] == "Nothing" && AllGestureClasses[48] == "Space"
    ensures forall c :: 0 <= c < |AllGestureClasses| && c != 37 && c != 48 ==> !IsSentinel(AllGestureClasses[c])
  {
  }
}
