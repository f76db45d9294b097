/** The gesture-label resolver of the Malayalam sign-language front end
    (lib/malayalam-alphabet.ts): the classifier's class list, the table from
    class names to Malayalam letter records, and the three read-only operations
    over them.

    Both tables are JavaScript object literals that the source walks with
    `Object.keys`/`Object.values`; for keys that are not array indices those
    list the properties in declaration order. Each table is therefore modelled
    as a sequence in declaration order, given row by row by a `match` on the
    row number. */
module MalayalamAlphabet {
  import opened JsStrings

  /** `interface MalayalamLetter`. */
  datatype MalayalamLetter = MalayalamLetter(english: string, malayalam: string, pronunciation: string)

  /** A possibly `undefined` result: `None` is `undefined`. */
  datatype Option<T> = None | Some(value: T)

  /** One property of `classMapping`: a class name and the classifier's index for it. */
  datatype ClassEntry = ClassEntry(name: string, index: nat)

  /** One property of `gestureToMalayalam`: a class name and its letter record. */
  datatype Entry = Entry(key: string, letter: MalayalamLetter)

  /** Number of properties of `classMapping`. */
  const ClassCount: nat := 60

  /** Number of properties of `gestureToMalayalam`. */
  const LetterCount: nat := 60

  /** Property `i` of `classMapping`, in declaration order. */
  function ClassRow(i: nat): (r: ClassEntry)
    requires i < ClassCount
    ensures r.index == i
  {
    match i
    case 0 => ClassEntry("A", 0)
    case 1 => ClassEntry("Aa", 1)
    case 2 => ClassEntry("Ah", 2)
    case 3 => ClassEntry("Ai", 3)
    case 4 => ClassEntry("Am", 4)
    case 5 => ClassEntry("Au", 5)
    case 6 => ClassEntry("Ba", 6)
    case 7 => ClassEntry("Bha", 7)
    case 8 => ClassEntry("Ca", 8)
    case 9 => ClassEntry("Cha", 9)
    case 10 => ClassEntry("D_a", 10)
    case 11 => ClassEntry("D_ha", 11)
    case 12 => ClassEntry("Da", 12)
    case 13 => ClassEntry("Dha", 13)
    case 14 => ClassEntry("E", 14)
    case 15 => ClassEntry("E_", 15)
    case 16 => ClassEntry("Ee", 16)
    case 17 => ClassEntry("Ee_", 17)
    case 18 => ClassEntry("Ga", 18)
    case 19 => ClassEntry("Gha", 19)
    case 20 => ClassEntry("Ha", 20)
    case 21 => ClassEntry("I", 21)
    case 22 => ClassEntry("Ii", 22)
    case 23 => ClassEntry("Ilh", 23)
    case 24 => ClassEntry("Ill", 24)
    case 25 => ClassEntry("In", 25)
    case 26 => ClassEntry("Irr", 26)
    case 27 => ClassEntry("Ja", 27)
    case 28 => ClassEntry("Ka", 28)
    case 29 => ClassEntry("Kha", 29)
    case 30 => ClassEntry("La", 30)
    case 31 => ClassEntry("Lha", 31)
    case 32 => ClassEntry("Ma", 32)
    case 33 => ClassEntry("N_a", 33)
    case 34 => ClassEntry("Na", 34)
    case 35 => ClassEntry("Nga", 35)
    case 36 => ClassEntry("Nha", 36)
    case 37 => ClassEntry("Nothing", 37)
    case 38 => ClassEntry("O", 38)
    case 39 => ClassEntry("Oo", 39)
    case 40 => ClassEntry("Pa", 40)
    case 41 => ClassEntry("Pha", 41)
    case 42 => ClassEntry("R", 42)
    case 43 => ClassEntry("Ra", 43)
    case 44 => ClassEntry("Rha", 44)
    case 45 => ClassEntry("Sa", 45)
    case 46 => ClassEntry("Sha", 46)
    case 47 => ClassEntry("Shha", 47)
    case 48 => ClassEntry("Space", 48)
    case 49 => ClassEntry("T_a", 49)
    case 50 => ClassEntry("T_ha", 50)
    case 51 => ClassEntry("Ta", 51)
    case 52 => ClassEntry("Tha", 52)
    case 53 => ClassEntry("U", 53)
    case 54 => ClassEntry("U_", 54)
    case 55 => ClassEntry("Uu", 55)
    case 56 => ClassEntry("Uu_", 56)
    case 57 => ClassEntry("Va", 57)
    case 58 => ClassEntry("Ya", 58)
    case 59 => ClassEntry("Zha", 59)
  }

  /** The rows of `classMapping`, as one sequence. */
  function ClassTable(): seq<ClassEntry>
  {
    seq(ClassCount, i requires 0 <= i < ClassCount => ClassRow(i))
  }

  /** `classMapping`. */
  const ClassMapping: seq<ClassEntry> := ClassTable()

  /** `Object.keys(m)` for a table given as its properties in declaration order. */
  function ClassNames(m: seq<ClassEntry>): seq<string>
  {
    seq(|m|, i requires 0 <= i < |m| => m[i].name)
  }

  /** `allGestureClasses = Object.keys(classMapping)`. */
  const AllGestureClasses: seq<string> := ClassNames(ClassMapping)

  /** Property `i` of `gestureToMalayalam`, in declaration order. */
  function LetterRow(i: nat): (r: Entry)
    requires i < LetterCount
    ensures r.letter.malayalam != "?"
  {
    match i
    // Vowels
    case 0 => Entry("A", MalayalamLetter("a", "അ", "ah"))
    case 1 => Entry("Aa", MalayalamLetter("aa", "ആ", "aah"))
    case 2 => Entry("I", MalayalamLetter("i", "ഇ", "ih"))
    case 3 => Entry("Ii", MalayalamLetter("ii", "ഈ", "eeh"))
    case 4 => Entry("U", MalayalamLetter("u", "ഉ", "uh"))
    case 5 => Entry("Uu", MalayalamLetter("uu", "ഊ", "ooh"))
    case 6 => Entry("R", MalayalamLetter("r", "ഋ", "ri"))
    case 7 => Entry("E", MalayalamLetter("e", "എ", "eh"))
    case 8 => Entry("E_", MalayalamLetter("e", "ഏ", "ae"))
    case 9 => Entry("Ai", MalayalamLetter("ai", "ഐ", "ai"))
    case 10 => Entry("O", MalayalamLetter("o", "ഒ", "oh"))
    case 11 => Entry("Oo", MalayalamLetter("oo", "ഓ", "oh"))
    case 12 => Entry("Au", MalayalamLetter("au", "ഔ", "au"))
    case 13 => Entry("Am", MalayalamLetter("am", "അം", "am"))
    case 14 => Entry("Ah", MalayalamLetter("ah", "അഃ", "aha"))
    // Consonants
    case 15 => Entry("Ka", MalayalamLetter("ka", "ക", "ka"))
    case 16 => Entry("Kha", MalayalamLetter("kha", "ഖ", "kha"))
    case 17 => Entry("Ga", MalayalamLetter("ga", "ഗ", "ga"))
    case 18 => Entry("Gha", MalayalamLetter("gha", "ഘ", "gha"))
    case 19 => Entry("Nga", MalayalamLetter("nga", "ങ", "nga"))
    case 20 => Entry("Ca", MalayalamLetter("cha", "ച", "cha"))
    case 21 => Entry("Cha", MalayalamLetter("chha", "ഛ", "chha"))
    case 22 => Entry("Ja", MalayalamLetter("ja", "ജ", "ja"))
    case 23 => Entry("Jha", MalayalamLetter("jha", "ഝ", "jha"))
    case 24 => Entry("Nha", MalayalamLetter("nya", "ഞ", "nya"))
    case 25 => Entry("Ta", MalayalamLetter("ta", "ട", "ta"))
    case 26 => Entry("T_a", MalayalamLetter("tta", "ഠ", "tta"))
    case 27 => Entry("Da", MalayalamLetter("da", "ഡ", "da"))
    case 28 => Entry("D_a", MalayalamLetter("dda", "ഢ", "dda"))
    case 29 => Entry("Na", MalayalamLetter("na", "ണ", "na"))
    case 30 => Entry("Tha", MalayalamLetter("tha", "ത", "tha"))
    case 31 => Entry("T_ha", MalayalamLetter("thha", "ഥ", "thha"))
    case 32 => Entry("Dha", MalayalamLetter("dha", "ദ", "dha"))
    case 33 => Entry("D_ha", MalayalamLetter("dhha", "ധ", "dhha"))
    case 34 => Entry("N_a", MalayalamLetter("nna", "ന", "nna"))
    case 35 => Entry("Pa", MalayalamLetter("pa", "പ", "pa"))
    case 36 => Entry("Pha", MalayalamLetter("pha", "ഫ", "pha"))
    case 37 => Entry("Ba", MalayalamLetter("ba", "ബ", "ba"))
    case 38 => Entry("Bha", MalayalamLetter("bha", "ഭ", "bha"))
    case 39 => Entry("Ma", MalayalamLetter("ma", "മ", "ma"))
    case 40 => Entry("Ya", MalayalamLetter("ya", "യ", "ya"))
    case 41 => Entry("Ra", MalayalamLetter("ra", "ര", "ra"))
    case 42 => Entry("Rha", MalayalamLetter("rra", "റ", "rra"))
    case 43 => Entry("La", MalayalamLetter("la", "ല", "la"))
    case 44 => Entry("Lha", MalayalamLetter("lla", "ള", "lla"))
    case 45 => Entry("Va", MalayalamLetter("va", "വ", "va"))
    case 46 => Entry("Sha", MalayalamLetter("sha", "ശ", "sha"))
    case 47 => Entry("Shha", MalayalamLetter("shha", "ഷ", "shha"))
    case 48 => Entry("Sa", MalayalamLetter("sa", "സ", "sa"))
    case 49 => Entry("Ha", MalayalamLetter("ha", "ഹ", "ha"))
    case 50 => Entry("Zha", MalayalamLetter("zha", "ഴ", "zha"))
    // Special characters
    case 51 => Entry("Ill", MalayalamLetter("ll", "ല്ല", "lla"))
    case 52 => Entry("Ilh", MalayalamLetter("lh", "ള്ള", "lha"))
    case 53 => Entry("In", MalayalamLetter("n", "ന്", "n"))
    case 54 => Entry("Irr", MalayalamLetter("rr", "ര്", "r"))
    // Vowel signs
    case 55 => Entry("Ee_", MalayalamLetter("ee", "ീ", "ee"))
    case 56 => Entry("Uu_", MalayalamLetter("oo", "ൂ", "oo"))
    case 57 => Entry("U_", MalayalamLetter("u", "ു", "u"))
    // Special cases
    case 58 => Entry("Nothing", MalayalamLetter("", "", ""))
    case 59 => Entry("Space", MalayalamLetter(" ", " ", "space"))
  }

  /** The rows of `gestureToMalayalam`, as one sequence. */
  function LetterTable(): seq<Entry>
  {
    seq(LetterCount, i requires 0 <= i < LetterCount => LetterRow(i))
  }

  /** `gestureToMalayalam`. */
  const GestureToMalayalam: seq<Entry> := LetterTable()

  /** Position of the first entry of `t` that satisfies `p`, or `|t|` when none
      does: the early-return `for...of` search. */
  function FirstIndex(t: seq<Entry>, p: Entry -> bool): (k: nat)
    ensures k <= |t|
    ensures forall j :: 0 <= j < k ==> !p(t[j])
    ensures k < |t| ==> p(t[k])
  {
    if t == [] then 0
    else if p(t[0]) then 0
    else 1 + FirstIndex(t[1..], p)
  }

  /** The letter of the first entry of `t` that satisfies `p`, if any. */
  function FirstWhere(t: seq<Entry>, p: Entry -> bool): (r: Option<MalayalamLetter>)
    ensures r.None? <==> forall i :: 0 <= i < |t| ==> !p(t[i])
    ensures r.Some? ==> exists i :: 0 <= i < |t| && p(t[i]) && r.value == t[i].letter
    ensures forall i :: 0 <= i < |t| && p(t[i]) && (forall j :: 0 <= j < i ==> !p(t[j])) ==>
      r == Some(t[i].letter)
  {
    var k := FirstIndex(t, p);
    if k < |t| then Some(t[k].letter) else None
  }

  /** The exact stage `t[english]`, for a table given as its properties: the
      letter under key `english`, if there is one. Every record is an object and
      so truthy, even the all-empty `Nothing` record, so the stage succeeds
      exactly when `english` is a key. */
  function LookupIn(t: seq<Entry>, english: string): (r: Option<MalayalamLetter>)
    ensures r.None? <==> forall i :: 0 <= i < |t| ==> t[i].key != english
    ensures forall i :: 0 <= i < |t| && t[i].key == english && (forall j :: 0 <= j < i ==> t[j].key != english) ==>
      r == Some(t[i].letter)
  {
    FirstWhere(t, (e: Entry) => e.key == english)
  }

  /** The record `findMalayalamByEnglish` makes up for a label it cannot find. */
  function Fallback(english: string): (r: MalayalamLetter)
    ensures r.malayalam == "?"
    ensures |r.english| == |english|
    ensures forall i :: 0 <= i < |english| ==> r.english[i] == LowerChar(english[i])
    ensures |r.pronunciation| == |r.english|
    ensures forall i :: 0 <= i < |r.english| ==>
      r.pronunciation[i] == if r.english[i] == '_' then ' ' else r.english[i]
    ensures SameIgnoringCase(r.english, english)
    ensures '_' !in r.pronunciation
  {
    LowerSameIgnoringCase(english);
    ReplaceLeavesNoUnderscore(ToLowerCase(english));
    MalayalamLetter(ToLowerCase(english), "?", ReplaceUnderscores(ToLowerCase(english)))
  }

  /** `findMalayalamByEnglish` over table `t`: the exact property first, then the
      first key in table order that equals `english` ignoring case, then a
      made-up record. Never `undefined`. */
  function FindByEnglishIn(t: seq<Entry>, english: string): (r: Option<MalayalamLetter>)
    ensures r.Some?
    ensures forall i :: 0 <= i < |t| && t[i].key == english && (forall j :: 0 <= j < i ==> t[j].key != english) ==>
      r == Some(t[i].letter)
    ensures (forall i :: 0 <= i < |t| ==> t[i].key != english) ==>
      forall i :: (0 <= i < |t| && SameIgnoringCase(t[i].key, english) &&
          forall j :: 0 <= j < i ==> !SameIgnoringCase(t[j].key, english)) ==>
        r == Some(t[i].letter)
    ensures (forall i :: 0 <= i < |t| ==> !SameIgnoringCase(t[i].key, english)) ==>
      r == Some(Fallback(english))
  {
    var exact := LookupIn(t, english);
    if exact.Some? then exact
    else
      var upperEnglish := ToUpperCase(english);
      var caseless := FirstWhere(t, (e: Entry) => ToUpperCase(e.key) == upperEnglish);
      if caseless.Some? then caseless
      else Some(Fallback(english))
  }

  /** `findMalayalamByCharacter` over table `t`: the first record in table order
      whose glyph is `character`, or `undefined`. */
  function FindByCharacterIn(t: seq<Entry>, character: string): (r: Option<MalayalamLetter>)
    ensures r.None? <==> forall i :: 0 <= i < |t| ==> t[i].letter.malayalam != character
    ensures r.Some? ==> r.value.malayalam == character
    ensures forall i :: (0 <= i < |t| && t[i].letter.malayalam == character &&
        forall j :: 0 <= j < i ==> t[j].letter.malayalam != character) ==>
      r == Some(t[i].letter)
  {
    FirstWhere(t, (e: Entry) => e.letter.malayalam == character)
  }

  /** `findMalayalamByEnglish`: despite its `| undefined` type it always
      yields a record. */
  function FindMalayalamByEnglish(english: string): (r: Option<MalayalamLetter>)
    ensures r.Some?
  {
    FindByEnglishIn(GestureToMalayalam, english)
  }

  /** `findMalayalamByCharacter`: a record it yields shows `character`. */
  function FindMalayalamByCharacter(character: string): (r: Option<MalayalamLetter>)
    ensures r.Some? ==> r.value.malayalam == character
  {
    FindByCharacterIn(GestureToMalayalam, character)
  }

  /** The two classes that stand for "no letter". */
  predicate IsSentinel(name: string)
  {
    name == "Nothing" || name == "Space"
  }

  /** The class list with every sentinel filtered out, order kept. */
  function WithoutSentinels(names: seq<string>): (r: seq<string>)
    ensures |r| <= |names|
    ensures forall k :: 0 <= k < |r| ==> !IsSentinel(r[k])
  {
    if names == [] then []
    else if IsSentinel(names[0]) then WithoutSentinels(names[1..])
    else [names[0]] + WithoutSentinels(names[1..])
  }

  /** `getAllGestureClasses`: the class list without the sentinels. */
  function GetAllGestureClasses(): (r: seq<string>)
    ensures |r| <= |AllGestureClasses|
    ensures forall k :: 0 <= k < |r| ==> !IsSentinel(r[k])
  {
    WithoutSentinels(AllGestureClasses)
  }
}
