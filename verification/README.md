# Malayalam gesture-label resolver

A Dafny model of the label resolver of the SignBridge front end, in
`lib/malayalam-alphabet.ts`. A sign-language classifier reports a class name
such as `Ka` or `Nothing`. The resolver turns that name into a Malayalam letter
record: the transliteration, the glyph and the pronunciation. It also looks a
record up by its glyph, and lists the class names worth showing to a user.

The model has four modules:

- `JsStrings` (`js_strings.dfy`) covers the JavaScript string built-ins the
  resolver calls: `toUpperCase`, `toLowerCase` and `replace(/_/g, " ")`. Case
  mapping is ASCII only. It also proves that comparing lower-case forms and
  comparing upper-case forms mean the same thing.
- `MalayalamAlphabet` (`malayalam_alphabet.dfy`) holds the two constant tables
  and the three operations.
  - `classMapping` has 60 class names with their classifier indices.
  - `gestureToMalayalam` has 60 keyed letter records.
  - Each table is an ordered sequence of its properties in declaration order.
    `Object.keys` and `Object.values` list properties in that order when no key
    looks like an array index. The scans at lines 157 and 172 therefore visit
    rows in the order the model gives.
  - The search operations are stated once over any table `t`
    (`FindByEnglishIn`, `FindByCharacterIn`). `FindMalayalamByEnglish` and
    `FindMalayalamByCharacter` apply them to `gestureToMalayalam`.
  - A missing result (`undefined`) is `None` of an `Option`.
- `TableFacts` (`table_facts.dfy`) checks facts about the literal tables row by
  row:
  - keys are distinct, capitalized, and distinct even ignoring case;
  - glyphs are distinct and none is `?`;
  - class indices are 0..59 in key order;
  - every class except `Ee` is a key of the letter table, and `Jha` is not a
    class;
  - the sentinels `Nothing` and `Space` sit where they do.
- `ResolverProperties` (`resolver_properties.dfy`) proves what the operations
  promise:
  - which stage of `findMalayalamByEnglish` fires, and what the fallback
    record is;
  - case-insensitivity;
  - the glyph round trip;
  - the filtered class list.

## Model

| member | source | states |
|---|---|---|
| JsStrings.UpperChar | lib/malayalam-alphabet.ts:156 | upper-casing one character never leaves a lower-case ASCII letter |
| JsStrings.LowerChar | lib/malayalam-alphabet.ts:165 | lower-casing one character never leaves an upper-case ASCII letter, and it keeps the character's upper-case image |
| JsStrings.ToUpperCase | lib/malayalam-alphabet.ts:156 | `toUpperCase` keeps the length and maps each character on its own, `a`..`z` to `A`..`Z` |
| JsStrings.ToLowerCase | lib/malayalam-alphabet.ts:165 | `toLowerCase` keeps the length and maps each character on its own, `A`..`Z` to `a`..`z` |
| JsStrings.ReplaceUnderscores | lib/malayalam-alphabet.ts:167 | `replace(/_/g, " ")` keeps the length, turns every `_` into a space and leaves every other character in place |
| JsStrings.ReplaceLeavesNoUnderscore | lib/malayalam-alphabet.ts:167 | no underscore is left after the replacement |
| JsStrings.LowerSameIgnoringCase | lib/malayalam-alphabet.ts:165 | a label and its lower-case form agree ignoring case |
| JsStrings.LowerEqualIffUpperEqual | lib/malayalam-alphabet.ts:156-165 | two labels have equal lower-case forms exactly when they have equal upper-case forms, in both directions |
| JsStrings.SameIgnoringCase | lib/malayalam-alphabet.ts:158 | the comparison `key.toUpperCase() === upperEnglish` holds exactly when the two labels have the same length and equal upper-case images character by character |
| JsStrings.CapitalizedSameIgnoringCase | lib/malayalam-alphabet.ts:156-158 | for two capitalized labels, agreeing ignoring case is the same as being equal |
| MalayalamAlphabet.ClassRow | lib/malayalam-alphabet.ts:9-70 | row `i` is the `i`-th property of the `classMapping` literal, as written; its index is `i` |
| MalayalamAlphabet.LetterRow | lib/malayalam-alphabet.ts:76-146 | row `i` is the `i`-th property of the `gestureToMalayalam` literal, as written; no record shows `?` |
| MalayalamAlphabet.FirstIndex | lib/malayalam-alphabet.ts:157-161 | the early-return scan stops at the first row that satisfies the test, and every row before it fails the test; it stops past the end only when no row passes |
| MalayalamAlphabet.FirstWhere | lib/malayalam-alphabet.ts:172-177 | the scan finds nothing exactly when no row passes; otherwise it yields the letter of a passing row, namely the first one |
| MalayalamAlphabet.LookupIn | lib/malayalam-alphabet.ts:151-153 | the exact stage succeeds exactly when the label is a key, and then yields that key's record |
| MalayalamAlphabet.Fallback | lib/malayalam-alphabet.ts:164-168 | the made-up record has glyph `?`; its transliteration is the label lower-cased character by character; its pronunciation is that transliteration with every `_` turned into a space and nothing else changed; so the transliteration equals the label ignoring case and the pronunciation holds no `_` |
| MalayalamAlphabet.FindByEnglishIn | lib/malayalam-alphabet.ts:149-169 | always a record; an exact key gives its record; failing that, the first key in table order equal ignoring case gives its record; failing that, the made-up record |
| MalayalamAlphabet.FindByCharacterIn | lib/malayalam-alphabet.ts:171-178 | `undefined` exactly when no record shows the glyph; otherwise the first record in table order that shows it |
| MalayalamAlphabet.FindMalayalamByEnglish | lib/malayalam-alphabet.ts:149-169 | never `undefined`, despite the declared return type |
| MalayalamAlphabet.FindMalayalamByCharacter | lib/malayalam-alphabet.ts:171-178 | a record it yields shows the requested glyph |
| MalayalamAlphabet.IsSentinel | lib/malayalam-alphabet.ts:182 | the filter's test: the class is `Nothing` or `Space` |
| MalayalamAlphabet.WithoutSentinels | lib/malayalam-alphabet.ts:182 | the filter never grows the list and keeps neither `Nothing` nor `Space` |
| MalayalamAlphabet.GetAllGestureClasses | lib/malayalam-alphabet.ts:181-183 | the listed classes contain no sentinel |
| TableFacts.KeysCapitalized | lib/malayalam-alphabet.ts:76-146 | every key is one capital ASCII letter followed by lower-case letters and underscores |
| TableFacts.KeysDistinct | lib/malayalam-alphabet.ts:76-146 | no key of the letter table appears twice |
| TableFacts.KeysDistinctIgnoringCase | lib/malayalam-alphabet.ts:76-146 | no two keys agree ignoring case, so the case-insensitive stage can match at most one key |
| TableFacts.GlyphsDistinct | lib/malayalam-alphabet.ts:76-146 | no two records show the same glyph |
| TableFacts.NoGlyphIsQuestionMark | lib/malayalam-alphabet.ts:76-146 | no record shows `?`, the glyph of the made-up record |
| TableFacts.ClassIndicesInKeyOrder | lib/malayalam-alphabet.ts:9-73 | `classMapping` has 60 properties, and the one at position `c` is the class `allGestureClasses[c]` with index `c`: the indices are exactly 0..59, increasing in key order, and `Object.keys` lists the names in that order |
| TableFacts.ClassNamesDistinct | lib/malayalam-alphabet.ts:9-73 | no class name appears twice in `allGestureClasses` |
| TableFacts.ClassesAreKeys | lib/malayalam-alphabet.ts:9-146 | every class name except `Ee` is a key of the letter table, at the row `LetterRowOfClass` gives |
| TableFacts.EeIsNotAKey | lib/malayalam-alphabet.ts:26 | class 16 is `Ee`, and no key of the letter table is `Ee` |
| TableFacts.JhaHasNoClass | lib/malayalam-alphabet.ts:103 | the letter table has a `Jha` row, but `Jha` is not a class name |
| TableFacts.SentinelRows | lib/malayalam-alphabet.ts:144-145 | the last two rows are `Nothing` with an all-empty record and `Space` with a blank record |
| TableFacts.SentinelClasses | lib/malayalam-alphabet.ts:47 | `Nothing` is class 37 and `Space` is class 48, and no other class has either name |
| ResolverProperties.ExactKeyResolvesIn | lib/malayalam-alphabet.ts:151-153 | in any table with unique keys, a key resolves to its own record |
| ResolverProperties.CaseInsensitiveKeyResolvesIn | lib/malayalam-alphabet.ts:151-161 | in any table whose keys are unique ignoring case, every spelling of a key resolves to that key's record |
| ResolverProperties.ExactKeyResolves | lib/malayalam-alphabet.ts:151-153 | every key of `gestureToMalayalam` resolves to its own record, unchanged |
| ResolverProperties.CaseInsensitiveKeyResolves | lib/malayalam-alphabet.ts:155-161 | a label equal to a key ignoring case resolves to that key's record |
| ResolverProperties.FallbackIffUnknown | lib/malayalam-alphabet.ts:163-168 | the glyph is `?` exactly when no key matches ignoring case; then the record is the lower-cased label, `?`, and the lower-cased label with `_` turned into spaces |
| ResolverProperties.ResolveIgnoresCase | lib/malayalam-alphabet.ts:149-169 | two labels that agree ignoring case resolve to the same record, whether found or made up |
| ResolverProperties.CharacterRoundTripIn | lib/malayalam-alphabet.ts:171-178 | in any table with unique glyphs, a record's glyph finds that record |
| ResolverProperties.CharacterRoundTrip | lib/malayalam-alphabet.ts:171-178 | every record of `gestureToMalayalam` is found again from its glyph |
| ResolverProperties.ResolvedGlyphRoundTrip | lib/malayalam-alphabet.ts:149-178 | the glyph of a resolved label finds the same record again; a made-up record's `?` finds nothing |
| ResolverProperties.SentinelGlyphs | lib/malayalam-alphabet.ts:144-145 | the empty glyph finds the `Nothing` record and a space finds the `Space` record |
| ResolverProperties.ClassesResolve | lib/malayalam-alphabet.ts:9-153 | every class except `Ee` resolves through the exact stage to a real record, one whose glyph is not `?` |
| ResolverProperties.EeMatchesNoKey | lib/malayalam-alphabet.ts:26 | no key matches the class `Ee`, even ignoring case |
| ResolverProperties.EeFallsBack | lib/malayalam-alphabet.ts:26 | the class `Ee` resolves to the made-up record `{ee, ?, ee}` |
| ResolverProperties.WithoutSentinelsMembers | lib/malayalam-alphabet.ts:182 | the filter keeps exactly the names that are not sentinels |
| ResolverProperties.WithoutSentinelsAppend | lib/malayalam-alphabet.ts:182 | filtering distributes over concatenation, so order is kept |
| ResolverProperties.WithoutSentinelsAt | lib/malayalam-alphabet.ts:182 | a list with sentinels at exactly two positions loses exactly those two entries |
| ResolverProperties.GestureClassesWithoutSentinels | lib/malayalam-alphabet.ts:181-183 | `getAllGestureClasses()` is the class list with classes 37 (`Nothing`) and 48 (`Space`) cut out: 58 names in key order |

## Left out

- `app/translate/page.tsx` is not part of this model. It is React state and
  rendering, camera access through `getUserMedia`, interval and timeout
  scheduling, and a `Math.random` stand-in for the classifier. None of it is
  logic that can be stated as a contract.
- The remote classifier and any HTTP requests to it are not part of this model.
- JavaScript prototype lookups in the exact stage at
  `lib/malayalam-alphabet.ts:151` are not modelled. The table has only its
  declared keys. In the source, a label such as `constructor` or `__proto__`
  reaches a truthy inherited property and comes back as a non-record.
- JsStrings.ToUpperCase, JsStrings.ToLowerCase: case mapping is ASCII only;
  every other character is left unchanged. All table keys are ASCII letters
  and `_`, but a label is any string, and the difference can be seen:
  - JavaScript upper-cases `ſa` to `SA` and `ıı` to `II`. The source then
    returns the `Sa` or `Ii` record, while the model returns the made-up record.
  - In the made-up record, the source lower-cases non-ASCII capitals such as
    `É`; the model keeps them as they are.
- The `MalayalamLetter` interface and the `Record<string, MalayalamLetter>`
  type are plain types. Nothing about them needs a contract.
- The code defines one vocabulary: 60 capitalized classes whose sentinels are
  `Nothing` and `Space`. The model has only that vocabulary.
