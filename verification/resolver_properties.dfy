/** What the label resolver promises its callers, proved first for any table
    with the relevant uniqueness property and then for `gestureToMalayalam`
    itself. */
module ResolverProperties {
  import opened JsStrings
  import opened MalayalamAlphabet
  import opened TableFacts

  /** In a table with unique keys, looking up a key finds its own row. */
  lemma ExactKeyResolvesIn(t: seq<Entry>, i: nat)
    requires KeysUnique(t)
    requires i < |t|
    ensures FindByEnglishIn(t, t[i].key) == Some(t[i].letter)
  {
    assert forall j :: 0 <= j < i ==> t[j].key != t[i].key;
  }

  /** In a table whose keys are unique ignoring case, any spelling of a key
      finds that key's row, whether through the exact stage or the
      case-insensitive one. */
  lemma CaseInsensitiveKeyResolvesIn(t: seq<Entry>, english: string, i: nat)
    requires KeysUniqueIgnoringCase(t)
    requires i < |t| && SameIgnoringCase(t[i].key, english)
    ensures FindByEnglishIn(t, english) == Some(t[i].letter)
  {
    forall j | 0 <= j < |t| && j != i
      ensures !SameIgnoringCase(t[j].key, english)
    {
      if j < i {
        assert !SameIgnoringCase(t[j].key, t[i].key);
      } else {
        assert !SameIgnoringCase(t[i].key, t[j].key);
      }
    }
    if t[i].key != english {
      forall j | 0 <= j < |t|
        ensures t[j].key != english
      {
        if j != i {
          assert !SameIgnoringCase(t[j].key, english);
        }
      }
    }
  }

  /** Every key of `gestureToMalayalam` resolves to its own record. */
  lemma ExactKeyResolves(i: nat)
    requires i < |GestureToMalayalam|
    ensures FindMalayalamByEnglish(GestureToMalayalam[i].key) == Some(GestureToMalayalam[i].letter)
  {
    KeysDistinct();
    ExactKeyResolvesIn(GestureToMalayalam, i);
  }

  /** A label that equals a key ignoring case resolves to that key's record. */
  lemma CaseInsensitiveKeyResolves(english: string, i: nat)
    requires i < |GestureToMalayalam| && SameIgnoringCase(GestureToMalayalam[i].key, english)
    ensures FindMalayalamByEnglish(english) == Some(GestureToMalayalam[i].letter)
  {
    KeysDistinctIgnoringCase();
    CaseInsensitiveKeyResolvesIn(GestureToMalayalam, english, i);
  }

  /** The resolved glyph is `?` exactly when the label matches no key, even
      ignoring case; such a label gets the made-up record built from its
      lower-case form. */
  lemma FallbackIffUnknown(english: string)
    ensures FindMalayalamByEnglish(english).Some?
    ensures FindMalayalamByEnglish(english).value.malayalam == "?" <==>
      forall i :: 0 <= i < |GestureToMalayalam| ==> !SameIgnoringCase(GestureToMalayalam[i].key, english)
    ensures (forall i :: 0 <= i < |GestureToMalayalam| ==> !SameIgnoringCase(GestureToMalayalam[i].key, english)) ==>
      FindMalayalamByEnglish(english) ==
        Some(MalayalamLetter(ToLowerCase(english), "?", ReplaceUnderscores(ToLowerCase(english))))
  {
    var t := GestureToMalayalam;
    if i :| 0 <= i < |t| && SameIgnoringCase(t[i].key, english) {
      CaseInsensitiveKeyResolves(english, i);
      NoGlyphIsQuestionMark();
    }
  }

  /** The resolver does not see case: two labels that agree ignoring case get
      the same record, found or made up. */
  lemma {:induction false} ResolveIgnoresCase(a: string, b: string)
    requires SameIgnoringCase(a, b)
    ensures FindMalayalamByEnglish(a) == FindMalayalamByEnglish(b)
  {
    var t := GestureToMalayalam;
    if i :| 0 <= i < |t| && SameIgnoringCase(t[i].key, a) {
      CaseInsensitiveKeyResolves(a, i);
      CaseInsensitiveKeyResolves(b, i);
    } else {
      LowerEqualIffUpperEqual(a, b);
      FallbackIffUnknown(a);
      FallbackIffUnknown(b);
    }
  }

  /** In a table with unique glyphs, looking up a record's glyph finds that
      record. */
  lemma CharacterRoundTripIn(t: seq<Entry>, i: nat)
    requires GlyphsUnique(t)
    requires i < |t|
    ensures FindByCharacterIn(t, t[i].letter.malayalam) == Some(t[i].letter)
  {
    assert forall j :: 0 <= j < i ==> t[j].letter.malayalam != t[i].letter.malayalam;
  }

  /** Every record of `gestureToMalayalam` is found again from its glyph. */
  lemma CharacterRoundTrip(i: nat)
    requires i < |GestureToMalayalam|
    ensures FindMalayalamByCharacter(GestureToMalayalam[i].letter.malayalam) == Some(GestureToMalayalam[i].letter)
  {
    GlyphsDistinct();
    CharacterRoundTripIn(GestureToMalayalam, i);
  }

  /** Label to record to glyph and back: the glyph of a resolved label finds the
      same record again, except for the made-up record, whose `?` finds
      nothing. */
  lemma ResolvedGlyphRoundTrip(english: string)
    ensures FindMalayalamByEnglish(english).Some?
    ensures var r := FindMalayalamByEnglish(english).value;
      FindMalayalamByCharacter(r.malayalam) == if r.malayalam == "?" then None else Some(r)
  {
    var t := GestureToMalayalam;
    FallbackIffUnknown(english);
    NoGlyphIsQuestionMark();
    if i :| 0 <= i < |t| && SameIgnoringCase(t[i].key, english) {
      CaseInsensitiveKeyResolves(english, i);
      CharacterRoundTrip(i);
    }
  }

  /** The two sentinel glyphs, the empty string and a space, find the
      `Nothing` and `Space` records. */
  lemma SentinelGlyphs(glyph: string)
    requires glyph == "" || glyph == " "
    ensures FindMalayalamByCharacter(glyph) ==
      Some(if glyph == "" then MalayalamLetter("", "", "") else MalayalamLetter(" ", " ", "space"))
  {
    SentinelRows();
    if glyph == "" {
      CharacterRoundTrip(58);
    } else {
      CharacterRoundTrip(59);
    }
  }

  /** Every class the classifier can report, except `Ee`, resolves to a real
      record through the exact stage. */
  lemma ClassesResolve()
    ensures forall c :: 0 <= c < |AllGestureClasses| && c != 16 ==>
      0 <= LetterRowOfClass(c) < |GestureToMalayalam| &&
      FindMalayalamByEnglish(AllGestureClasses[c]) == Some(GestureToMalayalam[LetterRowOfClass(c)].letter) &&
      FindMalayalamByEnglish(AllGestureClasses[c]).value.malayalam != "?"
  {
    ClassesAreKeys();
    NoGlyphIsQuestionMark();
    forall c | 0 <= c < |AllGestureClasses| && c != 16
      ensures FindMalayalamByEnglish(AllGestureClasses[c]) == Some(GestureToMalayalam[LetterRowOfClass(c)].letter)
    {
      ExactKeyResolves(LetterRowOfClass(c));
    }
  }

  /** No key of the table matches the class `Ee`, even ignoring case. */
  lemma EeMatchesNoKey()
    ensures AllGestureClasses[16] == "Ee"
    ensures forall i :: 0 <= i < |GestureToMalayalam| ==> !SameIgnoringCase(GestureToMalayalam[i].key, AllGestureClasses[16])
  {
    var t, ee := GestureToMalayalam, AllGestureClasses[16];
    KeysCapitalized();
    EeIsNotAKey();
    assert Capitalized(ee);
    forall i | 0 <= i < |t|
      ensures !SameIgnoringCase(t[i].key, ee)
    {
      CapitalizedSameIgnoringCase(t[i].key, ee);
    }
  }

  /** The class `Ee` has no record and no key matches it ignoring case, so it
      resolves to the made-up record with glyph `?`. */
  lemma EeFallsBack()
    ensures AllGestureClasses[16] == "Ee"
    ensures FindMalayalamByEnglish(AllGestureClasses[16]) == Some(MalayalamLetter("ee", "?", "ee"))
  {
    var ee := AllGestureClasses[16];
    EeMatchesNoKey();
    FallbackIffUnknown(ee);
    assert ToLowerCase(ee) == "ee";
    assert ReplaceUnderscores("ee") == "ee";
  }

  /** The filter keeps exactly the names that are not sentinels. */
  lemma {:induction false} WithoutSentinelsMembers(names: seq<string>)
    ensures forall x :: x in WithoutSentinels(names) <==> x in names && !IsSentinel(x)
  {
    if names != [] {
      WithoutSentinelsMembers(names[1..]);
      assert names == [names[0]] + names[1..];
    }
  }

  /** The filter distributes over concatenation. */
  lemma {:induction false} WithoutSentinelsAppend(a: seq<string>, b: seq<string>)
    ensures WithoutSentinels(a + b) == WithoutSentinels(a) + WithoutSentinels(b)
  {
    if a != [] {
      assert (a + b)[1..] == a[1..] + b;
      WithoutSentinelsAppend(a[1..], b);
    } else {
      assert a + b == b;
    }
  }

  /** The filter keeps a list without sentinels as it is, in the same order. */
  lemma {:induction false} WithoutSentinelsKeeps(s: seq<string>)
    requires forall k :: 0 <= k < |s| ==> !IsSentinel(s[k])
    ensures WithoutSentinels(s) == s
  {
    if s != [] {
      WithoutSentinelsKeeps(s[1..]);
    }
  }

  /** Cutting a list at two positions and gluing it back gives the list. */
  lemma SplitAround(s: seq<string>, a: nat, b: nat)
    requires a < b < |s|
    ensures s == s[..a] + [s[a]] + s[a + 1..b] + [s[b]] + s[b + 1..]
  {
    assert s[a..b] == [s[a]] + s[a + 1..b];
    assert s[..b] == s[..a] + s[a..b];
    assert s[b..] == [s[b]] + s[b + 1..];
    assert s == s[..b] + s[b..];
  }

  /** A stretch of a list holding no sentinel passes the filter unchanged. */
  lemma WithoutSentinelsKeepsSlice(s: seq<string>, lo: nat, hi: nat)
    requires lo <= hi <= |s|
    requires forall k :: lo <= k < hi ==> !IsSentinel(s[k])
    ensures WithoutSentinels(s[lo..hi]) == s[lo..hi]
  {
    var m := s[lo..hi];
    assert forall k :: 0 <= k < |m| ==> m[k] == s[lo + k];
    WithoutSentinelsKeeps(m);
  }

  /** Filtering `p + [x] + q` for a sentinel `x` and sentinel-free `p`, `q`
      gives `p + q`. */
  lemma WithoutSentinelsDropsOne(p: seq<string>, x: string, q: seq<string>)
    requires IsSentinel(x)
    requires WithoutSentinels(p) == p && WithoutSentinels(q) == q
    ensures WithoutSentinels(p + [x] + q) == p + q
  {
    calc {
      WithoutSentinels(p + [x] + q);
      { WithoutSentinelsAppend(p + [x], q); }
      WithoutSentinels(p + [x]) + q;
      { WithoutSentinelsAppend(p, [x]); }
      p + [] + q;
      { assert p + [] == p; }
      p + q;
    }
  }

  /** Filtering `p + [x] + q + [y] + r` for sentinels `x`, `y` and
      sentinel-free `p`, `q`, `r` gives `p + q + r`. */
  lemma WithoutSentinelsDropsTwo(p: seq<string>, x: string, q: seq<string>, y: string, r: seq<string>)
    requires IsSentinel(x) && IsSentinel(y)
    requires WithoutSentinels(p) == p && WithoutSentinels(q) == q && WithoutSentinels(r) == r
    ensures WithoutSentinels(p + [x] + q + [y] + r) == p + q + r
  {
    var left := p + [x] + q;
    WithoutSentinelsDropsOne(p, x, q);
    calc {
      WithoutSentinels(left + [y] + r);
      { WithoutSentinelsAppend(left + [y], r); }
      WithoutSentinels(left + [y]) + r;
      { WithoutSentinelsAppend(left, [y]); }
      p + q + [] + r;
      { assert p + q + [] == p + q; }
      p + q + r;
    }
  }

  /** The three stretches around positions `a` and `b` hold no sentinel and
      so pass the filter unchanged. */
  lemma WithoutSentinelsKeepsAround(s: seq<string>, a: nat, b: nat)
    requires a < b < |s|
    requires forall k :: 0 <= k < |s| && k != a && k != b ==> !IsSentinel(s[k])
    ensures WithoutSentinels(s[..a]) == s[..a]
    ensures WithoutSentinels(s[a + 1..b]) == s[a + 1..b]
    ensures WithoutSentinels(s[b + 1..]) == s[b + 1..]
  {
    WithoutSentinelsKeepsSlice(s, 0, a);
    WithoutSentinelsKeepsSlice(s, a + 1, b);
    WithoutSentinelsKeepsSlice(s, b + 1, |s|);
    assert s[0..a] == s[..a] && s[b + 1..|s|] == s[b + 1..];
  }

  /** A list with sentinels at exactly positions `a` and `b` loses exactly
      those two entries to the filter. */
  lemma WithoutSentinelsAt(s: seq<string>, a: nat, b: nat)
    requires a < b < |s|
    requires IsSentinel(s[a]) && IsSentinel(s[b])
    requires forall k :: 0 <= k < |s| && k != a && k != b ==> !IsSentinel(s[k])
    ensures WithoutSentinels(s) == s[..a] + s[a + 1..b] + s[b + 1..]
  {
    WithoutSentinelsKeepsAround(s, a, b);
    SplitAround(s, a, b);
    WithoutSentinelsDropsTwo(s[..a], s[a], s[a + 1..b], s[b], s[b + 1..]);
  }

  /** `getAllGestureClasses` is the class list with exactly `Nothing` and
      `Space` taken out, the other 58 classes kept in key order. */
  lemma GestureClassesWithoutSentinels()
    ensures |AllGestureClasses| == ClassCount
    ensures GetAllGestureClasses() ==
      AllGestureClasses[..37] + AllGestureClasses[38..48] + AllGestureClasses[49..]
    ensures |GetAllGestureClasses()| == 58
  {
    SentinelClasses();
    WithoutSentinelsAt(AllGestureClasses, 37, 48);
  }
}
