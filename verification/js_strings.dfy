/** The three JavaScript string built-ins the label resolver relies on:
    `String.prototype.toUpperCase`, `String.prototype.toLowerCase` and
    `s.replace(/_/g, " ")`. Case mapping is restricted to ASCII letters; every
    other character is left unchanged. */
module JsStrings {

  /** Upper-case image of one character: `a`..`z` become `A`..`Z`. */
  function UpperChar(c: char): (u: char)
    ensures !('a' <= u <= 'z')
  {
    if 'a' <= c <= 'z' then (c as int - 32) as char else c
  }

  /** Lower-case image of one character: `A`..`Z` become `a`..`z`. */
  function LowerChar(c: char): (l: char)
    ensures !('A' <= l <= 'Z')
    ensures UpperChar(l) == UpperChar(c)
  {
    if 'A' <= c <= 'Z' then (c as int + 32) as char else c
  }

  /** `s.toUpperCase()`: the same length, each character mapped by UpperChar. */
  function ToUpperCase(s: string): (r: string)
    ensures |r| == |s|
    ensures forall i :: 0 <= i < |s| ==> r[i] == UpperChar(s[i])
  {
    if s == [] then [] else [UpperChar(s[0])] + ToUpperCase(s[1..])
  }

  /** `s.toLowerCase()`: the same length, each character mapped by LowerChar. */
  function ToLowerCase(s: string): (r: string)
    ensures |r| == |s|
    ensures forall i :: 0 <= i < |s| ==> r[i] == LowerChar(s[i])
  {
    if s == [] then [] else [LowerChar(s[0])] + ToLowerCase(s[1..])
  }

  /** `s.replace(/_/g, " ")`: every underscore becomes a space, nothing else moves. */
  function ReplaceUnderscores(s: string): (r: string)
    ensures |r| == |s|
    ensures forall i :: 0 <= i < |s| ==> r[i] == (if s[i] == '_' then ' ' else s[i])
  {
    if s == [] then [] else [if s[0] == '_' then ' ' else s[0]] + ReplaceUnderscores(s[1..])
  }

  /** The comparison the resolver's second stage makes:
      `a.toUpperCase() === b.toUpperCase()`. */
  predicate SameIgnoringCase(a: string, b: string)
    ensures SameIgnoringCase(a, b) <==>
      |a| == |b| && forall i :: 0 <= i < |a| ==> UpperChar(a[i]) == UpperChar(b[i])
  {
    ToUpperCase(a) == ToUpperCase(b)
  }

  /** Lower-casing loses nothing that upper-casing keeps: a string and its
      lower-case form are the same ignoring case. */
  lemma LowerSameIgnoringCase(s: string)
    ensures SameIgnoringCase(ToLowerCase(s), s)
  {
    var l := ToLowerCase(s);
    assert forall i :: 0 <= i < |s| ==> ToUpperCase(l)[i] == ToUpperCase(s)[i];
  }

  /** One character at a time: equal lower-case images iff equal upper-case images. */
  lemma LowerEqualIffUpperEqualChar(x: char, y: char)
    ensures LowerChar(x) == LowerChar(y) <==> UpperChar(x) == UpperChar(y)
  {
    var xl, yl := 'A' <= x <= 'Z', 'A' <= y <= 'Z';
    var xu, yu := 'a' <= x <= 'z', 'a' <= y <= 'z';
    assert LowerChar(x) as int == if xl then x as int + 32 else x as int;
    assert LowerChar(y) as int == if yl then y as int + 32 else y as int;
    assert UpperChar(x) as int == if xu then x as int - 32 else x as int;
    assert UpperChar(y) as int == if yu then y as int - 32 else y as int;
  }

  /** Two strings have the same lower-case form exactly when they have the same
      upper-case form: both relations say "equal ignoring ASCII case". */
  lemma LowerEqualIffUpperEqual(a: string, b: string)
    ensures ToLowerCase(a) == ToLowerCase(b) <==> SameIgnoringCase(a, b)
  {
    if |a| == |b| {
      forall i | 0 <= i < |a|
        ensures ToLowerCase(a)[i] == ToLowerCase(b)[i] <==> ToUpperCase(a)[i] == ToUpperCase(b)[i]
      {
        LowerEqualIffUpperEqualChar(a[i], b[i]);
      }
      if ToLowerCase(a) == ToLowerCase(b) {
        assert ToUpperCase(a) == ToUpperCase(b);
      }
      if SameIgnoringCase(a, b) {
        assert ToLowerCase(a) == ToLowerCase(b);
      }
    }
  }

  /** After `replace(/_/g, " ")` no underscore is left. */
  lemma ReplaceLeavesNoUnderscore(s: string)
    ensures '_' !in ReplaceUnderscores(s)
  {
    var r := ReplaceUnderscores(s);
    assert forall i :: 0 <= i < |r| ==> r[i] != '_';
  }

  /** The shape of every gesture label: one capital ASCII letter followed by
      lower-case ASCII letters and underscores. */
  predicate Capitalized(s: string)
  {
    |s| > 0 && 'A' <= s[0] <= 'Z' &&
    forall k :: 1 <= k < |s| ==> 'a' <= s[k] <= 'z' || s[k] == '_'
  }

  /** UpperChar is one-to-one on lower-case letters and the underscore. */
  lemma UpperCharInjectiveOnTail(x: char, y: char)
    requires 'a' <= x <= 'z' || x == '_'
    requires 'a' <= y <= 'z' || y == '_'
    requires UpperChar(x) == UpperChar(y)
    ensures x == y
  {
    assert UpperChar(x) as int == if x == '_' then x as int else x as int - 32;
    assert UpperChar(y) as int == if y == '_' then y as int else y as int - 32;
  }

  /** Two capitalized labels that agree ignoring case are the same label: for
      such labels, the case-insensitive comparison is plain equality. */
  lemma {:induction false} CapitalizedSameIgnoringCase(a: string, b: string)
    requires Capitalized(a) && Capitalized(b)
    ensures SameIgnoringCase(a, b) <==> a == b
  {
    if SameIgnoringCase(a, b) {
      var ua, ub := ToUpperCase(a), ToUpperCase(b);
      assert |a| == |b|;
      forall k | 0 <= k < |a|
        ensures a[k] == b[k]
      {
        assert ua[k] == ub[k];
        if k > 0 {
          UpperCharInjectiveOnTail(a[k], b[k]);
        }
      }
    }
  }
}
