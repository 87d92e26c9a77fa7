/**
 Treatments that a prescription lists, and the case-insensitive name match the
 clinic's search uses to recognise a medicine.

 A treatment is either a plain care note ("Bed rest") or a medicine; only the
 medicine kind can be found by the search. Case folding is ASCII-only.
 */
module Treatments {

  /** A treatment with its description; `Medicine` is the dosed kind
      (the dosage itself only affects display and is not modelled). */
  datatype Treatment =
    | Plain(description: string)
    | Medicine(description: string)

  /** ASCII lower-casing of one character; every other character is left alone. */
  function FoldChar(ch: char): char
  {
    if 'A' <= ch <= 'Z' then (ch as int - 'A' as int + 'a' as int) as char else ch
  }

  /** The whole string lower-cased, character by character. */
  function Fold(s: string): (r: string)
    ensures |r| == |s|
    ensures forall i :: 0 <= i < |s| ==> r[i] == FoldChar(s[i])
  {
    seq(|s|, i requires 0 <= i < |s| => FoldChar(s[i]))
  }

  /** Case-insensitive equality, walking both strings from the front as a
      character-by-character comparison does. */
  function EqualsIgnoreCase(a: string, b: string): (r: bool)
    ensures r <==> |a| == |b| && forall i :: 0 <= i < |a| ==> FoldChar(a[i]) == FoldChar(b[i])
    decreases |a|
  {
    if |a| != |b| then false
    else if |a| == 0 then true
    else FoldChar(a[0]) == FoldChar(b[0]) && EqualsIgnoreCase(a[1..], b[1..])
  }

  /** Two names match ignoring case exactly when their lower-cased forms are equal. */
  lemma EqualsIgnoreCaseIsFoldEquality(a: string, b: string)
    ensures EqualsIgnoreCase(a, b) <==> Fold(a) == Fold(b)
  {
  }

  /** Matching ignoring case is an equivalence relation. */
  lemma EqualsIgnoreCaseIsEquivalence(a: string, b: string, c: string)
    ensures EqualsIgnoreCase(a, a)
    ensures EqualsIgnoreCase(a, b) ==> EqualsIgnoreCase(b, a)
    ensures EqualsIgnoreCase(a, b) && EqualsIgnoreCase(b, c) ==> EqualsIgnoreCase(a, c)
  {
  }

  /** The test the search applies to each treatment: it must be of the
      medicine kind and its description must equal the query ignoring case. */
  predicate IsMedicineNamed(t: Treatment, name: string)
  {
    t.Medicine? && EqualsIgnoreCase(t.description, name)
  }
}
