/** Character classification and case mapping, restricted to ASCII (white space to Latin-1):
    letters 'A'..'Z' and 'a'..'z', digits '0'..'9'. The culture-invariant
    upper-casing and the case-insensitive comparisons both go through ToUpper. */
module Chars {

  predicate IsLetter(c: char) {
    ('A' <= c <= 'Z') || ('a' <= c <= 'z')
  }

  predicate IsDigit(c: char) {
    '0' <= c <= '9'
  }

  /** char.IsLetterOrDigit */
  predicate IsLetterOrDigit(c: char) {
    IsLetter(c) || IsDigit(c)
  }

  /** char.IsWhiteSpace on Latin-1: tab, line feed, vertical tab, form feed,
      carriage return, space, next line and no-break space. */
  predicate IsWhiteSpace(c: char) {
    ('\t' <= c <= '\r') || c == ' ' || c == '\U{85}' || c == '\U{A0}'
  }

  predicate IsLower(c: char) {
    'a' <= c <= 'z'
  }

  /** char.ToUpperInvariant */
  function ToUpper(c: char): (u: char)
    ensures !IsLower(u)
    ensures IsLetterOrDigit(u) == IsLetterOrDigit(c)
    ensures !IsLower(c) ==> u == c
  {
    if IsLower(c) then (c as int - 32) as char else c
  }

  /** The case-folded form of a string, used by every IgnoreCase comparison. */
  function Fold(s: string): (r: string)
    ensures |r| == |s|
    ensures forall i :: 0 <= i < |s| ==> r[i] == ToUpper(s[i])
  {
    seq(|s|, i requires 0 <= i < |s| => ToUpper(s[i]))
  }

  lemma FoldIdempotent(s: string)
    ensures Fold(Fold(s)) == Fold(s)
  {
  }

  lemma FoldAppend(s: string, t: string)
    ensures Fold(s + t) == Fold(s) + Fold(t)
  {
    assert forall i :: 0 <= i < |s + t| ==> Fold(s + t)[i] == (Fold(s) + Fold(t))[i];
  }

  lemma FoldSlice(s: string, i: nat, j: nat)
    requires i <= j <= |s|
    ensures Fold(s[i..j]) == Fold(s)[i..j]
  {
  }
}
