/**
 * The string tests the validators perform with JavaScript built-ins:
 * `String.prototype.endsWith` and the character-class regular expressions
 * `/[A-Z]/`, `/[a-z]/`, `/\d/`, `/[^A-Za-z0-9]/` and `/^\d{10}$/`.
 * The regular expressions are written out as explicit character predicates.
 */
module Text {
  import opened Wrappers

  /** The four classes a password must draw from. */
  datatype CharClass = Upper | Lower | Digit | Special

  predicate IsUpper(c: char) { 'A' <= c <= 'Z' }
  predicate IsLower(c: char) { 'a' <= c <= 'z' }
  predicate IsDigit(c: char) { '0' <= c <= '9' }

  /** `[A-Z]`, `[a-z]`, `\d` and `[^A-Za-z0-9]` respectively. */
  predicate InClass(c: char, k: CharClass) {
    match k
    case Upper => IsUpper(c)
    case Lower => IsLower(c)
    case Digit => IsDigit(c)
    case Special => !IsUpper(c) && !IsLower(c) && !IsDigit(c)
  }

  /** Some character of `s` belongs to class `k`. */
  predicate Occurs(s: string, k: CharClass) {
    exists i :: 0 <= i < |s| && InClass(s[i], k)
  }

  /**
   * The unanchored search a regular expression made of one character class
   * performs: the position of the leftmost character of class `k`, if any.
   * `/[A-Z]/.test(s)` is `Search(s, Upper).Some?`.
   */
  function Search(s: string, k: CharClass): (r: Option<nat>)
    ensures r.Some? ==> r.value < |s| && InClass(s[r.value], k)
    ensures r.Some? ==> forall j :: 0 <= j < r.value ==> !InClass(s[j], k)
    ensures r.None? ==> forall j :: 0 <= j < |s| ==> !InClass(s[j], k)
  {
    if s == [] then None
    else if InClass(s[0], k) then Some(0)
    else match Search(s[1..], k)
      case None => None
      case Some(i) => Some(i + 1)
  }

  /** A match of a one-class regular expression exists exactly when a character of that class occurs. */
  lemma SearchFindsIffOccurs(s: string, k: CharClass)
    ensures Search(s, k).Some? <==> Occurs(s, k)
  {
    var r := Search(s, k);
    if r.Some? {
      assert InClass(s[r.value], k);
    }
  }

  /** `/^\d{10}$/.test(s)`: exactly ten characters, each a decimal digit. */
  predicate IsTenDigits(s: string) {
    |s| == 10 && forall i :: 0 <= i < |s| ==> IsDigit(s[i])
  }

  /** `s.endsWith(suffix)`. */
  predicate EndsWith(s: string, suffix: string) {
    |suffix| <= |s| && s[|s| - |suffix|..] == suffix
  }
}
