/**
  String primitives the pages rely on, over ASCII: `toLowerCase`, `includes`, a
  regular expression anchored at the end (`/…$/`), and the character classes
  `[0-9]`, `[a-z]` and `[A-Z]`.
*/
module Text {

  predicate IsDigit(c: char) { '0' <= c <= '9' }
  predicate IsLowerAscii(c: char) { 'a' <= c <= 'z' }
  predicate IsUpperAscii(c: char) { 'A' <= c <= 'Z' }

  /** ASCII `toLowerCase` of one character. */
  function LowerChar(c: char): (r: char)
    ensures !IsUpperAscii(r)
    ensures IsUpperAscii(c) ==> r as int == c as int + 32
    ensures !IsUpperAscii(c) ==> r == c
  {
    if IsUpperAscii(c) then (c as int + 32) as char else c
  }

  /** ASCII `toLowerCase` of a string, character by character. */
  function Lower(s: string): (r: string)
    ensures |r| == |s|
    ensures forall i :: 0 <= i < |s| ==> r[i] == LowerChar(s[i])
  {
    seq(|s|, i requires 0 <= i < |s| => LowerChar(s[i]))
  }

  lemma LowerIdempotent(s: string)
    ensures Lower(Lower(s)) == Lower(s)
  {
  }

  /** `needle` occurs in `hay` starting at index `i`. */
  predicate OccursAt(hay: string, needle: string, i: int)
  {
    0 <= i && i + |needle| <= |hay| && hay[i..i + |needle|] == needle
  }

  /** `needle` occurs somewhere in `hay` as a contiguous block. */
  predicate Contains(hay: string, needle: string)
  {
    exists i :: 0 <= i <= |hay| - |needle| && OccursAt(hay, needle, i)
  }

  lemma ContainsEmpty(hay: string)
    ensures Contains(hay, "")
  {
    assert OccursAt(hay, "", 0);
  }

  lemma ContainsTransitive(a: string, b: string, c: string)
    requires Contains(a, b) && Contains(b, c)
    ensures Contains(a, c)
  {
    var i :| 0 <= i <= |a| - |b| && OccursAt(a, b, i);
    var j :| 0 <= j <= |b| - |c| && OccursAt(b, c, j);
    assert a[i + j..i + j + |c|] == c by {
      forall k | 0 <= k < |c| ensures a[i + j..i + j + |c|][k] == c[k] {
        assert b[j..j + |c|][k] == c[k];
        assert a[i..i + |b|][j + k] == b[j + k];
      }
    }
    assert OccursAt(a, c, i + j);
  }

  /** Lower-casing both sides preserves an occurrence. */
  lemma ContainsLower(a: string, b: string)
    requires Contains(a, b)
    ensures Contains(Lower(a), Lower(b))
  {
    var i :| 0 <= i <= |a| - |b| && OccursAt(a, b, i);
    assert Lower(a)[i..i + |b|] == Lower(b) by {
      forall k | 0 <= k < |b| ensures Lower(a)[i..i + |b|][k] == Lower(b)[k] {
        assert a[i..i + |b|][k] == b[k];
      }
    }
    assert OccursAt(Lower(a), Lower(b), i);
  }

  /** `s` ends with `suffix`. */
  predicate EndsWith(s: string, suffix: string)
  {
    |suffix| <= |s| && s[|s| - |suffix|..] == suffix
  }

  /** Some character of `s` is an ASCII digit (JavaScript's digit class is ASCII-only). */
  predicate HasDigit(s: string) { exists i :: 0 <= i < |s| && IsDigit(s[i]) }
  /** Some character of `s` is an ASCII lower-case letter. */
  predicate HasLower(s: string) { exists i :: 0 <= i < |s| && IsLowerAscii(s[i]) }
  /** Some character of `s` is an ASCII upper-case letter. */
  predicate HasUpper(s: string) { exists i :: 0 <= i < |s| && IsUpperAscii(s[i]) }
}
