/**
 * String length as JavaScript measures it.
 *
 * A JavaScript string is a sequence of UTF-16 code units and `.length`
 * counts code units, so a character outside the Basic Multilingual Plane
 * (a surrogate pair) counts twice. Strings here are `seq<char>`, one
 * Unicode scalar value per element, so a JavaScript string holding an
 * unpaired surrogate has no counterpart.
 */
module JsString {

  /** Code units UTF-16 spends on `c`. */
  function CodeUnits(c: char): nat
  {
    if c as int < 0x1_0000 then 1 else 2
  }

  /** Every character of `s` is a single UTF-16 code unit. */
  predicate InBmp(s: string)
  {
    forall i :: 0 <= i < |s| ==> s[i] as int < 0x1_0000
  }

  /** The value of `s.length` in JavaScript. */
  function Length(s: string): (n: nat)
    ensures |s| <= n <= 2 * |s|
    ensures n == |s| <==> InBmp(s)
  {
    if s == [] then 0
    else
      assert InBmp(s) <==> s[0] as int < 0x1_0000 && InBmp(s[1..]) by {
        if s[0] as int < 0x1_0000 && InBmp(s[1..]) {
          forall i | 0 < i < |s| ensures s[i] as int < 0x1_0000 {
            assert s[i] == s[1..][i - 1];
          }
        }
      }
      CodeUnits(s[0]) + Length(s[1..])
  }

  /** Length is additive over concatenation. */
  lemma {:induction false} LengthConcat(a: string, b: string)
    ensures Length(a + b) == Length(a) + Length(b)
  {
    if a == [] {
      assert a + b == b;
    } else {
      assert (a + b)[0] == a[0];
      assert (a + b)[1..] == a[1..] + b;
      LengthConcat(a[1..], b);
    }
  }
}
