/**
 * The case-insensitive substring test that the current manager runs on the
 * output of `tasklist`: both sides are lower-cased and Python's `in` looks
 * for the needle anywhere in the haystack.
 */
module Text {

  /** Lower-casing of one character, for the ASCII letters. */
  function LowerChar(c: char): char
  {
    if 'A' <= c <= 'Z' then (c as int + 32) as char else c
  }

  /** `str.lower()` on ASCII text. */
  function Lower(s: string): (r: string)
    ensures |r| == |s|
    ensures forall i :: 0 <= i < |s| ==> r[i] == LowerChar(s[i])
  {
    if s == [] then [] else [LowerChar(s[0])] + Lower(s[1..])
  }

  lemma LowerIdempotent(s: string)
    ensures Lower(Lower(s)) == Lower(s)
  {
  }

  /** Lower-casing works character by character, so it distributes over concatenation. */
  lemma LowerConcat(a: string, b: string)
    ensures Lower(a + b) == Lower(a) + Lower(b)
  {
  }

  /** The lower-cased form of `s` is `t` when it is so at every index. */
  lemma LowerMatches(s: string, t: string)
    requires |s| == |t|
    requires forall i :: 0 <= i < |s| ==> LowerChar(s[i]) == t[i]
    ensures Lower(s) == t
  {
  }

  /** `needle` occurs in `hay` starting at index `i`. */
  predicate OccursAt(hay: string, needle: string, i: nat)
  {
    i + |needle| <= |hay| && hay[i..i + |needle|] == needle
  }

  /** Python's `needle in hay` on strings: a prefix test at each position in turn. */
  function Contains(hay: string, needle: string): bool
    decreases |hay|
  {
    if |hay| < |needle| then false
    else hay[..|needle|] == needle || Contains(hay[1..], needle)
  }

  lemma {:induction false} ContainsIffOccurs(hay: string, needle: string)
    ensures Contains(hay, needle) <==> exists i: nat :: OccursAt(hay, needle, i)
    decreases |hay|
  {
    if |hay| < |needle| {
      forall i: nat ensures !OccursAt(hay, needle, i) {
      }
    } else if hay[..|needle|] == needle {
      assert OccursAt(hay, needle, 0);
    } else {
      ContainsIffOccurs(hay[1..], needle);
      if Contains(hay[1..], needle) {
        var i: nat :| OccursAt(hay[1..], needle, i);
        assert hay[1..][i..i + |needle|] == hay[i + 1..i + 1 + |needle|];
        assert OccursAt(hay, needle, i + 1);
      } else {
        forall i: nat | OccursAt(hay, needle, i) ensures false {
          if i > 0 {
            assert hay[1..][i - 1..i - 1 + |needle|] == hay[i..i + |needle|];
            assert OccursAt(hay[1..], needle, i - 1);
          }
        }
      }
    }
  }

  /** In a lower-cased `x + sep + y`, both lower-cased ends occur. */
  lemma ContainsBothEnds(x: string, sep: string, y: string)
    ensures Contains(Lower(x + sep + y), Lower(x))
    ensures Contains(Lower(x + sep + y), Lower(y))
  {
    assert x + sep + y == x + (sep + y);
    LowerConcat(x, sep + y);
    LowerConcat(sep, y);
    var h := Lower(x) + (Lower(sep) + Lower(y));
    assert h[..|x|] == Lower(x);
    var k := |x| + |sep|;
    assert h[k..k + |y|] == Lower(y);
    assert OccursAt(h, Lower(x), 0);
    assert OccursAt(h, Lower(y), k);
    ContainsAt(h, Lower(x), 0);
    ContainsAt(h, Lower(y), k);
  }

  /** An occurrence found at a known index is enough for `in`. */
  lemma ContainsAt(hay: string, needle: string, i: nat)
    requires OccursAt(hay, needle, i)
    ensures Contains(hay, needle)
  {
    ContainsIffOccurs(hay, needle);
  }
}
