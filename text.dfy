/** The two string operations the catalog search uses: `str.lower()` and `needle in hay`. */
module Text {

  /** Lower-cases one ASCII letter; every other character is left as it is. */
  function LowerChar(c: char): char {
    if 'A' <= c <= 'Z' then (c as int + 32) as char else c
  }

  /** `s.lower()`, restricted to ASCII case folding. */
  function Lower(s: string): (r: string)
    ensures |r| == |s|
    ensures forall i :: 0 <= i < |s| ==> r[i] == LowerChar(s[i])
  {
    seq(|s|, i requires 0 <= i < |s| => LowerChar(s[i]))
  }

  /** Lower-casing a lower-cased string changes nothing. */
  lemma LowerIdempotent(s: string)
    ensures Lower(Lower(s)) == Lower(s)
  {
  }

  /** Lower-casing works character by character, so it distributes over concatenation. */
  lemma LowerConcat(s: string, t: string)
    ensures Lower(s + t) == Lower(s) + Lower(t)
  {
  }

  /** `needle` occurs in `hay` starting at index `i`. */
  ghost predicate OccursAt(needle: string, hay: string, i: int) {
    0 <= i && i + |needle| <= |hay| && hay[i..i + |needle|] == needle
  }

  /** Python's `needle in hay` for strings: some slice of `hay` equals `needle`. */
  function Contains(needle: string, hay: string): (b: bool)
    ensures b <==> exists i :: OccursAt(needle, hay, i)
    decreases |hay|
  {
    if |needle| > |hay| then false
    else if hay[..|needle|] == needle then (assert OccursAt(needle, hay, 0); true)
    else
      ShiftOccurrence(needle, hay);
      Contains(needle, hay[1..])
  }

  /** Past index 0, the occurrences of `needle` in `hay` are those in `hay[1..]`, one further on. */
  lemma ShiftOccurrence(needle: string, hay: string)
    requires |hay| > 0
    ensures forall j :: OccursAt(needle, hay[1..], j) ==> OccursAt(needle, hay, j + 1)
    ensures forall i :: 1 <= i && OccursAt(needle, hay, i) ==> OccursAt(needle, hay[1..], i - 1)
  {
    forall j | OccursAt(needle, hay[1..], j)
      ensures OccursAt(needle, hay, j + 1)
    {
      assert hay[1..][j..j + |needle|] == hay[j + 1..j + 1 + |needle|];
    }
    forall i | 1 <= i && OccursAt(needle, hay, i)
      ensures OccursAt(needle, hay[1..], i - 1)
    {
      assert hay[1..][i - 1..i - 1 + |needle|] == hay[i..i + |needle|];
    }
  }

  /** Wherever `needle + more` occurs, `needle` occurs too. */
  lemma PrefixOccurs(needle: string, more: string, hay: string)
    requires Contains(needle + more, hay)
    ensures Contains(needle, hay)
  {
  }

  /** The empty string occurs in every string, so an empty query matches everything. */
  lemma EmptyOccursEverywhere(hay: string)
    ensures Contains("", hay)
  {
  }
}
