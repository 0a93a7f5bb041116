/**
 * The cursor the URI scanner drives: a buffer of characters and a position in
 * it. Only the behaviour the scanner relies on is modelled: skipping to the
 * first character of a set (or to the end), stepping over one character,
 * testing for the end and going back to a saved position.
 */
module ParseBuffers {

  /** No character of `t` is in `stops`. */
  predicate NoneOf(t: seq<char>, stops: set<char>) {
    forall i :: 0 <= i < |t| ==> t[i] !in stops
  }

  /**
   * `k` is where a scan from `from` for a character of `stops` stops: every
   * character in between is outside `stops`, and `k` is either the end of `s`
   * or a character of `stops`.
   */
  predicate StopsAt(s: seq<char>, from: nat, stops: set<char>, k: nat) {
    && from <= k <= |s|
    && NoneOf(s[from..k], stops)
    && (k == |s| || s[k] in stops)
  }

  /** The position of the first character of `stops` at or after `from`, or `|s|`. */
  function IndexOfAny(s: seq<char>, from: nat, stops: set<char>): (k: nat)
    requires from <= |s|
    ensures from <= k <= |s|
    decreases |s| - from
  {
    if from == |s| || s[from] in stops then from else IndexOfAny(s, from + 1, stops)
  }

  /** `IndexOfAny` stops at the first character of `stops`, or at the end. */
  lemma {:induction false} IndexOfAnyStops(s: seq<char>, from: nat, stops: set<char>)
    requires from <= |s|
    ensures StopsAt(s, from, stops, IndexOfAny(s, from, stops))
    decreases |s| - from
  {
    if from < |s| && s[from] !in stops {
      var k := IndexOfAny(s, from + 1, stops);
      IndexOfAnyStops(s, from + 1, stops);
      assert s[from..k] == [s[from]] + s[from + 1..k];
    }
  }

  /** A scan has only one place to stop. */
  lemma StopsAtUnique(s: seq<char>, from: nat, stops: set<char>, k1: nat, k2: nat)
    requires StopsAt(s, from, stops, k1) && StopsAt(s, from, stops, k2)
    ensures k1 == k2
  {
  }

  /** Where a scan stops, `IndexOfAny` returns. */
  lemma IndexOfAnyIs(s: seq<char>, from: nat, stops: set<char>, k: nat)
    requires StopsAt(s, from, stops, k)
    ensures IndexOfAny(s, from, stops) == k
  {
    IndexOfAnyStops(s, from, stops);
    StopsAtUnique(s, from, stops, k, IndexOfAny(s, from, stops));
  }

  /** A scan stops no later than any character of `stops` at or after its start. */
  lemma StopsNoLaterThan(s: seq<char>, from: nat, stops: set<char>, k: nat, j: nat)
    requires StopsAt(s, from, stops, k)
    requires from <= j < |s| && s[j] in stops
    ensures k <= j
  {
  }

  class ParseBuffer {
    const buf: string
    var pos: nat

    ghost predicate Valid()
      reads this
    {
      pos <= |buf|
    }

    constructor (text: string)
      ensures Valid() && buf == text && pos == 0
    {
      buf := text;
      pos := 0;
    }

    /** `eof()`: the cursor has reached the end of the buffer. */
    predicate Eof()
      reads this
    {
      pos == |buf|
    }

    /**
     * `*p == c` for a pointer `p` into the buffer: at the end of the buffer
     * there is no character, so no `c` matches there.
     */
    predicate CharIs(p: nat, c: char)
      reads this
    {
      p < |buf| && buf[p] == c
    }

    /** `skipToChar(c)`: advance to the first `c`, or to the end. */
    method SkipToChar(c: char)
      requires Valid()
      modifies this`pos
      ensures Valid()
      ensures pos == IndexOfAny(buf, old(pos), {c})
    {
      pos := IndexOfAny(buf, pos, {c});
    }

    /** `skipToOneOf(stops)`: advance to the first character of `stops`, or to the end. */
    method SkipToOneOf(stops: set<char>)
      requires Valid()
      modifies this`pos
      ensures Valid()
      ensures pos == IndexOfAny(buf, old(pos), stops)
    {
      pos := IndexOfAny(buf, pos, stops);
    }

    /** `skipChar()`: step over the character under the cursor and return the new position. */
    method SkipChar() returns (p: nat)
      requires Valid() && !Eof()
      modifies this`pos
      ensures Valid()
      ensures pos == old(pos) + 1 && p == pos
    {
      pos := pos + 1;
      p := pos;
    }

    /** `reset(p)`: move the cursor back to a saved position. */
    method Reset(p: nat)
      requires p <= |buf|
      modifies this`pos
      ensures Valid() && pos == p
    {
      pos := p;
    }
  }
}
