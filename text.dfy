/**
 * The string operations the scripts rely on, over `seq<char>`: ASCII lower-casing
 * (for `ToLowerInvariant`), ordinal substring search (for `Contains`), an ordinal
 * lexicographic order (for LINQ's `ThenBy` on keys), decimal formatting of counts
 * and `string.Join` with its inverse.
 */
module Text {

  // ---------- lower-casing ----------

  function LowerChar(c: char): char
  {
    if 'A' <= c <= 'Z' then (c as int + 32) as char else c
  }

  /** ASCII lower-casing, character by character. */
  function Lower(s: string): (r: string)
    ensures |r| == |s|
    ensures forall i :: 0 <= i < |s| ==> r[i] == LowerChar(s[i])
  {
    if s == [] then [] else [LowerChar(s[0])] + Lower(s[1..])
  }

  /** Text made of lower-case letters and spaces only. */
  predicate LowerCaseText(s: string)
  {
    forall i :: 0 <= i < |s| ==> 'a' <= s[i] <= 'z' || s[i] == ' '
  }

  /** Lower-casing leaves such a text as it is. */
  lemma LowerCaseFixed(s: string)
    requires LowerCaseText(s)
    ensures Lower(s) == s
  {
  }

  /** Lower-casing twice is lower-casing once. */
  lemma LowerIdempotent(s: string)
    ensures Lower(Lower(s)) == Lower(s)
  {
    var l := Lower(s);
    assert forall i :: 0 <= i < |l| ==> LowerChar(l[i]) == l[i];
  }

  // ---------- substring search ----------

  predicate StartsWith(s: string, w: string)
  {
    |w| <= |s| && s[..|w|] == w
  }

  /** Ordinal `s.Contains(w)`. */
  predicate Contains(s: string, w: string)
    decreases |s|
  {
    StartsWith(s, w) || (|s| > 0 && Contains(s[1..], w))
  }

  predicate OccursAt(s: string, w: string, i: int)
  {
    0 <= i && i + |w| <= |s| && s[i..i + |w|] == w
  }

  /** `Contains` means an occurrence at some index. */
  lemma {:induction false} ContainsIff(s: string, w: string)
    ensures Contains(s, w) <==> exists i :: OccursAt(s, w, i)
    decreases |s|
  {
    assert OccursAt(s, w, 0) <==> StartsWith(s, w);
    if |s| > 0 {
      ContainsIff(s[1..], w);
      forall i | 0 < i
        ensures OccursAt(s, w, i) <==> OccursAt(s[1..], w, i - 1)
      {
        if i + |w| <= |s| {
          assert s[1..][i - 1..i - 1 + |w|] == s[i..i + |w|];
        }
      }
      if Contains(s, w) && !StartsWith(s, w) {
        var i :| OccursAt(s[1..], w, i);
        assert OccursAt(s, w, i + 1);
      }
      if exists i :: OccursAt(s, w, i) {
        var i :| OccursAt(s, w, i);
        if i > 0 {
          assert OccursAt(s[1..], w, i - 1);
        }
      }
    }
  }

  /** A query containing a word contains every word inside that word ("persona" has "person"). */
  lemma ContainsTransitive(s: string, w: string, v: string)
    requires Contains(s, w) && Contains(w, v)
    ensures Contains(s, v)
  {
    ContainsIff(s, w);
    ContainsIff(w, v);
    var i :| OccursAt(s, w, i);
    var j :| OccursAt(w, v, j);
    forall k | 0 <= k < |v|
      ensures s[i + j + k] == v[k]
    {
      assert s[i + (j + k)] == w[j + k];
    }
    assert s[i + j..i + j + |v|] == v;
    assert OccursAt(s, v, i + j);
    ContainsIff(s, v);
  }

  /** Every character of a contained word occurs in the text; used to refute containment. */
  lemma ContainsChars(s: string, w: string, c: char)
    requires Contains(s, w) && c in w
    ensures c in s
  {
    ContainsIff(s, w);
    var i :| OccursAt(s, w, i);
    var k :| 0 <= k < |w| && w[k] == c;
    assert s[i + k] == w[k];
  }

  /** A word in either part of a text is in the whole. */
  lemma ContainsAppend(a: string, b: string, w: string)
    requires Contains(a, w) || Contains(b, w)
    ensures Contains(a + b, w)
  {
    ContainsIff(a, w);
    ContainsIff(b, w);
    ContainsIff(a + b, w);
    if Contains(a, w) {
      var i :| OccursAt(a, w, i);
      assert (a + b)[i..i + |w|] == a[i..i + |w|];
      assert OccursAt(a + b, w, i);
    } else {
      var i :| OccursAt(b, w, i);
      assert (a + b)[|a| + i..|a| + i + |w|] == b[i..i + |w|];
      assert OccursAt(a + b, w, |a| + i);
    }
  }

  /** The empty string contains no non-empty word. */
  lemma EmptyContainsNothing(w: string)
    requires w != []
    ensures !Contains([], w)
  {
  }

  // ---------- ordinal order ----------

  /** Ordinal lexicographic `a <= b`. */
  predicate LexLe(a: string, b: string)
    decreases |a|
  {
    a == [] || (b != [] && (a[0] < b[0] || (a[0] == b[0] && LexLe(a[1..], b[1..]))))
  }

  lemma {:induction false} LexLeTotal(a: string, b: string)
    ensures LexLe(a, b) || LexLe(b, a)
    decreases |a|
  {
    if a != [] && b != [] && a[0] == b[0] {
      LexLeTotal(a[1..], b[1..]);
    }
  }

  lemma {:induction false} LexLeAntisymmetric(a: string, b: string)
    requires LexLe(a, b) && LexLe(b, a)
    ensures a == b
    decreases |a|
  {
    if a != [] {
      LexLeAntisymmetric(a[1..], b[1..]);
      assert a == [a[0]] + a[1..] && b == [b[0]] + b[1..];
    }
  }

  lemma {:induction false} LexLeTransitive(a: string, b: string, c: string)
    requires LexLe(a, b) && LexLe(b, c)
    ensures LexLe(a, c)
    decreases |a|
  {
    if a != [] && a[0] == b[0] && b[0] == c[0] {
      LexLeTransitive(a[1..], b[1..], c[1..]);
    }
  }

  // ---------- numbers ----------

  predicate IsDigit(c: char) { '0' <= c <= '9' }

  /** Decimal rendering of a count, as string interpolation of an `int` prints it. */
  function NatToString(n: nat): (r: string)
    ensures |r| >= 1
    ensures forall i :: 0 <= i < |r| ==> IsDigit(r[i])
  {
    if n < 10 then [('0' as int + n) as char]
    else NatToString(n / 10) + [('0' as int + n % 10) as char]
  }

  /** Reads a string of decimal digits back as a number. */
  function DigitsValue(s: string): nat
  {
    if s == [] then 0
    else DigitsValue(s[..|s| - 1]) * 10 + (if IsDigit(s[|s| - 1]) then s[|s| - 1] as int - '0' as int else 0)
  }

  /** Decimal rendering is inverted by reading the digits back. */
  lemma {:induction false} NatToStringRoundTrip(n: nat)
    ensures DigitsValue(NatToString(n)) == n
  {
    if n >= 10 {
      NatToStringRoundTrip(n / 10);
      var r := NatToString(n);
      assert r[..|r| - 1] == NatToString(n / 10);
    }
  }

  // ---------- join and split ----------

  /** `string.Join(sep, lines)`: separators only between lines. */
  function Join(lines: seq<string>, sep: string): string
  {
    if |lines| == 0 then ""
    else if |lines| == 1 then lines[0]
    else lines[0] + sep + Join(lines[1..], sep)
  }

  /** Index of the first `c` in `s`, or `|s|` when there is none. */
  function IndexOf(s: string, c: char): (i: nat)
    ensures i <= |s|
    ensures i < |s| ==> s[i] == c
    ensures forall k :: 0 <= k < i ==> s[k] != c
  {
    if s == [] then 0 else if s[0] == c then 0 else 1 + IndexOf(s[1..], c)
  }

  /** Cuts a text at every `c`. */
  function Split(s: string, c: char): seq<string>
    decreases |s|
  {
    var i := IndexOf(s, c);
    if i == |s| then [s] else [s[..i]] + Split(s[i + 1..], c)
  }

  /** The first `c` after a prefix free of `c` is the one that ends the prefix. */
  lemma IndexOfPrefix(a: string, c: char, t: string)
    requires c !in a
    ensures IndexOf(a + [c] + t, c) == |a|
  {
    var s := a + [c] + t;
    assert forall k :: 0 <= k < |a| ==> s[k] == a[k];
    assert s[|a|] == c;
  }

  /** Joining lines that hold no separator and splitting again gives the lines back. */
  lemma {:induction false} SplitJoin(lines: seq<string>, c: char)
    requires |lines| >= 1
    requires forall k :: 0 <= k < |lines| ==> c !in lines[k]
    ensures Split(Join(lines, [c]), c) == lines
  {
    if |lines| == 1 {
      assert IndexOf(lines[0], c) == |lines[0]|;
    } else {
      var rest := Join(lines[1..], [c]);
      var s := lines[0] + [c] + rest;
      assert s == Join(lines, [c]);
      IndexOfPrefix(lines[0], c, rest);
      assert s[..|lines[0]|] == lines[0];
      assert s[|lines[0]| + 1..] == rest;
      assert Split(s, c) == [lines[0]] + Split(rest, c);
      SplitJoin(lines[1..], c);
      assert lines == [lines[0]] + lines[1..];
    }
  }
}
