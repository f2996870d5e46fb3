/**
 * `ComputeMatchScore` of Assets/Scripts/AttributeDetector.cs: a keyword scorer from a
 * mission text and a (jacket, helmet) pair to a confidence in [0, 1]. The constants
 * 0.3, 0.7 and 0.4 are kept as reals; the query is lower-cased first and every test
 * is an ordinal substring test.
 */
module MatchScore {
  import opened Wrappers
  import opened Text
  import opened PersonDescriptors

  /** `Mathf.Clamp01`. */
  function Clamp01(s: real): (r: real)
    ensures 0.0 <= r <= 1.0
    ensures 0.0 <= s <= 1.0 ==> r == s
    ensures s > 1.0 ==> r == 1.0
  {
    if s < 0.0 then 0.0 else if s > 1.0 then 1.0 else s
  }

  predicate Either(q: string, a: string, b: string)
  {
    Contains(q, a) || Contains(q, b)
  }

  /** The +0.3 for asking for a person at all. */
  function BaseTerm(q: string): real
  {
    if Contains(q, "person") || Contains(q, "persona") || Contains(q, "humano") then 0.3 else 0.0
  }

  predicate WantsHelmet(q: string)
  {
    Contains(q, "helmet") || Contains(q, "casco")
  }

  predicate MentionsJacket(q: string)
  {
    Contains(q, "jacket") || Contains(q, "chaqueta") || Contains(q, "chamarra") || Contains(q, "chaleco")
  }

  /** The jacket colour the else-if chain settles on. */
  function RequestedJacket(q: string): Option<JacketColor>
  {
    if Either(q, "orange", "naranja") then Some(JacketColor.Orange)
    else if Either(q, "red", "rojo") then Some(Red)
    else if Either(q, "blue", "azul") then Some(Blue)
    else if Either(q, "green", "verde") then Some(Green)
    else if Either(q, "yellow", "amarill") then Some(JacketColor.Yellow)
    else if Either(q, "black", "negro") then Some(Black)
    else Option.None
  }

  /** The jacket part: 0.7 when the chosen colour is the person's, skipped for helmet-only queries. */
  function JacketTerm(q: string, j: JacketColor): real
  {
    if !WantsHelmet(q) || MentionsJacket(q) then
      if RequestedJacket(q) == Some(j) then 0.7 else 0.0
    else 0.0
  }

  /** The helmet part, branch for branch as the source's chain. */
  function HelmetTerm(q: string, h: HelmetColor): real
  {
    if WantsHelmet(q) then
      if Either(q, "yellow", "amarill") && h == HelmetColor.Yellow then 0.4
      else if Either(q, "white", "blanco") && h == White then 0.4
      else if Either(q, "orange", "naranja") && h == HelmetColor.Orange then 0.4
      else if !Contains(q, "yellow") && !Contains(q, "white") && !Contains(q, "orange") && h != HelmetColor.None then 0.3
      else 0.0
    else if Contains(q, "no helmet") || Contains(q, "sin casco") then
      if h == HelmetColor.None then 0.4 else 0.0
    else 0.0
  }

  /** `ComputeMatchScore(pd, query)`: the clamped sum of the three parts over the lower-cased query. */
  function ComputeMatchScore(query: string, j: JacketColor, h: HelmetColor): (s: real)
    ensures 0.0 <= s <= 1.0
  {
    var q := Lower(query);
    Clamp01(BaseTerm(q) + JacketTerm(q, j) + HelmetTerm(q, h))
  }

  // ---------- what the score depends on ----------

  /** The score sees the query only through its lower-cased form. */
  lemma ScoreIgnoresCase(query: string, j: JacketColor, h: HelmetColor)
    ensures ComputeMatchScore(Lower(query), j, h) == ComputeMatchScore(query, j, h)
  {
    LowerIdempotent(query);
  }

  /** The base term is earned iff "person" or "humano" occurs: "persona" adds nothing of its own. */
  lemma BaseTermIff(q: string)
    ensures BaseTerm(q) == (if Contains(q, "person") || Contains(q, "humano") then 0.3 else 0.0)
  {
    if Contains(q, "persona") {
      assert Contains("persona", "person") by { assert StartsWith("persona", "person"); }
      ContainsTransitive(q, "persona", "person");
    }
  }

  // ---------- the jacket part ----------

  /** The words that name each jacket colour in the chain. */
  predicate NamesJacket(q: string, c: JacketColor)
  {
    match c
    case Orange => Either(q, "orange", "naranja")
    case Red => Either(q, "red", "rojo")
    case Blue => Either(q, "blue", "azul")
    case Green => Either(q, "green", "verde")
    case Yellow => Either(q, "yellow", "amarill")
    case Black => Either(q, "black", "negro")
  }

  /** Position of a colour in the chain (and in the enum). */
  function JacketRank(c: JacketColor): nat
  {
    match c
    case Orange => 0
    case Red => 1
    case Blue => 2
    case Green => 3
    case Yellow => 4
    case Black => 5
  }

  /** The chain picks the first colour named, in the order orange, red, blue, green, yellow, black. */
  lemma RequestedJacketIsFirstNamed(q: string, c: JacketColor)
    ensures RequestedJacket(q) == Some(c) <==>
      NamesJacket(q, c) && forall d :: JacketRank(d) < JacketRank(c) ==> !NamesJacket(q, d)
  {
    if RequestedJacket(q) == Some(c) {
      forall d | JacketRank(d) < JacketRank(c) ensures !NamesJacket(q, d) {
        match d {
          case Orange => case Red => case Blue => case Green => case Yellow => case Black =>
        }
      }
    }
    if NamesJacket(q, c) && forall d :: JacketRank(d) < JacketRank(c) ==> !NamesJacket(q, d) {
      assert !NamesJacket(q, JacketColor.Orange) || c == JacketColor.Orange;
      assert !NamesJacket(q, Red) || JacketRank(c) <= 1;
      assert !NamesJacket(q, Blue) || JacketRank(c) <= 2;
      assert !NamesJacket(q, Green) || JacketRank(c) <= 3;
      assert !NamesJacket(q, JacketColor.Yellow) || JacketRank(c) <= 4;
    }
  }

  /** The jacket part is 0.7 for exactly the chosen colour and 0 otherwise; a helmet-only query gets 0. */
  lemma JacketTermSpec(q: string, j: JacketColor)
    ensures JacketTerm(q, j) == 0.7 || JacketTerm(q, j) == 0.0
    ensures JacketTerm(q, j) == 0.7 <==> (!WantsHelmet(q) || MentionsJacket(q)) && RequestedJacket(q) == Some(j)
    ensures WantsHelmet(q) && !MentionsJacket(q) ==> JacketTerm(q, j) == 0.0
    ensures JacketTerm(q, j) == 0.7 ==> forall k :: k != j ==> JacketTerm(q, k) == 0.0
  {
  }

  // ---------- the helmet part ----------

  /** The query names the person's own helmet colour. */
  predicate NamesHelmet(q: string, h: HelmetColor)
  {
    match h
    case Yellow => Either(q, "yellow", "amarill")
    case White => Either(q, "white", "blanco")
    case Orange => Either(q, "orange", "naranja")
    case None => false
  }

  /** 0.4 for an exact colour; 0.3 for any helmet when no English helmet colour word occurs; else 0. */
  lemma HelmetTermSpec(q: string, h: HelmetColor)
    ensures HelmetTerm(q, h) == 0.4 <==> WantsHelmet(q) && NamesHelmet(q, h)
    ensures HelmetTerm(q, h) == 0.3 <==>
      WantsHelmet(q) && !NamesHelmet(q, h) && h != HelmetColor.None
      && !Contains(q, "yellow") && !Contains(q, "white") && !Contains(q, "orange")
    ensures HelmetTerm(q, h) == 0.4 || HelmetTerm(q, h) == 0.3 || HelmetTerm(q, h) == 0.0
  {
    NoHelmetBonusUnreachable(q);
  }

  /** The "no helmet" / "sin casco" bonus never fires: both phrases contain "helmet" / "casco",
   *  which selects the other branch, so a person without a helmet never earns helmet credit. */
  lemma NoHelmetBonusUnreachable(q: string)
    ensures HelmetTerm(q, HelmetColor.None) == 0.0
  {
    if Contains(q, "no helmet") {
      assert Contains("no helmet", "helmet") by {
        assert StartsWith("no helmet"[3..], "helmet");
      }
      ContainsTransitive(q, "no helmet", "helmet");
    }
    if Contains(q, "sin casco") {
      assert Contains("sin casco", "casco") by {
        assert StartsWith("sin casco"[4..], "casco");
      }
      ContainsTransitive(q, "sin casco", "casco");
    }
  }

  /** A query asking for "no helmet" (without helmet colour words) rewards the helmeted instead. */
  lemma NoHelmetQueryRewardsHelmets(q: string, h: HelmetColor)
    requires Contains(q, "no helmet")
    requires !Contains(q, "yellow") && !Contains(q, "white") && !Contains(q, "orange")
    requires h != HelmetColor.None
    ensures HelmetTerm(q, h) >= 0.3
  {
    assert Contains("no helmet", "helmet") by {
      assert StartsWith("no helmet"[3..], "helmet");
    }
    ContainsTransitive(q, "no helmet", "helmet");
  }

  /** A query without an 'm' and with at most one 'c' contains neither "helmet" nor "casco". */
  lemma HelmetWordsNeedLetters(q: string)
    requires forall k :: 0 <= k < |q| ==> q[k] != 'm'
    requires forall k, l :: 0 <= k < l < |q| && q[k] == 'c' ==> q[l] != 'c'
    ensures !Contains(q, "helmet") && !Contains(q, "casco")
  {
    ContainsIff(q, "helmet");
    ContainsIff(q, "casco");
    forall i | 0 <= i
      ensures !OccursAt(q, "helmet", i) && !OccursAt(q, "casco", i)
    {
      if i + 6 <= |q| {
        assert q[i + 3] != "helmet"[3];
      }
      if i + 5 <= |q| {
        assert q[i] != 'c' || q[i + 3] != 'c';
        assert q[i] != "casco"[0] || q[i + 3] != "casco"[3];
      }
    }
  }

  /** A query with neither "helmet" nor "casco" gives no helmet credit to anyone. */
  lemma NoHelmetWordNoHelmetTerm(q: string, h: HelmetColor)
    requires !Contains(q, "helmet") && !Contains(q, "casco")
    ensures HelmetTerm(q, h) == 0.0
  {
    if Contains(q, "no helmet") {
      assert Contains("no helmet", "helmet") by {
        assert StartsWith("no helmet"[3..], "helmet");
      }
      ContainsTransitive(q, "no helmet", "helmet");
    }
    if Contains(q, "sin casco") {
      assert Contains("sin casco", "casco") by {
        assert StartsWith("sin casco"[4..], "casco");
      }
      ContainsTransitive(q, "sin casco", "casco");
    }
  }

  // ---------- whole scores ----------

  /** A query already in lower case is scored as it stands. */
  lemma ScoreParts(q: string, j: JacketColor, h: HelmetColor)
    requires Lower(q) == q
    ensures ComputeMatchScore(q, j, h) == Clamp01(BaseTerm(q) + JacketTerm(q, j) + HelmetTerm(q, h))
  {
  }

  /** The empty (normalised null) query matches nobody. */
  lemma EmptyQueryScoresZero(j: JacketColor, h: HelmetColor)
    ensures ComputeMatchScore("", j, h) == 0.0
  {
    assert Lower("") == "";
  }
}

/** A worked example of the scorer on a concrete query. */
module MatchScoreExamples {
  import opened Text
  import opened PersonDescriptors
  import opened MatchScore

  /** The words that would have to occur, refuted by a character the text lacks. */
  lemma Absent(s: string, w: string, c: char)
    requires c in w && c !in s
    ensures !Contains(s, w)
  {
    if Contains(s, w) {
      ContainsChars(s, w, c);
    }
  }

  lemma NoJacketWord(q: string)
    requires 'c' !in q && 'j' !in q
    ensures !MentionsJacket(q)
  {
    Absent(q, "jacket", 'j');
    Absent(q, "chaqueta", 'c');
    Absent(q, "chamarra", 'c');
    Absent(q, "chaleco", 'c');
  }

  lemma NoColourWord(q: string)
    requires 'a' !in q && 'b' !in q && 'w' !in q && 'y' !in q
    ensures !Either(q, "yellow", "amarill") && !Either(q, "white", "blanco") && !Either(q, "orange", "naranja")
  {
    Absent(q, "yellow", 'y');
    Absent(q, "amarill", 'a');
    Absent(q, "white", 'w');
    Absent(q, "blanco", 'b');
    Absent(q, "orange", 'a');
    Absent(q, "naranja", 'a');
  }

  lemma HelmetOnlySums(q: string, j: JacketColor)
    requires Contains(q, "person") && Contains(q, "helmet") && !MentionsJacket(q)
    requires !Either(q, "yellow", "amarill") && !Either(q, "white", "blanco") && !Either(q, "orange", "naranja")
    ensures BaseTerm(q) + JacketTerm(q, j) + HelmetTerm(q, HelmetColor.Yellow) == 0.6
    ensures BaseTerm(q) + JacketTerm(q, j) + HelmetTerm(q, HelmetColor.None) == 0.3
  {
    NoHelmetBonusUnreachable(q);
  }

  /** Any lower-case query with "person" and "helmet" but none of the letters a, b, c, j, w, y
   *  (so no jacket word and no colour word) scores 0.3 without a helmet and 0.6 with a yellow one. */
  lemma HelmetOnlyQueryScores(q: string, j: JacketColor)
    requires Lower(q) == q
    requires Contains(q, "person") && Contains(q, "helmet")
    requires 'a' !in q && 'b' !in q && 'c' !in q && 'j' !in q && 'w' !in q && 'y' !in q
    ensures ComputeMatchScore(q, j, HelmetColor.None) == 0.3
    ensures ComputeMatchScore(q, j, HelmetColor.Yellow) == 0.6
  {
    NoJacketWord(q);
    NoColourWord(q);
    HelmetOnlySums(q, j);
    ScoreParts(q, j, HelmetColor.None);
    ScoreParts(q, j, HelmetColor.Yellow);
  }

  lemma NoHelmetQueryIsLower(q: string)
    requires q == "person, no helmet"
    ensures Lower(q) == q
  {
    assert forall i :: 0 <= i < |q| ==> 'a' <= q[i] <= 'z' || q[i] == ' ' || q[i] == ',';
  }

  lemma NoHelmetQueryWords(q: string)
    requires q == "person, no helmet"
    ensures Contains(q, "person") && Contains(q, "helmet")
  {
    assert StartsWith(q, "person");
    assert q[11..17] == "helmet";
    assert OccursAt(q, "helmet", 11);
    ContainsIff(q, "helmet");
  }

  lemma NoHelmetQueryLetters(q: string)
    requires q == "person, no helmet"
    ensures 'a' !in q && 'b' !in q && 'c' !in q && 'j' !in q && 'w' !in q && 'y' !in q
  {
  }

  /** "person, no helmet" scores 0.3 for a person without a helmet and 0.6 for one with a
   *  yellow helmet: the opposite of what the phrase asks for. */
  lemma NoHelmetQueryExample(q: string, j: JacketColor)
    requires q == "person, no helmet"
    ensures ComputeMatchScore(q, j, HelmetColor.None) == 0.3
    ensures ComputeMatchScore(q, j, HelmetColor.Yellow) == 0.6
  {
    NoHelmetQueryIsLower(q);
    NoHelmetQueryWords(q);
    NoHelmetQueryLetters(q);
    HelmetOnlyQueryScores(q, j);
  }

  // ---------- the scene's default query ----------
  // Character and word facts are proved about three pieces of the text and then joined,
  // which keeps each proof small.

  lemma DefaultQuerySplit(q: string)
    requires q == "person with orange jacket and yellow hard hat"
    ensures q == "person with orange " + "jacket and " + "yellow hard hat"
  {
  }

  lemma DefaultQueryHeadChars(a: string)
    requires a == "person with orange "
    ensures LowerCaseText(a) && forall k :: 0 <= k < |a| ==> a[k] != 'm' && a[k] != 'c'
  {
  }

  lemma DefaultQueryMiddleChars(b: string)
    requires b == "jacket and "
    ensures LowerCaseText(b) && forall k :: 0 <= k < |b| ==> b[k] != 'm' && (b[k] == 'c' ==> k == 2)
  {
  }

  lemma DefaultQueryTailChars(c: string)
    requires c == "yellow hard hat"
    ensures LowerCaseText(c) && forall k :: 0 <= k < |c| ==> c[k] != 'm' && c[k] != 'c'
  {
  }

  /** The default query is lower-case, has no 'm' and a single 'c', at index 21. */
  lemma DefaultQueryChars(q: string)
    requires q == "person with orange jacket and yellow hard hat"
    ensures LowerCaseText(q)
    ensures forall k :: 0 <= k < |q| ==> q[k] != 'm' && (q[k] == 'c' ==> k == 21)
    ensures forall k, l :: 0 <= k < l < |q| && q[k] == 'c' ==> q[l] != 'c'
  {
    var a, b, c := "person with orange ", "jacket and ", "yellow hard hat";
    DefaultQuerySplit(q);
    DefaultQueryHeadChars(a);
    DefaultQueryMiddleChars(b);
    DefaultQueryTailChars(c);
    forall k | 0 <= k < |q|
      ensures 'a' <= q[k] <= 'z' || q[k] == ' '
      ensures q[k] != 'm' && (q[k] == 'c' ==> k == 21)
    {
      if k < |a| {
        assert q[k] == a[k];
      } else if k < |a| + |b| {
        assert q[k] == b[k - |a|];
      } else {
        assert q[k] == c[k - |a| - |b|];
      }
    }
  }

  lemma DefaultQueryHeadWords(a: string)
    requires a == "person with orange "
    ensures Contains(a, "person") && Contains(a, "orange")
  {
    assert StartsWith(a, "person");
    assert OccursAt(a, "orange", 12);
    ContainsIff(a, "orange");
  }

  /** It asks for a person in an orange jacket. */
  lemma DefaultQueryWords(q: string)
    requires q == "person with orange jacket and yellow hard hat"
    ensures Contains(q, "person") && Contains(q, "jacket") && Contains(q, "orange")
  {
    var a, b, c := "person with orange ", "jacket and ", "yellow hard hat";
    DefaultQuerySplit(q);
    DefaultQueryHeadWords(a);
    assert StartsWith(b, "jacket");
    ContainsAppend(a, b, "person");
    ContainsAppend(a + b, c, "person");
    ContainsAppend(a, b, "orange");
    ContainsAppend(a + b, c, "orange");
    ContainsAppend(a, b, "jacket");
    ContainsAppend(a + b, c, "jacket");
  }

  /** "hard hat" is neither "helmet" (the text has no 'm') nor "casco" (which needs two 'c's). */
  lemma DefaultQueryNoHelmetWord(q: string)
    requires q == "person with orange jacket and yellow hard hat"
    ensures !Contains(q, "helmet") && !Contains(q, "casco")
  {
    DefaultQueryChars(q);
    HelmetWordsNeedLetters(q);
  }

  /** The scene's own default query names no helmet word, so the helmet part never runs and
   *  the yellow hard hat it asks for earns nothing: an orange jacket scores 1.0 and anyone
   *  else 0.3, whatever their helmet. */
  lemma DefaultQueryIgnoresHelmet(q: string, j: JacketColor, h: HelmetColor)
    requires q == "person with orange jacket and yellow hard hat"
    ensures ComputeMatchScore(q, j, h) == if j == JacketColor.Orange then 1.0 else 0.3
  {
    DefaultQueryChars(q);
    LowerCaseFixed(q);
    DefaultQueryWords(q);
    DefaultQueryNoHelmetWord(q);
    NoHelmetWordNoHelmetTerm(q, h);
    ScoreParts(q, j, h);
  }
}
