/**
 * The word check of Ozon/3.go: `u` whitespace-separated words are read, and
 * for each one a flag starts true and is cleared by any rune that breaks the
 * rule below; the program prints YES when the flag survives, NO otherwise.
 */
module OzonWords {

  /** The check made on the rune at `index`: an interior rune that differs from
      the first one needs equal neighbours; every other rune (the first, the
      last, and interior runes equal to the first) must equal the first. */
  predicate RuneAllowed(runes: seq<char>, index: int)
    requires 0 <= index < |runes|
  {
    if index != |runes| - 1 && index != 0 && runes[index] != runes[0] then
      runes[index - 1] == runes[index + 1]
    else
      runes[index] == runes[0]
  }

  /** A word passes when no rune clears the flag. */
  predicate Accepted(runes: seq<char>)
  {
    forall index :: 0 <= index < |runes| ==> RuneAllowed(runes, index)
  }

  /** The inner loop over the runes of one word. */
  method CheckWord(runes: seq<char>) returns (flag: bool)
    requires |runes| > 0
    ensures flag <==> Accepted(runes)
  {
    flag := true;
    var etalon := runes[0];
    for index := 0 to |runes|
      invariant flag <==> forall j :: 0 <= j < index ==> RuneAllowed(runes, j)
    {
      if index != |runes| - 1 && index != 0 && runes[index] != etalon {
        if runes[index - 1] != runes[index + 1] {
          flag := false;
        }
      } else {
        if runes[index] != runes[0] {
          flag := false;
        }
      }
      assert flag <==> (forall j :: 0 <= j < index ==> RuneAllowed(runes, j)) && RuneAllowed(runes, index);
    }
  }

  /** The outer loop of main: one answer line per word, in order. */
  method Answers(u: nat, words: seq<seq<char>>) returns (out: seq<string>)
    requires |words| == u
    requires forall i :: 0 <= i < |words| ==> |words[i]| > 0
    ensures |out| == u
    ensures forall i :: 0 <= i < u ==> out[i] == (if Accepted(words[i]) then "YES" else "NO")
  {
    out := [];
    for i := 0 to u
      invariant |out| == i
      invariant forall j :: 0 <= j < i ==> out[j] == (if Accepted(words[j]) then "YES" else "NO")
    {
      var flag := CheckWord(words[i]);
      if flag {
        out := out + ["YES"];
      } else {
        out := out + ["NO"];
      }
    }
  }

  /** The rule read as three conditions: the last rune equals the first, every
      interior rune that differs from the first sits between equal neighbours,
      and interior runes equal to the first are unconstrained. */
  lemma {:induction false} AcceptedIff(runes: seq<char>)
    requires |runes| > 0
    ensures Accepted(runes) <==>
      runes[|runes| - 1] == runes[0] &&
      forall i :: 0 < i < |runes| - 1 && runes[i] != runes[0] ==> runes[i - 1] == runes[i + 1]
  {
    if Accepted(runes) {
      assert RuneAllowed(runes, |runes| - 1);
      forall i | 0 < i < |runes| - 1 && runes[i] != runes[0]
        ensures runes[i - 1] == runes[i + 1]
      {
        assert RuneAllowed(runes, i);
      }
    }
  }

  /** A one-rune word is always accepted, and a word whose last rune differs
      from its first never is. */
  lemma OneRuneAndLastRune(runes: seq<char>)
    requires |runes| > 0
    ensures |runes| == 1 ==> Accepted(runes)
    ensures runes[|runes| - 1] != runes[0] ==> !Accepted(runes)
  {
    if runes[|runes| - 1] != runes[0] {
      assert !RuneAllowed(runes, |runes| - 1);
    }
  }
}
