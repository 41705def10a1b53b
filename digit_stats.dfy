/**
 * The sequential parts of concurrency/context/context2.go: `countDigits`
 * counts the digit runes of a word, and `fillStats` folds a stream of
 * (word, count) pairs into a map in which a later pair overwrites an earlier
 * one for the same word. A string is its sequence of runes.
 */
module DigitStats {

  /** unicode.IsDigit, restricted to the ASCII digits. */
  predicate IsDigit(c: char)
  {
    '0' <= c <= '9'
  }

  /** The number of digit runes in s, counted from the front as the loop does. */
  function DigitCount(s: string): nat
  {
    if s == [] then 0
    else DigitCount(s[..|s| - 1]) + (if IsDigit(s[|s| - 1]) then 1 else 0)
  }

  /** countDigits: the loop over the runes of str. */
  method CountDigits(str: string) returns (count: int)
    ensures count == DigitCount(str)
  {
    count := 0;
    for i := 0 to |str|
      invariant count == DigitCount(str[..i])
    {
      assert str[..i + 1][..i] == str[..i];
      if IsDigit(str[i]) {
        count := count + 1;
      }
    }
    assert str[..|str|] == str;
  }

  /** The count is additive over concatenation. */
  lemma {:induction false} DigitCountAppend(s: string, t: string)
    ensures DigitCount(s + t) == DigitCount(s) + DigitCount(t)
  {
    if t != [] {
      var u := t[..|t| - 1];
      assert (s + t)[..|s + t| - 1] == s + u;
      DigitCountAppend(s, u);
    } else {
      assert s + t == s;
    }
  }

  /** The count never exceeds the number of runes, reaches it exactly when every
      rune is a digit, and is 0 exactly when no rune is. */
  lemma {:induction false} DigitCountBounds(s: string)
    ensures DigitCount(s) <= |s|
    ensures DigitCount(s) == |s| <==> forall i :: 0 <= i < |s| ==> IsDigit(s[i])
    ensures DigitCount(s) == 0 <==> forall i :: 0 <= i < |s| ==> !IsDigit(s[i])
  {
    if s != [] {
      var p := s[..|s| - 1];
      DigitCountBounds(p);
      assert forall i :: 0 <= i < |p| ==> p[i] == s[i];
    }
  }

  /** main's words, as strings.Fields splits "0ne 1wo thr33 4068". */
  lemma ExampleCounts()
    ensures DigitCount("0ne") == 1
    ensures DigitCount("1wo") == 1
    ensures DigitCount("thr33") == 2
    ensures DigitCount("4068") == 4
  {
    assert "0ne" == "0" + "ne" && "1wo" == "1" + "wo";
    DigitCountAppend("0", "ne");
    DigitCountAppend("1", "wo");
    DigitCountBounds("ne");
    DigitCountBounds("wo");
    assert "thr33" == "thr" + "33";
    DigitCountAppend("thr", "33");
    DigitCountBounds("thr");
    DigitCountBounds("33");
    DigitCountBounds("4068");
  }

  /** A word and the number of digits in it. */
  datatype Pair = Pair(word: string, count: int)

  /** The words the pairs carry, collected from the front. */
  function Words(pairs: seq<Pair>): set<string>
  {
    if pairs == [] then {} else Words(pairs[..|pairs| - 1]) + {pairs[|pairs| - 1].word}
  }

  /** A word is collected exactly when some pair carries it. */
  lemma {:induction false} WordsMembership(pairs: seq<Pair>, w: string)
    ensures w in Words(pairs) <==> exists i :: 0 <= i < |pairs| && pairs[i].word == w
  {
    if pairs != [] {
      var front := pairs[..|pairs| - 1];
      WordsMembership(front, w);
      if w in Words(front) {
        var i :| 0 <= i < |front| && front[i].word == w;
        assert pairs[i].word == w;
      }
      if exists i :: 0 <= i < |pairs| && pairs[i].word == w {
        var i :| 0 <= i < |pairs| && pairs[i].word == w;
        if i < |front| {
          assert front[i].word == w;
        }
      }
    }
  }

  /** Pair i is the last of the first k pairs that carries its word. */
  predicate LastBefore(pairs: seq<Pair>, k: int, i: int)
    requires 0 <= k <= |pairs|
  {
    0 <= i < k && forall j :: i < j < k ==> pairs[j].word != pairs[i].word
  }

  /** fillStats, with the channel read as the finite sequence of pairs it delivers. */
  method FillStats(pairs: seq<Pair>) returns (stats: map<string, int>)
    ensures stats.Keys == Words(pairs)
    ensures forall i :: LastBefore(pairs, |pairs|, i) ==>
      pairs[i].word in stats && stats[pairs[i].word] == pairs[i].count
  {
    stats := map[];
    for k := 0 to |pairs|
      invariant stats.Keys == Words(pairs[..k])
      invariant forall i :: LastBefore(pairs, k, i) ==>
        pairs[i].word in stats && stats[pairs[i].word] == pairs[i].count
    {
      var p := pairs[k];
      forall i | LastBefore(pairs, k + 1, i) && i < k
        ensures LastBefore(pairs, k, i) && pairs[i].word != p.word
      {
      }
      stats := stats[p.word := p.count];
      assert pairs[..k + 1][..k] == pairs[..k];
    }
    assert pairs[..|pairs|] == pairs;
  }

  /** Every word of the input is looked up to the count of its last pair: the
      last pair of each word exists and is unique. */
  lemma {:induction false} LastPairExists(pairs: seq<Pair>, i: int)
    requires 0 <= i < |pairs|
    ensures exists l :: i <= l && LastBefore(pairs, |pairs|, l) && pairs[l].word == pairs[i].word
    decreases |pairs| - i
  {
    if !LastBefore(pairs, |pairs|, i) {
      var j :| i < j < |pairs| && pairs[j].word == pairs[i].word;
      LastPairExists(pairs, j);
    }
  }

  /** A later pair for the same word overwrites the earlier one. */
  method OverwriteExample() returns (stats: map<string, int>)
    ensures stats == map["0ne" := 2, "4068" := 4]
  {
    var pairs := [Pair("0ne", 1), Pair("4068", 4), Pair("0ne", 2)];
    stats := FillStats(pairs);
    assert LastBefore(pairs, 3, 2) && LastBefore(pairs, 3, 1);
    assert Words(pairs) == {"0ne", "4068"} by {
      assert pairs[..2] == [Pair("0ne", 1), Pair("4068", 4)];
      assert pairs[..2][..1] == [Pair("0ne", 1)];
      assert [Pair("0ne", 1)][..0] == [];
      assert Words([Pair("0ne", 1)]) == {"0ne"};
      assert Words(pairs[..2]) == {"0ne", "4068"};
    }
  }
}
