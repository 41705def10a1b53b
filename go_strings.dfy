/**
 * The pieces of Go's `strings` package and of `fmt`'s `%d` verb that the
 * modelled programs use, on strings as sequences of Unicode scalar values.
 */
module GoStrings {

  /** strings.HasPrefix */
  predicate HasPrefix(s: string, prefix: string)
  {
    |prefix| <= |s| && s[..|prefix|] == prefix
  }

  /** strings.TrimPrefix: removes `prefix` once when `s` starts with it. */
  function TrimPrefix(s: string, prefix: string): (r: string)
    ensures HasPrefix(s, prefix) ==> s == prefix + r
    ensures !HasPrefix(s, prefix) ==> r == s
  {
    if HasPrefix(s, prefix) then s[|prefix|..] else s
  }

  /** strings.Split(s, string(sep)) for a one-character separator. */
  function Split(s: string, sep: char): (parts: seq<string>)
    ensures |parts| >= 1
    decreases |s|
  {
    if |s| == 0 then [""]
    else
      var rest := Split(s[1..], sep);
      if s[0] == sep then [""] + rest else [[s[0]] + rest[0]] + rest[1..]
  }

  /** strings.Join(parts, string(sep)); the inverse of Split. */
  function Join(parts: seq<string>, sep: char): string
    requires |parts| >= 1
  {
    if |parts| == 1 then parts[0] else parts[0] + [sep] + Join(parts[1..], sep)
  }

  /** No part of a split contains the separator. */
  lemma {:induction false} SplitPartsFree(s: string, sep: char)
    ensures forall i :: 0 <= i < |Split(s, sep)| ==> sep !in Split(s, sep)[i]
    decreases |s|
  {
    if |s| > 0 {
      var rest := Split(s[1..], sep);
      SplitPartsFree(s[1..], sep);
      var parts := Split(s, sep);
      if s[0] != sep {
        forall i | 0 <= i < |parts| ensures sep !in parts[i] {
          if i > 0 { assert parts[i] == rest[i]; }
        }
      }
    }
  }

  /** Joining the parts of a split gives the input back. */
  lemma {:induction false} SplitJoin(s: string, sep: char)
    ensures Join(Split(s, sep), sep) == s
    decreases |s|
  {
    if |s| > 0 {
      var rest := Split(s[1..], sep);
      SplitJoin(s[1..], sep);
      assert s == [s[0]] + s[1..];
      if s[0] != sep {
        var parts := Split(s, sep);
        if |rest| == 1 {
          assert Join(parts, sep) == [s[0]] + rest[0];
        } else {
          assert parts[1..] == rest[1..];
          assert Join(parts, sep) == [s[0]] + rest[0] + [sep] + Join(rest[1..], sep);
        }
      }
    }
  }

  /** Splitting a separator-free prefix `p` in front of `t` glues `p` to the first part of `t`. */
  lemma {:induction false} SplitFreePrefix(p: string, t: string, sep: char)
    requires sep !in p
    ensures Split(p + t, sep) == [p + Split(t, sep)[0]] + Split(t, sep)[1..]
    decreases |p|
  {
    if |p| > 0 {
      SplitFreePrefix(p[1..], t, sep);
      assert (p + t)[1..] == p[1..] + t;
      assert (p + t)[0] == p[0] && p[0] != sep;
      assert [p[0]] + (p[1..] + Split(t, sep)[0]) == p + Split(t, sep)[0];
    } else {
      assert p + t == t;
      assert p + Split(t, sep)[0] == Split(t, sep)[0];
      assert Split(t, sep) == [Split(t, sep)[0]] + Split(t, sep)[1..];
    }
  }

  /** Split undoes Join when no part contains the separator: the two are inverses. */
  lemma {:induction false} JoinSplit(parts: seq<string>, sep: char)
    requires |parts| >= 1
    requires forall i :: 0 <= i < |parts| ==> sep !in parts[i]
    ensures Split(Join(parts, sep), sep) == parts
    decreases |parts|
  {
    if |parts| == 1 {
      SplitFreePrefix(parts[0], "", sep);
      assert parts[0] + "" == parts[0];
    } else {
      var tail := Join(parts[1..], sep);
      JoinSplit(parts[1..], sep);
      assert Split([sep] + tail, sep) == [""] + Split(tail, sep);
      SplitFreePrefix(parts[0], [sep] + tail, sep);
      assert Join(parts, sep) == parts[0] + ([sep] + tail);
      assert Split([sep] + tail, sep)[1..] == parts[1..];
      assert parts[0] + Split([sep] + tail, sep)[0] == parts[0];
      assert parts == [parts[0]] + parts[1..];
    }
  }

  /** Splitting two separator-free pieces joined by the separator gives them back. */
  lemma SplitOfTwo(a: string, b: string, sep: char)
    requires sep !in a && sep !in b
    ensures Split(a + [sep] + b, sep) == [a, b]
  {
    assert [a, b][1..] == [b];
    JoinSplit([a, b], sep);
  }

  /** The same for three pieces. */
  lemma SplitOfThree(a: string, b: string, c: string, sep: char)
    requires sep !in a && sep !in b && sep !in c
    ensures Split(a + [sep] + b + [sep] + c, sep) == [a, b, c]
  {
    assert [a, b, c][1..] == [b, c] && [b, c][1..] == [c];
    assert Join([b, c], sep) == b + [sep] + c;
    assert a + [sep] + (b + [sep] + c) == a + [sep] + b + [sep] + c;
    JoinSplit([a, b, c], sep);
  }

  /** What a trim removes: white space (a TrimFunc with unicode.IsSpace) or the
      characters of a cutset. */
  datatype Cutset = WhiteSpace | AnyOf(chars: string)

  predicate Cuts(cut: Cutset, c: char)
  {
    match cut
    case WhiteSpace => IsSpace(c)
    case AnyOf(chars) => c in chars
  }

  /** Leading characters of `s` that `cut` removes are dropped. */
  function DropLeading(s: string, cut: Cutset): (r: string)
    ensures |r| <= |s|
    ensures r == [] || !Cuts(cut, r[0])
    decreases |s|
  {
    if |s| > 0 && Cuts(cut, s[0]) then DropLeading(s[1..], cut) else s
  }

  /** Trailing characters of `s` that `cut` removes are dropped. */
  function DropTrailing(s: string, cut: Cutset): (r: string)
    ensures |r| <= |s|
    ensures r == [] || !Cuts(cut, r[|r| - 1])
    decreases |s|
  {
    if |s| > 0 && Cuts(cut, s[|s| - 1]) then DropTrailing(s[..|s| - 1], cut) else s
  }

  /** What DropLeading keeps is a suffix of its input. */
  lemma {:induction false} DropLeadingSuffix(s: string, cut: Cutset)
    ensures DropLeading(s, cut) == s[|s| - |DropLeading(s, cut)|..]
    decreases |s|
  {
    if |s| > 0 && Cuts(cut, s[0]) {
      DropLeadingSuffix(s[1..], cut);
      assert s[1..][|s| - 1 - |DropLeading(s[1..], cut)|..] == s[|s| - |DropLeading(s, cut)|..];
    }
  }

  /** A run of cut characters in front of a part that starts with a kept one is exactly what is dropped. */
  lemma {:induction false} DropLeadingRun(w: string, rest: string, cut: Cutset)
    requires forall i :: 0 <= i < |w| ==> Cuts(cut, w[i])
    requires rest == [] || !Cuts(cut, rest[0])
    ensures DropLeading(w + rest, cut) == rest
    decreases |w|
  {
    if w == [] {
      assert w + rest == rest;
    } else {
      assert (w + rest)[0] == w[0];
      assert (w + rest)[1..] == w[1..] + rest;
      DropLeadingRun(w[1..], rest, cut);
    }
  }

  /** What DropTrailing keeps is a prefix of its input. */
  lemma {:induction false} DropTrailingPrefix(s: string, cut: Cutset)
    ensures DropTrailing(s, cut) == s[..|DropTrailing(s, cut)|]
    decreases |s|
  {
    if |s| > 0 && Cuts(cut, s[|s| - 1]) {
      DropTrailingPrefix(s[..|s| - 1], cut);
      assert s[..|s| - 1][..|DropTrailing(s, cut)|] == s[..|DropTrailing(s, cut)|];
    }
  }

  /** Only characters in the cut set are dropped from the end. */
  lemma {:induction false} DropTrailingOnlyCut(s: string, cut: Cutset, i: int)
    requires |DropTrailing(s, cut)| <= i < |s|
    ensures Cuts(cut, s[i])
    decreases |s|
  {
    if |s| > 0 && Cuts(cut, s[|s| - 1]) && i < |s| - 1 {
      DropTrailingOnlyCut(s[..|s| - 1], cut, i);
    }
  }

  /** unicode.IsSpace: the Latin-1 spaces and the other characters with Unicode's White_Space property. */
  predicate IsSpace(c: char)
  {
    c == '\t' || c == '\n' || c == '\U{000B}' || c == '\U{000C}' || c == '\r' || c == ' '
    || c == '\U{0085}' || c == '\U{00A0}' || c == '\U{1680}'
    || ('\U{2000}' <= c <= '\U{200A}') || c == '\U{2028}' || c == '\U{2029}'
    || c == '\U{202F}' || c == '\U{205F}' || c == '\U{3000}'
  }

  /** strings.TrimSpace */
  function TrimSpace(s: string): string
  {
    DropTrailing(DropLeading(s, WhiteSpace), WhiteSpace)
  }

  /** strings.Trim(s, cutset) */
  function Trim(s: string, cutset: string): string
  {
    DropTrailing(DropLeading(s, AnyOf(cutset)), AnyOf(cutset))
  }

  /** The ASCII digit for a value below ten. */
  function DigitChar(d: nat): char
    requires d < 10
  {
    ['0', '1', '2', '3', '4', '5', '6', '7', '8', '9'][d]
  }

  /** The value of an ASCII digit character; anything else counts as 0. */
  function DigitValue(c: char): (d: nat)
    ensures d < 10
  {
    if '0' <= c <= '9' then (c as int - '0' as int) else 0
  }

  /** fmt.Sprintf("%d", n) for a non-negative n: decimal digits, no leading zero. */
  function Decimal(n: nat): (r: string)
    ensures |r| >= 1
    ensures forall i :: 0 <= i < |r| ==> '0' <= r[i] <= '9'
  {
    if n < 10 then [DigitChar(n)] else Decimal(n / 10) + [DigitChar(n % 10)]
  }

  /** Reads a string of decimal digits back as a number (Go's strconv.Atoi on such a string). */
  function ParseDecimal(s: string): nat
  {
    if s == [] then 0 else ParseDecimal(s[..|s| - 1]) * 10 + DigitValue(s[|s| - 1])
  }

  /** Decimal formatting round-trips through parsing. */
  lemma {:induction false} ParseDecimalOfDecimal(n: nat)
    ensures ParseDecimal(Decimal(n)) == n
  {
    var s := Decimal(n);
    if n < 10 {
      assert s[..0] == [];
      assert DigitValue(DigitChar(n)) == n;
    } else {
      ParseDecimalOfDecimal(n / 10);
      assert s[..|s| - 1] == Decimal(n / 10);
      assert DigitValue(DigitChar(n % 10)) == n % 10;
    }
  }

  /** Different numbers have different decimal forms. */
  lemma DecimalInjective(m: nat, n: nat)
    requires m != n
    ensures Decimal(m) != Decimal(n)
  {
    ParseDecimalOfDecimal(m);
    ParseDecimalOfDecimal(n);
  }
}
