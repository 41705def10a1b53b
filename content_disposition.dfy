/**
 * The file-name extraction of pcap/fileClient/main.go: the Content-Disposition
 * header is split on ';', the first part whose space-trimmed form starts with
 * "filename=" supplies the name (TrimPrefix on the untrimmed part, then every
 * leading and trailing '"' removed), and an empty result falls back to a
 * fixed default.
 */
module ContentDisposition {
  import opened GoStrings

  const DefaultName: string := "downloaded_file.pcap"
  const FilenameKey: string := "filename="

  /** The loop's test on one part of the header. */
  predicate Matches(part: string)
  {
    HasPrefix(TrimSpace(part), FilenameKey)
  }

  /** What a matching part yields: the prefix is removed from the untrimmed part. */
  function FilenameValue(part: string): string
  {
    Trim(TrimPrefix(part, FilenameKey), "\"")
  }

  /** The value of part i, or "" past the end. */
  function ValueAt(parts: seq<string>, i: int): string
  {
    if 0 <= i < |parts| then FilenameValue(parts[i]) else ""
  }

  /** Index i is the first part that matches. */
  predicate FirstMatch(parts: seq<string>, i: int)
  {
    0 <= i < |parts| && Matches(parts[i]) && forall j :: 0 <= j < i ==> !Matches(parts[j])
  }

  /** There is at most one first match. */
  lemma FirstMatchUnique(parts: seq<string>, i: int, j: int)
    requires FirstMatch(parts, i)
    requires FirstMatch(parts, j)
    ensures i == j
  {
  }

  /** Lines 43-59: the header is scanned for the first matching part, then the default applies. */
  method FileName(contentDisposition: string) returns (fileName: string)
    ensures fileName != ""
    ensures contentDisposition == "" ==> fileName == DefaultName
    ensures (forall j :: 0 <= j < |Split(contentDisposition, ';')| ==> !Matches(Split(contentDisposition, ';')[j]))
      ==> fileName == DefaultName
    ensures forall i :: FirstMatch(Split(contentDisposition, ';'), i) ==>
      fileName == (if FilenameValue(Split(contentDisposition, ';')[i]) == "" then DefaultName
                   else FilenameValue(Split(contentDisposition, ';')[i]))
  {
    fileName := "";
    ghost var found := -1;
    if contentDisposition != "" {
      var parts := Split(contentDisposition, ';');
      var k := 0;
      while k < |parts|
        invariant 0 <= k <= |parts|
        invariant found == -1 ==> fileName == "" && forall j :: 0 <= j < k ==> !Matches(parts[j])
        invariant found != -1 ==> FirstMatch(parts, found) && fileName == ValueAt(parts, found)
      {
        if Matches(parts[k]) {
          fileName := FilenameValue(parts[k]);
          found := k;
          break;
        }
        k := k + 1;
      }
      if found != -1 {
        forall i | FirstMatch(parts, i) ensures i == found {
          FirstMatchUnique(parts, i, found);
        }
      }
    } else {
      assert Split(contentDisposition, ';') == [""];
      assert !Matches("");
    }
    if fileName == "" {
      fileName := DefaultName;
    }
  }

  /** A matching part with leading white space keeps its "filename=" text: the
      prefix is not removed and only trailing quotes are stripped. */
  lemma {:induction false} LeadingSpaceKeepsKey(part: string)
    requires Matches(part)
    requires IsSpace(part[0])
    ensures HasPrefix(FilenameValue(part), part[..|part| - |DropLeading(part, WhiteSpace)|] + FilenameKey)
  {
    var k := |part| - |DropLeading(part, WhiteSpace)|;
    var n := k + |FilenameKey|;
    assert n <= |part| && part[..n] == part[..k] + FilenameKey && part[n - 1] == '=' by {
      KeyAfterSpaces(part);
    }
    assert TrimPrefix(part, FilenameKey) == part by {
      assert part[0] != FilenameKey[0];
    }
    QuoteTrimKeepsPrefix(part, n);
  }

  /** Trimming quotes keeps every prefix that starts and ends with a non-quote. */
  lemma QuoteTrimKeepsPrefix(s: string, n: int)
    requires 0 < n <= |s|
    requires s[0] != '"' && s[n - 1] != '"'
    ensures HasPrefix(Trim(s, "\""), s[..n])
  {
    assert DropLeading(s, AnyOf("\"")) == s;
    var value := DropTrailing(s, AnyOf("\""));
    if |value| < n {
      DropTrailingOnlyCut(s, AnyOf("\""), n - 1);
    }
    DropTrailingPrefix(s, AnyOf("\""));
    assert value[..n] == s[..n];
  }

  /** In a matching part, "filename=" follows the leading white space. */
  lemma KeyAfterSpaces(part: string)
    requires Matches(part)
    ensures var k := |part| - |DropLeading(part, WhiteSpace)|;
      k + |FilenameKey| <= |part| && part[k..k + |FilenameKey|] == FilenameKey
  {
    var lead := DropLeading(part, WhiteSpace);
    var k := |part| - |lead|;
    var trimmed := DropTrailing(lead, WhiteSpace);
    assert trimmed == TrimSpace(part);
    DropLeadingSuffix(part, WhiteSpace);
    DropTrailingPrefix(lead, WhiteSpace);
    assert trimmed[..|FilenameKey|] == FilenameKey;
    assert lead[..|FilenameKey|] == FilenameKey;
  }

  /** A part made of one white-space character followed by "filename=..." matches. */
  lemma OneSpaceBeforeKeyMatches(part: string)
    requires |part| > |FilenameKey| + 1
    requires IsSpace(part[0]) && !IsSpace(part[1]) && !IsSpace(part[|part| - 1])
    requires part[1..][..|FilenameKey|] == FilenameKey
    ensures Matches(part)
  {
    assert DropLeading(part[1..], WhiteSpace) == part[1..];
    assert DropTrailing(part[1..], WhiteSpace) == part[1..];
  }

  /** The example of a leading space: ` filename="x"` matches and gives
      ` filename="x` (the part is a parameter so that the literal is not unfolded). */
  lemma LeadingSpaceExample(part: string)
    requires part == " filename=\"x\""
    ensures Matches(part)
    ensures FilenameValue(part) == " filename=\"x"
  {
    assert part[1..][..|FilenameKey|] == FilenameKey;
    OneSpaceBeforeKeyMatches(part);
    assert TrimPrefix(part, FilenameKey) == part by {
      assert part[0] != FilenameKey[0];
    }
    assert DropLeading(part, AnyOf("\"")) == part by {
      assert part[0] !in "\"";
    }
    var body := part[..|part| - 1];
    assert DropTrailing(part, AnyOf("\"")) == body by {
      assert DropTrailing(body, AnyOf("\"")) == body by {
        assert body[|body| - 1] !in "\"";
      }
    }
  }

  /** "attachment" is not a file-name part. */
  lemma AttachmentNoMatch(part: string)
    requires part == "attachment"
    ensures !Matches(part)
  {
    assert DropLeading(part, WhiteSpace) == part;
    assert DropTrailing(part, WhiteSpace) == part;
    assert part[0] != FilenameKey[0];
  }

  /** The whole header of the leading-space example: after "attachment; " the
      file is named ` filename="x`, not `x`. */
  method LeadingSpaceHeader() returns (fileName: string)
    ensures fileName == " filename=\"x"
  {
    var attachment, part := "attachment", " filename=\"x\"";
    assert ';' !in attachment && ';' !in part;
    SplitOfTwo(attachment, part, ';');
    AttachmentNoMatch(attachment);
    LeadingSpaceExample(part);
    assert FirstMatch([attachment, part], 1);
    fileName := FileName(attachment + ";" + part);
  }

  /** An empty quoted value is treated as no name at all: `filename=""` matches
      but yields the empty value, so the default name is used. */
  lemma EmptyQuotedExample(part: string)
    requires part == "filename=\"\""
    ensures Matches(part)
    ensures FilenameValue(part) == ""
  {
    assert TrimSpace(part) == part by {
      assert !IsSpace(part[0]) && !IsSpace(part[|part| - 1]);
    }
    assert part[..|FilenameKey|] == FilenameKey;
    var rest := part[|FilenameKey|..];
    assert rest == "\"\"";
    assert DropLeading(rest, AnyOf("\"")) == "" by {
      assert rest[1..][1..] == "";
      assert DropLeading(rest[1..], AnyOf("\"")) == "";
    }
  }

  /** The extraction evidently intended: "filename=" is removed from the
      space-trimmed part, so a part after "; " still yields its name. */
  function IntendedFilenameValue(part: string): (name: string)
    ensures name == [] || (name[0] != '"' && name[|name| - 1] != '"')
  {
    var keyless := TrimPrefix(TrimSpace(part), FilenameKey);
    DropTrailingPrefix(DropLeading(keyless, AnyOf("\"")), AnyOf("\""));
    Trim(keyless, "\"")
  }

  /** With the intended extraction, a quoted name after any leading white space
      comes back unchanged, and the part is one the loop selects. */
  lemma IntendedValueRoundTrip(w: string, name: string)
    requires forall i :: 0 <= i < |w| ==> IsSpace(w[i])
    requires name != [] && name[0] != '"' && name[|name| - 1] != '"'
    ensures Matches(w + FilenameKey + "\"" + name + "\"")
    ensures IntendedFilenameValue(w + FilenameKey + "\"" + name + "\"") == name
  {
    var quoted := "\"" + name + "\"";
    var keyed := FilenameKey + quoted;
    assert w + FilenameKey + "\"" + name + "\"" == w + keyed;
    SpacesBeforeKeyTrimmed(w, keyed);
    assert keyed[..|FilenameKey|] == FilenameKey;
    assert TrimPrefix(keyed, FilenameKey) == quoted;
    QuotedNameTrimmed(name);
  }

  /** White space in front of a "filename=..." part ending in a quote is all that TrimSpace removes. */
  lemma SpacesBeforeKeyTrimmed(w: string, keyed: string)
    requires forall i :: 0 <= i < |w| ==> IsSpace(w[i])
    requires |keyed| > 0 && keyed[0] == 'f' && keyed[|keyed| - 1] == '"'
    ensures TrimSpace(w + keyed) == keyed
  {
    DropLeadingRun(w, keyed, WhiteSpace);
  }

  /** Trimming the quotes of "\"name\"" gives back a name with no quote at either end. */
  lemma QuotedNameTrimmed(name: string)
    requires name != [] && name[0] != '"' && name[|name| - 1] != '"'
    ensures Trim("\"" + name + "\"", "\"") == name
  {
    var quoted := "\"" + name + "\"";
    assert DropLeading(quoted, AnyOf("\"")) == name + "\"" by {
      assert quoted[1..] == name + "\"";
      assert (name + "\"")[0] == name[0];
    }
    assert DropTrailing(name + "\"", AnyOf("\"")) == name by {
      assert (name + "\"")[..|name|] == name;
    }
  }
}
