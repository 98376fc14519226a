/** DocumentationParser.CleanXmlComment: strips the `///` decoration from a raw
    documentation comment, keeping the XML text of its non-blank lines. */
module CommentCleaning {
  import opened Text

  predicate NoLineBreak(line: string) {
    forall i :: 0 <= i < |line| ==> line[i] != '\r' && line[i] != '\n'
  }

  /** s.Split(new[] { "\r\n", "\r", "\n" }, StringSplitOptions.None). */
  function SplitLines(s: string): (lines: seq<string>)
    ensures |lines| >= 1
    ensures forall k :: 0 <= k < |lines| ==> NoLineBreak(lines[k])
    decreases |s|
  {
    if s == [] then [""]
    else if s[0] == '\n' then [""] + SplitLines(s[1..])
    else if s[0] == '\r' then
      if |s| >= 2 && s[1] == '\n' then [""] + SplitLines(s[2..]) else [""] + SplitLines(s[1..])
    else
      var rest := SplitLines(s[1..]);
      [[s[0]] + rest[0]] + rest[1..]
  }

  /** One line cleaned: trimmed, its leading run of '/' removed, trimmed again. */
  function CleanLine(line: string): string {
    Trim(TrimStartChar(Trim(line), '/'))
  }

  function CleanLines(lines: seq<string>): seq<string> {
    seq(|lines|, k requires 0 <= k < |lines| => CleanLine(lines[k]))
  }

  /** The lines that are not blank, in their original order. */
  function NonBlank(lines: seq<string>): (kept: seq<string>)
    ensures forall k :: 0 <= k < |kept| ==> !IsBlank(kept[k])
  {
    if lines == [] then []
    else if IsBlank(lines[0]) then NonBlank(lines[1..])
    else [lines[0]] + NonBlank(lines[1..])
  }

  /** What CleanXmlComment returns for a raw comment. */
  function CleanedComment(xmlComment: string): string {
    if IsBlank(xmlComment) then ""
    else Join(NewLine, NonBlank(CleanLines(SplitLines(xmlComment))))
  }

  /** CleanXmlComment: split into lines, clean each line, join the non-blank ones. */
  method CleanXmlComment(xmlComment: string) returns (cleaned: string)
    ensures cleaned == CleanedComment(xmlComment)
  {
    if IsBlank(xmlComment) {
      return "";
    }
    var lines := SplitLines(xmlComment);
    var cleanedLines: seq<string> := [];
    for i := 0 to |lines|
      invariant |cleanedLines| == i
      invariant forall k :: 0 <= k < i ==> cleanedLines[k] == CleanLine(lines[k])
    {
      var trimmedLine := CleanLine(lines[i]);
      cleanedLines := cleanedLines + [trimmedLine];
    }
    assert cleanedLines == CleanLines(lines);
    cleaned := Join(NewLine, NonBlank(cleanedLines));
  }

  // ---------------------------------------------------------------------------
  // Properties

  lemma {:induction false} SplitLinesOfBlank(s: string)
    requires IsBlank(s)
    ensures forall k :: 0 <= k < |SplitLines(s)| ==> IsBlank(SplitLines(s)[k])
    decreases |s|
  {
    if s != [] {
      if s[0] == '\r' && |s| >= 2 && s[1] == '\n' {
        SplitLinesOfBlank(s[2..]);
      } else {
        SplitLinesOfBlank(s[1..]);
        if s[0] != '\n' && s[0] != '\r' {
          var rest := SplitLines(s[1..]);
          assert IsBlank(rest[0]);
          assert IsWhiteSpace(s[0]);
        }
      }
    }
  }

  lemma CleanLineOfBlank(line: string)
    requires IsBlank(line)
    ensures CleanLine(line) == ""
  {
    var _ := TrimFacts(line);
  }

  /** A cleaned line is blank only when it is empty, and otherwise neither
      starts nor ends with white space. */
  lemma CleanLineTrimmed(line: string)
    ensures IsBlank(CleanLine(line)) <==> CleanLine(line) == ""
    ensures CleanLine(line) != "" ==>
      !IsWhiteSpace(CleanLine(line)[0]) && !IsWhiteSpace(CleanLine(line)[|CleanLine(line)| - 1])
  {
    var _ := TrimFacts(TrimStartChar(Trim(line), '/'));
  }

  predicate AllBlank(lines: seq<string>) {
    forall k :: 0 <= k < |lines| ==> IsBlank(lines[k])
  }

  /** Every line of the comment cleans to "". */
  predicate AllCleanEmpty(lines: seq<string>) {
    forall k :: 0 <= k < |lines| ==> CleanLine(lines[k]) == ""
  }

  lemma {:induction false} NonBlankEmpty(lines: seq<string>)
    ensures NonBlank(lines) == [] <==> AllBlank(lines)
  {
    if lines != [] {
      NonBlankEmpty(lines[1..]);
      if IsBlank(lines[0]) {
        assert forall k :: 1 <= k < |lines| ==> lines[k] == lines[1..][k - 1];
      }
    }
  }

  lemma {:induction false} JoinEmpty(sep: string, parts: seq<string>)
    requires forall k :: 0 <= k < |parts| ==> parts[k] != ""
    ensures Join(sep, parts) == "" <==> parts == []
  {
    if |parts| > 1 {
      assert |Join(sep, parts)| >= |parts[0]|;
    }
  }

  /** A comment cleans to "" exactly when none of its lines has any text left
      once the decoration is stripped: the comment documents nothing. */
  lemma CleanedCommentEmpty(xmlComment: string)
    ensures CleanedComment(xmlComment) == "" <==> AllCleanEmpty(SplitLines(xmlComment))
  {
    var lines := SplitLines(xmlComment);
    if IsBlank(xmlComment) {
      SplitLinesOfBlank(xmlComment);
      forall k | 0 <= k < |lines| ensures CleanLine(lines[k]) == "" {
        CleanLineOfBlank(lines[k]);
      }
    } else {
      var kept := NonBlank(CleanLines(lines));
      assert CleanedComment(xmlComment) == Join(NewLine, kept);
      NonBlankText(CleanLines(lines));
      JoinEmpty(NewLine, kept);
      NonBlankEmpty(CleanLines(lines));
      CleanLinesBlank(lines);
    }
  }

  /** Lines the filter keeps are not empty. */
  lemma NonBlankText(lines: seq<string>)
    ensures forall k :: 0 <= k < |NonBlank(lines)| ==> NonBlank(lines)[k] != ""
  {
    var kept := NonBlank(lines);
    forall k | 0 <= k < |kept| ensures kept[k] != "" {
      assert !IsBlank(kept[k]);
    }
  }

  /** The cleaned lines are all blank exactly when they are all empty. */
  lemma CleanLinesBlank(lines: seq<string>)
    ensures AllBlank(CleanLines(lines)) <==> AllCleanEmpty(lines)
  {
    var cleaned := CleanLines(lines);
    forall k | 0 <= k < |lines| ensures IsBlank(cleaned[k]) <==> CleanLine(lines[k]) == "" {
      CleanLineTrimmed(lines[k]);
    }
  }

  lemma {:induction false} SplitLinesPrefix(line: string, rest: string)
    requires NoLineBreak(line)
    ensures SplitLines(line + NewLine + rest) == [line] + SplitLines(rest)
    ensures SplitLines(line) == [line]
    decreases |line|
  {
    if line == [] {
      assert line + NewLine + rest == ['\n'] + rest;
      assert (['\n'] + rest)[1..] == rest;
    } else {
      SplitLinesPrefix(line[1..], rest);
      assert (line + NewLine + rest)[1..] == line[1..] + NewLine + rest;
      assert [line[0]] + line[1..] == line;
    }
  }

  /** Splitting text joined with line feeds gives the lines back. */
  lemma {:induction false} SplitJoin(lines: seq<string>)
    requires lines != []
    requires forall k :: 0 <= k < |lines| ==> NoLineBreak(lines[k])
    ensures SplitLines(Join(NewLine, lines)) == lines
  {
    if |lines| == 1 {
      SplitLinesPrefix(lines[0], "");
    } else {
      SplitJoin(lines[1..]);
      SplitLinesPrefix(lines[0], Join(NewLine, lines[1..]));
    }
  }

  lemma NoLineBreakInfix(s: string, i: nat, j: nat)
    requires NoLineBreak(s) && i <= j <= |s|
    ensures NoLineBreak(s[i..j])
  {
  }

  lemma CleanLineNoLineBreak(line: string)
    requires NoLineBreak(line)
    ensures NoLineBreak(CleanLine(line))
  {
    var a := Trim(line);
    var i := TrimFacts(line);
    NoLineBreakInfix(line, i, i + |a|);
    var b := TrimStartChar(a, '/');
    TrimStartCharFacts(a, '/');
    NoLineBreakInfix(a, |a| - |b|, |a|);
    var j := TrimFacts(b);
    NoLineBreakInfix(b, j, j + |Trim(b)|);
  }

  lemma {:induction false} NonBlankNoLineBreak(lines: seq<string>)
    requires forall k :: 0 <= k < |lines| ==> NoLineBreak(lines[k])
    ensures forall k :: 0 <= k < |NonBlank(lines)| ==> NoLineBreak(NonBlank(lines)[k])
  {
    if lines != [] {
      NonBlankNoLineBreak(lines[1..]);
    }
  }

  /** The cleaned comment, read back line by line, is exactly the list of
      cleaned non-blank lines of the raw comment, in their original order; none
      of them is blank or starts or ends with white space. */
  lemma CleanedCommentLines(xmlComment: string)
    requires CleanedComment(xmlComment) != ""
    ensures SplitLines(CleanedComment(xmlComment)) == NonBlank(CleanLines(SplitLines(xmlComment)))
    ensures forall k :: 0 <= k < |SplitLines(CleanedComment(xmlComment))| ==>
      var line := SplitLines(CleanedComment(xmlComment))[k];
      line != "" && !IsWhiteSpace(line[0]) && !IsWhiteSpace(line[|line| - 1])
  {
    var lines := SplitLines(xmlComment);
    var cleaned := CleanLines(lines);
    forall k | 0 <= k < |cleaned| ensures NoLineBreak(cleaned[k]) {
      CleanLineNoLineBreak(lines[k]);
    }
    NonBlankNoLineBreak(cleaned);
    var kept := NonBlank(cleaned);
    assert CleanedComment(xmlComment) == Join(NewLine, kept);
    assert kept != [];
    SplitJoin(kept);
    KeptLinesTrimmed(lines);
  }

  /** The kept lines are non-empty and trimmed. */
  lemma KeptLinesTrimmed(lines: seq<string>)
    ensures forall k :: 0 <= k < |NonBlank(CleanLines(lines))| ==>
      var line := NonBlank(CleanLines(lines))[k];
      line != "" && !IsWhiteSpace(line[0]) && !IsWhiteSpace(line[|line| - 1])
  {
    var cleaned := CleanLines(lines);
    var kept := NonBlank(cleaned);
    forall k | 0 <= k < |kept|
      ensures kept[k] != "" && !IsWhiteSpace(kept[k][0]) && !IsWhiteSpace(kept[k][|kept[k]| - 1])
    {
      NonBlankFrom(cleaned, k);
      var k' :| 0 <= k' < |cleaned| && cleaned[k'] == kept[k];
      CleanLineTrimmed(lines[k']);
    }
  }

  /** Every kept line is one of the cleaned lines. */
  lemma {:induction false} NonBlankFrom(lines: seq<string>, k: nat)
    requires k < |NonBlank(lines)|
    ensures NonBlank(lines)[k] in lines
  {
    if lines != [] {
      if IsBlank(lines[0]) {
        NonBlankFrom(lines[1..], k);
      } else if k > 0 {
        NonBlankFrom(lines[1..], k - 1);
      }
    }
  }
}
