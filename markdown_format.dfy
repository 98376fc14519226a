/** The pure string helpers of MarkdownGenerator: file names, anchors, cref
    names, directory names, kind templates, attribute lines and output paths. */
module MarkdownFormat {
  import opened Text
  import opened DocumentModel

  // ---------------------------------------------------------------------------
  // FormatFileName: the matches of [A-Z][a-z]*|\d+ joined by '-'

  /** The length of the run of lower-case letters at the start of s. */
  function LowerRun(s: string): (n: nat)
    ensures n <= |s| && (forall i :: 0 <= i < n ==> IsLower(s[i])) && (n < |s| ==> !IsLower(s[n]))
  {
    if s == [] || !IsLower(s[0]) then 0 else 1 + LowerRun(s[1..])
  }

  /** The length of the run of digits at the start of s. */
  function DigitRun(s: string): (n: nat)
    ensures n <= |s| && (forall i :: 0 <= i < n ==> IsDigit(s[i])) && (n < |s| ==> !IsDigit(s[n]))
  {
    if s == [] || !IsDigit(s[0]) then 0 else 1 + DigitRun(s[1..])
  }

  /** The successive matches of `[A-Z][a-z]*|\d+`, scanning left to right: an
      upper-case letter with the lower-case letters after it, or a run of
      digits; every other character is skipped. */
  function Tokens(s: string): seq<string>
    decreases |s|
  {
    if s == [] then []
    else if IsUpper(s[0]) then
      var n := 1 + LowerRun(s[1..]);
      [s[..n]] + Tokens(s[n..])
    else if IsDigit(s[0]) then
      var n := DigitRun(s);
      [s[..n]] + Tokens(s[n..])
    else Tokens(s[1..])
  }

  function FormatFileName(name: string): string {
    Join("-", Tokens(name))
  }

  /** A whole match: an upper-case letter followed by lower-case letters, or digits. */
  predicate IsToken(t: string) {
    |t| >= 1 &&
    ((IsUpper(t[0]) && forall i :: 1 <= i < |t| ==> IsLower(t[i])) ||
     (forall i :: 0 <= i < |t| ==> IsDigit(t[i])))
  }

  /** A character that no match contains: it always ends the match before it. */
  predicate IsSeparator(c: char) {
    !IsUpper(c) && !IsLower(c) && !IsDigit(c)
  }

  lemma {:induction false} TokensAreTokens(s: string)
    ensures forall k :: 0 <= k < |Tokens(s)| ==> IsToken(Tokens(s)[k])
    decreases |s|
  {
    if s != [] {
      if IsUpper(s[0]) {
        TokensAreTokens(s[1 + LowerRun(s[1..])..]);
      } else if IsDigit(s[0]) {
        TokensAreTokens(s[DigitRun(s)..]);
      } else {
        TokensAreTokens(s[1..]);
      }
    }
  }

  lemma {:induction false} LowerRunConcat(x: string, c: char, y: string)
    requires !IsLower(c)
    ensures LowerRun(x + [c] + y) == LowerRun(x)
  {
    if x != [] {
      assert (x + [c] + y)[1..] == x[1..] + [c] + y;
      LowerRunConcat(x[1..], c, y);
    }
  }

  lemma {:induction false} DigitRunConcat(x: string, c: char, y: string)
    requires !IsDigit(c)
    ensures DigitRun(x + [c] + y) == DigitRun(x)
  {
    if x != [] {
      assert (x + [c] + y)[1..] == x[1..] + [c] + y;
      DigitRunConcat(x[1..], c, y);
    }
  }

  /** A separator splits the matches: those of the text before it, then those after. */
  lemma {:induction false} TokensSeparator(p: string, c: char, n: string)
    requires IsSeparator(c)
    ensures Tokens(p + [c] + n) == Tokens(p) + Tokens(n)
    decreases |p|, 1
  {
    if p == [] {
      assert (p + [c] + n)[1..] == n;
    } else if IsUpper(p[0]) {
      SeparatorAfterWord(p, c, n);
    } else if IsDigit(p[0]) {
      SeparatorAfterDigits(p, c, n);
    } else {
      assert (p + [c] + n)[1..] == p[1..] + [c] + n;
      TokensSeparator(p[1..], c, n);
    }
  }

  /** TokensSeparator when p starts with a word match. */
  lemma {:induction false} SeparatorAfterWord(p: string, c: char, n: string)
    requires IsSeparator(c) && p != [] && IsUpper(p[0])
    ensures Tokens(p + [c] + n) == Tokens(p) + Tokens(n)
    decreases |p|, 0
  {
    UpperHead(p, c, n);
    var m := 1 + LowerRun(p[1..]);
    TokensSeparator(p[m..], c, n);
    assert [p[..m]] + (Tokens(p[m..]) + Tokens(n)) == [p[..m]] + Tokens(p[m..]) + Tokens(n);
  }

  /** TokensSeparator when p starts with a digit run. */
  lemma {:induction false} SeparatorAfterDigits(p: string, c: char, n: string)
    requires IsSeparator(c) && p != [] && IsDigit(p[0])
    ensures Tokens(p + [c] + n) == Tokens(p) + Tokens(n)
    decreases |p|, 0
  {
    DigitHead(p, c, n);
    var m := DigitRun(p);
    TokensSeparator(p[m..], c, n);
    assert [p[..m]] + (Tokens(p[m..]) + Tokens(n)) == [p[..m]] + Tokens(p[m..]) + Tokens(n);
  }

  /** A word match at the start of p is the same match at the start of p + [c] + n. */
  lemma UpperHead(p: string, c: char, n: string)
    requires IsSeparator(c) && p != [] && IsUpper(p[0])
    ensures var m := 1 + LowerRun(p[1..]);
      0 < m <= |p| && Tokens(p) == [p[..m]] + Tokens(p[m..]) &&
      Tokens(p + [c] + n) == [p[..m]] + Tokens(p[m..] + [c] + n)
  {
    var s := p + [c] + n;
    assert s[0] == p[0] && s[1..] == p[1..] + [c] + n;
    LowerRunConcat(p[1..], c, n);
    var m := 1 + LowerRun(p[1..]);
    assert m == 1 + LowerRun(s[1..]);
    assert s[..m] == p[..m];
    assert s[m..] == p[m..] + [c] + n;
    assert Tokens(s) == [s[..m]] + Tokens(s[m..]);
  }

  /** A digit match at the start of p is the same match at the start of p + [c] + n. */
  lemma DigitHead(p: string, c: char, n: string)
    requires IsSeparator(c) && p != [] && IsDigit(p[0])
    ensures var m := DigitRun(p);
      0 < m <= |p| && Tokens(p) == [p[..m]] + Tokens(p[m..]) &&
      Tokens(p + [c] + n) == [p[..m]] + Tokens(p[m..] + [c] + n)
  {
    var s := p + [c] + n;
    DigitRunConcat(p, c, n);
    var m := DigitRun(p);
    assert s[..m] == p[..m];
    assert s[m..] == p[m..] + [c] + n;
  }

  lemma TokensOfToken(t: string)
    requires IsToken(t)
    ensures Tokens(t) == [t]
  {
    if IsUpper(t[0]) {
      assert LowerRun(t[1..]) == |t| - 1;
    } else {
      assert DigitRun(t) == |t|;
    }
    assert t[..|t|] == t && t[|t|..] == [];
  }

  /** Joining whole matches with '-' and matching again gives them back. */
  lemma {:induction false} TokensOfJoin(ts: seq<string>)
    requires forall k :: 0 <= k < |ts| ==> IsToken(ts[k])
    ensures Tokens(Join("-", ts)) == ts
  {
    if |ts| == 1 {
      TokensOfToken(ts[0]);
    } else if |ts| > 1 {
      TokensOfToken(ts[0]);
      TokensOfJoin(ts[1..]);
      assert Join("-", ts) == ts[0] + ['-'] + Join("-", ts[1..]);
      TokensSeparator(ts[0], '-', Join("-", ts[1..]));
    }
  }

  /** FormatFileName is idempotent. */
  lemma FormatFileNameIdempotent(name: string)
    ensures FormatFileName(FormatFileName(name)) == FormatFileName(name)
  {
    TokensAreTokens(name);
    TokensOfJoin(Tokens(name));
  }

  /** The file name of a nested page, formatted from the parent's file name, a
      '-' and the item's name, lists the parent's matches and then the item's. */
  lemma NestedFileName(parentName: string, name: string)
    ensures FormatFileName(FormatFileName(parentName) + "-" + name) == Join("-", Tokens(parentName) + Tokens(name))
    ensures FormatFileName(parentName + "-" + name) == Join("-", Tokens(parentName) + Tokens(name))
  {
    TokensAreTokens(parentName);
    TokensOfJoin(Tokens(parentName));
    TokensSeparator(FormatFileName(parentName), '-', name);
    TokensSeparator(parentName, '-', name);
  }

  /** A name without upper-case letters or digits (such as `foo` or `my_field`)
      gives an empty file name. */
  lemma {:induction false} NoTokens(name: string)
    requires forall i :: 0 <= i < |name| ==> !IsUpper(name[i]) && !IsDigit(name[i])
    ensures Tokens(name) == [] && FormatFileName(name) == ""
    decreases |name|
  {
    if name != [] {
      NoTokens(name[1..]);
    }
  }

  /** A file name holds only letters, digits and '-'. */
  lemma FormatFileNameChars(name: string)
    ensures forall i :: 0 <= i < |FormatFileName(name)| ==>
      var c := FormatFileName(name)[i]; IsUpper(c) || IsLower(c) || IsDigit(c) || c == '-'
  {
    TokensAreTokens(name);
    JoinChars(Tokens(name));
  }

  lemma {:induction false} JoinChars(ts: seq<string>)
    requires forall k :: 0 <= k < |ts| ==> IsToken(ts[k])
    ensures forall i :: 0 <= i < |Join("-", ts)| ==>
      var c := Join("-", ts)[i]; IsUpper(c) || IsLower(c) || IsDigit(c) || c == '-'
  {
    if |ts| > 1 {
      JoinChars(ts[1..]);
    }
  }

  lemma {:induction false} JoinAppend(sep: string, a: seq<string>, b: seq<string>)
    requires a != [] && b != []
    ensures Join(sep, a + b) == Join(sep, a) + sep + Join(sep, b)
  {
    if |a| == 1 {
      assert (a + b)[1..] == b;
    } else {
      assert (a + b)[1..] == a[1..] + b;
      JoinAppend(sep, a[1..], b);
    }
  }

  // ---------------------------------------------------------------------------
  // FormatAnchor

  function FormatAnchor(name: string): string {
    ToLower(FormatFileName(name))
  }

  /** An anchor holds no upper-case letter. */
  lemma AnchorLowerCase(name: string)
    ensures forall i :: 0 <= i < |FormatAnchor(name)| ==> !IsUpper(FormatAnchor(name)[i])
  {
  }

  // ---------------------------------------------------------------------------
  // FormatCref

  /** string.Split(c): the pieces between occurrences of c, empty ones included. */
  function SplitOn(s: string, c: char): (parts: seq<string>)
    ensures |parts| >= 1
    decreases |s|
  {
    if s == [] then [""]
    else
      var rest := SplitOn(s[1..], c);
      if s[0] == c then [""] + rest else [[s[0]] + rest[0]] + rest[1..]
  }

  lemma {:induction false} SplitOnPrefix(pre: string, c: char, post: string)
    requires c !in pre
    ensures SplitOn(pre + [c] + post, c) == [pre] + SplitOn(post, c)
    ensures SplitOn(pre, c) == [pre]
    decreases |pre|
  {
    if pre == [] {
      assert ([] + [c] + post)[1..] == post;
    } else {
      assert (pre + [c] + post)[1..] == pre[1..] + [c] + post;
      SplitOnPrefix(pre[1..], c, post);
      assert [pre[0]] + pre[1..] == pre;
    }
  }

  /** Joining the pieces with the separator gives the text back. */
  lemma {:induction false} SplitOnJoin(s: string, c: char)
    ensures Join([c], SplitOn(s, c)) == s
    decreases |s|
  {
    if s != [] {
      SplitOnJoin(s[1..], c);
      var rest := SplitOn(s[1..], c);
      if s[0] != c && |rest| > 1 {
        assert Join([c], [[s[0]] + rest[0]] + rest[1..]) == [s[0]] + rest[0] + [c] + Join([c], rest[1..]);
      }
    }
  }

  /** The cref without its prefix: everything after the first ':', or all of
      it when there is no ':'. */
  function CrefName(cref: string): string {
    var parts := SplitOn(cref, ':');
    if |parts| > 1 then Join(":", parts[1..]) else cref
  }

  lemma CrefNameAfterColon(cref: string)
    ensures ':' !in cref ==> CrefName(cref) == cref
    ensures forall i :: 0 <= i < |cref| && cref[i] == ':' && ':' !in cref[..i] ==> CrefName(cref) == cref[i + 1..]
  {
    if ':' !in cref {
      SplitOnPrefix(cref, ':', "");
    }
    forall i | 0 <= i < |cref| && cref[i] == ':' && ':' !in cref[..i] ensures CrefName(cref) == cref[i + 1..] {
      assert cref == cref[..i] + [':'] + cref[i + 1..];
      SplitOnPrefix(cref[..i], ':', cref[i + 1..]);
      SplitOnJoin(cref[i + 1..], ':');
    }
  }

  /** Regex.Replace(s, @"`\d+", ""): every backtick followed by a run of digits
      is deleted, scanning left to right. */
  function RemoveArity(s: string): string
    decreases |s|
  {
    if s == [] then []
    else if s[0] == '`' && |s| >= 2 && IsDigit(s[1]) then RemoveArity(s[1 + DigitRun(s[1..])..])
    else [s[0]] + RemoveArity(s[1..])
  }

  predicate NoArityMarker(s: string) {
    forall i :: 0 <= i < |s| - 1 ==> !(s[i] == '`' && IsDigit(s[i + 1]))
  }

  lemma {:induction false} RemoveArityStart(s: string)
    requires s == [] || !IsDigit(s[0])
    ensures RemoveArity(s) == [] || !IsDigit(RemoveArity(s)[0])
    decreases |s|
  {
    if s != [] && s[0] == '`' && |s| >= 2 && IsDigit(s[1]) {
      var rest := s[1 + DigitRun(s[1..])..];
      RemoveArityStart(rest);
    }
  }

  /** No arity marker survives. */
  lemma {:induction false} RemoveArityNoMarker(s: string)
    ensures NoArityMarker(RemoveArity(s))
    decreases |s|
  {
    if s != [] {
      if s[0] == '`' && |s| >= 2 && IsDigit(s[1]) {
        RemoveArityNoMarker(s[1 + DigitRun(s[1..])..]);
      } else {
        RemoveArityNoMarker(s[1..]);
        if s[0] == '`' {
          RemoveArityStart(s[1..]);
        }
        var r := RemoveArity(s);
        assert r == [s[0]] + RemoveArity(s[1..]);
        forall i | 0 <= i < |r| - 1 ensures !(r[i] == '`' && IsDigit(r[i + 1])) {
          if i > 0 {
            assert r[i] == RemoveArity(s[1..])[i - 1];
          }
        }
      }
    }
  }

  function FormatCref(cref: string): string {
    if cref == "" then ""
    else ReplaceChar(ReplaceChar(RemoveArity(CrefName(cref)), '{', '<'), '}', '>')
  }

  /** A formatted cref has no braces and no backtick followed by a digit. */
  lemma FormatCrefClean(cref: string)
    ensures FormatCref("") == ""
    ensures '{' !in FormatCref(cref) && '}' !in FormatCref(cref)
    ensures NoArityMarker(FormatCref(cref))
  {
    if cref != "" {
      RemoveArityNoMarker(CrefName(cref));
    }
  }

  // ---------------------------------------------------------------------------
  // FormatDirectoryName and paths

  /** The directory separator of the output paths. */
  const DirectorySeparator: char := '/'

  function FormatDirectoryName(name: string): string {
    ReplaceChar(name, '.', DirectorySeparator)
  }

  /** A dotted namespace directory becomes one folder per dotted part. */
  lemma {:induction false} DirectoryParts(name: string)
    requires DirectorySeparator !in name
    ensures SplitOn(FormatDirectoryName(name), DirectorySeparator) == SplitOn(name, '.')
    decreases |name|
  {
    if name != [] {
      DirectoryParts(name[1..]);
      assert FormatDirectoryName(name)[1..] == FormatDirectoryName(name[1..]);
    }
  }

  function NonEmptyParts(parts: seq<string>): (r: seq<string>)
    ensures forall k :: 0 <= k < |r| ==> r[k] != ""
  {
    if parts == [] then []
    else (if parts[0] == "" then [] else [parts[0]]) + NonEmptyParts(parts[1..])
  }

  /** Path.Combine: the non-empty parts joined by the separator. */
  function PathCombine(parts: seq<string>): string {
    Join([DirectorySeparator], NonEmptyParts(parts))
  }

  /** A path that starts at the root of the file system. */
  predicate IsRooted(path: string) {
    path != "" && path[0] == DirectorySeparator
  }

  /** Where .NET's Path.Combine starts: the last rooted part, or the first part
      when none is rooted. */
  function RootStart(parts: seq<string>): (i: nat)
    ensures parts == [] ==> i == 0
    ensures parts != [] ==> i < |parts| && (i == 0 || IsRooted(parts[i]))
    ensures forall k :: i < k < |parts| ==> !IsRooted(parts[k])
  {
    if parts == [] then 0
    else if IsRooted(parts[|parts| - 1]) then |parts| - 1
    else RootStart(parts[..|parts| - 1])
  }

  /** Path.Combine as .NET defines it: a rooted part discards every part before it. */
  function PathCombineAsWritten(parts: seq<string>): string {
    PathCombine(parts[RootStart(parts)..])
  }

  /** With a rooted package name, as `Path.GetDirectoryName` of a folder chosen
      in the folder panel is, the output folder plays no part in the path. */
  lemma RootedPackageDropsOutput(outputFolder: string, packageName: string, directory: string)
    requires IsRooted(packageName) && !IsRooted(directory)
    ensures PathCombineAsWritten([outputFolder, packageName, directory]) == PathCombine([packageName, directory])
  {
    var parts := [outputFolder, packageName, directory];
    assert RootStart(parts) == 1;
    assert parts[1..] == [packageName, directory];
  }

  /** An instance: output folder "/docs", input folder "/home/u/Proj/Assets". */
  lemma RootedPackageExample()
    ensures PathCombineAsWritten(["/docs", "/home/u/Proj", ""]) == "/home/u/Proj"
  {
    RootedPackageDropsOutput("/docs", "/home/u/Proj", "");
    assert NonEmptyParts(["/home/u/Proj", ""]) == ["/home/u/Proj"];
  }

  /** The joined text starts with the first part. */
  lemma {:induction false} JoinStartsWithHead(sep: string, parts: seq<string>)
    requires parts != []
    ensures |Join(sep, parts)| >= |parts[0]| && Join(sep, parts)[..|parts[0]|] == parts[0]
  {
    if |parts| > 1 {
      assert Join(sep, parts) == parts[0] + (sep + Join(sep, parts[1..]));
    }
  }

  /** Joining non-rooted parts onto a non-empty folder stays under that folder. */
  lemma PathCombineUnderFolder(folder: string, rest: seq<string>)
    requires folder != ""
    ensures |PathCombine([folder] + rest)| >= |folder|
    ensures PathCombine([folder] + rest)[..|folder|] == folder
  {
    assert ([folder] + rest)[1..] == rest;
    JoinStartsWithHead([DirectorySeparator], NonEmptyParts([folder] + rest));
  }

  // ---------------------------------------------------------------------------
  // FormatAttribute

  function ParameterTexts(parameters: seq<(string, string)>): seq<string> {
    seq(|parameters|, k requires 0 <= k < |parameters| => parameters[k].0 + " = " + parameters[k].1)
  }

  function FormatAttribute(attribute: AttributeInfo): string {
    if attribute.parameters == [] then attribute.name
    else attribute.name + "(" + Join(", ", ParameterTexts(attribute.parameters)) + ")"
  }

  /** An attribute is written as its bare name exactly when it has no arguments. */
  lemma FormatAttributeBare(attribute: AttributeInfo)
    ensures FormatAttribute(attribute) == attribute.name <==> attribute.parameters == []
    ensures FormatAttribute(attribute)[..|attribute.name|] == attribute.name
  {
    if attribute.parameters != [] {
      assert |FormatAttribute(attribute)| > |attribute.name|;
    }
  }

  // ---------------------------------------------------------------------------
  // FormatName

  /** string.Format(template, name, kind), for the items {0} and {1}. */
  function FormatTemplate(template: string, name: string, kind: string): string
    decreases |template|
  {
    if template == [] then []
    else if |template| >= 3 && template[..3] == "{0}" then name + FormatTemplate(template[3..], name, kind)
    else if |template| >= 3 && template[..3] == "{1}" then kind + FormatTemplate(template[3..], name, kind)
    else [template[0]] + FormatTemplate(template[1..], name, kind)
  }

  /** The heading of a member: its kind's template filled in, or the bare name
      when the kind is not configured or has no template. */
  function FormatName(name: string, kind: string, kindOrder: seq<string>, kindTemplates: seq<string>): string {
    var kindIndex := IndexOf(kindOrder, kind);
    if kindIndex < 0 || kindIndex >= |kindTemplates| then name
    else FormatTemplate(kindTemplates[kindIndex], name, kind)
  }

  /** A template without braces is written as it is. */
  lemma {:induction false} TemplateWithoutItems(template: string, name: string, kind: string)
    requires '{' !in template
    ensures FormatTemplate(template, name, kind) == template
    decreases |template|
  {
    if template != [] {
      PlainCharacter(template, name, kind);
      TemplateWithoutItems(template[1..], name, kind);
    }
  }

  lemma PlainCharacter(template: string, name: string, kind: string)
    requires template != [] && template[0] != '{'
    ensures FormatTemplate(template, name, kind) == [template[0]] + FormatTemplate(template[1..], name, kind)
  {
    if |template| >= 3 {
      assert template[..3][0] == template[0];
    }
  }

  /** The default template `kind + " {0}"` writes the kind, a space and the name. */
  lemma DefaultTemplate(name: string, kind: string)
    requires '{' !in kind
    ensures FormatTemplate(kind + " {0}", name, kind) == kind + " " + name
  {
    assert kind + " {0}" == kind + " " + "{0}";
    TemplateSuffix(kind, " ", name, kind);
  }

  lemma {:induction false} TemplateSuffix(prefix: string, space: string, name: string, kind: string)
    requires '{' !in prefix && space == " "
    ensures FormatTemplate(prefix + space + "{0}", name, kind) == prefix + space + name
    decreases |prefix|
  {
    var t := prefix + space + "{0}";
    if prefix == [] {
      assert t == " {0}";
      PlainCharacter(t, name, kind);
      assert t[1..] == "{0}";
      assert FormatTemplate("{0}", name, kind) == name + FormatTemplate([], name, kind);
    } else {
      assert t[1..] == prefix[1..] + space + "{0}";
      assert t[0] == prefix[0];
      PlainCharacter(t, name, kind);
      TemplateSuffix(prefix[1..], space, name, kind);
    }
  }
}
