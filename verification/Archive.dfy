/** Text and names of materialised artifacts (cmd/slopshell/materialize.go). */
module Archive {
  import opened Text

  // ----- line ends -----

  /** The text with all its line ends, CRLF, CR or LF, turned into LF. */
  function LineFeeds(s: string): string {
    if s == "" then ""
    else if s[0] == '\r' && |s| > 1 && s[1] == '\n' then "\n" + LineFeeds(s[2..])
    else if s[0] == '\r' then "\n" + LineFeeds(s[1..])
    else [s[0]] + LineFeeds(s[1..])
  }

  function ReplacePairs(s: string): string {
    if s == "" then ""
    else if s[0] == '\r' && |s| > 1 && s[1] == '\n' then "\n" + ReplacePairs(s[2..])
    else [s[0]] + ReplacePairs(s[1..])
  }

  function ReplaceChar(s: string, c: char, replacement: string): string {
    if s == "" then "" else (if s[0] == c then replacement else [s[0]]) + ReplaceChar(s[1..], c, replacement)
  }

  /** normalizeEMLBody: three replacements, one after the other. */
  function NormalizeBody(body: string): string {
    ReplaceChar(ReplaceChar(ReplacePairs(body), '\r', "\n"), '\n', "\r\n")
  }

  /** Section 2.3 of RFC 5322: CR and LF occur only together. */
  predicate OnlyPairs(s: string) {
    && (forall i :: 0 <= i < |s| && s[i] == '\r' ==> i + 1 < |s| && s[i + 1] == '\n')
    && (forall i :: 0 <= i < |s| && s[i] == '\n' ==> i > 0 && s[i - 1] == '\r')
  }

  lemma {:induction false} FirstTwoReplacements(s: string)
    ensures ReplaceChar(ReplacePairs(s), '\r', "\n") == LineFeeds(s)
    decreases |s|
  {
    if s != "" {
      if s[0] == '\r' && |s| > 1 && s[1] == '\n' {
        FirstTwoReplacements(s[2..]);
        assert ("\n" + ReplacePairs(s[2..]))[1..] == ReplacePairs(s[2..]);
      } else {
        FirstTwoReplacements(s[1..]);
        assert ([s[0]] + ReplacePairs(s[1..]))[1..] == ReplacePairs(s[1..]);
      }
    }
  }

  lemma {:induction false} LineFeedsHasNoReturns(s: string)
    ensures '\r' !in LineFeeds(s)
    decreases |s|
  {
    if s != "" {
      LineFeedsHasNoReturns(if s[0] == '\r' && |s| > 1 && s[1] == '\n' then s[2..] else s[1..]);
    }
  }

  lemma {:induction false} PairedLineFeeds(s: string)
    requires '\r' !in s
    ensures OnlyPairs(ReplaceChar(s, '\n', "\r\n")) && LineFeeds(ReplaceChar(s, '\n', "\r\n")) == s
    decreases |s|
  {
    if s != "" {
      var rest := ReplaceChar(s[1..], '\n', "\r\n");
      PairedLineFeeds(s[1..]);
      if s[0] == '\n' {
        assert ("\r\n" + rest)[2..] == rest;
        PairFirst(rest);
      } else {
        assert ([s[0]] + rest)[1..] == rest;
        OtherFirst(s[0], rest);
      }
      assert s == [s[0]] + s[1..];
    }
  }

  lemma PairFirst(rest: string)
    requires OnlyPairs(rest)
    ensures OnlyPairs("\r\n" + rest)
  {
    var s := "\r\n" + rest;
    assert forall i :: 2 <= i < |s| ==> s[i] == rest[i - 2];
    if rest != "" {
      assert rest[0] != '\n';
    }
  }

  lemma OtherFirst(c: char, rest: string)
    requires OnlyPairs(rest) && c != '\r' && c != '\n'
    ensures OnlyPairs([c] + rest)
  {
    var s := [c] + rest;
    assert forall i :: 1 <= i < |s| ==> s[i] == rest[i - 1];
    if rest != "" {
      assert rest[0] != '\n';
    }
  }

  /** The body keeps its lines and leaves only CRLF pairs, and doing it again changes nothing. */
  lemma BodyIsCanonical(body: string)
    ensures OnlyPairs(NormalizeBody(body))
    ensures LineFeeds(NormalizeBody(body)) == LineFeeds(body)
    ensures NormalizeBody(NormalizeBody(body)) == NormalizeBody(body)
  {
    FirstTwoReplacements(body);
    LineFeedsHasNoReturns(body);
    PairedLineFeeds(LineFeeds(body));
    FirstTwoReplacements(NormalizeBody(body));
  }

  // ----- calendar text -----

  function EscapeText(s: string): string {
    if s == "" then ""
    else if s[0] in {'\\', ';', ','} then "\\" + [s[0]] + EscapeText(s[1..])
    else if s[0] == '\r' && |s| > 1 && s[1] == '\n' then "\\n" + EscapeText(s[2..])
    else if s[0] in {'\n', '\r'} then "\\n" + EscapeText(s[1..])
    else [s[0]] + EscapeText(s[1..])
  }

  /** escapeICS */
  function EscapeICS(raw: string): string {
    EscapeText(TrimSpace(raw))
  }

  /** The control characters that section 3.3.11 of RFC 5545 keeps out of a text: all of them except the tab. */
  predicate IsControl(c: char) {
    (c < ' ' && c != '\t') || c as int == 0x7f
  }

  /** The section read the other way; None for text that it does not allow. */
  function Unescape(s: string): Option<string> {
    if s == "" then Some("")
    else if s[0] == '\\' then
      if |s| == 1 then None else
        match Unescape(s[2..])
        case None => None
        case Some(rest) =>
          if s[1] in {'\\', ';', ','} then Some([s[1]] + rest)
          else if s[1] in {'n', 'N'} then Some("\n" + rest)
          else None
    else if s[0] in {';', ','} || IsControl(s[0]) then None
    else
      match Unescape(s[1..])
      case None => None
      case Some(rest) => Some([s[0]] + rest)
  }

  /** The only control characters are tabs and line ends. */
  predicate PlainText(s: string) {
    forall i :: 0 <= i < |s| && IsControl(s[i]) ==> s[i] in {'\n', '\r'}
  }

  lemma {:induction false} UnescapeInvertsEscape(s: string)
    ensures Unescape(EscapeText(s)) == if PlainText(s) then Some(LineFeeds(s)) else None
    decreases |s|
  {
    if s != "" {
      var rest := if s[0] == '\r' && |s| > 1 && s[1] == '\n' then s[2..] else s[1..];
      UnescapeInvertsEscape(rest);
      PlainTextOneMore(s, rest);
      if s[0] in {'\\', ';', ','} {
        UnescapePair(s[0], EscapeText(rest));
      } else if s[0] in {'\n', '\r'} {
        UnescapePair('n', EscapeText(rest));
      } else {
        assert ([s[0]] + EscapeText(rest))[1..] == EscapeText(rest);
      }
    }
  }

  lemma PlainTextOneMore(s: string, rest: string)
    requires s != "" && (rest == s[1..] || (|s| > 1 && rest == s[2..] && s[0] == '\r' && s[1] == '\n'))
    ensures PlainText(s) <==> PlainText(rest) && (IsControl(s[0]) ==> s[0] in {'\n', '\r'})
  {
    var n := |s| - |rest|;
    assert forall i :: 0 <= i < |rest| ==> rest[i] == s[i + n];
    assert forall i :: n <= i < |s| ==> s[i] == rest[i - n];
  }

  lemma UnescapePair(c: char, rest: string)
    requires c in {'\\', ';', ',', 'n'}
    ensures Unescape("\\" + [c] + rest) ==
            match Unescape(rest)
            case None => None
            case Some(value) => Some((if c == 'n' then "\n" else [c]) + value)
  {
    var s := "\\" + [c] + rest;
    assert s[2..] == rest;
  }

  /**
   The escaped text is allowed exactly when the trimmed text has no control characters but tabs and line ends, and
   reading it gives the trimmed text with LF line ends.
   */
  lemma EscapedTextReadsBack(raw: string)
    ensures Unescape(EscapeICS(raw)) == if PlainText(TrimSpace(raw)) then Some(LineFeeds(TrimSpace(raw))) else None
  {
    UnescapeInvertsEscape(TrimSpace(raw));
  }

  /** What is written for a character other than CR. */
  function Code(c: char): string {
    if c in {'\\', ';', ','} then "\\" + [c] else if c == '\n' then "\\n" else [c]
  }

  lemma CodeTellsChar(a: char, x: string, b: char, y: string)
    requires Code(a) + x == Code(b) + y
    ensures a == b && x == y
  {
    var s, t := Code(a) + x, Code(b) + y;
    assert s[0] == Code(a)[0] && t[0] == Code(b)[0];
    assert |Code(a)| == 2 ==> s[1] == Code(a)[1];
    assert |Code(b)| == 2 ==> t[1] == Code(b)[1];
    assert s[|Code(a)|..] == x && t[|Code(b)|..] == y;
  }

  lemma {:induction false} EscapeTellsText(a: string, b: string)
    requires '\r' !in a && '\r' !in b && EscapeText(a) == EscapeText(b)
    ensures a == b
    decreases |a|
  {
    if a != "" && b != "" {
      assert EscapeText(a) == Code(a[0]) + EscapeText(a[1..]) && EscapeText(b) == Code(b[0]) + EscapeText(b[1..]);
      CodeTellsChar(a[0], EscapeText(a[1..]), b[0], EscapeText(b[1..]));
      EscapeTellsText(a[1..], b[1..]);
      assert a == [a[0]] + a[1..] && b == [b[0]] + b[1..];
    }
  }

  lemma {:induction false} EscapeTakesLineEnds(s: string)
    ensures EscapeText(LineFeeds(s)) == EscapeText(s)
    decreases |s|
  {
    if s != "" {
      var rest := if s[0] == '\r' && |s| > 1 && s[1] == '\n' then s[2..] else s[1..];
      var first := if s[0] == '\r' then '\n' else s[0];
      EscapeTakesLineEnds(rest);
      assert LineFeeds(s) == [first] + LineFeeds(rest);
      assert LineFeeds(s)[1..] == LineFeeds(rest);
    }
  }

  /** Two texts are written alike exactly when they agree up to surrounding white space and the style of line ends. */
  lemma EscapeIsInjective(a: string, b: string)
    ensures EscapeICS(a) == EscapeICS(b) <==> LineFeeds(TrimSpace(a)) == LineFeeds(TrimSpace(b))
  {
    var x, y := TrimSpace(a), TrimSpace(b);
    EscapeTakesLineEnds(x);
    EscapeTakesLineEnds(y);
    LineFeedsHasNoReturns(x);
    LineFeedsHasNoReturns(y);
    if EscapeText(x) == EscapeText(y) {
      EscapeTellsText(LineFeeds(x), LineFeeds(y));
    }
  }

  // ----- file names -----

  predicate IsAlnum(c: char) {
    'a' <= c <= 'z' || '0' <= c <= '9'
  }

  predicate SingleDashes(s: string) {
    && (forall i :: 0 <= i < |s| ==> IsAlnum(s[i]) || s[i] == '-')
    && (forall i :: 0 < i < |s| ==> IsAlnum(s[i - 1]) || IsAlnum(s[i]))
  }

  /** Runs of letters and digits separated by single dashes. */
  predicate IsSegment(s: string) {
    s != "" && IsAlnum(s[0]) && IsAlnum(s[|s| - 1]) && SingleDashes(s)
  }

  predicate EndsInDash(s: string) {
    s != "" && s[|s| - 1] == '-'
  }

  /** What the loop has written for the text so far. */
  function Dashed(s: string): string {
    if s == "" then "" else
      var before, c := Dashed(s[..|s| - 1]), s[|s| - 1];
      if IsAlnum(c) then before + [c] else if EndsInDash(before) then before else before + "-"
  }

  /** strings.Trim(s, "-") */
  function TrimDashes(s: string): string {
    if s == "" then ""
    else if s[0] == '-' then TrimDashes(s[1..])
    else if s[|s| - 1] == '-' then TrimDashes(s[..|s| - 1])
    else s
  }

  function Sanitized(raw: string): string {
    var clean := TrimDashes(Dashed(Lower(TrimSpace(raw))));
    if clean == "" then "artifact" else clean
  }

  /** sanitizePathSegment */
  method SanitizePathSegment(raw: string) returns (segment: string)
    ensures segment == Sanitized(raw)
  {
    var lower := Lower(TrimSpace(raw));
    var b, lastDash := "", false;
    for i := 0 to |lower|
      invariant b == Dashed(lower[..i]) && lastDash == EndsInDash(b)
    {
      assert lower[..i + 1][..i] == lower[..i];
      if IsAlnum(lower[i]) {
        b := b + [lower[i]];
        lastDash := false;
      } else if !lastDash {
        b := b + "-";
        lastDash := true;
      }
    }
    assert lower[..|lower|] == lower;
    var clean := TrimDashes(b);
    if clean == "" {
      return "artifact";
    }
    segment := clean;
  }

  lemma {:induction false} DashedHasSingleDashes(s: string)
    ensures SingleDashes(Dashed(s))
    decreases |s|
  {
    if s != "" {
      DashedHasSingleDashes(s[..|s| - 1]);
    }
  }

  lemma {:induction false} TrimmedIsSegment(s: string)
    requires SingleDashes(s)
    ensures TrimDashes(s) == "" || IsSegment(TrimDashes(s))
    decreases |s|
  {
    if s != "" {
      if s[0] == '-' {
        TrimmedIsSegment(s[1..]);
      } else if s[|s| - 1] == '-' {
        TrimmedIsSegment(s[..|s| - 1]);
      }
    }
  }

  /** Whatever the title, its segment is a name of letters, digits and single inner dashes. */
  lemma SanitizedIsSegment(raw: string)
    ensures IsSegment(Sanitized(raw))
  {
    var d := Dashed(Lower(TrimSpace(raw)));
    DashedHasSingleDashes(Lower(TrimSpace(raw)));
    TrimmedIsSegment(d);
    assert IsSegment("artifact");
  }

  lemma {:induction false} SegmentIsDashed(s: string)
    requires SingleDashes(s)
    ensures Dashed(s) == s
    decreases |s|
  {
    if s != "" {
      var n := |s| - 1;
      SegmentIsDashed(s[..n]);
      assert s == s[..n] + [s[n]];
      assert n > 0 ==> IsAlnum(s[n - 1]) || IsAlnum(s[n]);
    }
  }

  lemma AlnumEndsStay(s: string)
    requires s != "" && IsAlnum(s[0]) && IsAlnum(s[|s| - 1])
    ensures TrimSpace(s) == s && TrimDashes(s) == s
  {
    NotTrimmed(s);
  }

  lemma SegmentIsLower(s: string)
    requires SingleDashes(s)
    ensures Lower(s) == s
  {
    assert forall i :: 0 <= i < |s| ==> LowerChar(s[i]) == s[i];
  }

  /** A segment is its own segment, so sanitizing twice is sanitizing once. */
  lemma SegmentIsFixed(s: string)
    requires IsSegment(s)
    ensures Sanitized(s) == s
  {
    AlnumEndsStay(s);
    SegmentIsLower(s);
    SegmentIsDashed(s);
  }

  /** The maximal runs of letters and digits in a text. */
  function Words(s: string): seq<string> {
    if s == "" then [] else
      var n := |s| - 1;
      var before := Words(s[..n]);
      if !IsAlnum(s[n]) then before
      else if n > 0 && IsAlnum(s[n - 1]) && before != [] then
        before[..|before| - 1] + [before[|before| - 1] + [s[n]]]
      else before + [[s[n]]]
  }

  lemma DashedEnds(s: string)
    ensures s == "" <==> Dashed(s) == ""
    ensures s != "" ==> var d := Dashed(s); d[|d| - 1] == if IsAlnum(s[|s| - 1]) then s[|s| - 1] else '-'
  {
  }

  lemma {:induction false} DashedKeepsWords(s: string)
    ensures Words(Dashed(s)) == Words(s)
    decreases |s|
  {
    if s != "" {
      var before, c := Dashed(s[..|s| - 1]), s[|s| - 1];
      DashedKeepsWords(s[..|s| - 1]);
      DashedEnds(s[..|s| - 1]);
      assert (before + [c])[..|before|] == before && (before + "-")[..|before|] == before;
    }
  }

  lemma {:induction false} LeadingDash(s: string)
    ensures Words("-" + s) == Words(s)
    decreases |s|
  {
    var t := "-" + s;
    if s == "" {
      assert t[..0] == "";
    } else {
      assert t[..|t| - 1] == "-" + s[..|s| - 1];
      LeadingDash(s[..|s| - 1]);
      if |s| == 1 {
        assert s[..0] == "";
      }
    }
  }

  lemma {:induction false} TrimKeepsWords(s: string)
    ensures Words(TrimDashes(s)) == Words(s)
    decreases |s|
  {
    if s != "" && s[0] == '-' {
      assert s == "-" + s[1..];
      LeadingDash(s[1..]);
      TrimKeepsWords(s[1..]);
    } else if s != "" && s[|s| - 1] == '-' {
      TrimKeepsWords(s[..|s| - 1]);
    }
  }

  /** A segment has the words of the lower-cased title, and is "artifact" only if it has to be. */
  lemma SanitizedKeepsWords(raw: string)
    ensures var words := Words(Lower(TrimSpace(raw)));
            if words == [] then Sanitized(raw) == "artifact" else Words(Sanitized(raw)) == words
  {
    var d := Dashed(Lower(TrimSpace(raw)));
    DashedKeepsWords(Lower(TrimSpace(raw)));
    DashedHasSingleDashes(Lower(TrimSpace(raw)));
    TrimmedIsSegment(d);
    TrimKeepsWords(d);
    if TrimDashes(d) != "" {
      SegmentHasWords(TrimDashes(d));
    }
  }

  lemma {:induction false} SegmentHasWords(s: string)
    requires s != "" && IsAlnum(s[|s| - 1])
    ensures Words(s) != []
  {
  }

  // ----- paths -----

  function Split(path: string): (parts: seq<string>)
    ensures parts != []
  {
    var n := Before(path, '/');
    if n == |path| then [path] else [path[..n]] + Split(path[n + 1..])
  }

  function Join(parts: seq<string>): string {
    if parts == [] then "" else if |parts| == 1 then parts[0] else parts[0] + "/" + Join(parts[1..])
  }

  /** filepath.Clean of a relative path, part by part; `done` is what the parts so far come to. */
  function CleanParts(done: seq<string>, parts: seq<string>): seq<string>
    decreases |parts|
  {
    if parts == [] then done
    else if parts[0] in {"", "."} then CleanParts(done, parts[1..])
    else if parts[0] == ".." && done != [] && done[|done| - 1] != ".." then
      CleanParts(done[..|done| - 1], parts[1..])
    else CleanParts(done + [parts[0]], parts[1..])
  }

  function CleanPath(path: string): string {
    var clean := Join(CleanParts([], Split(path)));
    if clean == "" then "." else clean
  }

  predicate IsPlainPart(part: string) {
    '/' !in part && part !in {"", ".", ".."}
  }

  predicate PlainParts(parts: seq<string>) {
    forall i :: 0 <= i < |parts| ==> IsPlainPart(parts[i])
  }

  lemma SplitFirst(first: string, rest: string)
    requires '/' !in first
    ensures Split(first + "/" + rest) == [first] + Split(rest)
  {
    var path := first + "/" + rest;
    assert forall i :: 0 <= i < |first| ==> path[i] == first[i] && first[i] in first;
    BeforeIs(path, '/', |first|);
    assert path[..|first|] == first && path[|first| + 1..] == rest;
  }

  lemma SplitOnePart(part: string)
    requires '/' !in part
    ensures Split(part) == [part]
  {
    assert forall i :: 0 <= i < |part| ==> part[i] in part;
  }

  lemma {:induction false} SplitJoin(parts: seq<string>)
    requires parts != [] && PlainParts(parts)
    ensures Split(Join(parts)) == parts
    decreases |parts|
  {
    var first, rest := parts[0], parts[1..];
    assert IsPlainPart(first);
    if rest == [] {
      SplitOnePart(first);
      assert parts == [first];
    } else {
      assert PlainParts(rest);
      SplitJoin(rest);
      SplitFirst(first, Join(rest));
      assert parts == [first] + rest;
    }
  }

  lemma {:induction false} PlainPartsStay(done: seq<string>, parts: seq<string>)
    requires PlainParts(parts)
    ensures CleanParts(done, parts) == done + parts
    decreases |parts|
  {
    if parts != [] {
      assert IsPlainPart(parts[0]);
      PlainPartsStay(done + [parts[0]], parts[1..]);
      assert done + [parts[0]] + parts[1..] == done + parts;
    }
  }

  lemma PlainPathIsClean(parts: seq<string>)
    requires parts != [] && PlainParts(parts)
    ensures CleanPath(Join(parts)) == Join(parts)
  {
    SplitJoin(parts);
    PlainPartsStay([], parts);
    assert [] + parts == parts;
    assert IsPlainPart(parts[0]);
  }

  const ROOT := ".slopshell/materialized"

  /** filepath.Ext: the last part of the path from its last dot on. */
  function PathExtension(path: string): string {
    if path == "" then "" else
      var n := |path| - 1;
      if path[n] == '/' then ""
      else if path[n] == '.' then "."
      else if PathExtension(path[..n]) == "" then ""
      else PathExtension(path[..n]) + [path[n]]
  }

  /** strings.TrimPrefix(s, ".") */
  function WithoutDot(s: string): string {
    if s != "" && s[0] == '.' then s[1..] else s
  }

  /** Where the content comes from: a file of another place, or what the program renders. */
  datatype Origin = Copied(refPath: string) | Rendered

  /** The format that copyArtifactRefIntoWorkspace or renderArtifactContent gives. */
  function FormatOf(kind: string, origin: Origin): string {
    match origin
    case Copied(refPath) =>
      var bare := WithoutDot(Lower(PathExtension(refPath)));
      if bare == "" then "bin" else bare
    case Rendered =>
      if kind == "email" then "eml" else if kind == "calendar_event" then "ics" else "md"
  }

  /** The file extension for a format: without its dot, "txt" by default. */
  function Extension(format: string): string {
    var bare := WithoutDot(Lower(TrimSpace(format)));
    if bare == "" then "txt" else bare
  }

  /** materializedFileBaseName, from the stem on: the title, or else what the URL or the path gives. */
  function BaseName(stem: string, id: nat): string {
    Sanitized(stem) + "-" + Decimal(id)
  }

  /** The relative path that writeMaterializedArtifact joins and cleans. */
  function ArtifactPath(kind: string, stem: string, id: nat, format: string): string {
    CleanPath(Join([ROOT, Sanitized(kind), BaseName(stem, id) + "." + Extension(format)]))
  }

  lemma {:induction false} PathExtensionIsInOnePart(path: string)
    ensures '/' !in PathExtension(path)
    decreases |path|
  {
    if path != "" {
      PathExtensionIsInOnePart(path[..|path| - 1]);
    }
  }

  lemma TrimmedIsInside(s: string, c: char)
    requires c !in s
    ensures c !in TrimSpace(s)
  {
    TrimLeftDrops(s, c);
    TrimRightDone(TrimLeft(s));
    assert forall i :: 0 <= i < |TrimSpace(s)| ==> TrimSpace(s)[i] == TrimLeft(s)[i];
  }

  lemma {:induction false} TrimLeftDrops(s: string, c: char)
    requires c !in s
    ensures c !in TrimLeft(s)
    decreases |s|
  {
    var n := SpaceAt(s, 0);
    if n != 0 {
      TrimLeftDrops(s[n..], c);
    }
  }

  lemma LowerAddsNoSlash(s: string)
    requires '/' !in s
    ensures '/' !in WithoutDot(Lower(s))
  {
    assert forall i :: 0 <= i < |s| ==> s[i] in s && Lower(s)[i] == LowerChar(s[i]);
  }

  /** No format that the program gives has a slash in its extension. */
  lemma ExtensionIsInOnePart(kind: string, origin: Origin)
    ensures '/' !in Extension(FormatOf(kind, origin))
  {
    var format := FormatOf(kind, origin);
    if origin.Copied? {
      PathExtensionIsInOnePart(origin.refPath);
      LowerAddsNoSlash(PathExtension(origin.refPath));
    }
    assert '/' !in format;
    TrimmedIsInside(format, '/');
    LowerAddsNoSlash(TrimSpace(format));
  }

  /** A name that ends in a dash and digits is made of one name and one row of digits only. */
  lemma DashDigits(a: string, x: string, b: string, y: string)
    requires a + "-" + x == b + "-" + y && AllDigits(x) && AllDigits(y)
    ensures a == b && x == y
  {
    var s, m, n := a + "-" + x, |x|, |y|;
    assert s[|s| - m - 1] == '-' && s[|s| - n - 1] == '-';
    assert s[|s| - m..] == x && s[|s| - n..] == y;
    assert forall k :: 0 <= k < m ==> s[|s| - m + k] == x[k];
    assert forall k :: 0 <= k < n ==> s[|s| - n + k] == y[k];
    SameLength(s, m, n);
    assert s[..|s| - m - 1] == a && s[..|s| - n - 1] == b;
  }

  lemma BaseNameTellsId(a: string, b: string, i: nat, j: nat)
    requires a + "-" + Decimal(i) == b + "-" + Decimal(j)
    ensures a == b && i == j
  {
    DashDigits(a, Decimal(i), b, Decimal(j));
    ParsePrinted(i);
    ParsePrinted(j);
  }

  /** A string that ends in a dash and digits has them from one place only. */
  lemma SameLength(s: string, m: nat, n: nat)
    requires m < |s| && n < |s| && s[|s| - m - 1] == '-' && s[|s| - n - 1] == '-'
    requires forall k :: |s| - m <= k < |s| ==> IsDigit(s[k])
    requires forall k :: |s| - n <= k < |s| ==> IsDigit(s[k])
    ensures m == n
  {
  }

  /** A piece up to a separator that it does not contain. */
  lemma SplitOnce(a: string, b: string, x: string, y: string, c: char)
    requires a + [c] + x == b + [c] + y && c !in a && c !in b
    ensures a == b && x == y
  {
    var s := a + [c] + x;
    assert forall i :: 0 <= i < |a| ==> s[i] == a[i] && a[i] in a;
    assert forall i :: 0 <= i < |b| ==> s[i] == b[i] && b[i] in b;
    BeforeIs(s, c, |a|);
    BeforeIs(s, c, |b|);
    assert s[..|a|] == a && s[..|b|] == b && s[|a| + 1..] == x && s[|b| + 1..] == y;
  }

  lemma SegmentHasNeither(s: string)
    requires IsSegment(s)
    ensures '/' !in s && '.' !in s
  {
  }

  lemma BaseNameHasNoDot(stem: string, id: nat)
    ensures '.' !in BaseName(stem, id)
  {
    SanitizedIsSegment(stem);
    SegmentHasNeither(Sanitized(stem));
    assert forall c :: c in Decimal(id) ==> IsDigit(c);
  }

  lemma PathParts(root: string, dir: string, base: string, ext: string, dir': string, base': string, ext': string)
    requires root + "/" + dir + "/" + (base + "." + ext) == root + "/" + dir' + "/" + (base' + "." + ext')
    requires '/' !in dir && '/' !in dir' && '.' !in base && '.' !in base'
    ensures dir == dir' && base == base' && ext == ext'
  {
    var head := root + "/";
    var file, file' := base + "." + ext, base' + "." + ext';
    assert root + "/" + dir + "/" + file == head + (dir + "/" + file);
    assert root + "/" + dir' + "/" + file' == head + (dir' + "/" + file');
    assert (head + (dir + "/" + file))[|head|..] == dir + "/" + file;
    assert (head + (dir' + "/" + file'))[|head|..] == dir' + "/" + file';
    SplitOnce(dir, dir', file, file', '/');
    SplitOnce(base, base', ext, ext', '.');
  }

  lemma FileIsPlain(base: string, ext: string)
    requires '/' !in base && '.' !in base && base != "" && '/' !in ext
    ensures IsPlainPart(base + "." + ext)
  {
    var file := base + "." + ext;
    assert file[0] == base[0] && base[0] in base;
  }

  lemma SegmentIsPlain(segment: string)
    requires IsSegment(segment)
    ensures IsPlainPart(segment)
  {
    SegmentHasNeither(segment);
    assert segment[0] in segment;
  }

  lemma BaseNameHasNoSlash(stem: string, id: nat)
    ensures '/' !in BaseName(stem, id) && BaseName(stem, id) != ""
  {
    SanitizedIsSegment(stem);
    SegmentHasNeither(Sanitized(stem));
    assert forall c :: c in Decimal(id) ==> IsDigit(c);
  }

  lemma RootedPathIsClean(dir: string, file: string)
    requires IsPlainPart(dir) && IsPlainPart(file)
    ensures CleanPath(Join([ROOT, dir, file])) == ROOT + "/" + dir + "/" + file
  {
    JoinFromRoot(dir, file);
    RootPartsArePlain();
    PlainPathIsClean([".slopshell", "materialized", dir, file]);
  }

  lemma RootPartsArePlain()
    ensures IsPlainPart(".slopshell") && IsPlainPart("materialized")
  {
    assert |".slopshell"| == 10;
  }

  /** Cleaning leaves the joined path alone, so an artifact is written to its own kind's directory below the root. */
  lemma PathIsInItsDirectory(kind: string, stem: string, id: nat, origin: Origin)
    ensures var dir, file := Sanitized(kind), BaseName(stem, id) + "." + Extension(FormatOf(kind, origin));
            && IsPlainPart(dir) && IsPlainPart(file)
            && ArtifactPath(kind, stem, id, FormatOf(kind, origin)) == ROOT + "/" + dir + "/" + file
  {
    SanitizedIsSegment(kind);
    SegmentIsPlain(Sanitized(kind));
    BaseNameHasNoDot(stem, id);
    BaseNameHasNoSlash(stem, id);
    ExtensionIsInOnePart(kind, origin);
    FileIsPlain(BaseName(stem, id), Extension(FormatOf(kind, origin)));
    RootedPathIsClean(Sanitized(kind), BaseName(stem, id) + "." + Extension(FormatOf(kind, origin)));
  }

  lemma JoinFromRoot(dir: string, file: string)
    ensures Join([ROOT, dir, file]) == ROOT + "/" + dir + "/" + file
    ensures Join([".slopshell", "materialized", dir, file]) == ROOT + "/" + dir + "/" + file
  {
    assert Join([file]) == file;
    assert [dir, file][1..] == [file];
    assert Join([dir, file]) == dir + "/" + file;
    assert [ROOT, dir, file][1..] == [dir, file];
    assert ["materialized", dir, file][1..] == [dir, file];
    assert [".slopshell", "materialized", dir, file][1..] == ["materialized", dir, file];
    assert Join(["materialized", dir, file]) == "materialized" + "/" + (dir + "/" + file);
    assert ROOT == ".slopshell" + "/" + "materialized";
  }

  lemma PathsTell(dir: string, stem: string, i: nat, ext: string,
                  dir': string, stem': string, j: nat, ext': string)
    requires IsPlainPart(dir) && IsPlainPart(dir')
    requires ROOT + "/" + dir + "/" + (BaseName(stem, i) + "." + ext) ==
             ROOT + "/" + dir' + "/" + (BaseName(stem', j) + "." + ext')
    ensures dir == dir' && Sanitized(stem) == Sanitized(stem') && i == j && ext == ext'
  {
    BaseNameHasNoDot(stem, i);
    BaseNameHasNoDot(stem', j);
    PathParts(ROOT, dir, BaseName(stem, i), ext, dir', BaseName(stem', j), ext');
    BaseNameTellsId(Sanitized(stem), Sanitized(stem'), i, j);
  }

  /** A path tells the id, so artifacts with different ids never share one, whatever their kinds, titles and origins. */
  lemma PathTellsId(kind: string, stem: string, i: nat, origin: Origin,
                    kind': string, stem': string, j: nat, origin': Origin)
    requires ArtifactPath(kind, stem, i, FormatOf(kind, origin)) ==
             ArtifactPath(kind', stem', j, FormatOf(kind', origin'))
    ensures i == j && Sanitized(kind) == Sanitized(kind') && Sanitized(stem) == Sanitized(stem')
    ensures Extension(FormatOf(kind, origin)) == Extension(FormatOf(kind', origin'))
  {
    PathIsInItsDirectory(kind, stem, i, origin);
    PathIsInItsDirectory(kind', stem', j, origin');
    PathsTell(Sanitized(kind), stem, i, Extension(FormatOf(kind, origin)),
              Sanitized(kind'), stem', j, Extension(FormatOf(kind', origin')));
  }

  /** What the program renders is mail, a calendar entry or else Markdown, by the kind of the artifact. */
  lemma RenderedPaths(kind: string, stem: string, id: nat)
    ensures ArtifactPath(kind, stem, id, FormatOf(kind, Rendered)) ==
            ROOT + "/" + Sanitized(kind) + "/"
            + (BaseName(stem, id) + "." + if kind == "email" then "eml" else if kind == "calendar_event" then "ics" else "md")
  {
    PathIsInItsDirectory(kind, stem, id, Rendered);
    RenderedExtension(kind);
  }

  lemma RenderedExtension(kind: string)
    ensures Extension(FormatOf(kind, Rendered)) ==
            if kind == "email" then "eml" else if kind == "calendar_event" then "ics" else "md"
  {
    if kind == "email" {
      PlainEml();
    } else if kind == "calendar_event" {
      PlainIcs();
    } else {
      PlainMd();
    }
  }

  lemma PlainEml()
    ensures Extension("eml") == "eml"
  {
    assert IsSegment("eml");
    PlainExtension("eml");
  }

  lemma PlainIcs()
    ensures Extension("ics") == "ics"
  {
    assert IsSegment("ics");
    PlainExtension("ics");
  }

  lemma PlainMd()
    ensures Extension("md") == "md"
  {
    assert IsSegment("md");
    PlainExtension("md");
  }

  lemma PlainExtension(ext: string)
    requires IsSegment(ext)
    ensures Extension(ext) == ext
  {
    AlnumEndsStay(ext);
    SegmentIsLower(ext);
  }

  lemma {:induction false} ExtensionAfterDot(base: string, ext: string)
    requires '.' !in ext && '/' !in ext
    ensures PathExtension(base + "." + ext) == "." + ext
    decreases |ext|
  {
    var path := base + "." + ext;
    if ext == "" {
      assert path == base + ".";
    } else {
      var n := |ext| - 1;
      ExtensionAfterDot(base, ext[..n]);
      assert path[..|path| - 1] == base + "." + ext[..n] && path[|path| - 1] == ext[n];
      assert ("." + ext[..n]) + [ext[n]] == "." + ext;
    }
  }

  /** A copied file keeps its extension, in lower case. */
  lemma CopiedKeepsExtension(kind: string, base: string, ext: string)
    requires '.' !in ext && '/' !in ext && IsSegment(Lower(ext))
    ensures Extension(FormatOf(kind, Copied(base + "." + ext))) == Lower(ext)
  {
    ExtensionAfterDot(base, ext);
    assert Lower("." + ext) == "." + Lower(ext);
    assert ("." + Lower(ext))[1..] == Lower(ext);
    PlainExtension(Lower(ext));
  }

  lemma {:induction false} NameHasNoExtension(dir: string, base: string)
    requires '.' !in base && '/' !in base
    ensures PathExtension(dir + "/" + base) == "" && PathExtension(base) == ""
    decreases |base|
  {
    if base == "" {
      assert (dir + "/" + base)[|dir|] == '/';
    } else {
      var n := |base| - 1;
      assert base[n] in base && forall c :: c in base[..n] ==> c in base;
      NameHasNoExtension(dir, base[..n]);
      assert (dir + "/" + base)[..|dir| + 1 + n] == dir + "/" + base[..n];
    }
  }

  lemma PlainBin()
    ensures Extension("bin") == "bin"
  {
    assert IsSegment("bin");
    PlainExtension("bin");
  }

  /** And a file without one is written as bin. */
  lemma CopiedWithoutExtension(kind: string, dir: string, base: string)
    requires '.' !in base && '/' !in base
    ensures Extension(FormatOf(kind, Copied(dir + "/" + base))) == "bin"
    ensures Extension(FormatOf(kind, Copied(base))) == "bin"
  {
    NameHasNoExtension(dir, base);
    PlainBin();
    assert Lower("") == "";
  }

  /** What stays in a file name. */
  lemma AlnumIs(c: char)
    ensures IsAlnum(c) <==> c in SMALL || c in "0123456789"
  {
    if 'a' <= c <= 'z' {
      AlphabetsMatch(c as int - 'a' as int);
      assert SMALL[c as int - 'a' as int] == c;
    }
    if '0' <= c <= '9' {
      assert "0123456789"[c as int - '0' as int] == c;
    }
    if c in SMALL {
      var k :| 0 <= k < |SMALL| && SMALL[k] == c;
      AlphabetsMatch(k);
    }
  }
}
