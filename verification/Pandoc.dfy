/** The line map of pandoc sources: pages first, then both directions between lines and page positions. */
module Pandoc {
  import opened Reals
  import opened Text
  import opened Trimming

  /** Lines are numbered from 1; both ends belong to the page. */
  datatype Page = Page(number: int, start: int, end: int)

  function Span(p: Page): int {
    p.end - p.start + 1
  }

  // ----- which lines are page breaks -----

  predicate IsPageBreak(line: string) {
    Lower(TrimSpace(line)) in {
      "\\newpage", "\\pagebreak", "<div class=\"pagebreak\">", "<div style=\"page-break-after: always;\">",
      "::: pagebreak"
    }
  }

  /** A line is a break exactly when, apart from white space around it and the case of letters, it is one of these. */
  lemma BreakIs(w: string, t: string, v: string)
    requires Blank(w) && Blank(v) && Untrimmed(t)
    ensures IsPageBreak(w + t + v) <==>
            || Lower(t) == "\\newpage" || Lower(t) == "\\pagebreak" || Lower(t) == "::: pagebreak"
            || Lower(t) == "<div class=\"pagebreak\">" || Lower(t) == "<div style=\"page-break-after: always;\">"
  {
    TrimSpaceUnique(w, t, v);
  }

  lemma NewPageIsLower()
    ensures Lower("\\NewPage") == "\\newpage"
  {
  }

  lemma NewPageBreaks()
    ensures IsPageBreak(" " + "\\NewPage" + "\t")
  {
    OneSpaceIsBlank(" ");
    OneSpaceIsBlank("\t");
    PlainIsUntrimmed("\\NewPage");
    NewPageIsLower();
    BreakIs(" ", "\\NewPage", "\t");
  }

  function Breaks(lines: seq<string>): (bs: seq<bool>)
    ensures |bs| == |lines|
  {
    seq(|lines|, i requires 0 <= i < |lines| => IsPageBreak(lines[i]))
  }

  // ----- pages -----

  predicate BreakLine(bs: seq<bool>, line: int) {
    0 < line <= |bs| && bs[line - 1]
  }

  predicate TextLines(bs: seq<bool>, first: int, last: int) {
    0 < first && last <= |bs| && forall l :: first <= l <= last ==> !BreakLine(bs, l)
  }

  /** A break that nothing precedes on its page is a page of its own. */
  predicate BreakPage(bs: seq<bool>, p: Page) {
    p.end == p.start && BreakLine(bs, p.start)
  }

  /** Any other page is as much text as fits: it ends because it is full, before a break or with the file. */
  predicate TextPage(bs: seq<bool>, perPage: int, p: Page) {
    && 1 <= Span(p) <= perPage && TextLines(bs, p.start, p.end)
    && (Span(p) == perPage || p.end == |bs| || BreakLine(bs, p.end + 1))
  }

  /** Where the next page starts: a break that ends a page is on none. */
  function After(bs: seq<bool>, perPage: int, p: Page): int {
    if BreakPage(bs, p) || Span(p) == perPage then p.end + 1 else p.end + 2
  }

  predicate PageFits(pages: seq<Page>, bs: seq<bool>, perPage: int, i: int)
    requires 0 <= i < |pages|
  {
    && pages[i].number == i + 1
    && pages[i].start == (if i == 0 then 1 else After(bs, perPage, pages[i - 1]))
    && (BreakPage(bs, pages[i]) || TextPage(bs, perPage, pages[i]))
  }

  predicate PagesUpTo(pages: seq<Page>, bs: seq<bool>, perPage: int, next: int) {
    && (forall i {:trigger PageFits(pages, bs, perPage, i)} :: 0 <= i < |pages| ==> PageFits(pages, bs, perPage, i))
    && next == if pages == [] then 1 else After(bs, perPage, pages[|pages| - 1])
  }

  /** The pages of a file with these breaks. */
  predicate Paginates(pages: seq<Page>, bs: seq<bool>, perPage: int) {
    if bs == [] then pages == [Page(1, 1, 1)]
    else pages != [] && PagesUpTo(pages, bs, perPage, After(bs, perPage, pages[|pages| - 1]))
         && After(bs, perPage, pages[|pages| - 1]) > |bs|
  }

  method AppendPage(pages: seq<Page>, number: int, start: int, end: int) returns (r: seq<Page>)
    ensures r == if start > end then pages else pages + [Page(number, start, end)]
  {
    if start > end {
      return pages;
    }
    r := pages + [Page(number, start, end)];
  }

  lemma PagesGrow(pages: seq<Page>, bs: seq<bool>, perPage: int, p: Page)
    requires PagesUpTo(pages, bs, perPage, p.start) && p.number == |pages| + 1
    requires BreakPage(bs, p) || TextPage(bs, perPage, p)
    ensures PagesUpTo(pages + [p], bs, perPage, After(bs, perPage, p))
  {
    forall i | 0 <= i < |pages + [p]|
      ensures PageFits(pages + [p], bs, perPage, i)
    {
      assert i < |pages| ==> PageFits(pages, bs, perPage, i);
    }
  }

  /** After n lines: these pages are complete, and the text lines from `start` on are not yet a page. */
  predicate Scanned(pages: seq<Page>, bs: seq<bool>, perPage: int, start: int, n: int) {
    PagesUpTo(pages, bs, perPage, start) && TextLines(bs, start, n) && 0 <= n - start + 1 < perPage
  }

  lemma ScanText(pages: seq<Page>, bs: seq<bool>, perPage: int, start: int, n: int)
    requires Scanned(pages, bs, perPage, start, n) && n < |bs| && !bs[n]
    ensures n + 1 - start + 1 < perPage ==> Scanned(pages, bs, perPage, start, n + 1)
    ensures var p := Page(|pages| + 1, start, n + 1);
            Span(p) == perPage ==> Scanned(pages + [p], bs, perPage, n + 2, n + 1)
  {
    var p := Page(|pages| + 1, start, n + 1);
    assert forall l :: start <= l <= n + 1 && l != n + 1 ==> !BreakLine(bs, l);
    if Span(p) == perPage {
      PagesGrow(pages, bs, perPage, p);
    }
  }

  lemma ScanBreak(pages: seq<Page>, bs: seq<bool>, perPage: int, start: int, n: int)
    requires Scanned(pages, bs, perPage, start, n) && n < |bs| && bs[n]
    ensures var p := Page(|pages| + 1, start, Max(start, n));
            Scanned(pages + [p], bs, perPage, n + 2, n + 1)
  {
    PagesGrow(pages, bs, perPage, Page(|pages| + 1, start, Max(start, n)));
  }

  lemma ScanEnd(pages: seq<Page>, bs: seq<bool>, perPage: int, start: int)
    requires bs != [] && Scanned(pages, bs, perPage, start, |bs|)
    ensures var p := Page(|pages| + 1, start, |bs|);
            Paginates(if start > |bs| then pages else pages + [p], bs, perPage)
  {
    if start <= |bs| {
      PagesGrow(pages, bs, perPage, Page(|pages| + 1, start, |bs|));
    }
  }

  /**
   buildPandocPages: `breaks` tells of each line that the scanner delivers whether it is a page break;
   `readError` is the scanner's, which gives up on a line of a megabyte.
   */
  method BuildPages(breaks: seq<bool>, perPage: int, readError: bool) returns (result: Option<seq<Page>>)
    requires perPage >= 1
    ensures result.None? <==> readError
    ensures result.Some? ==> Paginates(result.value, breaks, perPage)
  {
    var pages: seq<Page> := [];
    var currentPage, pageStart, lineNumber, visibleLines := 1, 1, 0, 0;
    while lineNumber < |breaks|
      invariant lineNumber <= |breaks| && currentPage == |pages| + 1
      invariant visibleLines == lineNumber - pageStart + 1
      invariant Scanned(pages, breaks, perPage, pageStart, lineNumber)
      decreases |breaks| - lineNumber
    {
      lineNumber := lineNumber + 1;
      if breaks[lineNumber - 1] {
        ScanBreak(pages, breaks, perPage, pageStart, lineNumber - 1);
        pages := AppendPage(pages, currentPage, pageStart, Max(pageStart, lineNumber - 1));
        currentPage := currentPage + 1;
        pageStart := lineNumber + 1;
        visibleLines := 0;
        continue;
      }
      ScanText(pages, breaks, perPage, pageStart, lineNumber - 1);
      visibleLines := visibleLines + 1;
      if visibleLines >= perPage {
        pages := AppendPage(pages, currentPage, pageStart, lineNumber);
        currentPage := currentPage + 1;
        pageStart := lineNumber + 1;
        visibleLines := 0;
      }
    }
    if readError {
      return None;
    }
    if lineNumber == 0 {
      return Some([Page(1, 1, 1)]);
    }
    ScanEnd(pages, breaks, perPage, pageStart);
    if pageStart <= lineNumber {
      pages := AppendPage(pages, currentPage, pageStart, lineNumber);
    }
    if |pages| == 0 {
      assert false;
    }
    result := Some(pages);
  }

  function Max(a: int, b: int): int {
    if a > b then a else b
  }

  /** There is one way to paginate a file. */
  lemma PaginationUnique(a: seq<Page>, b: seq<Page>, bs: seq<bool>, perPage: int)
    requires perPage >= 1 && Paginates(a, bs, perPage) && Paginates(b, bs, perPage)
    ensures a == b
  {
    if bs != [] {
      var n := if |a| <= |b| then |a| else |b|;
      SamePrefix(a, b, bs, perPage, n);
      NoMorePages(a, bs, perPage, n);
      NoMorePages(b, bs, perPage, n);
    }
  }

  lemma NoMorePages(pages: seq<Page>, bs: seq<bool>, perPage: int, n: nat)
    requires perPage >= 1 && bs != [] && Paginates(pages, bs, perPage) && 0 < n <= |pages|
    ensures n < |pages| <==> After(bs, perPage, pages[n - 1]) <= |bs|
  {
    if n < |pages| {
      assert PageFits(pages, bs, perPage, n);
    }
  }

  lemma {:induction false} SamePrefix(a: seq<Page>, b: seq<Page>, bs: seq<bool>, perPage: int, n: nat)
    requires perPage >= 1 && bs != [] && Paginates(a, bs, perPage) && Paginates(b, bs, perPage)
    requires n <= |a| && n <= |b|
    ensures forall i :: 0 <= i < n ==> a[i] == b[i]
  {
    if n > 0 {
      SamePrefix(a, b, bs, perPage, n - 1);
      assert PageFits(a, bs, perPage, n - 1) && PageFits(b, bs, perPage, n - 1);
      SamePage(a[n - 1], b[n - 1], bs, perPage);
    }
  }

  lemma SamePage(p: Page, q: Page, bs: seq<bool>, perPage: int)
    requires p.number == q.number && p.start == q.start
    requires BreakPage(bs, p) || TextPage(bs, perPage, p)
    requires BreakPage(bs, q) || TextPage(bs, perPage, q)
    ensures p == q
  {
  }

  // ----- what a pagination means for the lines -----

  lemma {:induction false} PagesInOrder(pages: seq<Page>, bs: seq<bool>, perPage: int, i: nat, j: nat)
    requires perPage >= 1 && Paginates(pages, bs, perPage) && i < j < |pages|
    ensures pages[i].end < pages[j].start
    decreases j
  {
    assert PageFits(pages, bs, perPage, j) && PageFits(pages, bs, perPage, j - 1);
    if i < j - 1 {
      PagesInOrder(pages, bs, perPage, i, j - 1);
    }
  }

  predicate On(p: Page, line: int) {
    p.start <= line <= p.end
  }

  /** Of the lines up to page n, those on no page are breaks. */
  lemma {:induction false} OnSomePage(pages: seq<Page>, bs: seq<bool>, perPage: int, n: nat, line: int)
    requires perPage >= 1 && bs != [] && Paginates(pages, bs, perPage) && 0 < n <= |pages|
    requires 0 < line <= |bs| && line < After(bs, perPage, pages[n - 1]) && !BreakLine(bs, line)
    ensures exists i :: 0 <= i < |pages| && On(pages[i], line)
  {
    var last := pages[n - 1];
    assert PageFits(pages, bs, perPage, n - 1);
    if line >= last.start {
      assert On(last, line);
    } else if n > 1 {
      OnSomePage(pages, bs, perPage, n - 1, line);
    }
  }

  predicate Ordered(pages: seq<Page>) {
    forall i, j :: 0 <= i < j < |pages| ==> pages[i].end < pages[j].start
  }

  predicate Numbered(pages: seq<Page>, perPage: int) {
    forall i :: 0 <= i < |pages| ==> pages[i].number == i + 1 && 1 <= Span(pages[i]) <= perPage
  }

  /** Pages are numbered from 1, none is longer than perPage, and they follow each other without overlap. */
  lemma PagesAreOrdered(pages: seq<Page>, bs: seq<bool>, perPage: int)
    requires perPage >= 1 && Paginates(pages, bs, perPage)
    ensures Numbered(pages, perPage) && Ordered(pages)
  {
    forall i | 0 <= i < |pages|
      ensures pages[i].number == i + 1 && 1 <= Span(pages[i]) <= perPage
    {
      assert bs != [] ==> PageFits(pages, bs, perPage, i);
    }
    forall i, j | 0 <= i < j < |pages|
      ensures pages[i].end < pages[j].start
    {
      PagesInOrder(pages, bs, perPage, i, j);
    }
  }

  /** Each line that is no break is on exactly one page. */
  lemma TextIsOnOnePage(pages: seq<Page>, bs: seq<bool>, perPage: int, line: int)
    requires perPage >= 1 && Paginates(pages, bs, perPage) && 0 < line <= |bs| && !BreakLine(bs, line)
    ensures exists i :: 0 <= i < |pages| && On(pages[i], line)
    ensures forall i, j :: 0 <= i < |pages| && 0 <= j < |pages| && On(pages[i], line) && On(pages[j], line) ==> i == j
  {
    OnSomePage(pages, bs, perPage, |pages|, line);
    PagesAreOrdered(pages, bs, perPage);
  }

  /** A break is on no page, or has one to itself: when it is the first line, follows another break or a full page. */
  lemma BreakIsAlone(pages: seq<Page>, bs: seq<bool>, perPage: int, i: nat, line: int)
    requires perPage >= 1 && Paginates(pages, bs, perPage) && i < |pages|
    requires BreakLine(bs, line) && On(pages[i], line)
    ensures pages[i].start == line == pages[i].end
    ensures if i == 0 then line == 1
            else BreakLine(bs, line - 1) || (pages[i - 1].end == line - 1 && Span(pages[i - 1]) == perPage)
  {
    assert PageFits(pages, bs, perPage, i);
    if i > 0 {
      assert PageFits(pages, bs, perPage, i - 1);
    }
  }

  // ----- positions -----

  const PAGE_HEIGHT := 792.0
  const X_OFFSET := 72.0
  const MAX_FRACTION := 0.999999

  datatype SourceMap = SourceMap(path: string, pages: seq<Page>)

  /** ParsePandocSourceMapWithOptions on a file that can be opened. */
  method ParseSourceMap(path: string, lines: seq<string>, perPage: int, readError: bool)
    returns (result: Option<SourceMap>)
    ensures result.Some? <==> TrimSpace(path) != "" && perPage >= 1 && !readError
    ensures result.Some? ==> Paginates(result.value.pages, Breaks(lines), perPage)
  {
    var cleanPath := TrimSpace(path);
    if cleanPath == "" || perPage < 1 {
      return None;
    }
    var pages := BuildPages(Breaks(lines), perPage, readError);
    result := if pages.None? then None else Some(SourceMap(cleanPath, pages.value));
  }

  datatype Location = OutOfRange | OtherFile | At(page: int, x: real, y: real)

  function PageNumbered(pages: seq<Page>, number: int): Option<Page> {
    if pages == [] then None
    else if pages[0].number == number then Some(pages[0]) else PageNumbered(pages[1..], number)
  }

  function PageForLine(pages: seq<Page>, line: int): Option<Page> {
    if pages == [] then None
    else if On(pages[0], line) then Some(pages[0]) else PageForLine(pages[1..], line)
  }

  function Clamp(v: real, low: real, high: real): real {
    if v < low then low else if v > high then high else v
  }

  function LineAt(p: Page, y: real): int {
    if Span(p) < 1 then p.start else
      var line := p.start + (Span(p) as real * Clamp(y / PAGE_HEIGHT, 0.0, MAX_FRACTION)).Floor;
      if line > p.end then p.end else line
  }

  function TopOf(p: Page, line: int): real {
    if Span(p) < 1 then 0.0 else ((line - p.start) as real / Span(p) as real) * PAGE_HEIGHT
  }

  /** SourceLocation: None when there is no such page. */
  function SourceLine(m: SourceMap, page: int, y: real): Option<int> {
    match PageNumbered(m.pages, page)
    case None => None
    case Some(p) => Some(LineAt(p, y))
  }

  /** PDFLocation; `same` says whether the given file is the one of the map. */
  function PdfLocation(m: SourceMap, same: bool, line: int): Location {
    if line < 1 then OutOfRange
    else if !same then OtherFile
    else match PageForLine(m.pages, line)
         case None => OutOfRange
         case Some(p) => At(p.number, X_OFFSET, TopOf(p, line))
  }

  lemma {:induction false} PageNumberedFinds(pages: seq<Page>, from: int, i: nat)
    requires i < |pages| && forall k :: 0 <= k < |pages| ==> pages[k].number == from + k
    ensures PageNumbered(pages, from + i) == Some(pages[i])
    decreases |pages|
  {
    if i > 0 {
      PageNumberedFinds(pages[1..], from + 1, i - 1);
    }
  }

  lemma {:induction false} PageForLineFinds(pages: seq<Page>, line: int)
    ensures var r := PageForLine(pages, line);
            if r.None? then forall i :: 0 <= i < |pages| ==> !On(pages[i], line)
            else On(r.value, line) && exists i :: 0 <= i < |pages| && r.value == pages[i]
    decreases |pages|
  {
    if pages != [] && !On(pages[0], line) {
      PageForLineFinds(pages[1..], line);
      assert forall i :: 0 < i < |pages| ==> pages[i] == pages[1..][i - 1];
    }
  }

  /** A line's top, read back: its own line, except for the last lines of pages with more than a million. */
  lemma TopReadsBack(p: Page, line: int)
    requires On(p, line) && Span(p) <= 1_000_000
    ensures LineAt(p, TopOf(p, line)) == line
  {
    var n, o := Span(p), line - p.start;
    FractionFits(n, o);
    assert TopOf(p, line) / PAGE_HEIGHT == o as real / n as real;
  }

  lemma DivisionBound(a: real, b: real, c: real)
    requires b > 0.0
    ensures (a / b) * b == a
    ensures a <= c * b <==> a / b <= c
  {
    var q := a / b;
    assert q * b == a;
    if q <= c {
      assert q * b <= c * b;
    } else {
      assert q * b > c * b;
    }
  }

  lemma FractionFits(n: int, o: int)
    requires 0 <= o < n
    ensures 0.0 <= o as real / n as real
    ensures n as real * (o as real / n as real) == o as real
    ensures n <= 1_000_000 ==> o as real / n as real <= MAX_FRACTION
    ensures n > 1_000_000 && o == n - 1 ==> o as real / n as real > MAX_FRACTION
  {
    DivisionBound(o as real, n as real, MAX_FRACTION);
    DivisionBound(-(o as real), n as real, 0.0);
  }

  lemma LastLineIsLost(p: Page)
    requires Span(p) > 1_000_000
    ensures LineAt(p, TopOf(p, p.end)) < p.end
  {
    FractionFits(Span(p), Span(p) - 1);
    assert TopOf(p, p.end) / PAGE_HEIGHT == (Span(p) - 1) as real / Span(p) as real;
  }

  /** A page reads all its lines back exactly when it has no more than a million. */
  lemma PageReadsBackIff(p: Page)
    requires Span(p) >= 1
    ensures (forall line :: On(p, line) ==> LineAt(p, TopOf(p, line)) == line) <==> Span(p) <= 1_000_000
  {
    if Span(p) <= 1_000_000 {
      forall line | On(p, line)
        ensures LineAt(p, TopOf(p, line)) == line
      {
        TopReadsBack(p, line);
      }
    } else {
      LastLineIsLost(p);
      assert On(p, p.end);
    }
  }

  /** Which line has a position: one that is on a page; every text line is, and of the breaks those with a page. */
  lemma PdfLocationFinds(m: SourceMap, bs: seq<bool>, perPage: int, line: int)
    requires perPage >= 1 && Paginates(m.pages, bs, perPage) && line >= 1
    ensures var loc := PdfLocation(m, true, line);
            if loc.At? then
              && 1 <= loc.page <= |m.pages| && On(m.pages[loc.page - 1], line)
              && loc == At(loc.page, X_OFFSET, TopOf(m.pages[loc.page - 1], line))
            else
              && (forall i :: 0 <= i < |m.pages| ==> !On(m.pages[i], line))
              && (line > |bs| || BreakLine(bs, line))
  {
    PageForLineFinds(m.pages, line);
    PagesAreOrdered(m.pages, bs, perPage);
    if 0 < line <= |bs| && !BreakLine(bs, line) {
      TextIsOnOnePage(m.pages, bs, perPage, line);
    }
  }

  lemma SourceLineFinds(m: SourceMap, bs: seq<bool>, perPage: int, page: int, y: real)
    requires perPage >= 1 && Paginates(m.pages, bs, perPage)
    ensures SourceLine(m, page, y) ==
            if 1 <= page <= |m.pages| then Some(LineAt(m.pages[page - 1], y)) else None
  {
    PagesAreOrdered(m.pages, bs, perPage);
    if 1 <= page <= |m.pages| {
      PageNumberedFinds(m.pages, 1, page - 1);
    } else {
      NoPageNumbered(m.pages, 1, page);
    }
  }

  lemma {:induction false} NoPageNumbered(pages: seq<Page>, from: int, number: int)
    requires forall k :: 0 <= k < |pages| ==> pages[k].number == from + k
    requires number < from || number >= from + |pages|
    ensures PageNumbered(pages, number) == None
    decreases |pages|
  {
    if pages != [] {
      NoPageNumbered(pages[1..], from + 1, number);
    }
  }

  lemma Proportion(o: real, n: real, y: real)
    requires n > 0.0 && y == (o / n) * PAGE_HEIGHT
    ensures y * n == 792.0 * o
  {
    assert (o / n) * n == o;
  }

  /** Where a line is: 72 points in, and as far down the 792 points of its page as it is down the page's lines. */
  lemma PositionIs(m: SourceMap, bs: seq<bool>, perPage: int, line: int)
    requires perPage >= 1 && Paginates(m.pages, bs, perPage) && PdfLocation(m, true, line).At?
    ensures var loc := PdfLocation(m, true, line);
            && 1 <= loc.page <= |m.pages| && On(m.pages[loc.page - 1], line) && loc.x == 72.0
            && var p := m.pages[loc.page - 1];
               loc.y * (p.end - p.start + 1) as real == 792.0 * (line - p.start) as real
  {
    var loc := PdfLocation(m, true, line);
    PdfLocationFinds(m, bs, perPage, line);
    var p := m.pages[loc.page - 1];
    Proportion((line - p.start) as real, Span(p) as real, loc.y);
  }

  /** Up to a million lines per page, the position of a line always leads back to it. */
  lemma RoundTrip(m: SourceMap, bs: seq<bool>, perPage: int, line: int)
    requires 1 <= perPage <= 1_000_000 && Paginates(m.pages, bs, perPage) && line >= 1
    requires PdfLocation(m, true, line).At?
    ensures var loc := PdfLocation(m, true, line); SourceLine(m, loc.page, loc.y) == Some(line)
  {
    var loc := PdfLocation(m, true, line);
    PdfLocationFinds(m, bs, perPage, line);
    SourceLineFinds(m, bs, perPage, loc.page, loc.y);
    PagesAreOrdered(m.pages, bs, perPage);
    TopReadsBack(m.pages[loc.page - 1], line);
  }

  /** Later lines have later positions: on a later page, or further down the same one. */
  lemma PositionsIncrease(m: SourceMap, bs: seq<bool>, perPage: int, line: int, later: int)
    requires perPage >= 1 && Paginates(m.pages, bs, perPage) && 1 <= line < later
    requires PdfLocation(m, true, line).At? && PdfLocation(m, true, later).At?
    ensures var a, b := PdfLocation(m, true, line), PdfLocation(m, true, later);
            a.page < b.page || (a.page == b.page && a.y < b.y)
  {
    var a, b := PdfLocation(m, true, line), PdfLocation(m, true, later);
    PdfLocationFinds(m, bs, perPage, line);
    PdfLocationFinds(m, bs, perPage, later);
    PagesAreOrdered(m.pages, bs, perPage);
    if a.page == b.page {
      TopsIncrease(m.pages[a.page - 1], line, later);
    }
  }

  lemma TopsIncrease(p: Page, line: int, later: int)
    requires On(p, line) && On(p, later) && line < later
    ensures 0.0 <= TopOf(p, line) < TopOf(p, later) < PAGE_HEIGHT
  {
    var n := Span(p) as real;
    var o, q := (line - p.start) as real, (later - p.start) as real;
    DivisionBound(q, n, o / n);
    DivisionBound(-o, n, 0.0);
    DivisionBound(o, n, 0.0);
    DivisionBound(n, n, q / n);
  }

  /** Any position on a page, even above or below it, leads to a line of that page. */
  lemma LineIsOnPage(p: Page, y: real)
    requires Span(p) >= 1
    ensures On(p, LineAt(p, y))
  {
    var f := Clamp(y / PAGE_HEIGHT, 0.0, MAX_FRACTION);
    assert Span(p) as real * f >= 0.0;
  }

  /** A position on the page leads to the line that it is in: at or below its top, and above the next line's. */
  lemma LineContainsPosition(p: Page, y: real)
    requires 1 <= Span(p) <= 1_000_000 && 0.0 <= y < PAGE_HEIGHT
    ensures var line := LineAt(p, y);
            On(p, line) && TopOf(p, line) <= y < TopOf(p, line) + PAGE_HEIGHT / Span(p) as real
  {
    var n, f := Span(p), y / PAGE_HEIGHT;
    LineIsOnPage(p, y);
    var z := n as real * Clamp(f, 0.0, MAX_FRACTION);
    FloorOfFraction(n, f, f * n as real, z);
    var o := z.Floor;
    assert LineAt(p, y) - p.start == o;
    HeightOfLine(n as real, o as real, y);
  }

  lemma PartBelow(f: real, n: real, w: real)
    requires n > 0.0 && 0.0 <= f < 1.0 && w == f * n
    ensures 0.0 <= w < n
  {
    Positive(1.0 - f, n);
    assert (1.0 - f) * n == n - w;
  }

  lemma PartAbove(f: real, g: real, n: real, w: real)
    requires n > 0.0 && f > g && w == f * n
    ensures w > g * n
  {
    Positive(f - g, n);
    assert (f - g) * n == w - g * n;
  }

  lemma ClampedFraction(n: real, f: real, w: real, z: real)
    requires n > 0.0 && 0.0 <= f < 1.0 && w == f * n && z == n * Clamp(f, 0.0, MAX_FRACTION)
    ensures 0.0 <= z <= w < n && (z == w || z == MAX_FRACTION * n)
  {
    PartBelow(f, n, w);
    if f > MAX_FRACTION {
      PartAbove(f, MAX_FRACTION, n, w);
    }
  }

  lemma FloorBelow(n: int, w: real, z: real)
    requires 1 <= n <= 1_000_000 && 0.0 <= z <= w < n as real
    requires z == w || z == MAX_FRACTION * n as real
    ensures 0 <= z.Floor < n && z.Floor as real <= w < z.Floor as real + 1.0
  {
  }

  lemma FloorOfFraction(n: int, f: real, w: real, z: real)
    requires 1 <= n <= 1_000_000 && 0.0 <= f < 1.0
    requires w == f * n as real && z == n as real * Clamp(f, 0.0, MAX_FRACTION)
    ensures 0 <= z.Floor < n && z.Floor as real <= w < z.Floor as real + 1.0
  {
    ClampedFraction(n as real, f, w, z);
    FloorBelow(n, w, z);
  }

  lemma HeightOfLine(n: real, o: real, y: real)
    requires n > 0.0 && o <= (y / PAGE_HEIGHT) * n < o + 1.0
    ensures (o / n) * PAGE_HEIGHT <= y < (o / n) * PAGE_HEIGHT + PAGE_HEIGHT / n
  {
    var f := y / PAGE_HEIGHT;
    DivisionBound(o, n, f);
    DivisionBound(o + 1.0, n, f);
    assert (o + 1.0) / n == o / n + 1.0 / n;
    assert PAGE_HEIGHT / n == (1.0 / n) * PAGE_HEIGHT;
  }
}
