/** Message ids, paging and grouping of the IMAP client (internal/email/imap.go). */
module Imap {
  import opened Sequences
  import opened Text

  const UID_LIMIT := 0x1_0000_0000
  const MAX_INT := 0x7fff_ffff_ffff_ffff

  type Uid = u: nat | u < UID_LIMIT

  type Int64 = n: int | -MAX_INT - 1 <= n <= MAX_INT

  /** The answer to a search is a set of UIDs, so it has no more of them than there are. */
  type Uids = uids: seq<Uid> | |uids| <= UID_LIMIT

  /** What 64-bit arithmetic makes of a sum or a difference. */
  function Wrap(n: int): Int64
    requires -2 * MAX_INT - 2 <= n <= 2 * MAX_INT + 1
  {
    if n > MAX_INT then n - 2 * MAX_INT - 2 else if n < -MAX_INT - 1 then n + 2 * MAX_INT + 2 else n
  }

  // ----- message ids -----

  function MessageId(folder: string, uid: Uid): string {
    folder + ":" + Decimal(uid)
  }

  /** parseMessageID: None for an id without a colon or without a 32-bit number after the first one. */
  function ParseMessageId(id: string): Option<(string, Uid)> {
    var n := Before(id, ':');
    if n == |id| then None else
      match ParseDecimal(id[n + 1..])
      case None => None
      case Some(value) => if value < UID_LIMIT then Some((id[..n], value)) else None
  }

  /** An id leads back to its folder and UID exactly when the folder has no colon; otherwise it is never parsed. */
  lemma MessageIdRoundTripIff(folder: string, uid: Uid)
    ensures ParseMessageId(MessageId(folder, uid)) == if ':' in folder then None else Some((folder, uid))
  {
    var id := MessageId(folder, uid);
    var n := Before(folder, ':');
    if ':' in folder {
      assert id[n] == ':';
      BeforeIs(id, ':', n);
      var rest := id[n + 1..];
      assert rest[|folder| - n - 1] == ':';
    } else {
      BeforeIs(id, ':', |folder|);
      assert id[..|folder|] == folder && id[|folder| + 1..] == Decimal(uid);
      ParsePrinted(uid);
    }
  }

  lemma PrefixTells(a: string, x: string, y: string)
    requires a + x == a + y
    ensures x == y
  {
    assert (a + x)[|a|..] == x && (a + y)[|a|..] == y;
  }

  /** Of the ids that are parsed, those that are printed back are the ones whose number has no needless zeros. */
  lemma PrintsBackIff(id: string)
    requires ParseMessageId(id).Some?
    ensures var (folder, uid) := ParseMessageId(id).value;
            && ':' !in folder && id == folder + ":" + id[|folder| + 1..]
            && (MessageId(folder, uid) == id <==> Canonical(id[|folder| + 1..]))
  {
    var (folder, uid) := ParseMessageId(id).value;
    var digits := id[|folder| + 1..];
    assert id == (folder + ":") + digits;
    PrintParsed(digits);
    if MessageId(folder, uid) == id {
      PrefixTells(folder + ":", Decimal(uid), digits);
    }
  }

  // ----- grouping -----

  /** The distinct UIDs that these ids name in a folder, in the order in which they first occur. */
  function UidsOf(ids: seq<string>, folder: string): seq<Uid> {
    if ids == [] then [] else
      var before := UidsOf(ids[..|ids| - 1], folder);
      match ParseMessageId(ids[|ids| - 1])
      case None => before
      case Some(pair) => if pair.0 == folder && pair.1 !in before then before + [pair.1] else before
  }

  function Invalid(ids: seq<string>): seq<string> {
    if ids == [] then [] else
      var last := ids[|ids| - 1];
      Invalid(ids[..|ids| - 1]) + (if ParseMessageId(last).None? then [last] else [])
  }

  function NamedBy(folder: string, uid: Uid): string -> bool {
    id => ParseMessageId(id) == Some((folder, uid))
  }

  ghost predicate Names(ids: seq<string>, folder: string, uid: Uid) {
    Any(ids, NamedBy(folder, uid))
  }

  lemma NamesOneMore(ids: seq<string>, folder: string, uid: Uid)
    requires ids != []
    ensures Names(ids, folder, uid) <==>
            Names(ids[..|ids| - 1], folder, uid) || ParseMessageId(ids[|ids| - 1]) == Some((folder, uid))
  {
    AnyLast(ids, NamedBy(folder, uid));
  }

  predicate Distinct(uids: seq<Uid>) {
    forall i, j :: 0 <= i < j < |uids| ==> uids[i] != uids[j]
  }

  /** Each UID that some id names is there, once. */
  lemma {:induction false} GroupHasEachOnce(ids: seq<string>, folder: string, uid: Uid)
    ensures Distinct(UidsOf(ids, folder))
    ensures uid in UidsOf(ids, folder) <==> Names(ids, folder, uid)
    decreases |ids|
  {
    if ids != [] {
      GroupHasEachOnce(ids[..|ids| - 1], folder, uid);
      NamesOneMore(ids, folder, uid);
    }
  }

  /** Where an id first names the UID. */
  function FirstAt(ids: seq<string>, folder: string, uid: Uid): (i: nat)
    ensures i <= |ids|
  {
    if ids == [] then 0
    else if ParseMessageId(ids[0]) == Some((folder, uid)) then 0 else 1 + FirstAt(ids[1..], folder, uid)
  }

  lemma {:induction false} FirstAtPrefix(ids: seq<string>, folder: string, uid: Uid)
    requires ids != []
    ensures var before := ids[..|ids| - 1];
            FirstAt(ids, folder, uid) ==
            if Names(before, folder, uid) then FirstAt(before, folder, uid)
            else if ParseMessageId(ids[|ids| - 1]) == Some((folder, uid)) then |ids| - 1 else |ids|
    ensures Names(ids[..|ids| - 1], folder, uid) ==> FirstAt(ids[..|ids| - 1], folder, uid) < |ids| - 1
    decreases |ids|
  {
    var before := ids[..|ids| - 1];
    if |ids| > 1 {
      FirstAtPrefix(ids[1..], folder, uid);
      assert ids[1..][..|ids| - 2] == before[1..];
      NamesFromFirst(before, folder, uid);
    }
  }

  lemma NamesFromFirst(ids: seq<string>, folder: string, uid: Uid)
    requires ids != []
    ensures Names(ids, folder, uid) <==>
            ParseMessageId(ids[0]) == Some((folder, uid)) || Names(ids[1..], folder, uid)
  {
    AnyFirst(ids, NamedBy(folder, uid));
  }

  /** A group is in the order of first occurrence. */
  lemma {:induction false} GroupInOrder(ids: seq<string>, folder: string, i: nat, j: nat)
    requires i < j < |UidsOf(ids, folder)|
    ensures var uids := UidsOf(ids, folder); FirstAt(ids, folder, uids[i]) < FirstAt(ids, folder, uids[j]) < |ids|
    decreases |ids|
  {
    var before := ids[..|ids| - 1];
    var uids, earlier := UidsOf(ids, folder), UidsOf(before, folder);
    FirstAtPrefix(ids, folder, uids[i]);
    FirstAtPrefix(ids, folder, uids[j]);
    GroupHasEachOnce(before, folder, uids[i]);
    GroupHasEachOnce(before, folder, uids[j]);
    if j < |earlier| {
      GroupInOrder(before, folder, i, j);
    }
  }

  function GroupOf(byFolder: map<string, seq<Uid>>, folder: string): seq<Uid> {
    if folder in byFolder then byFolder[folder] else []
  }

  function SeenIn(seen: map<string, set<Uid>>, folder: string): set<Uid> {
    if folder in seen then seen[folder] else {}
  }

  /** A folder is listed, with its group, if it has one. */
  ghost predicate Grouped(byFolder: map<string, seq<Uid>>, ids: seq<string>) {
    && (forall folder :: GroupOf(byFolder, folder) == UidsOf(ids, folder))
    && (forall folder :: folder in byFolder ==> byFolder[folder] != [])
  }

  ghost predicate SeenAre(seen: map<string, set<Uid>>, ids: seq<string>) {
    forall folder :: forall uid :: uid in SeenIn(seen, folder) <==> uid in UidsOf(ids, folder)
  }

  lemma UidsOfOneMore(ids: seq<string>, id: string, folder: string)
    ensures UidsOf(ids + [id], folder) ==
            match ParseMessageId(id)
            case None => UidsOf(ids, folder)
            case Some(pair) =>
              if pair.0 == folder && pair.1 !in UidsOf(ids, folder) then UidsOf(ids, folder) + [pair.1]
              else UidsOf(ids, folder)
  {
    assert (ids + [id])[..|ids|] == ids;
  }

  lemma NothingNew(byFolder: map<string, seq<Uid>>, seen: map<string, set<Uid>>, ids: seq<string>, id: string)
    requires Grouped(byFolder, ids) && SeenAre(seen, ids)
    requires ParseMessageId(id).None? || ParseMessageId(id).value.1 in SeenIn(seen, ParseMessageId(id).value.0)
    ensures Grouped(byFolder, ids + [id]) && SeenAre(seen, ids + [id])
  {
    forall folder
      ensures UidsOf(ids + [id], folder) == UidsOf(ids, folder)
    {
      UidsOfOneMore(ids, id, folder);
      assert forall uid :: uid in SeenIn(seen, folder) <==> uid in UidsOf(ids, folder);
    }
  }

  lemma NewUid(byFolder: map<string, seq<Uid>>, seen: map<string, set<Uid>>, ids: seq<string>, id: string,
               folder: string, uid: Uid)
    requires Grouped(byFolder, ids) && SeenAre(seen, ids)
    requires ParseMessageId(id) == Some((folder, uid)) && uid !in SeenIn(seen, folder)
    ensures Grouped(byFolder[folder := GroupOf(byFolder, folder) + [uid]], ids + [id])
    ensures SeenAre(seen[folder := SeenIn(seen, folder) + {uid}], ids + [id])
  {
    var byFolder', seen' := byFolder[folder := GroupOf(byFolder, folder) + [uid]], seen[folder := SeenIn(seen, folder) + {uid}];
    forall f
      ensures GroupOf(byFolder', f) == UidsOf(ids + [id], f)
      ensures forall u :: u in SeenIn(seen', f) <==> u in UidsOf(ids + [id], f)
    {
      UidsOfOneMore(ids, id, f);
      assert GroupOf(byFolder, f) == UidsOf(ids, f);
      assert forall u :: u in SeenIn(seen, f) <==> u in UidsOf(ids, f);
    }
  }

  lemma InvalidOneMore(ids: seq<string>, id: string)
    ensures Invalid(ids + [id]) == Invalid(ids) + (if ParseMessageId(id).None? then [id] else [])
  {
    assert (ids + [id])[..|ids|] == ids;
  }

  /** groupMessageIDsByFolder */
  method GroupByFolder(ids: seq<string>) returns (byFolder: map<string, seq<Uid>>, invalid: seq<string>)
    ensures Grouped(byFolder, ids) && invalid == Invalid(ids)
  {
    byFolder, invalid := map[], [];
    var seen: map<string, set<Uid>> := map[];
    for i := 0 to |ids|
      invariant Grouped(byFolder, ids[..i]) && SeenAre(seen, ids[..i]) && invalid == Invalid(ids[..i])
    {
      var id := ids[i];
      InvalidOneMore(ids[..i], id);
      assert ids[..i + 1] == ids[..i] + [id];
      var parsed := ParseMessageId(id);
      if parsed.None? {
        NothingNew(byFolder, seen, ids[..i], id);
        invalid := invalid + [id];
        continue;
      }
      var (folder, uid) := parsed.value;
      if folder in seen && uid in seen[folder] {
        NothingNew(byFolder, seen, ids[..i], id);
        continue;
      }
      NewUid(byFolder, seen, ids[..i], id, folder, uid);
      seen := seen[folder := (if folder in seen then seen[folder] else {}) + {uid}];
      byFolder := byFolder[folder := (if folder in byFolder then byFolder[folder] else []) + [uid]];
    }
    assert ids[..|ids|] == ids;
  }

  /** The valid ids and the invalid ones are all there is, so grouping loses none. */
  lemma {:induction false} NoIdIsLost(ids: seq<string>, id: string)
    requires id in ids
    ensures match ParseMessageId(id)
            case None => id in Invalid(ids)
            case Some(pair) => pair.1 in UidsOf(ids, pair.0)
    decreases |ids|
  {
    var before := ids[..|ids| - 1];
    if id in before {
      NoIdIsLost(before, id);
    }
  }

  // ----- searching one folder -----

  function Printed(folder: string, uids: seq<Uid>): (ids: seq<string>)
    ensures |ids| == |uids| && forall i :: 0 <= i < |ids| ==> ids[i] == MessageId(folder, uids[i])
  {
    seq(|uids|, i requires 0 <= i < |uids| => MessageId(folder, uids[i]))
  }

  function Reverse(ids: seq<string>): (r: seq<string>)
    ensures |r| == |ids| && forall i :: 0 <= i < |r| ==> r[i] == ids[|ids| - 1 - i]
  {
    seq(|ids|, i requires 0 <= i < |ids| => ids[|ids| - 1 - i])
  }

  /** searchFolder: the last UIDs of the server's answer, the last one first. None stands for a panic. */
  method SearchFolder(folder: string, answer: seq<Uid>, limit: int) returns (ids: Option<seq<string>>)
    ensures ids.None? <==> limit < 0
    ensures ids.Some? ==>
              var max := if limit == 0 then 100 else limit;
              var n := if |answer| > max then max else |answer|;
              ids.value == Reverse(Printed(folder, answer[|answer| - n..]))
  {
    var uids, maxResults := answer, limit;
    if maxResults == 0 {
      maxResults := 100;
    }
    if |uids| > maxResults {
      // the slice must begin inside the answer
      if |uids| - maxResults > |uids| {
        return None;
      }
      uids := uids[|uids| - maxResults..];
    }
    var messageIds := new string[|uids|](_ => "");
    for i := 0 to |uids|
      invariant forall k :: 0 <= k < i ==> messageIds[|uids| - 1 - k] == MessageId(folder, uids[k])
    {
      messageIds[|uids| - 1 - i] := MessageId(folder, uids[i]);
    }
    ids := Some(messageIds[..]);
    assert forall k :: 0 <= k < |uids| ==> ids.value[k] == MessageId(folder, uids[|uids| - 1 - k]);
  }

  /** `next` is "" after the last page. */
  datatype Page = Page(ids: seq<string>, next: string)

  function PageLimit(limit: Int64): (max: nat)
    ensures max > 0
  {
    if limit <= 0 then 100 else limit
  }

  function PageEnd(uids: Uids, limit: Int64, offset: nat): nat {
    if offset + PageLimit(limit) > |uids| then |uids| else offset + PageLimit(limit)
  }

  function PageAt(folder: string, uids: Uids, limit: Int64, offset: nat): Page {
    if offset >= |uids| then Page([], "") else
      var end := PageEnd(uids, limit, offset);
      Page(Reverse(Printed(folder, uids[offset..end])), if end < |uids| then Decimal(end) else "")
  }

  /** A page holds as many UIDs as asked for, 100 if that is not positive, or all the rest when it has no next one. */
  lemma PageIsFull(folder: string, uids: Uids, limit: Int64, offset: nat)
    requires offset < |uids|
    ensures var page, rest := PageAt(folder, uids, limit, offset), |uids| - offset;
            && (limit > 0 ==> |page.ids| == if rest < limit then rest else limit)
            && (limit <= 0 ==> |page.ids| == if rest < 100 then rest else 100)
            && (page.next == "" <==> |page.ids| == rest)
            && (page.next != "" ==> page.next == Decimal(offset + |page.ids|))
  {
  }

  /** The printed UIDs from `offset` to `end`, the last one first. */
  predicate PageIds(ids: seq<string>, folder: string, uids: seq<Uid>, offset: nat, end: nat)
    requires offset <= end <= |uids|
  {
    |ids| == end - offset && forall k :: 0 <= k < |ids| ==> ids[k] == MessageId(folder, uids[end - 1 - k])
  }

  lemma PageIdsAre(ids: seq<string>, folder: string, uids: seq<Uid>, offset: nat, end: nat)
    requires offset <= end <= |uids| && PageIds(ids, folder, uids, offset, end)
    ensures ids == Reverse(Printed(folder, uids[offset..end]))
  {
    var r := Reverse(Printed(folder, uids[offset..end]));
    forall k | 0 <= k < |ids|
      ensures ids[k] == r[k]
    {
    }
  }

  method PrintDownwards(folder: string, uids: seq<Uid>, offset: nat, end: nat) returns (ids: seq<string>)
    requires offset <= end <= |uids|
    ensures ids == Reverse(Printed(folder, uids[offset..end]))
  {
    ids := [];
    var i: int := end - 1;
    while i >= offset
      invariant offset - 1 <= i < end && PageIds(ids, folder, uids, i + 1, end)
    {
      ids := ids + [MessageId(folder, uids[i])];
      i := i - 1;
    }
    PageIdsAre(ids, folder, uids, offset, end);
  }

  /** The end of the page does not fit 64 bits, and the program panics when it makes room for the page. */
  predicate PagePanics(uids: Uids, limit: Int64, offset: nat) {
    offset < |uids| && offset + PageLimit(limit) > MAX_INT
  }

  const STRING_SIZE := 16

  /** The bounds of a page in 64-bit arithmetic; make panics if the bytes of the page do not fit 64 bits. */
  method PageBounds(uids: Uids, limit: Int64, offset: nat) returns (end: int, panics: bool)
    requires offset < |uids|
    ensures panics == PagePanics(uids, limit, offset)
    ensures !panics ==> end == PageEnd(uids, limit, offset)
  {
    var maxResults := limit;
    if maxResults <= 0 {
      maxResults := 100;
    }
    end := Wrap(offset + maxResults);
    if end > |uids| {
      end := |uids|;
    }
    var capacity := Wrap(end - offset);
    panics := capacity < 0 || capacity * STRING_SIZE > MAX_INT;
  }

  /** searchFolderPage. None stands for a panic. */
  method SearchFolderPage(folder: string, uids: Uids, limit: Int64, offset: nat) returns (page: Option<Page>)
    ensures page == if PagePanics(uids, limit, offset) then None else Some(PageAt(folder, uids, limit, offset))
    ensures page.None? <==>
            offset < |uids| && offset + (if limit > 0 then limit else 100) > 9_223_372_036_854_775_807
  {
    if offset >= |uids| {
      return Some(Page([], ""));
    }
    var end, panics := PageBounds(uids, limit, offset);
    if panics {
      return None;
    }
    var ids := PrintDownwards(folder, uids, offset, end);
    page := Some(Page(ids, if end < |uids| then Decimal(end) else ""));
  }

  /** strconv.Atoi */
  function Atoi(s: string): Option<int> {
    var digits := if s != "" && s[0] in {'+', '-'} then s[1..] else s;
    match ParseDecimal(digits)
    case None => None
    case Some(n) =>
      var sign := if digits != s && s[0] == '-' then -1 else 1;
      var value := sign * n;
      if -MAX_INT - 1 <= value <= MAX_INT then Some(value) else None
  }

  /** What ListMessagesPage makes of a page token. */
  function Offset(token: string): Option<nat> {
    if TrimSpace(token) == "" then Some(0)
    else match Atoi(TrimSpace(token))
         case None => None
         case Some(value) => if value < 0 then None else Some(value)
  }

  lemma DigitsAreNotTrimmed(s: string)
    requires s != "" && AllDigits(s)
    ensures TrimSpace(s) == s
  {
    assert SpaceAt(s, 0) == 0;
    assert SpaceBeforeEnd(s) == 0;
  }

  lemma TokenRoundTrip(offset: nat)
    requires offset <= MAX_INT
    ensures Offset(Decimal(offset)) == Some(offset)
  {
    DigitsAreNotTrimmed(Decimal(offset));
    ParsePrinted(offset);
  }

  /** The pages that a caller gets who starts with this offset's token and follows the tokens to the end. */
  function Walk(folder: string, uids: Uids, limit: Int64, token: string): Option<seq<Page>>
    requires Offset(token).Some?
    decreases |uids| - Offset(token).value
  {
    var offset := Offset(token).value;
    if PagePanics(uids, limit, offset) then None else
      var page := PageAt(folder, uids, limit, offset);
      if page.next == "" then Some([page]) else
        TokenRoundTrip(PageEnd(uids, limit, offset));
        match Walk(folder, uids, limit, page.next)
        case None => None
        case Some(pages) => Some([page] + pages)
  }

  function InServerOrder(pages: seq<Page>): seq<string> {
    if pages == [] then [] else Reverse(pages[0].ids) + InServerOrder(pages[1..])
  }

  lemma ReverseTwice(ids: seq<string>)
    ensures Reverse(Reverse(ids)) == ids
  {
  }

  lemma PrintedSplit(folder: string, uids: seq<Uid>, a: nat, b: nat)
    requires a <= b <= |uids|
    ensures Printed(folder, uids[a..]) == Printed(folder, uids[a..b]) + Printed(folder, uids[b..])
  {
  }

  function From(uids: Uids, offset: nat): seq<Uid> {
    if offset <= |uids| then uids[offset..] else []
  }

  /**
   Following the tokens visits every UID from the offset on exactly once, page after page, and ends; only the first
   page can panic.
   */
  lemma {:induction false} WalkVisitsAll(folder: string, uids: Uids, limit: Int64, token: string)
    requires Offset(token).Some?
    ensures var pages, offset := Walk(folder, uids, limit, token), Offset(token).value;
            && (pages.None? <==> PagePanics(uids, limit, offset))
            && (pages.Some? ==> InServerOrder(pages.value) == Printed(folder, From(uids, offset)))
    decreases |uids| - Offset(token).value
  {
    var offset := Offset(token).value;
    var page := PageAt(folder, uids, limit, offset);
    if offset < |uids| && !PagePanics(uids, limit, offset) {
      var end := PageEnd(uids, limit, offset);
      ReverseTwice(Printed(folder, uids[offset..end]));
      PrintedSplit(folder, uids, offset, end);
      TokenRoundTrip(end);
      if end < |uids| {
        WalkVisitsAll(folder, uids, limit, page.next);
        var rest := Walk(folder, uids, limit, page.next).value;
        assert ([page] + rest)[1..] == rest;
      } else {
        assert uids[end..] == [];
      }
    }
  }

  lemma SameIdSameUid(folder: string, a: Uid, b: Uid)
    requires MessageId(folder, a) == MessageId(folder, b)
    ensures a == b
  {
    assert MessageId(folder, a)[|folder| + 1..] == Decimal(a);
    assert MessageId(folder, b)[|folder| + 1..] == Decimal(b);
    ParsePrinted(a);
    ParsePrinted(b);
  }

  /** From the empty token: all UIDs of the folder, and no id twice when the server's UIDs are distinct. */
  lemma WalkFromStart(folder: string, uids: Uids, limit: Int64)
    requires Distinct(uids)
    ensures Offset("") == Some(0)
    ensures Walk(folder, uids, limit, "").Some?
    ensures var ids := InServerOrder(Walk(folder, uids, limit, "").value);
            ids == Printed(folder, uids) && forall i, j :: 0 <= i < j < |ids| ==> ids[i] != ids[j]
  {
    assert Offset("") == Some(0);
    WalkVisitsAll(folder, uids, limit, "");
    assert uids[0..] == uids;
    var ids := Printed(folder, uids);
    forall i, j | 0 <= i < j < |ids|
      ensures ids[i] != ids[j]
    {
      if ids[i] == ids[j] {
        SameIdSameUid(folder, uids[i], uids[j]);
      }
    }
  }
}
