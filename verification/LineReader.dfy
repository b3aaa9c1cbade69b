/** The reader that runLoggedCommand puts behind a command's output (internal/hotwordtrain/manager.go). */
module LineReader {
  import opened Text
  import opened Trimming

  // ----- what the lines of an output are -----

  predicate OneLine(s: string) {
    forall i :: 0 <= i < |s| ==> s[i] != '\n'
  }

  function Join(pieces: seq<string>): string
    requires pieces != []
  {
    if |pieces| == 1 then pieces[0] else pieces[0] + "\n" + Join(pieces[1..])
  }

  /** The pieces of an output are the newline-free strings that give it back when joined by newlines. */
  predicate PiecesOf(pieces: seq<string>, s: string) {
    && pieces != [] && Join(pieces) == s
    && (forall i :: 0 <= i < |pieces| ==> OneLine(pieces[i]))
  }

  function Shown(piece: string): seq<string> {
    if TrimSpace(piece) == "" then [] else [TrimSpace(piece)]
  }

  /** A piece is reported without the white space around it, unless that is all there is. */
  lemma ShownIs(w: string, t: string, v: string)
    requires Blank(w) && Blank(v) && Untrimmed(t)
    ensures Shown(w + t + v) == if t == "" then [] else [t]
  {
    TrimSpaceUnique(w, t, v);
  }

  /** The lines to report: the pieces without surrounding white space, blank ones left out. */
  function Lines(pieces: seq<string>): seq<string> {
    if pieces == [] then [] else Shown(pieces[0]) + Lines(pieces[1..])
  }

  // ----- the same from the first newline on, as the reader goes about it -----

  lemma FirstNewlineIs(s: string, n: nat)
    requires n <= |s| && OneLine(s[..n]) && (n < |s| ==> s[n] == '\n')
    ensures n == Before(s, '\n')
  {
    var m := Before(s, '\n');
    assert forall i :: 0 <= i < n ==> s[..n][i] == s[i];
  }

  function Pieces(s: string): (pieces: seq<string>)
    ensures pieces != []
    decreases |s|
  {
    var n := Before(s, '\n');
    if n == |s| then [s] else [s[..n]] + Pieces(s[n + 1..])
  }

  lemma JoinCut(pieces: seq<string>)
    requires |pieces| > 1
    ensures var s, n := Join(pieces), |pieces[0]|;
            && n < |s| && s[..n] == pieces[0] && s[n] == '\n' && s[n + 1..] == Join(pieces[1..])
  {
  }

  lemma {:induction false} PiecesFit(s: string)
    ensures PiecesOf(Pieces(s), s)
    decreases |s|
  {
    var n := Before(s, '\n');
    if n < |s| {
      var rest := Pieces(s[n + 1..]);
      PiecesFit(s[n + 1..]);
      assert s == s[..n] + "\n" + s[n + 1..];
      assert ([s[..n]] + rest)[1..] == rest;
    } else {
      assert s[..n] == s;
    }
  }

  lemma PiecesOfJoin(pieces: seq<string>)
    requires |pieces| > 1 && OneLine(pieces[0])
    ensures Pieces(Join(pieces)) == [pieces[0]] + Pieces(Join(pieces[1..]))
  {
    JoinCut(pieces);
    FirstNewlineIs(Join(pieces), |pieces[0]|);
  }

  lemma PiecesOfOne(s: string)
    requires OneLine(s)
    ensures Pieces(s) == [s]
  {
    assert s[..|s|] == s;
    FirstNewlineIs(s, |s|);
  }

  /** Only one way to cut an output into pieces. */
  lemma {:induction false} PiecesUnique(pieces: seq<string>)
    requires pieces != [] && forall i :: 0 <= i < |pieces| ==> OneLine(pieces[i])
    ensures pieces == Pieces(Join(pieces))
    decreases |pieces|
  {
    if |pieces| > 1 {
      PiecesOfJoin(pieces);
      PiecesUnique(pieces[1..]);
      assert pieces == [pieces[0]] + pieces[1..];
    } else {
      PiecesOfOne(pieces[0]);
    }
  }

  /** What is still to be reported when this much of the output is left. */
  function LinesOf(s: string): seq<string> {
    Lines(Pieces(s))
  }

  lemma LinesOfStep(buffer: string, rest: string, n: nat)
    requires n < |buffer| && OneLine(buffer[..n]) && buffer[n] == '\n'
    ensures LinesOf(buffer + rest) == Shown(buffer[..n]) + LinesOf(buffer[n + 1..] + rest)
    ensures forall before: seq<string> ::
              (before + Shown(buffer[..n])) + LinesOf(buffer[n + 1..] + rest) == before + LinesOf(buffer + rest)
  {
    var s := buffer + rest;
    assert s[..n] == buffer[..n] && s[n + 1..] == buffer[n + 1..] + rest;
    FirstNewlineIs(s, n);
    var pieces := Pieces(s[n + 1..]);
    assert ([s[..n]] + pieces)[1..] == pieces;
  }

  lemma LinesOfLast(buffer: string)
    requires OneLine(buffer)
    ensures LinesOf(buffer) == Shown(buffer) && (buffer == "" ==> Shown(buffer) == [])
  {
    assert buffer[..|buffer|] == buffer;
    FirstNewlineIs(buffer, |buffer|);
    assert Lines([buffer]) == Shown(buffer) + Lines([buffer][1..]);
  }

  function Concat(chunks: seq<string>): string {
    if chunks == [] then "" else chunks[0] + Concat(chunks[1..])
  }

  // ----- the reader -----

  /** The search for a newline in the buffer. */
  method IndexOfNewline(buffer: string) returns (idx: int)
    ensures idx == -1 ==> OneLine(buffer)
    ensures idx != -1 ==> 0 <= idx < |buffer| && buffer[idx] == '\n' && OneLine(buffer[..idx])
  {
    for i := 0 to |buffer|
      invariant OneLine(buffer[..i])
    {
      if buffer[i] == '\n' {
        return i;
      }
    }
    assert buffer[..|buffer|] == buffer;
    idx := -1;
  }

  method Report(before: seq<string>, piece: string, listening: bool) returns (reported: seq<string>)
    ensures reported == if listening then before + Shown(piece) else before
  {
    reported := before;
    var line := TrimSpace(piece);
    if line != "" && listening {
      reported := reported + [line];
    }
  }

  /** Reports the complete lines in the buffer; `rest` is the output still to come. */
  method TakeLines(buffer: string, before: seq<string>, listening: bool, ghost rest: string)
    returns (left: string, reported: seq<string>)
    ensures OneLine(left)
    ensures if listening then reported + LinesOf(left + rest) == before + LinesOf(buffer + rest) else reported == before
  {
    left, reported := buffer, before;
    while true
      invariant if listening then reported + LinesOf(left + rest) == before + LinesOf(buffer + rest)
                else reported == before
      decreases |left|
    {
      var idx := IndexOfNewline(left);
      if idx < 0 {
        break;
      }
      LinesOfStep(left, rest, idx);
      reported := Report(reported, left[..idx], listening);
      left := left[idx + 1..];
    }
  }

  lemma NextChunk(chunks: seq<string>, k: nat, buffer: string)
    requires k < |chunks|
    ensures (buffer + chunks[k]) + Concat(chunks[k + 1..]) == buffer + Concat(chunks[k..])
  {
  }

  /**
   `chunks` is what the reads deliver, in pieces of any size; after them a read fails, with end-of-file or
   otherwise. However the output is cut, the reported lines are those of the whole of it.
   */
  method ReadLines(chunks: seq<string>, eof: bool, listening: bool) returns (reported: seq<string>, ok: bool)
    ensures ok == eof
    ensures reported == if listening then LinesOf(Concat(chunks)) else []
  {
    var buffer, k := "", 0;
    reported := [];
    ghost var todo, all := Concat(chunks), LinesOf(Concat(chunks));
    assert chunks[0..] == chunks && [] + all == all;
    while k < |chunks|
      invariant k <= |chunks| && OneLine(buffer) && todo == buffer + Concat(chunks[k..])
      invariant if listening then reported + LinesOf(todo) == all else reported == []
      decreases |chunks| - k
    {
      NextChunk(chunks, k, buffer);
      buffer, reported := TakeLines(buffer + chunks[k], reported, listening, Concat(chunks[k + 1..]));
      k := k + 1;
      todo := buffer + Concat(chunks[k..]);
    }
    assert todo == buffer;
    LinesOfLast(buffer);
    if |buffer| > 0 {
      reported := Report(reported, buffer, listening);
    }
    ok := eof;
  }

  /** Whatever pieces the output has, and there is one way to cut it, they are reported in order. */
  lemma LinesOfPieces(pieces: seq<string>, s: string)
    requires PiecesOf(pieces, s)
    ensures LinesOf(s) == Lines(pieces)
  {
    PiecesUnique(pieces);
  }
}
