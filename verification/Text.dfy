/**
 Strings as the programs see them: sequences of bytes, one `char` below 256 per byte.
 White space is what Go's unicode.IsSpace accepts, in its UTF-8 encoding.
 */
module Text {

  datatype Option<+T> = None | Some(value: T)

  const ASCII_SPACE: set<char> := {' ', '\t', '\n', 0x0b as char, 0x0c as char, '\r'}

  predicate IsWideSpace(a: char, b: char, c: char) {
    var (x, y, z) := (a as int, b as int, c as int);
    || (x == 0xe1 && y == 0x9a && z == 0x80)
    || (x == 0xe2 && y == 0x80 && (0x80 <= z <= 0x8a || z == 0xa8 || z == 0xa9 || z == 0xaf))
    || (x == 0xe2 && y == 0x81 && z == 0x9f)
    || (x == 0xe3 && y == 0x80 && z == 0x80)
  }

  /** Length in bytes of the white-space character that starts at i, 0 if there is none. */
  function SpaceAt(s: string, i: nat): (n: nat)
    requires i <= |s|
    ensures i + n <= |s|
  {
    if i < |s| && s[i] in ASCII_SPACE then 1
    else if i + 1 < |s| && s[i] as int == 0xc2 && s[i + 1] as int in {0x85, 0xa0} then 2
    else if i + 2 < |s| && IsWideSpace(s[i], s[i + 1], s[i + 2]) then 3
    else 0
  }

  function TrimLeft(s: string): string
    decreases |s|
  {
    var n := SpaceAt(s, 0);
    if n == 0 then s else TrimLeft(s[n..])
  }

  /** Length of the white-space character that ends the string, 0 if there is none. */
  function SpaceBeforeEnd(s: string): (n: nat)
    ensures n <= |s|
  {
    if |s| >= 1 && SpaceAt(s, |s| - 1) == 1 then 1
    else if |s| >= 2 && SpaceAt(s, |s| - 2) == 2 then 2
    else if |s| >= 3 && SpaceAt(s, |s| - 3) == 3 then 3
    else 0
  }

  function TrimRight(s: string): string
    decreases |s|
  {
    var n := SpaceBeforeEnd(s);
    if n == 0 then s else TrimRight(s[..|s| - n])
  }

  function TrimSpace(s: string): string {
    TrimRight(TrimLeft(s))
  }

  lemma {:induction false} TrimLeftDone(s: string)
    ensures SpaceAt(TrimLeft(s), 0) == 0
    decreases |s|
  {
    var n := SpaceAt(s, 0);
    if n != 0 {
      TrimLeftDone(s[n..]);
    }
  }

  lemma {:induction false} TrimRightDone(s: string)
    ensures SpaceBeforeEnd(TrimRight(s)) == 0 && TrimRight(s) <= s
    decreases |s|
  {
    var n := SpaceBeforeEnd(s);
    if n != 0 {
      TrimRightDone(s[..|s| - n]);
    }
  }

  lemma TrimTwice(s: string)
    ensures TrimSpace(TrimSpace(s)) == TrimSpace(s)
  {
    var u, t := TrimLeft(s), TrimSpace(s);
    TrimLeftDone(s);
    TrimRightDone(u);
    assert SpaceAt(t, 0) == 0;
  }

  /** A text whose first and last bytes are no white space and end no wide one. */
  lemma NotTrimmed(s: string)
    requires s != "" && s[0] !in ASCII_SPACE && s[|s| - 1] !in ASCII_SPACE
    requires s[0] as int < 0x80 && s[|s| - 1] as int < 0x80
    ensures TrimSpace(s) == s
  {
    assert SpaceAt(s, 0) == 0;
    assert SpaceBeforeEnd(s) == 0;
  }

  /** ASCII lower case; other letters are left alone. */
  function LowerChar(c: char): char {
    if 'A' <= c <= 'Z' then (c as int + 32) as char else c
  }

  function Lower(s: string): (r: string)
    ensures |r| == |s|
  {
    seq(|s|, i requires 0 <= i < |s| => LowerChar(s[i]))
  }

  const CAPITALS := "ABCDEFGHIJKLMNOPQRSTUVWXYZ"
  const SMALL := "abcdefghijklmnopqrstuvwxyz"

  lemma AlphabetsMatch(k: nat)
    requires k < 26
    ensures CAPITALS[k] as int == 'A' as int + k && SMALL[k] as int == 'a' as int + k
  {
  }

  /** Capitals become the small letters at the same place of the alphabet, and nothing else changes. */
  lemma LowerIs(s: string, i: nat, k: nat)
    requires i < |s| && k < 26
    ensures s[i] == CAPITALS[k] ==> Lower(s)[i] == SMALL[k]
    ensures s[i] !in CAPITALS ==> Lower(s)[i] == s[i]
  {
    AlphabetsMatch(k);
    if 'A' <= s[i] <= 'Z' {
      AlphabetsMatch(s[i] as int - 'A' as int);
      assert CAPITALS[s[i] as int - 'A' as int] in CAPITALS;
    }
  }

  predicate OccursAt(s: string, part: string, i: nat) {
    i + |part| <= |s| && s[i..i + |part|] == part
  }

  predicate Contains(s: string, part: string) {
    exists i :: 0 <= i <= |s| && OccursAt(s, part, i)
  }

  /** The number of bytes before the first c, or all of them. */
  function Before(s: string, c: char): (n: nat)
    ensures n <= |s| && (n < |s| ==> s[n] == c) && forall i :: 0 <= i < n ==> s[i] != c
  {
    if s == "" || s[0] == c then 0 else 1 + Before(s[1..], c)
  }

  lemma BeforeIs(s: string, c: char, n: nat)
    requires n < |s| && s[n] == c && forall i :: 0 <= i < n ==> s[i] != c
    ensures Before(s, c) == n
  {
  }

  function Flatten(cs: seq<string>): string {
    if cs == [] then "" else cs[0] + Flatten(cs[1..])
  }

  // ----- decimal numbers -----

  predicate IsDigit(c: char) {
    '0' <= c <= '9'
  }

  predicate AllDigits(s: string) {
    forall i :: 0 <= i < |s| ==> IsDigit(s[i])
  }

  function Decimal(n: nat): (s: string)
    ensures s != [] && AllDigits(s)
  {
    var digit := ('0' as int + n % 10) as char;
    if n < 10 then [digit] else Decimal(n / 10) + [digit]
  }

  function DigitsValue(s: string): nat
    requires AllDigits(s)
  {
    if s == [] then 0 else 10 * DigitsValue(s[..|s| - 1]) + (s[|s| - 1] as int - '0' as int)
  }

  /** strconv.ParseUint(s, 10, _) without its range check. */
  function ParseDecimal(s: string): Option<nat> {
    if s == [] || !AllDigits(s) then None else Some(DigitsValue(s))
  }

  lemma {:induction false} ParsePrinted(n: nat)
    ensures ParseDecimal(Decimal(n)) == Some(n)
  {
    if n >= 10 {
      ParsePrinted(n / 10);
      var s := Decimal(n);
      assert s[..|s| - 1] == Decimal(n / 10) && s[|s| - 1] as int - '0' as int == n % 10;
    } else {
      assert Decimal(n)[..0] == [];
      assert DigitsValue([]) == 0;
    }
  }

  /** A number that starts with 0 is just "0", so printing what was parsed is the identity otherwise. */
  predicate Canonical(s: string) {
    s != [] && AllDigits(s) && (s[0] == '0' ==> |s| == 1)
  }

  lemma {:induction false} PrintParsed(s: string)
    requires s != [] && AllDigits(s)
    ensures Decimal(DigitsValue(s)) == s <==> Canonical(s)
    ensures Canonical(s) && |s| > 1 ==> DigitsValue(s) >= 10
    decreases |s|
  {
    var init, last := s[..|s| - 1], s[|s| - 1];
    if |s| == 1 {
      assert DigitsValue(init) == 0;
      assert s == [last];
    } else {
      PrintParsed(init);
      assert s == init + [last];
      var v := DigitsValue(s);
      assert v % 10 == last as int - '0' as int && v / 10 == DigitsValue(init);
      if s[0] == '0' {
        LeadingZeroShrinks(v);
      } else {
        LastDigit(v, DigitsValue(init), last);
      }
    }
  }

  lemma LastDigit(v: nat, rest: nat, last: char)
    requires IsDigit(last) && v == 10 * rest + (last as int - '0' as int) && v >= 10
    ensures Decimal(v) == Decimal(rest) + [last]
  {
  }

  lemma {:induction false} LeadingZeroShrinks(n: nat)
    ensures Decimal(n)[0] == '0' <==> n == 0
  {
    if n >= 10 {
      LeadingZeroShrinks(n / 10);
      assert Decimal(n)[0] == Decimal(n / 10)[0];
    }
  }
}

/** What trimming removes: white-space characters, which are given by their code points. */
module Trimming {
  import opened Sequences
  import opened Text

  const SPACES: set<int> :=
    {0x09, 0x0a, 0x0b, 0x0c, 0x0d, 0x20, 0x85, 0xa0, 0x1680, 0x2000, 0x2001, 0x2002, 0x2003, 0x2004, 0x2005, 0x2006,
     0x2007, 0x2008, 0x2009, 0x200a, 0x2028, 0x2029, 0x202f, 0x205f, 0x3000}

  /** UTF-8, up to three bytes. */
  function Utf8(cp: int): string
    requires 0 <= cp < 0xd800
  {
    if cp < 0x80 then [cp as char]
    else if cp < 0x800 then [(0xc0 + cp / 0x40) as char, (0x80 + cp % 0x40) as char]
    else [(0xe0 + cp / 0x1000) as char, (0x80 + cp / 0x40 % 0x40) as char, (0x80 + cp % 0x40) as char]
  }

  ghost predicate IsSpaceChar(c: string) {
    exists cp :: cp in SPACES && c == Utf8(cp)
  }

  ghost predicate AllSpaces(cs: seq<string>) {
    forall i :: 0 <= i < |cs| ==> IsSpaceChar(cs[i])
  }

  /** A row of white-space characters. */
  ghost predicate Blank(w: string) {
    exists cs :: AllSpaces(cs) && w == Flatten(cs)
  }

  predicate EndsWith(s: string, end: string) {
    |end| <= |s| && s[|s| - |end|..] == end
  }

  ghost predicate Untrimmed(t: string) {
    forall c :: IsSpaceChar(c) ==> !(c <= t) && !EndsWith(t, c)
  }

  /** The encodings that the text functions look for. */
  predicate Encoded(c: string) {
    || (|c| == 1 && c[0] in ASCII_SPACE)
    || (|c| == 2 && c[0] as int == 0xc2 && c[1] as int in {0x85, 0xa0})
    || (|c| == 3 && IsWideSpace(c[0], c[1], c[2]))
  }

  lemma SpaceIsEncoded(cp: int)
    requires cp in SPACES
    ensures Encoded(Utf8(cp))
  {
    if cp < 0x80 {
      assert Utf8(cp)[0] in ASCII_SPACE;
    } else if cp < 0x800 {
      assert Utf8(cp)[0] as int == 0xc2;
    }
  }

  lemma WideIsSpace(c: string)
    requires |c| == 3 && IsWideSpace(c[0], c[1], c[2])
    ensures IsSpaceChar(c)
  {
    var cp := (c[0] as int - 0xe0) * 0x1000 + (c[1] as int - 0x80) * 0x40 + (c[2] as int - 0x80);
    assert cp in SPACES;
    assert c == Utf8(cp);
  }

  lemma EncodedIsSpace(c: string)
    requires Encoded(c)
    ensures IsSpaceChar(c)
  {
    if |c| == 3 {
      WideIsSpace(c);
    } else {
      var cp := c[|c| - 1] as int;
      assert cp in SPACES && c == Utf8(cp);
    }
  }

  lemma SpacesAreEncoded(c: string)
    ensures IsSpaceChar(c) <==> Encoded(c)
  {
    if IsSpaceChar(c) {
      var cp :| cp in SPACES && c == Utf8(cp);
      SpaceIsEncoded(cp);
    }
    if Encoded(c) {
      EncodedIsSpace(c);
    }
  }

  // ----- one character at either end -----

  lemma SpaceAtStart(c: string, x: string)
    requires Encoded(c)
    ensures SpaceAt(c + x, 0) == |c| && (c + x)[|c|..] == x
  {
  }

  lemma SpaceAtEnd(x: string, c: string)
    requires Encoded(c)
    ensures SpaceBeforeEnd(x + c) == |c| && (x + c)[..|x|] == x
  {
  }

  lemma StartIsEncoded(s: string)
    ensures var n := SpaceAt(s, 0); n > 0 ==> Encoded(s[..n])
  {
  }

  lemma EndIsEncoded(s: string)
    ensures var n := SpaceBeforeEnd(s); n > 0 ==> Encoded(s[|s| - n..])
  {
  }

  // ----- rows of characters -----

  predicate AllEncoded(cs: seq<string>) {
    forall i :: 0 <= i < |cs| ==> Encoded(cs[i])
  }

  lemma AllSpacesIff(cs: seq<string>)
    ensures AllSpaces(cs) <==> AllEncoded(cs)
  {
    forall i | 0 <= i < |cs|
      ensures IsSpaceChar(cs[i]) <==> Encoded(cs[i])
    {
      SpacesAreEncoded(cs[i]);
    }
  }

  lemma RowIsBlank(cs: seq<string>)
    requires AllEncoded(cs)
    ensures Blank(Flatten(cs))
  {
    AllSpacesIff(cs);
  }

  lemma BlankIsRow(w: string) returns (cs: seq<string>)
    requires Blank(w)
    ensures AllEncoded(cs) && w == Flatten(cs)
  {
    cs :| AllSpaces(cs) && w == Flatten(cs);
    AllSpacesIff(cs);
  }

  lemma {:induction false} FlattenOneMore(cs: seq<string>, c: string)
    ensures Flatten(cs + [c]) == Flatten(cs) + c
    decreases |cs|
  {
    if cs == [] {
      assert [] + [c] == [c] && [c][1..] == [];
    } else {
      FlattenOneMore(cs[1..], c);
      assert (cs + [c])[1..] == cs[1..] + [c];
      Regroup(cs[0], Flatten(cs[1..]), c);
    }
  }

  lemma EncodedFront(c: string, cs: seq<string>)
    requires Encoded(c) && AllEncoded(cs)
    ensures AllEncoded([c] + cs) && Flatten([c] + cs) == c + Flatten(cs)
  {
    assert ([c] + cs)[1..] == cs;
  }

  lemma {:induction false} LeftIsBlank(s: string) returns (cs: seq<string>)
    ensures AllEncoded(cs) && s == Flatten(cs) + TrimLeft(s)
    decreases |s|
  {
    var n := SpaceAt(s, 0);
    cs := [];
    if n > 0 {
      var rest := LeftIsBlank(s[n..]);
      StartIsEncoded(s);
      Regroup(s[..n], Flatten(rest), TrimLeft(s));
      cs := [s[..n]] + rest;
      EncodedFront(s[..n], rest);
      assert s == s[..n] + s[n..];
    }
  }

  lemma {:induction false} RightIsBlank(s: string) returns (cs: seq<string>)
    ensures AllEncoded(cs) && s == TrimRight(s) + Flatten(cs)
    decreases |s|
  {
    var n := SpaceBeforeEnd(s);
    cs := [];
    if n > 0 {
      var c := s[|s| - n..];
      var rest := RightIsBlank(s[..|s| - n]);
      EndIsEncoded(s);
      FlattenOneMore(rest, c);
      Regroup(TrimRight(s), Flatten(rest), c);
      cs := rest + [c];
      assert s == s[..|s| - n] + c;
    }
  }

  lemma {:induction false} LeftSkips(cs: seq<string>, x: string)
    requires AllEncoded(cs)
    ensures TrimLeft(Flatten(cs) + x) == TrimLeft(x)
    decreases |cs|
  {
    if cs == [] {
      assert "" + x == x;
    } else {
      var rest := Flatten(cs[1..]) + x;
      Regroup(cs[0], Flatten(cs[1..]), x);
      SpaceAtStart(cs[0], rest);
      LeftSkips(cs[1..], x);
    }
  }

  lemma {:induction false} RightSkips(x: string, cs: seq<string>)
    requires AllEncoded(cs)
    ensures TrimRight(x + Flatten(cs)) == TrimRight(x)
    decreases |cs|
  {
    if cs == [] {
      assert x + "" == x;
    } else {
      var init, c := cs[..|cs| - 1], cs[|cs| - 1];
      assert cs == init + [c];
      FlattenOneMore(init, c);
      Regroup(x, Flatten(init), c);
      SpaceAtEnd(x + Flatten(init), c);
      RightSkips(x, init);
    }
  }

  // ----- trimming -----

  lemma SpacesAtEnds(t: string, c: string)
    requires Encoded(c)
    ensures c <= t ==> SpaceAt(t, 0) == |c|
    ensures EndsWith(t, c) ==> SpaceBeforeEnd(t) == |c|
  {
    if c <= t {
      SpaceAtStart(c, t[|c|..]);
      assert t == c + t[|c|..];
    }
    if EndsWith(t, c) {
      SpaceAtEnd(t[..|t| - |c|], c);
      assert t == t[..|t| - |c|] + c;
    }
  }

  lemma StartIsTouched(t: string)
    requires SpaceAt(t, 0) > 0
    ensures !Untrimmed(t)
  {
    var c := t[..SpaceAt(t, 0)];
    StartIsEncoded(t);
    EncodedIsSpace(c);
    assert c <= t;
  }

  lemma EndIsTouched(t: string)
    requires SpaceBeforeEnd(t) > 0
    ensures !Untrimmed(t)
  {
    var c := t[|t| - SpaceBeforeEnd(t)..];
    EndIsEncoded(t);
    EncodedIsSpace(c);
    assert EndsWith(t, c);
  }

  lemma NothingIsTouched(t: string)
    requires SpaceAt(t, 0) == 0 && SpaceBeforeEnd(t) == 0
    ensures Untrimmed(t)
  {
    forall c | IsSpaceChar(c)
      ensures !(c <= t) && !EndsWith(t, c)
    {
      SpacesAreEncoded(c);
      SpacesAtEnds(t, c);
    }
  }

  lemma UntrimmedIff(t: string)
    ensures Untrimmed(t) <==> SpaceAt(t, 0) == 0 && SpaceBeforeEnd(t) == 0
  {
    if SpaceAt(t, 0) > 0 {
      StartIsTouched(t);
    } else if SpaceBeforeEnd(t) > 0 {
      EndIsTouched(t);
    } else {
      NothingIsTouched(t);
    }
  }

  lemma LeftStays(s: string)
    ensures SpaceAt(TrimSpace(s), 0) == 0 && SpaceBeforeEnd(TrimSpace(s)) == 0
  {
    var u, t := TrimLeft(s), TrimSpace(s);
    TrimLeftDone(s);
    TrimRightDone(u);
    assert SpaceAt(t, 0) == 0;
  }

  /** What is trimmed is a row of white-space characters on either side, and none is left at either end. */
  lemma TrimSpaceIs(s: string) returns (w: string, v: string)
    ensures s == w + TrimSpace(s) + v && Blank(w) && Blank(v) && Untrimmed(TrimSpace(s))
  {
    var left := LeftIsBlank(s);
    var right := RightIsBlank(TrimLeft(s));
    RowIsBlank(left);
    RowIsBlank(right);
    w, v := Flatten(left), Flatten(right);
    Regroup(w, TrimSpace(s), v);
    LeftStays(s);
    UntrimmedIff(TrimSpace(s));
  }

  lemma NoCharAcross(t: string, c: string, rest: string)
    requires t != "" && SpaceAt(t, 0) == 0 && Encoded(c)
    ensures SpaceAt(t + (c + rest), 0) == 0
  {
    var s := t + (c + rest);
    assert s[0] == t[0];
    assert |t| == 1 ==> s[1] == c[0];
    assert |t| >= 2 ==> s[1] == t[1];
    assert |t| == 2 ==> s[2] == c[0];
    assert |t| >= 3 ==> s[2] == t[2];
  }

  /** A row of white space does not go on inside a character that begins before it. */
  lemma NothingBegins(t: string, cs: seq<string>)
    requires t != "" && SpaceAt(t, 0) == 0 && AllEncoded(cs)
    ensures SpaceAt(t + Flatten(cs), 0) == 0
  {
    if cs != [] {
      NoCharAcross(t, cs[0], Flatten(cs[1..]));
    } else {
      assert t + "" == t;
    }
  }

  lemma TrimLeftOf(s: string)
    requires SpaceAt(s, 0) == 0
    ensures TrimLeft(s) == s
  {
  }

  lemma TrimRightOf(s: string)
    requires SpaceBeforeEnd(s) == 0
    ensures TrimRight(s) == s
  {
  }

  lemma RowIsTrimmed(t: string, right: seq<string>)
    requires AllEncoded(right) && SpaceAt(t, 0) == 0 && SpaceBeforeEnd(t) == 0
    ensures TrimSpace(t + Flatten(right)) == t
  {
    if t == "" {
      assert t + Flatten(right) == Flatten(right) + "";
      LeftSkips(right, "");
    } else {
      NothingBegins(t, right);
      TrimLeftOf(t + Flatten(right));
      RightSkips(t, right);
    }
    TrimLeftOf("");
    TrimRightOf(t);
  }

  /** And this determines it. */
  lemma TrimSpaceUnique(w: string, t: string, v: string)
    requires Blank(w) && Blank(v) && Untrimmed(t)
    ensures TrimSpace(w + t + v) == t
  {
    var left := BlankIsRow(w);
    var right := BlankIsRow(v);
    UntrimmedIff(t);
    Regroup(w, t, v);
    LeftSkips(left, t + v);
    RowIsTrimmed(t, right);
  }

  /** `raw` is `t` with white space around it, or none. */
  ghost predicate Padded(raw: string, t: string) {
    Untrimmed(t) && exists w, v :: Blank(w) && Blank(v) && raw == w + t + v
  }

  lemma PaddedIff(raw: string, t: string)
    ensures Padded(raw, t) <==> TrimSpace(raw) == t
  {
    var w, v := TrimSpaceIs(raw);
    assert Padded(raw, TrimSpace(raw));
    if Padded(raw, t) {
      var x, y :| Blank(x) && Blank(y) && raw == x + t + y;
      TrimSpaceUnique(x, t, y);
    }
  }

  lemma EmptyIsBlank()
    ensures Blank("") && Untrimmed("")
  {
    RowIsBlank([]);
    UntrimmedIff("");
  }

  lemma OneSpaceIsBlank(c: string)
    requires Encoded(c)
    ensures Blank(c)
  {
    RowIsBlank([c]);
    assert Flatten([c]) == c + Flatten([]) == c;
  }

  lemma PlainIsUntrimmed(s: string)
    requires s != "" && s[0] !in ASCII_SPACE && s[|s| - 1] !in ASCII_SPACE
    requires s[0] as int < 0x80 && s[|s| - 1] as int < 0x80
    ensures Untrimmed(s)
  {
    UntrimmedIff(s);
  }

  /** Nothing is left exactly of white space. */
  lemma BlankIff(s: string)
    ensures TrimSpace(s) == "" <==> Blank(s)
  {
    EmptyIsBlank();
    if Blank(s) {
      TrimSpaceUnique(s, "", "");
      assert s + "" + "" == s;
    }
    if TrimSpace(s) == "" {
      NothingLeftIsBlank(s);
    }
  }

  lemma NothingLeftIsBlank(s: string)
    requires TrimSpace(s) == ""
    ensures Blank(s)
  {
    var left := LeftIsBlank(s);
    var right := RightIsBlank(TrimLeft(s));
    assert TrimLeft(s) == "" + Flatten(right) == Flatten(right);
    FlattenBoth(left, right);
    RowIsBlank(left + right);
  }

  lemma {:induction false} FlattenBoth(a: seq<string>, b: seq<string>)
    ensures Flatten(a + b) == Flatten(a) + Flatten(b)
    decreases |a|
  {
    if a == [] {
      assert a + b == b;
    } else {
      FlattenBoth(a[1..], b);
      assert (a + b)[1..] == a[1..] + b;
      Regroup(a[0], Flatten(a[1..]), Flatten(b));
    }
  }
}
