/**
 What internal/llmcache/key.go feeds to SHA-256. The digest itself is opaque; two requests can
 share a key without a hash collision only if they share this pre-image.
 */
module CacheKey {
  import opened Text

  datatype Request = Request(messages: string, tools: string, model: string, thinking: bool)

  datatype Intent = Intent(messages: string, model: string)

  function Field(tag: string, body: string): string {
    tag + ":" + Decimal(|body|) + ":" + body + "\n"
  }

  /** The pre-image of BuildKey. */
  function KeyImage(r: Request): string {
    Field("m", r.messages) + Field("t", r.tools)
    + "model:" + r.model + "\n" + "think:" + (if r.thinking then "1" else "0") + "\n"
  }

  /** The pre-image of BuildIntentKey. */
  function IntentImage(r: Intent): string {
    Field("intent", r.messages) + "model:" + r.model + "\n"
  }

  // ----- a reader for the pre-images -----

  function DigitRun(s: string): (n: nat)
    ensures n <= |s| && AllDigits(s[..n]) && (n < |s| ==> !IsDigit(s[n]))
  {
    if s == [] || !IsDigit(s[0]) then 0 else
      var n := DigitRun(s[1..]);
      assert s[..n + 1] == [s[0]] + s[1..][..n];
      n + 1
  }

  /** Reads a length, a colon, that many bytes and a line end; the result is the bytes and what follows. */
  function ReadSized(s: string): Option<(string, string)> {
    var n := DigitRun(s);
    if n == 0 || n == |s| || s[n] != ':' then None else
      var size := DigitsValue(s[..n]);
      var body := s[n + 1..];
      if size >= |body| || body[size] != '\n' then None
      else Some((body[..size], body[size + 1..]))
  }

  /** Reads one field with this tag from the front; the result is its body and what follows it. */
  function ReadField(tag: string, s: string): Option<(string, string)> {
    var head := |tag| + 1;
    if head > |s| || s[..head] != tag + ":" then None else ReadSized(s[head..])
  }

  /** Reads prefix, free text, suffix. */
  function ReadBetween(prefix: string, suffix: string, s: string): Option<string> {
    if |s| < |prefix| + |suffix| || s[..|prefix|] != prefix || s[|s| - |suffix|..] != suffix then None
    else Some(s[|prefix|..|s| - |suffix|])
  }

  function ThinkLine(thinking: bool): string {
    "\nthink:" + (if thinking then "1" else "0") + "\n"
  }

  function ReadModel(s: string): Option<(string, bool)> {
    match ReadBetween("model:", ThinkLine(true), s)
    case Some(model) => Some((model, true))
    case None =>
      match ReadBetween("model:", ThinkLine(false), s)
      case Some(model) => Some((model, false))
      case None => None
  }

  function ReadKey(s: string): Option<Request> {
    match ReadField("m", s)
    case None => None
    case Some((messages, rest)) =>
      match ReadField("t", rest)
      case None => None
      case Some((tools, tail)) =>
        match ReadModel(tail)
        case None => None
        case Some((model, thinking)) => Some(Request(messages, tools, model, thinking))
  }

  function ReadIntent(s: string): Option<Intent> {
    match ReadField("intent", s)
    case None => None
    case Some((messages, rest)) =>
      match ReadBetween("model:", "\n", rest)
      case None => None
      case Some(model) => Some(Intent(messages, model))
  }

  lemma {:induction false} DigitRunStopsAt(digits: string, rest: string)
    requires AllDigits(digits) && rest != [] && !IsDigit(rest[0])
    ensures DigitRun(digits + rest) == |digits|
  {
    if digits != [] {
      assert (digits + rest)[1..] == digits[1..] + rest;
      DigitRunStopsAt(digits[1..], rest);
    } else {
      assert digits + rest == rest;
    }
  }

  lemma ReadSizedOf(digits: string, tail: string, body: string, rest: string)
    requires digits != "" && AllDigits(digits) && DigitsValue(digits) == |body| && tail == body + ("\n" + rest)
    ensures ReadSized(digits + (":" + tail)) == Some((body, rest))
  {
    var s := digits + (":" + tail);
    DigitRunStopsAt(digits, ":" + tail);
    assert s[..|digits|] == digits && s[|digits|] == ':' && s[|digits| + 1..] == tail;
    assert tail[..|body|] == body && tail[|body|] == '\n' && tail[|body| + 1..] == rest;
  }

  lemma ReadSizedAfterWrite(body: string, rest: string)
    ensures ReadSized(Decimal(|body|) + (":" + (body + ("\n" + rest)))) == Some((body, rest))
  {
    ParsePrinted(|body|);
    ReadSizedOf(Decimal(|body|), body + ("\n" + rest), body, rest);
  }

  /** Length prefixes delimit a field whatever bytes its body holds. */
  lemma ReadFieldAfterWrite(tag: string, body: string, rest: string)
    ensures ReadField(tag, Field(tag, body) + rest) == Some((body, rest))
  {
    var s, sized := Field(tag, body) + rest, Decimal(|body|) + (":" + (body + ("\n" + rest)));
    assert s == (tag + ":") + sized;
    assert s[..|tag| + 1] == tag + ":" && s[|tag| + 1..] == sized;
    ReadSizedAfterWrite(body, rest);
  }

  lemma ReadBetweenAfterWrite(prefix: string, model: string, suffix: string)
    ensures ReadBetween(prefix, suffix, prefix + model + suffix) == Some(model)
  {
    var s := prefix + model + suffix;
    assert s[..|prefix|] == prefix && s[|s| - |suffix|..] == suffix && s[|prefix|..|s| - |suffix|] == model;
  }

  lemma ReadModelAfterWrite(model: string, thinking: bool)
    ensures ReadModel("model:" + model + ThinkLine(thinking)) == Some((model, thinking))
  {
    var s := "model:" + model + ThinkLine(thinking);
    ReadBetweenAfterWrite("model:", model, ThinkLine(thinking));
    assert s[|s| - 2] == (if thinking then '1' else '0');
    if ReadBetween("model:", ThinkLine(true), s).Some? {
      assert s[|s| - 9..][7] == ThinkLine(true)[7] == '1';
    }
  }

  lemma KeyImageSplits(r: Request)
    ensures KeyImage(r) ==
            Field("m", r.messages) + (Field("t", r.tools) + ("model:" + r.model + ThinkLine(r.thinking)))
  {
    var m, t := Field("m", r.messages), Field("t", r.tools);
    var flag := if r.thinking then "1" else "0";
    assert "model:" + r.model + ThinkLine(r.thinking) == "model:" + r.model + "\n" + "think:" + flag + "\n";
    assert m + (t + ("model:" + r.model + "\n" + "think:" + flag + "\n"))
        == m + t + "model:" + r.model + "\n" + "think:" + flag + "\n";
  }

  /** Every request can be read back from its pre-image, even if the model name contains newlines. */
  lemma KeyRoundTrip(r: Request)
    ensures ReadKey(KeyImage(r)) == Some(r)
  {
    var tail := "model:" + r.model + ThinkLine(r.thinking);
    KeyImageSplits(r);
    ReadFieldAfterWrite("m", r.messages, Field("t", r.tools) + tail);
    ReadFieldAfterWrite("t", r.tools, tail);
    ReadModelAfterWrite(r.model, r.thinking);
  }

  lemma IntentRoundTrip(r: Intent)
    ensures ReadIntent(IntentImage(r)) == Some(r)
  {
    var tail := "model:" + r.model + "\n";
    assert IntentImage(r) == Field("intent", r.messages) + tail;
    ReadFieldAfterWrite("intent", r.messages, tail);
    ReadBetweenAfterWrite("model:", r.model, "\n");
  }

  /** Different requests have different pre-images. */
  lemma KeyImageInjective(a: Request, b: Request)
    ensures KeyImage(a) == KeyImage(b) <==> a == b
  {
    KeyRoundTrip(a);
    KeyRoundTrip(b);
  }

  lemma IntentImageInjective(a: Intent, b: Intent)
    ensures IntentImage(a) == IntentImage(b) <==> a == b
  {
    IntentRoundTrip(a);
    IntentRoundTrip(b);
  }

  /** The two kinds of key never meet. */
  lemma KindsDisjoint(a: Request, b: Intent)
    ensures KeyImage(a) != IntentImage(b)
  {
    assert KeyImage(a)[0] == 'm';
    assert IntentImage(b)[0] == 'i';
  }
}
