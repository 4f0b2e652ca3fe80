/**
 * What the route handlers read off a request before touching any page: the raw query
 * string of the page view, the click coordinates in it, the screenshot extension, and the
 * structured input event of the (disabled) input route.
 */
module Requests {
  import opened Wrappers
  import opened Text
  import opened Decimal
  import opened JsParseInt

  // ---------------------------------------------------------------- raw query string

  /** `getRawQueryString(url)`: everything after the first `?`, or "" when there is none. */
  function GetRawQueryString(url: string): (r: string)
    ensures '?' !in url ==> r == ""
    ensures '?' in url ==>
      && |r| < |url|
      && url == url[..|url| - |r| - 1] + "?" + r
      && '?' !in url[..|url| - |r| - 1]
  {
    match IndexOf(url, '?')
    case None => ""
    case Some(i) => (assert url == url[..i] + "?" + url[i + 1..]; url[i + 1..])
  }

  // ---------------------------------------------------------------- click coordinates

  /** The language of `^(\d+),(\d+)$`: digits, one comma, digits, and nothing else. */
  predicate MatchesClickPattern(q: string) {
    exists i :: 0 < i < |q| - 1 && q[i] == ',' && AllDigits(q[..i]) && AllDigits(q[i + 1..])
  }

  /** The two capture groups of `CLICK_COORDINATES_REGEX.exec(q)`; `None` is `null`. */
  function ClickCaptures(q: string): (r: Option<(string, string)>)
    ensures r.Some? ==>
      && q == r.value.0 + "," + r.value.1
      && |r.value.0| > 0 && AllDigits(r.value.0)
      && |r.value.1| > 0 && AllDigits(r.value.1)
  {
    match IndexOf(q, ',')
    case None => None
    case Some(i) =>
      var x, y := q[..i], q[i + 1..];
      if |x| > 0 && |y| > 0 && AllDigits(x) && AllDigits(y) then
        assert q == x + "," + y;
        Some((x, y))
      else None
  }

  /** The capture function accepts exactly the regular expression's language. */
  lemma ClickCapturesExact(q: string)
    ensures ClickCaptures(q).Some? <==> MatchesClickPattern(q)
  {
    if ClickCaptures(q).Some? {
      var i := IndexOf(q, ',').value;
      assert 0 < i < |q| - 1 && q[i] == ',' && AllDigits(q[..i]) && AllDigits(q[i + 1..]);
    }
    if MatchesClickPattern(q) {
      var i :| 0 < i < |q| - 1 && q[i] == ',' && AllDigits(q[..i]) && AllDigits(q[i + 1..]);
      assert forall k :: 0 <= k < i ==> q[k] != ',' by {
        forall k | 0 <= k < i
          ensures q[k] != ','
        {
          assert q[..i][k] == q[k];
        }
      }
      var j := IndexOf(q, ',').value;
      assert j == i;
    }
  }

  /** Digits, a comma and digits are captured as exactly those two digit strings. */
  lemma ClickCapturesOf(x: string, y: string)
    requires |x| > 0 && AllDigits(x) && |y| > 0 && AllDigits(y)
    ensures ClickCaptures(x + "," + y) == Some((x, y))
  {
    var q := x + "," + y;
    assert q[|x|] == ',' && q[..|x|] == x && q[|x| + 1..] == y;
    assert MatchesClickPattern(q);
    ClickCapturesExact(q);
  }

  /**
   * The click a page view dispatches for its raw query string: none for an empty query
   * (`if (rawQuery)`), otherwise `parseInt` of the two captures when the pattern matches.
   */
  function ClickTarget(rawQuery: string): (r: Option<(nat, nat)>)
    ensures r.Some? <==> ClickCaptures(rawQuery).Some?
    ensures r.Some? ==>
      var (x, y) := ClickCaptures(rawQuery).value;
      r.value == (DigitsValue(x), DigitsValue(y))
  {
    if rawQuery == "" then None
    else match ClickCaptures(rawQuery)
      case None => None
      case Some((x, y)) =>
        ParseIntDigits(x);
        ParseIntDigits(y);
        Some((ParseInt(x).value, ParseInt(y).value))
  }

  /** A click is dispatched exactly for the queries in the language of `^(\d+),(\d+)$`. */
  lemma ClickTargetExact(rawQuery: string)
    ensures ClickTarget(rawQuery).Some? <==> MatchesClickPattern(rawQuery)
  {
    ClickCapturesExact(rawQuery);
  }

  /** The coordinates written as `x,y` (as an image map sends them) are read back exactly. */
  lemma ClickTargetOfNumerals(x: nat, y: nat)
    ensures ClickTarget(NatToString(x) + "," + NatToString(y)) == Some((x, y))
  {
    NatToStringCanonical(x);
    NatToStringCanonical(y);
    ClickCapturesOf(NatToString(x), NatToString(y));
  }

  /** The query `12,34` clicks at (12, 34). */
  lemma ClickTargetExample()
    ensures ClickTarget("12,34") == Some((12, 34))
  {
    ClickCapturesOf("12", "34");
    assert "12" + "," + "34" == "12,34";
    assert DigitsValue("12") == 12 by {
      assert "12"[..1] == "1" && "1"[..0] == [];
      assert Value("12", 10) == Value("1", 10) * 10 + 2;
    }
    assert DigitsValue("34") == 34 by {
      assert "34"[..1] == "3" && "3"[..0] == [];
      assert Value("34", 10) == Value("3", 10) * 10 + 4;
    }
  }

  /** A third number is not a click. */
  lemma ClickTargetRejectsThreeNumbers()
    ensures ClickTarget("12,34,56").None?
  {
    var q := "12,34,56";
    assert IndexOf(q, ',') == Some(2) by {
      assert q[2] == ',' && q[..2] == "12";
    }
    assert !AllDigits(q[3..]) by {
      assert q[3..][2] == ',';
    }
  }

  /** A sign is not a digit. */
  lemma ClickTargetRejectsSign()
    ensures ClickTarget("-1,2").None?
  {
  }

  /** Letters are not digits, and an empty query is no click. */
  lemma ClickTargetRejectsLettersAndEmpty()
    ensures ClickTarget("a,b").None?
    ensures ClickTarget("").None?
  {
  }

  // ---------------------------------------------------------------- screenshot format

  /** The image formats the screenshot route produces. */
  datatype Format = Jpeg | Png | Webp

  /** The `type` passed to the screenshot call. */
  function FormatName(f: Format): string {
    match f
    case Jpeg => "jpeg"
    case Png => "png"
    case Webp => "webp"
  }

  const ACCEPTED_EXTENSIONS: seq<string> := ["jpg", "jpeg", "png", "webp"]

  /**
   * The format for the `:ext` path parameter: lowercased, rejected unless it is one of
   * `jpg`, `jpeg`, `png`, `webp`, with `jpg` standing for `jpeg`.
   */
  function ScreenshotFormat(ext: string): (r: Option<Format>)
    ensures r.Some? <==> ToLower(ext) in ACCEPTED_EXTENSIONS
    ensures r.Some? ==> FormatName(r.value) == (if ToLower(ext) == "jpg" then "jpeg" else ToLower(ext))
  {
    var extension := ToLower(ext);
    if extension !in ACCEPTED_EXTENSIONS then None
    else if extension == "jpg" || extension == "jpeg" then Some(Jpeg)
    else if extension == "png" then Some(Png)
    else Some(Webp)
  }

  /** Every format is reachable by its own name, in any letter case. */
  lemma ScreenshotFormatOfName(f: Format, ext: string)
    requires ToLower(ext) == FormatName(f)
    ensures ScreenshotFormat(ext) == Some(f)
  {
  }

  /** `jpg` is an alias: it asks for exactly what `jpeg` asks for. */
  lemma JpgAliasesJpeg(ext: string)
    requires ToLower(ext) == "jpg"
    ensures ScreenshotFormat(ext) == ScreenshotFormat("jpeg") == Some(Jpeg)
  {
    assert ToLower("jpeg") == "jpeg";
  }

  /** The extension is case-insensitive. */
  lemma ScreenshotFormatIgnoresCase(ext: string)
    ensures ScreenshotFormat(ToUpper(ext)) == ScreenshotFormat(ext)
  {
    ToLowerIgnoresCase(ext);
  }

  /** `FORMATS_TO_CONTENTTYPES`. */
  const FORMATS_TO_CONTENTTYPES: map<Format, string> :=
    map[Jpeg := "image/jpeg", Png := "image/png", Webp := "image/webp"]

  /** The options object of the screenshot call. */
  datatype ScreenshotOptions = ScreenshotOptions(
    captureBeyondViewport: bool,
    fullPage: bool,
    optimizeForSpeed: bool,
    format: Format,
    quality: Option<nat>)

  const LOSSY_QUALITY: nat := 95

  function ScreenshotOptionsFor(f: Format): (o: ScreenshotOptions)
    ensures o.format == f && o.fullPage && o.captureBeyondViewport && o.optimizeForSpeed
    ensures o.quality.Some? <==> f != Png
    ensures o.quality.Some? ==> o.quality.value == LOSSY_QUALITY <= 100
  {
    ScreenshotOptions(true, true, true, f, if f == Png then None else Some(LOSSY_QUALITY))
  }

  /** Every format has a content type, and it names the format the image was captured in. */
  lemma ContentTypeNamesFormat(f: Format)
    ensures f in FORMATS_TO_CONTENTTYPES
    ensures FORMATS_TO_CONTENTTYPES[f] == "image/" + FormatName(f)
  {
  }

  // ---------------------------------------------------------------- structured input event

  /** A property of the object `JSON.parse` returned. */
  datatype JsValue = JsNumber(n: int) | JsString(s: string) | JsOther

  /** The properties `type`, `x` and `y` of a parsed request body. */
  datatype ParsedEvent = ParsedEvent(kind: JsValue, x: JsValue, y: JsValue)

  datatype ClickEvent = ClickEvent(x: nat, y: nat)

  /**
   * `parseInputEvent(request)`: `parsed` is what `JSON.parse(request)` gave (`None` when it
   * threw or gave `null`); the result is `None` wherever the function throws.
   */
  function ParseInputEvent(request: string, parsed: Option<ParsedEvent>): (r: Option<ClickEvent>)
    ensures r.Some? ==> request != "" && parsed.Some? && parsed.value.kind == JsString("click")
    ensures r.Some? ==> parsed.value.x == JsNumber(r.value.x) && parsed.value.y == JsNumber(r.value.y)
  {
    if request == "" then None
    else match parsed
      case None => None
      case Some(e) =>
        if e.kind != JsString("click") then None
        else if !e.x.JsNumber? || e.x.n < 0 || !e.y.JsNumber? || e.y.n < 0 then None
        else Some(ClickEvent(e.x.n, e.y.n))
  }

  /** The event a client sends for a click at `c`. */
  function ClickBody(c: ClickEvent): ParsedEvent {
    ParsedEvent(JsString("click"), JsNumber(c.x), JsNumber(c.y))
  }

  /** Every click event a client encodes is accepted as that same click. */
  lemma ParseInputEventRoundTrip(request: string, c: ClickEvent)
    requires request != ""
    ensures ParseInputEvent(request, Some(ClickBody(c))) == Some(c)
  {
  }

  /** A negative coordinate or another event type is rejected. */
  lemma ParseInputEventRejects(request: string, e: ParsedEvent)
    requires e.kind != JsString("click") || (e.x.JsNumber? && e.x.n < 0) || (e.y.JsNumber? && e.y.n < 0)
    ensures ParseInputEvent(request, Some(e)).None?
  {
  }
}
