/**
 * The requests the server makes of the browser engine, recorded rather than performed,
 * and the parameter logic of `setupPage`.
 */
module Engine {
  import opened Wrappers
  import opened Decimal
  import opened JsParseInt
  import opened Requests

  /** One call into the browser engine; `width` is `None` where `parseInt` gave `NaN`. */
  datatype EngineRequest =
    | CreateBrowserContext(userId: string)
    | NewPage(userId: string, pageId: string)
    | SetViewport(pageId: string, width: Option<int>, height: nat)
    | Goto(pageId: string, url: string)
    | Click(pageId: string, x: nat, y: nat)
    | Screenshot(pageId: string, options: ScreenshotOptions)
  {
    /** The page a request acts on, if it acts on one. */
    function Target(): Option<string> {
      match this
      case CreateBrowserContext(_) => None
      case NewPage(_, p) => Some(p)
      case SetViewport(p, _, _) => Some(p)
      case Goto(p, _) => Some(p)
      case Click(p, _, _) => Some(p)
      case Screenshot(p, _) => Some(p)
    }
  }

  const DEFAULT_VIEWPORT_WIDTH: nat := 1024
  const VIEWPORT_HEIGHT: nat := 1024
  const PAGE_KEEPALIVE_TIMEOUT: nat := 1000 * 60 * 60

  /** `viewportWidth ? parseInt(viewportWidth) : defaultViewportWidth`. */
  function ViewportWidth(viewportWidth: string): Option<int> {
    if viewportWidth == "" then Some(DEFAULT_VIEWPORT_WIDTH) else ParseInt(viewportWidth)
  }

  /** The engine requests `setupPage` makes on page `pageId`, in order. */
  function SetupRequests(pageId: string, startUrl: string, viewportWidth: string): (r: seq<EngineRequest>)
    ensures |r| > 0 && r[0].SetViewport? && r[0].height == VIEWPORT_HEIGHT
    ensures r[0].width == ViewportWidth(viewportWidth)
    ensures forall i :: 0 <= i < |r| ==> r[i].Target() == Some(pageId)
  {
    [SetViewport(pageId, ViewportWidth(viewportWidth), VIEWPORT_HEIGHT)]
      + (if startUrl != "" then [Goto(pageId, startUrl)] else [])
  }

  /** Setup navigates if and only if a start URL was given, and then only to that URL. */
  lemma SetupNavigatesIffStartUrl(pageId: string, startUrl: string, viewportWidth: string)
    ensures var r := SetupRequests(pageId, startUrl, viewportWidth);
      (exists i :: 0 <= i < |r| && r[i].Goto?) <==> startUrl != ""
    ensures var r := SetupRequests(pageId, startUrl, viewportWidth);
      forall i :: 0 <= i < |r| && r[i].Goto? ==> r[i].url == startUrl && i == |r| - 1
  {
    var r := SetupRequests(pageId, startUrl, viewportWidth);
    if startUrl != "" {
      assert r[1].Goto?;
    }
  }

  /** An empty width asks for the default 1024; a decimal numeral asks for its value, with no range check. */
  lemma ViewportWidthChoice(n: nat)
    ensures ViewportWidth("") == Some(DEFAULT_VIEWPORT_WIDTH)
    ensures ViewportWidth(NatToString(n)) == Some(n)
  {
    NatToStringCanonical(n);
    ParseIntNatToString(n);
  }
}
