/**
 * The session and page registry: the global `userSessions` record, the two id counters,
 * the session middleware and the handlers of `POST /pages/`, `GET /pages/:pageId/` and
 * `GET /pages/:pageId/viewport.:ext`, run one request at a time.
 */
module Sessions {
  import opened Wrappers
  import opened Decimal
  import opened Gate
  import opened Requests
  import opened Engine
  import opened JsRecord

  /** The state of a page's `waiting` promise; every operation resolves with no value. */
  type Tail = Resolution<(), ()>

  /**
   * A page of a session: the delay of its keepalive timer, set once when the page is created,
   * and `waiting`, the state of the last operation queued on it.
   */
  datatype PageEntry = PageEntry(keepaliveMs: nat, waiting: Tail)

  datatype UserSession = UserSession(pages: map<string, PageEntry>)

  /** What a handler sends back; `Thrown` is a handler that ends by throwing. */
  datatype Response =
    | SendStatus(code: nat)
    | Redirect(location: string)
    | SendFile(file: string)
    | Image(contentType: string, cacheControl: string, format: Format)
    | Thrown

  const PAGE_VIEW_FILE := "../static/page.html"

  /** `req.cookies.userId` as cookie-parser leaves it: absent, a non-string (a `j:` JSON cookie), or text. */
  datatype Cookie = Absent | NotAString | Text(value: string)

  // ---------------------------------------------------------------- id bookkeeping

  /** Every key is an id `n + ""` handed out by a counter that now stands at `bound`. */
  ghost predicate IdsBelow<V>(m: map<string, V>, bound: nat) {
    forall id :: id in m ==> IsCanonical(id) && DigitsValue(id) < bound
  }

  /** The next id a counter hands out is not yet a key. */
  lemma FreshId<V>(m: map<string, V>, bound: nat)
    requires IdsBelow(m, bound)
    ensures NatToString(bound) !in m
  {
    NatToStringCanonical(bound);
  }

  /**
   * The registry invariant: session ids and page ids were all handed out by their counters,
   * and no page id belongs to two sessions.
   */
  ghost predicate Consistent(sessions: map<string, UserSession>, userIdIncr: nat, pageIdIncr: nat) {
    && IdsBelow(sessions, userIdIncr)
    && (forall u :: u in sessions ==> IdsBelow(sessions[u].pages, pageIdIncr))
    && (forall u, v, p :: u in sessions && v in sessions && p in sessions[u].pages && p in sessions[v].pages ==> u == v)
  }

  /** The session table with the page `pageId` of session `userId` set to `entry`. */
  function WithPage(sessions: map<string, UserSession>, userId: string, pageId: string, entry: PageEntry): (r: map<string, UserSession>)
    requires userId in sessions
    ensures r.Keys == sessions.Keys
    ensures r[userId].pages.Keys == sessions[userId].pages.Keys + {pageId}
    ensures r[userId].pages[pageId] == entry
    ensures forall p :: p in sessions[userId].pages && p != pageId ==> r[userId].pages[p] == sessions[userId].pages[p]
    ensures forall u :: u in sessions && u != userId ==> r[u] == sessions[u]
  {
    sessions[userId := UserSession(sessions[userId].pages[pageId := entry])]
  }

  /** Writing the same page twice leaves only the second write. */
  lemma WithPageTwice(sessions: map<string, UserSession>, userId: string, pageId: string, first: PageEntry, second: PageEntry)
    requires userId in sessions
    ensures WithPage(WithPage(sessions, userId, pageId, first), userId, pageId, second)
         == WithPage(sessions, userId, pageId, second)
  {
    assert sessions[userId].pages[pageId := first][pageId := second] == sessions[userId].pages[pageId := second];
  }

  /** Rewriting an existing page adds and removes no page and touches no other session. */
  lemma ReplacePageKeepsPages(sessions: map<string, UserSession>, userId: string, pageId: string, entry: PageEntry)
    requires userId in sessions && pageId in sessions[userId].pages
    ensures var r := WithPage(sessions, userId, pageId, entry);
      && r.Keys == sessions.Keys
      && (forall u :: u in sessions ==> r[u].pages.Keys == sessions[u].pages.Keys)
      && (forall u :: u in sessions && u != userId ==> r[u] == sessions[u])
  {
    var r := WithPage(sessions, userId, pageId, entry);
    assert r[userId].pages.Keys == sessions[userId].pages.Keys;
  }

  /** Registering a session under the next user id keeps the invariant and replaces nothing. */
  lemma AddSessionConsistent(sessions: map<string, UserSession>, userIdIncr: nat, pageIdIncr: nat)
    requires Consistent(sessions, userIdIncr, pageIdIncr)
    ensures NatToString(userIdIncr) !in sessions
    ensures Consistent(sessions[NatToString(userIdIncr) := UserSession(map[])], userIdIncr + 1, pageIdIncr)
  {
    NatToStringCanonical(userIdIncr);
  }

  /** Adding a page under the next page id keeps the invariant; that id is in no session yet. */
  lemma AddPageConsistent(sessions: map<string, UserSession>, userIdIncr: nat, pageIdIncr: nat,
                          userId: string, entry: PageEntry)
    requires Consistent(sessions, userIdIncr, pageIdIncr) && userId in sessions
    ensures forall u :: u in sessions ==> NatToString(pageIdIncr) !in sessions[u].pages
    ensures Consistent(WithPage(sessions, userId, NatToString(pageIdIncr), entry), userIdIncr, pageIdIncr + 1)
  {
    NatToStringCanonical(pageIdIncr);
    forall u | u in sessions
      ensures NatToString(pageIdIncr) !in sessions[u].pages
    {
      FreshId(sessions[u].pages, pageIdIncr);
    }
  }

  /** Updating an existing page keeps the invariant. */
  lemma ReplacePageConsistent(sessions: map<string, UserSession>, userIdIncr: nat, pageIdIncr: nat,
                              userId: string, pageId: string, entry: PageEntry)
    requires Consistent(sessions, userIdIncr, pageIdIncr)
    requires userId in sessions && pageId in sessions[userId].pages
    ensures Consistent(WithPage(sessions, userId, pageId, entry), userIdIncr, pageIdIncr)
  {
    var r := WithPage(sessions, userId, pageId, entry);
    assert r[userId].pages.Keys == sessions[userId].pages.Keys;
  }

  // ---------------------------------------------------------------- middleware decision

  /** Whether the middleware must create a session: no string cookie, an empty one, or no session under it. */
  predicate NeedsNewSession(cookie: Cookie, sessions: map<string, UserSession>) {
    !(cookie.Text? && cookie.value != "" && cookie.value in sessions)
  }

  /** The test as the code writes it, `!(userSessions[userIdCookie])`, which also sees inherited names. */
  predicate NeedsNewSessionAsWritten(cookie: Cookie, sessions: map<string, UserSession>) {
    !(cookie.Text? && cookie.value != "" && TruthyLookup(sessions, cookie.value))
  }

  /** The two tests differ exactly on the inherited names, which are never session ids. */
  lemma NeedsNewSessionAsWrittenDiffers(cookie: Cookie, sessions: map<string, UserSession>, userIdIncr: nat)
    requires IdsBelow(sessions, userIdIncr)
    ensures NeedsNewSessionAsWritten(cookie, sessions) != NeedsNewSession(cookie, sessions)
        <==> cookie.Text? && cookie.value in INHERITED_NAMES
  {
    if cookie.Text? && cookie.value in INHERITED_NAMES {
      InheritedNamesAreNotNumerals(cookie.value);
      assert cookie.value !in sessions;
    }
  }

  /** As written, a client sending the cookie `userId=constructor` gets no session at all. */
  lemma InheritedCookieSkipsSession(sessions: map<string, UserSession>, userIdIncr: nat)
    requires IdsBelow(sessions, userIdIncr)
    ensures !NeedsNewSessionAsWritten(Text("constructor"), sessions)
    ensures "constructor" !in sessions
  {
    NeedsNewSessionAsWrittenDiffers(Text("constructor"), sessions, userIdIncr);
  }

  /** The page lookup as written, `if (!page)` on `pages[pageId]`, which also sees inherited names. */
  predicate PageFoundAsWritten(pages: map<string, PageEntry>, pageId: string) {
    TruthyLookup(pages, pageId)
  }

  /** As written, `GET /pages/constructor/` finds a "page" that was never created. */
  lemma InheritedPageIdFound(pages: map<string, PageEntry>, pageIdIncr: nat)
    requires IdsBelow(pages, pageIdIncr)
    ensures PageFoundAsWritten(pages, "constructor")
    ensures "constructor" !in pages
  {
    InheritedNamesAreNotNumerals("constructor");
  }

  /**
   * `POST /pages/` as written, for the id the middleware passed on: the truthiness test on
   * `userSessions[id]`, then a page id used up, then `userSession.context.then(...)`, which
   * throws when the truthy value is an inherited property rather than a session. The response
   * and the page counter afterwards.
   */
  function CreatePageAsWritten(sessions: map<string, UserSession>, userId: string, pageIdIncr: nat): (Response, nat) {
    if !TruthyLookup(sessions, userId) then (SendStatus(500), pageIdIncr)
    else if userId in sessions then (Redirect("/pages/" + NatToString(pageIdIncr) + "/"), pageIdIncr + 1)
    else (Thrown, pageIdIncr + 1)
  }

  /**
   * As written, the session id `constructor` (which the middleware lets through) passes the
   * 500 check, uses up a page id and then throws.
   */
  lemma InheritedSessionUsesPageId(sessions: map<string, UserSession>, userIdIncr: nat, pageIdIncr: nat)
    requires IdsBelow(sessions, userIdIncr)
    ensures "constructor" !in sessions
    ensures CreatePageAsWritten(sessions, "constructor", pageIdIncr) == (Thrown, pageIdIncr + 1)
  {
    InheritedNamesAreNotNumerals("constructor");
  }

  // ---------------------------------------------------------------- the click gate

  /**
   * The state of a tail once `await` on it has returned: a pending tail (only a page's setup
   * can still be pending) settles as `setupOk` says; a settled one stays as it is.
   */
  function Awaited(tail: Tail, setupOk: bool): (t: Tail)
    ensures t.Settled()
    ensures tail.Settled() ==> t == tail
    ensures tail.Pending? ==> (t.Done? <==> setupOk)
  {
    if tail.Pending? then (if setupOk then Done(()) else Failed(())) else tail
  }

  /**
   * What `GET /pages/:pageId/` does for the session `userId`, taking the table `before` and the
   * log `logBefore` to `after`, `logAfter` and the response `resp`: 404 for an unknown page; the
   * page view when the query is no click; otherwise one click step through the page's gate.
   */
  ghost predicate ViewPageOutcome(before: map<string, UserSession>, logBefore: seq<EngineRequest>,
                                  userId: string, pageId: string, originalUrl: string, setupOk: bool, clickOk: bool,
                                  after: map<string, UserSession>, logAfter: seq<EngineRequest>, resp: Response)
    requires userId in before
  {
    if pageId !in before[userId].pages then
      resp == SendStatus(404) && after == before && logAfter == logBefore
    else match ClickTarget(GetRawQueryString(originalUrl))
      case None =>
        resp == SendFile(PAGE_VIEW_FILE) && after == before && logAfter == logBefore
      case Some((x, y)) =>
        var entry := before[userId].pages[pageId];
        var awaited := Awaited(entry.waiting, setupOk);
        && after == WithPage(before, userId, pageId, entry.(waiting := if awaited.Failed? then awaited else Done(())))
        && logAfter == (if awaited.Failed? then logBefore else logBefore + [Click(pageId, x, y)])
        && resp == (if awaited.Done? && clickOk then SendFile(PAGE_VIEW_FILE) else Thrown)
  }

  /** A page view adds and removes no page and touches no other session. */
  lemma ViewPageOutcomeKeepsPages(before: map<string, UserSession>, logBefore: seq<EngineRequest>,
                                  userId: string, pageId: string, originalUrl: string, setupOk: bool, clickOk: bool,
                                  after: map<string, UserSession>, logAfter: seq<EngineRequest>, resp: Response)
    requires userId in before
    requires ViewPageOutcome(before, logBefore, userId, pageId, originalUrl, setupOk, clickOk, after, logAfter, resp)
    ensures after.Keys == before.Keys
    ensures forall u :: u in before ==> after[u].pages.Keys == before[u].pages.Keys
    ensures forall u :: u in before && u != userId ==> after[u] == before[u]
  {
    if pageId in before[userId].pages && ClickTarget(GetRawQueryString(originalUrl)).Some? {
      var entry := before[userId].pages[pageId];
      var awaited := Awaited(entry.waiting, setupOk);
      var next := entry.(waiting := if awaited.Failed? then awaited else Done(()));
      assert after == WithPage(before, userId, pageId, next);
      ReplacePageKeepsPages(before, userId, pageId, next);
    }
  }

  /**
   * A page view that dispatched a click logged exactly that click and left the page's tail
   * resolved, so the next click on the page is not held up.
   */
  lemma ViewPageClickReopensGate(before: map<string, UserSession>, logBefore: seq<EngineRequest>,
                                 userId: string, pageId: string, originalUrl: string, setupOk: bool, clickOk: bool,
                                 after: map<string, UserSession>, logAfter: seq<EngineRequest>, resp: Response)
    requires userId in before
    requires ViewPageOutcome(before, logBefore, userId, pageId, originalUrl, setupOk, clickOk, after, logAfter, resp)
    requires logAfter != logBefore
    ensures pageId in before[userId].pages && ClickTarget(GetRawQueryString(originalUrl)).Some?
    ensures userId in after && pageId in after[userId].pages && after[userId].pages[pageId].waiting == Done(())
    ensures logAfter == logBefore + [Click(pageId, ClickTarget(GetRawQueryString(originalUrl)).value.0,
                                           ClickTarget(GetRawQueryString(originalUrl)).value.1)]
  {
    var entry := before[userId].pages[pageId];
    var awaited := Awaited(entry.waiting, setupOk);
    assert !awaited.Failed?;
    assert after == WithPage(before, userId, pageId, entry.(waiting := Done(())));
  }

  // ---------------------------------------------------------------- the registry

  class SessionRegistry {
    var userSessions: map<string, UserSession>
    var userIdIncr: nat
    var pageIdIncr: nat
    /** The engine requests made so far, in order. */
    var log: seq<EngineRequest>

    ghost predicate Valid()
      reads this
    {
      Consistent(userSessions, userIdIncr, pageIdIncr)
    }

    constructor ()
      ensures Valid()
      ensures userSessions == map[] && userIdIncr == 0 && pageIdIncr == 0 && log == []
    {
      userSessions := map[];
      userIdIncr := 0;
      pageIdIncr := 0;
      log := [];
    }

    /** `generateUserId()`: the current counter value as a string; the counter moves on by one. */
    method GenerateUserId() returns (id: string)
      modifies this`userIdIncr
      ensures id == NatToString(old(userIdIncr)) && userIdIncr == old(userIdIncr) + 1
    {
      id := NatToString(userIdIncr);
      userIdIncr := userIdIncr + 1;
    }

    /** `generatePageId()`: the current counter value as a string; the counter moves on by one. */
    method GeneratePageId() returns (id: string)
      modifies this`pageIdIncr
      ensures id == NatToString(old(pageIdIncr)) && pageIdIncr == old(pageIdIncr) + 1
    {
      id := NatToString(pageIdIncr);
      pageIdIncr := pageIdIncr + 1;
    }

    /**
     * The session middleware: keeps a cookie naming a session, otherwise registers a fresh
     * session with no pages under a new id. Returns `req.cookies.userId` afterwards and the
     * cookie set on the response.
     */
    method ResolveSession(cookie: Cookie) returns (userId: string, setCookie: Option<string>)
      requires Valid()
      modifies this
      ensures Valid()
      ensures userId in userSessions
      ensures pageIdIncr == old(pageIdIncr)
      ensures forall u :: u in old(userSessions) ==> u in userSessions && userSessions[u] == old(userSessions)[u]
      ensures NeedsNewSession(cookie, old(userSessions)) ==>
        && userId == NatToString(old(userIdIncr))
        && userId !in old(userSessions)
        && userSessions == old(userSessions)[userId := UserSession(map[])]
        && userIdIncr == old(userIdIncr) + 1
        && log == old(log) + [CreateBrowserContext(userId)]
        && setCookie == Some(userId)
      ensures !NeedsNewSession(cookie, old(userSessions)) ==>
        && userId == cookie.value
        && userSessions == old(userSessions)
        && userIdIncr == old(userIdIncr)
        && log == old(log)
        && setCookie == None
    {
      if NeedsNewSession(cookie, userSessions) {
        AddSessionConsistent(userSessions, userIdIncr, pageIdIncr);
        userId := GenerateUserId();
        userSessions := userSessions[userId := UserSession(map[])];
        log := log + [CreateBrowserContext(userId)];
        setCookie := Some(userId);
      } else {
        userId := cookie.value;
        setCookie := None;
      }
    }

    /**
     * `POST /pages/` after the middleware: 500 without a session; otherwise a new page under
     * the next page id, whose setup is queued as its first operation, and a redirect to it.
     */
    method CreatePage(userId: string, startUrl: string, viewportWidth: string) returns (resp: Response)
      requires Valid()
      modifies this
      ensures Valid()
      ensures userIdIncr == old(userIdIncr)
      ensures userId !in old(userSessions) ==>
        && resp == SendStatus(500)
        && userSessions == old(userSessions)
        && pageIdIncr == old(pageIdIncr)
        && log == old(log)
      ensures userId in old(userSessions) ==>
        var pageId := NatToString(old(pageIdIncr));
        && pageIdIncr == old(pageIdIncr) + 1
        && (forall u :: u in old(userSessions) ==> pageId !in old(userSessions)[u].pages)
        && userSessions == WithPage(old(userSessions), userId, pageId, PageEntry(PAGE_KEEPALIVE_TIMEOUT, Pending))
        && log == old(log) + [NewPage(userId, pageId)] + SetupRequests(pageId, startUrl, viewportWidth)
        && resp == Redirect("/pages/" + pageId + "/")
    {
      if userId !in userSessions {
        return SendStatus(500);
      }
      var entry := PageEntry(PAGE_KEEPALIVE_TIMEOUT, Pending);
      AddPageConsistent(userSessions, userIdIncr, pageIdIncr, userId, entry);
      var pageId := GeneratePageId();
      log := log + [NewPage(userId, pageId)] + SetupRequests(pageId, startUrl, viewportWidth);
      userSessions := WithPage(userSessions, userId, pageId, entry);
      resp := Redirect("/pages/" + pageId + "/");
    }

    /**
     * One click through the page's gate: wait for the tail, install a fresh gate as the new
     * tail, click, and resolve the gate whether or not the click threw. If the awaited tail
     * was rejected, the `await` throws before anything else happens.
     * `setupOk` is how a still-pending tail settles; `clickOk` is whether the click succeeds.
     */
    method ClickStep(userId: string, pageId: string, x: nat, y: nat, setupOk: bool, clickOk: bool)
      returns (ok: bool)
      requires Valid()
      requires userId in userSessions && pageId in userSessions[userId].pages
      modifies this
      ensures Valid()
      ensures userIdIncr == old(userIdIncr) && pageIdIncr == old(pageIdIncr)
      ensures userId in userSessions && pageId in userSessions[userId].pages
      ensures userSessions[userId].pages[pageId].waiting.Settled()
      ensures
        var entry := old(userSessions)[userId].pages[pageId];
        var awaited := Awaited(entry.waiting, setupOk);
        if awaited.Failed? then
          && !ok
          && log == old(log)
          && userSessions == WithPage(old(userSessions), userId, pageId, entry.(waiting := awaited))
        else
          && ok == clickOk
          && log == old(log) + [Click(pageId, x, y)]
          && userSessions == WithPage(old(userSessions), userId, pageId, entry.(waiting := Done(())))
    {
      var page := userSessions[userId].pages[pageId];
      var settled := Awaited(page.waiting, setupOk);
      if settled.Failed? {
        ReplacePageConsistent(userSessions, userIdIncr, pageIdIncr, userId, pageId, page.(waiting := settled));
        userSessions := WithPage(userSessions, userId, pageId, page.(waiting := settled));
        return false;
      }
      ghost var before := userSessions;
      var gate := new ResolvablePromise<(), ()>();
      userSessions := WithPage(userSessions, userId, pageId, page.(waiting := gate.resolution));
      log := log + [Click(pageId, x, y)];
      gate.Resolve(());
      userSessions := WithPage(userSessions, userId, pageId, page.(waiting := gate.resolution));
      WithPageTwice(before, userId, pageId, page.(waiting := Pending), page.(waiting := Done(())));
      ReplacePageConsistent(before, userIdIncr, pageIdIncr, userId, pageId, page.(waiting := Done(())));
      ok := clickOk;
    }

    /**
     * `GET /pages/:pageId/`: 404 for a page the session does not have; otherwise, when the raw
     * query is a click, one click step through the page's gate; then the page view, unless
     * that step threw.
     */
    method ViewPage(userId: string, pageId: string, originalUrl: string, setupOk: bool, clickOk: bool)
      returns (resp: Response)
      requires Valid()
      requires userId in userSessions
      modifies this
      ensures Valid()
      ensures userIdIncr == old(userIdIncr) && pageIdIncr == old(pageIdIncr)
      ensures ViewPageOutcome(old(userSessions), old(log), userId, pageId, originalUrl, setupOk, clickOk, userSessions, log, resp)
    {
      if pageId !in userSessions[userId].pages {
        return SendStatus(404);
      }
      var rawQuery := GetRawQueryString(originalUrl);
      var target := ClickTarget(rawQuery);
      if target.Some? {
        var (x, y) := target.value;
        var ok := ClickStep(userId, pageId, x, y, setupOk, clickOk);
        if !ok {
          return Thrown;
        }
      }
      resp := SendFile(PAGE_VIEW_FILE);
    }

    /**
     * `GET /pages/:pageId/viewport.:ext`: 404 for an unsupported extension (before any lookup)
     * or an unknown page; otherwise one screenshot request, outside the page's gate.
     * `shotOk` is whether the screenshot succeeds.
     */
    method CaptureViewport(userId: string, pageId: string, ext: string, shotOk: bool) returns (resp: Response)
      requires Valid()
      requires ScreenshotFormat(ext).Some? ==> userId in userSessions
      modifies this`log
      ensures Valid()
      ensures ScreenshotFormat(ext).None? ==> resp == SendStatus(404) && log == old(log)
      ensures ScreenshotFormat(ext).Some? && pageId !in userSessions[userId].pages ==>
        resp == SendStatus(404) && log == old(log)
      ensures ScreenshotFormat(ext).Some? && pageId in userSessions[userId].pages ==>
        var f := ScreenshotFormat(ext).value;
        && log == old(log) + [Screenshot(pageId, ScreenshotOptionsFor(f))]
        && resp == (if shotOk then Image(FORMATS_TO_CONTENTTYPES[f], "no-cache", f) else Thrown)
    {
      var format := ScreenshotFormat(ext);
      if format.None? {
        return SendStatus(404);
      }
      if pageId !in userSessions[userId].pages {
        return SendStatus(404);
      }
      var f := format.value;
      log := log + [Screenshot(pageId, ScreenshotOptionsFor(f))];
      if !shotOk {
        return Thrown;
      }
      resp := Image(FORMATS_TO_CONTENTTYPES[f], "no-cache", f);
    }

    /**
     * A whole `POST /pages/` request: the middleware, then the handler. The session the
     * middleware settled on, fresh or not, always gets the new page, so the handler never
     * answers 500.
     */
    method PostPages(cookie: Cookie, startUrl: string, viewportWidth: string)
      returns (userId: string, setCookie: Option<string>, resp: Response)
      requires Valid()
      modifies this
      ensures Valid()
      ensures setCookie == (if NeedsNewSession(cookie, old(userSessions)) then Some(userId) else None)
      ensures userId == (if setCookie.Some? then NatToString(old(userIdIncr)) else cookie.value)
      ensures userIdIncr == old(userIdIncr) + (if setCookie.Some? then 1 else 0)
      ensures pageIdIncr == old(pageIdIncr) + 1
      ensures
        var pageId := NatToString(old(pageIdIncr));
        var registered := if setCookie.Some? then old(userSessions)[userId := UserSession(map[])] else old(userSessions);
        && userId in registered
        && userSessions == WithPage(registered, userId, pageId, PageEntry(PAGE_KEEPALIVE_TIMEOUT, Pending))
        && pageId in userSessions[userId].pages
        && log == old(log) + (if setCookie.Some? then [CreateBrowserContext(userId)] else [])
                  + [NewPage(userId, pageId)] + SetupRequests(pageId, startUrl, viewportWidth)
        && resp == Redirect("/pages/" + pageId + "/")
    {
      userId, setCookie := ResolveSession(cookie);
      ghost var middle := log;
      assert middle == old(log) + (if setCookie.Some? then [CreateBrowserContext(userId)] else []);
      resp := CreatePage(userId, startUrl, viewportWidth);
    }

    /**
     * A whole `GET /pages/:pageId/` request: the middleware, then the handler. A client the
     * middleware had to give a new session has no pages yet and gets 404; otherwise the outcome
     * is the page view's for the session its cookie names.
     */
    method GetPageView(cookie: Cookie, pageId: string, originalUrl: string, setupOk: bool, clickOk: bool)
      returns (userId: string, setCookie: Option<string>, resp: Response)
      requires Valid()
      modifies this
      ensures Valid()
      ensures pageIdIncr == old(pageIdIncr)
      ensures setCookie == (if NeedsNewSession(cookie, old(userSessions)) then Some(userId) else None)
      ensures setCookie.Some? ==>
        && userId == NatToString(old(userIdIncr)) && userId !in old(userSessions)
        && userIdIncr == old(userIdIncr) + 1
        && userSessions == old(userSessions)[userId := UserSession(map[])]
        && log == old(log) + [CreateBrowserContext(userId)]
        && resp == SendStatus(404)
      ensures setCookie.None? ==>
        && userId == cookie.value && userId in old(userSessions)
        && userIdIncr == old(userIdIncr)
        && ViewPageOutcome(old(userSessions), old(log), userId, pageId, originalUrl, setupOk, clickOk, userSessions, log, resp)
    {
      userId, setCookie := ResolveSession(cookie);
      resp := ViewPage(userId, pageId, originalUrl, setupOk, clickOk);
    }
  }
}
