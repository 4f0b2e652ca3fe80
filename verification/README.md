# rebrowser session, page and request model

rebrowser is an HTTP proxy that gives each client (identified by a `userId` cookie) its own
browser context holding pages, and lets the client create pages, click on them and fetch
screenshots of them. This project models the part of `src/index.ts` that does not depend on the
browser engine:

- the global session table and the two id counters (`generateUserId`, `generatePageId`), the
  session middleware, page creation in `POST /pages/`, and page lookup in the page-view and
  screenshot routes, as the class `Sessions.SessionRegistry`;
- the per-page operation gate: `createResolvablePromise` as `Gate.ResolvablePromise`, a state
  machine that settles once, and the click path, which waits on the page's `waiting` tail,
  installs a fresh gate and resolves it in `finally` (`Sessions.SessionRegistry.ClickStep`);
- the request logic: `getRawQueryString`, the click pattern `^(\d+),(\d+)$` and its coordinates,
  the screenshot extension, format, quality and content type, the width and navigation choices of
  `setupPage`, and the checks of `parseInputEvent` on an already decoded body;
- JavaScript's `n + ""` (module `Decimal`) and `parseInt` (module `JsParseInt`), which the ids,
  the viewport width and the coordinates go through.

Engine calls are not performed: each call a handler starts is appended to the registry's
`log` as an `Engine.EngineRequest`, and whether it succeeds is a boolean parameter of the
handler (`setupOk`, `clickOk`, `shotOk`). The setup of a new page runs in the background, so
`POST /pages/` appends the requests `setupPage` will attempt, in order. Requests are handled one
at a time.

Table lookups are the exception to following the code. `userSessions[id]` and `pages[id]`
test a plain object for truthiness, which also finds the property names every object inherits
(`constructor`, `toString`, ...). The model looks up own keys only, which is the evidently
intended behaviour, in the middleware, `POST /pages/`, the page view and the screenshot route.
The section "Findings" shows what the code as written does with those names.

Elsewhere, where the code and the intended design differ, the model follows the code:

- A failed operation is meant not to hold up later ones. In the code, the click path does
  `await page.waiting`. When that tail is a rejected setup promise, the `await` throws. No click
  is then dispatched on that page, now or later. `ClickStep` states this: a `Failed` tail stays
  `Failed`, the log is unchanged, and the step reports failure.
- The screenshot route does not go through the page's gate. `CaptureViewport` leaves `waiting`
  untouched.
- Pages are never removed from the session table. The keepalive timer closes the page, but the
  entry stays in `pages`, so a later lookup still finds it.
- The validation rules on `startUrl` and `viewportWidth` are declared but never checked. Any
  numeral is taken as the width (`Engine.ViewportWidthChoice`).

## Model

| member | source | states |
|---|---|---|
| `Decimal.NatToString` | src/index.ts:79-85 | `n + ""` is a non-empty string of decimal digits |
| `Decimal.NatToStringCanonical` | src/index.ts:79-85 | the id `n + ""` is a digit string with no leading zero whose decimal value is `n` |
| `Decimal.NatToStringInjective` | src/index.ts:79-85 | two counter values give the same id string exactly when they are equal |
| `Decimal.CanonicalRoundTrip` | src/index.ts:79-85 | every digit string without a leading zero is the id of its own value, so ids and numbers correspond one to one |
| `JsParseInt.ParseInt` | src/index.ts:112 | `parseInt(s)` with no radix: white space skipped, an optional sign, `0x` switching to hexadecimal, then the longest digit run; `None` for `NaN` (its properties are the lemmas below) |
| `JsParseInt.ParseIntDigits` | src/index.ts:189-190 | `parseInt` of a non-empty digit string, such as a captured coordinate, is its decimal value |
| `JsParseInt.ParseIntNatToString` | src/index.ts:112 | `parseInt(n + "")` gives back `n` |
| `JsParseInt.ParseIntSkipsSpace` | src/index.ts:112 | leading JavaScript white space does not change what `parseInt` reads, whatever follows it, including nothing |
| `JsParseInt.ParseIntNegative` | src/index.ts:112 | a leading `-` yields the negated value, so a negative width reaches the engine |
| `JsParseInt.ParseIntHex` | src/index.ts:112 | a `0x` prefix makes `parseInt` read hexadecimal digits |
| `Text.IndexOf` | src/index.ts:169 | `None` exactly when the character is absent; otherwise its first position |
| `Text.ToLower` | src/index.ts:206 | `toLowerCase()` keeps the length, leaves no capital ASCII letter and changes no other character |
| `Text.ToLowerIgnoresCase` | src/index.ts:206 | lowercasing gives the same result whatever case the letters were written in, and is idempotent |
| `Gate.Step` | src/index.ts:265-276 | one `resolve` or `reject` call always leaves the promise settled; a settled one is unchanged; from pending it is done exactly when the call was `resolve` |
| `Gate.SettledIsFinal` | src/index.ts:265-276 | after a promise has settled, any sequence of `resolve`/`reject` calls leaves it as it was |
| `Gate.SettlesOnce` | src/index.ts:259-295 | from pending, a sequence of calls ends in the state its first call chose; with no call it stays pending |
| `Gate.ResolvablePromise.constructor` | src/index.ts:260-262 | a new handle is pending |
| `Gate.ResolvablePromise.Resolve` | src/index.ts:265-270 | a pending handle becomes done with the value; a settled one is unchanged |
| `Gate.ResolvablePromise.Reject` | src/index.ts:271-276 | a pending handle becomes failed with the reason; a settled one is unchanged |
| `Requests.GetRawQueryString` | src/index.ts:168-175 | "" when the URL has no `?`; otherwise the URL is a `?`-free prefix, then `?`, then the result |
| `Requests.MatchesClickPattern` | src/index.ts:166 | the language of `^(\d+),(\d+)$`: a non-empty digit run, one comma, a non-empty digit run, nothing else |
| `Requests.ClickCaptures` | src/index.ts:166 | a match splits the query into a non-empty digit string, a comma and a non-empty digit string |
| `Requests.ClickCapturesExact` | src/index.ts:166 | the match succeeds if and only if the query is in the language of `^(\d+),(\d+)$` |
| `Requests.ClickCapturesOf` | src/index.ts:166 | digits, a comma and digits are captured as exactly those two digit strings |
| `Requests.ClickTarget` | src/index.ts:184-190 | a click exists exactly when the pattern captures two numbers; its coordinates are the decimal values of the captures |
| `Requests.ClickTargetExact` | src/index.ts:166-190 | a click exists if and only if the raw query is two non-empty digit runs joined by one comma |
| `Requests.ClickTargetOfNumerals` | src/index.ts:184-190 | the query `x,y` written in decimal clicks at exactly (x, y) |
| `Requests.ClickTargetExample` | src/index.ts:184-190 | the query `12,34` clicks at (12, 34) |
| `Requests.ClickTargetRejectsThreeNumbers` | src/index.ts:166 | `12,34,56` gives no click |
| `Requests.ClickTargetRejectsSign` | src/index.ts:166 | `-1,2` gives no click |
| `Requests.ClickTargetRejectsLettersAndEmpty` | src/index.ts:166-186 | `a,b` and the empty query give no click |
| `Requests.ScreenshotFormat` | src/index.ts:206-211 | a format exists exactly when the lowercased extension is `jpg`, `jpeg`, `png` or `webp`; it is named by that extension, with `jpg` read as `jpeg` |
| `Requests.ScreenshotFormatOfName` | src/index.ts:206-211 | each format is selected by its own name in any letter case |
| `Requests.JpgAliasesJpeg` | src/index.ts:211 | `jpg` in any case selects exactly what `jpeg` selects |
| `Requests.ScreenshotFormatIgnoresCase` | src/index.ts:206 | an upper-cased extension selects the same format as the original |
| `Requests.ScreenshotOptionsFor` | src/index.ts:219-225 | full-page capture beyond the viewport, optimised for speed, in the chosen format; a quality of 95 exactly for the lossy formats, none for `png` |
| `Requests.ContentTypeNamesFormat` | src/index.ts:160-164 | every format has a content type, `image/` followed by the format's name |
| `Requests.ParseInputEvent` | src/index.ts:241-254 | an event is returned only for a non-empty request whose parsed `type` is `click`; its coordinates are the parsed numbers, both non-negative |
| `Requests.ParseInputEventRoundTrip` | src/index.ts:233-254 | every click body a client encodes is accepted as that same click |
| `Requests.ParseInputEventRejects` | src/index.ts:244-253 | another event type or a negative coordinate is rejected |
| `Engine.ViewportWidth` | src/index.ts:112 | the empty field gives the default width 1024; any other text is read with `parseInt` (see `Engine.ViewportWidthChoice`) |
| `Engine.SetupRequests` | src/index.ts:110-121 | setup first sets the viewport to the chosen width and height 1024, and every request it makes targets its own page |
| `Engine.SetupNavigatesIffStartUrl` | src/index.ts:117-119 | setup navigates if and only if the start URL is non-empty, only to that URL, and as its last step |
| `Engine.ViewportWidthChoice` | src/index.ts:112 | an empty width gives the default 1024; a numeral gives its value, with no range check |
| `Sessions.FreshId` | src/index.ts:78-85 | the id a counter hands out next is not yet a key of any table filled from that counter |
| `Sessions.WithPage` | src/index.ts:149-155 | sets one page entry of one session (the write `userSession.pages[pageId] = ...`, and `page.waiting = ...` at line 193); the session keys, every other page of that session and every other session are unchanged |
| `Sessions.AddSessionConsistent` | src/index.ts:93-98 | registering a session under the next user id keeps the registry invariant and replaces no session |
| `Sessions.AddPageConsistent` | src/index.ts:140-155 | the next page id is in no session's table, and adding it keeps the invariant |
| `Sessions.ReplacePageConsistent` | src/index.ts:193 | updating an existing page's entry keeps the registry invariant |
| `JsRecord.TruthyLookup` | src/index.ts:93 | the truthiness of `record[key]` on a plain-object table whose own values are objects: true for an own key and for every name inherited from `Object.prototype` |
| `Sessions.NeedsNewSession` | src/index.ts:93 | a session is created when the cookie is absent, not a string, empty, or names no registered session |
| `Sessions.NeedsNewSessionAsWritten` | src/index.ts:93 | the same test as written, where a name inherited by every object also counts as a session |
| `Sessions.NeedsNewSessionAsWrittenDiffers` | src/index.ts:93 | the middleware test as written differs from own-key membership exactly on cookies that are inherited object property names |
| `Sessions.InheritedCookieSkipsSession` | src/index.ts:93 | as written, the cookie `constructor` passes as a known session although no session has that id |
| `Sessions.CreatePageAsWritten` | src/index.ts:134-141 | as written: 500 only when the truthiness test fails; otherwise a page id is used up, and the handler throws when the truthy value is not a session |
| `Sessions.InheritedSessionUsesPageId` | src/index.ts:134-141 | as written, the session id `constructor` passes the 500 check, uses up a page id and throws |
| `Sessions.PageFoundAsWritten` | src/index.ts:178-179 | the page test as written, which also finds inherited names |
| `Sessions.InheritedPageIdFound` | src/index.ts:178-179 | as written, the page id `constructor` is found although no page has that id |
| `Sessions.ViewPageOutcome` | src/index.ts:177-203 | the page view: 404 for an unknown page with nothing changed; the page view with nothing changed when the query is no click; otherwise the awaited tail, which a rejected setup leaves rejected and anything else leaves resolved, one click unless the await threw, and the page view unless the await or the click threw |
| `Sessions.ViewPageOutcomeKeepsPages` | src/index.ts:177-203 | a page view adds and removes no page and changes no other session |
| `Sessions.ViewPageClickReopensGate` | src/index.ts:191-198 | a page view that dispatched a click logged exactly the clicked coordinates and left the page's tail resolved, so the next click on that page is not held up |
| `Sessions.ReplacePageKeepsPages` | src/index.ts:193 | rewriting an existing page's entry adds and removes no page and changes no other session |
| `Sessions.Awaited` | src/index.ts:191 | the awaited tail is settled; a settled tail is unchanged; a pending setup settles as `setupOk` says |
| `Sessions.SessionRegistry.constructor` | src/index.ts:77-82 | the registry starts with no sessions and both counters at 0 |
| `Sessions.SessionRegistry.GenerateUserId` | src/index.ts:78-81 | returns the counter's value as a string and increases the counter by exactly one |
| `Sessions.SessionRegistry.GeneratePageId` | src/index.ts:82-85 | returns the counter's value as a string and increases the counter by exactly one |
| `Sessions.SessionRegistry.ResolveSession` | src/index.ts:91-103 | with no usable cookie, registers an empty session under a fresh id and sets the cookie to it; otherwise changes nothing. Either way the resulting id names a session, and no existing session is replaced |
| `Sessions.SessionRegistry.CreatePage` | src/index.ts:133-158 | no session: 500, with no page id used. Otherwise exactly one new page under the fresh page id, with a pending setup tail; setup requests are queued; nothing else changes; the response redirects to `/pages/{id}/` |
| `Sessions.SessionRegistry.ClickStep` | src/index.ts:191-198 | a rejected awaited tail throws before any click and stays as it is. Otherwise exactly one click request, the tail ends resolved, and the step fails only when the click did. Either way the tail is settled afterwards |
| `Sessions.SessionRegistry.ViewPage` | src/index.ts:177-203 | its effect is `Sessions.ViewPageOutcome`: unknown page: 404, nothing changes. No click in the query: the page view, nothing changes. Otherwise the whole new table is given: only the page's tail changes, to rejected after a rejected setup and to resolved otherwise; one click is logged unless the await threw; the page view is sent unless the await or the click threw |
| `Sessions.SessionRegistry.CaptureViewport` | src/index.ts:205-231 | unsupported extension or unknown page: 404, no request. Otherwise one screenshot request with the chosen options, the format's content type and `no-cache`; the page's tail is untouched |
| `Sessions.SessionRegistry.PostPages` | src/index.ts:91-158 | the session the middleware settled on (the cookie's, or a fresh one whose id is set as the cookie) gets exactly one new page under the next page id; the new table, both counters and the log (context, page, setup requests) are given; the response always redirects to the new page |
| `Sessions.SessionRegistry.GetPageView` | src/index.ts:91-203 | a client the middleware had to give a new session gets 404, with only that session added; otherwise the outcome is the page view's for the session the cookie names |

## Findings

| source | as written | input that shows it | evidently intended | confidence | as-written member | corrected member |
|---|---|---|---|---|---|---|
| src/index.ts:93 | `!(userSessions[userIdCookie])` reads properties that every plain object inherits, so such a name counts as a known session | the cookie `userId=constructor` | only an id the server registered names a session, so the middleware creates one | not executed; high | `Sessions.InheritedCookieSkipsSession` | `Sessions.SessionRegistry.ResolveSession` |
| src/index.ts:134-141 | `userSessions[req.cookies.userId]` is tested for truthiness, so an inherited name that the middleware let through passes; a page id is used up and `userSession.context.then` then throws | `POST /pages/` with the cookie `userId=constructor` | an id naming no registered session gets 500 and uses up no page id | not executed; high | `Sessions.InheritedSessionUsesPageId` | `Sessions.SessionRegistry.CreatePage` |
| src/index.ts:178-179 | `pages[req.params.pageId]` reads inherited properties, so the lookup finds a "page" that was never created | `GET /pages/constructor/` | 404 for a page id that was never created | not executed; high | `Sessions.InheritedPageIdFound` | `Sessions.SessionRegistry.ViewPage` |
| src/index.ts:213-214 | the screenshot route's page test reads inherited properties too, so the call on the "page" `constructor` is reached and throws | `GET /pages/constructor/viewport.png` | 404 for a page id that was never created | not executed; high | `Sessions.InheritedPageIdFound` | `Sessions.SessionRegistry.CaptureViewport` |

`Sessions.PageFoundAsWritten` is the page test of both routes, so `Sessions.InheritedPageIdFound`
exhibits the last two rows. With the cookie `userId=constructor`, the session lookup at src/index.ts:178
and 213 reads `.pages` of an inherited function, which is undefined, so both routes throw a
`TypeError`; with the corrected middleware that cookie gets a fresh session instead.

## Left out

- Browser engine calls (`puppeteer.launch`, `createBrowserContext`, `newPage`, `setViewport`, `goto`, `mouse.click`, `screenshot`, `close`): foreign calls. They are recorded as `Engine.EngineRequest` entries, and their success is a parameter.
- The browser-context promise of a session: only the request for it is recorded, not whether it is ready.
- Express plumbing (routing, `cookieParser`, `express.urlencoded`, `res.sendFile`, `res.cookie`, `server.listen`): I/O. Form fields are strings, with an absent field as the empty string. Array-valued form fields are not modelled.
- The `express-validator` rules: the handler never checks their result.
- The `/test` route and `sleep`: a throwaway browser and a timed wait. That route is registered before the session middleware and has no session state.
- The keepalive timer: a wall-clock timer. Only its fixed delay is kept, in `PageEntry.keepaliveMs`; the handlers never change it. Its firing and the page close are not modelled.
- Real asynchronous interleaving: each handler runs to completion. A still-pending tail can only be a page's setup. How it settles is the `setupOk` parameter of the click step.
- Node's reaction to a rejected promise that nothing awaits (an unhandled rejection): runtime behaviour outside the file.
- `JSON.parse` in `parseInputEvent`: the model starts from the parsed `type`, `x` and `y`. Numbers are integers, so fractional coordinates are not modelled. The input route that would call it is commented out.
- `Requests.ParseInputEvent`: returns the click's coordinates rather than the parsed object with any extra properties.
- `Sessions.SessionRegistry.GenerateUserId`: the counters are unbounded naturals. JavaScript numbers stop counting exactly at 2^53, and `n + ""` switches to exponent notation from 10^21.
- `Sessions.SessionRegistry.GeneratePageId`: same as `GenerateUserId`.
- `Text.ToLower` covers ASCII letters only. The only other characters that lowercase into ASCII (the Kelvin sign and the dotted capital I) cannot form an accepted extension.
- Strings are sequences of code points, while JavaScript indexes UTF-16 code units. The substrings `getRawQueryString` returns are the same either way.
- The `userSessions[...].pages` dereference at src/index.ts:178 and 213 throws when the cookie names no session. With the own-key middleware of this model every cookie names a session afterwards, so a registered session is a precondition of `ViewPage` and `CaptureViewport`. The `TypeError` that the code as written throws for an inherited name is not modelled (see "Findings").
- `JsParseInt.ParseInt`: gives exact integers, where JavaScript gives a double. Numerals above 2^53 are rounded there, and those beyond about 1.8e308 give `Infinity`, which would reach `setViewport` or `mouse.click`. The same holds for `Requests.ClickTarget` and `Engine.ViewportWidth`, which go through it.
- `Sessions.SessionRegistry.CreatePage`: `log` lists every request the background setup will attempt. In the code, a failing `newPage` or `setViewport` stops the later steps, so no `goto` is made then; the model does not say which of the logged setup requests were reached.
- The `handlers` indirection in `createResolvablePromise`: the native promise's resolvers replace the closures during construction. Both settle only once, so the model keeps a single state.

