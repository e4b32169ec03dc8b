# lit.dev core, modelled in Dafny

This project models five small pieces of the lit.dev site and proves what
each promises.

- **The `Task` reactive controller** of the site's controller samples
  (`task.ts`, module `TaskController`).
  - At every host update it compares the dependency tuple with the previous
    one, using lit's NaN-aware `notEqual`.
  - When the tuple changed, it starts the asynchronous operation and moves
    to PENDING.
  - When the operation ends, only the most recently started call may commit
    its outcome (COMPLETE, ERROR, or back to INITIAL for the `initialState`
    symbol). Any older call is dropped.
  - The `await` splits `_completeTask` into two events: `HostUpdated` (up to
    the `await`, returning the call's key) and `Settle(key, outcome)` (after
    it). A ghost set of suspended keys records which continuations have yet
    to run.
- **Redirect tables of the server** (`redirects.ts`, module `Redirects`).
  - The page redirects are keyed by canonical paths: a trailing `/` is added
    when the last segment is non-empty and holds no `.`.
  - The two legacy-site tables are plain maps.
- **The Content-Security-Policy middleware**
  (`content-security-policy-middleware.ts`).
  - Modules `PolicyText`, `CspSources`, `CspDirectives` and
    `ContentSecurityPolicy`.
  - `makePolicy` is built from directives and their sources.
  - There are three policies: for HTML pages, for the playground worker
    script, and a strict fallback.
  - Responses choose a policy by content type and path, and the middleware
    sets the `Content-Security-Policy-Report-Only` header.
  - Each header value is read back as a browser reads it under W3C Content
    Security Policy Level 3. Section 3.2 makes the header a list of policies
    separated by `,`. Each policy is parsed by the steps of section 2.2.1:
    split at `;`, trim ASCII whitespace, and drop tokens that are empty or
    not ASCII strings. What was proved is that, for options in ASCII with
    no `;` or `,`, the header is one policy listing exactly the directives
    meant.
- **The environment configurations** of the site's tools
  (`lit-dev-environments.ts`, module `LitDevEnvironments`).
  - `integerEnv` and `urlEnv` over a map standing for `process.env`.
  - The `dev`, `local`, `pr` and `prod` configurations, with their derived
    URLs.
  - `getEnvironment`, selected by `LITDEV_ENV`.
- **The `selected` property of the carousel tutorial's element**
  (`motion-carousel.ts`, module `Carousel`).
  - A class whose setter wraps at either end, clamps other requests, and
    records a change only when the index changes.

`wrappers.dfy` holds the `Option` and `Result` types that model `undefined`
and thrown errors.

Two consequences of how `_isDirty` compares tuples:

- `_isDirty` reads `previousDeps[i]` past the end of the previous tuple as
  `undefined`, and `notEqual(undefined, undefined)` is false. So a new tuple
  that only adds `undefined` entries is not dirty (`UnchangedDepsAreClean`).
- A missing previous entry makes the tuple dirty only when the new entry is
  not `undefined` (`FirstNonEmptyDepsAreDirty`).

## Model

The `states` column says what each member's contract states.

| member | source | states |
|---|---|---|
| TaskController.NotEqual | packages/lit-dev-content/samples/docs/controllers/forex/task.ts:167 | lit's change test (different under `===`, and not both NaN) holds exactly when the two values differ, NaN counting as equal to itself |
| TaskController.StrictEqualsOnlyFailsOnNaN | packages/lit-dev-content/samples/docs/controllers/forex/task.ts:167 | `===` is symmetric, fails to relate a value to itself exactly for NaN, and relates only equal values |
| TaskController.Host.RequestUpdate | packages/lit-dev-content/samples/docs/controllers/forex/task.ts:115 | each request adds exactly one to the host's count of update requests |
| TaskController.Task.constructor | packages/lit-dev-content/samples/docs/controllers/forex/task.ts:82-100 | a new task is INITIAL with `callId` 0, no previous dependencies, no value, no error and no suspended call, and satisfies the invariant |
| TaskController.Task.IsDirty | packages/lit-dev-content/samples/docs/controllers/forex/task.ts:162-173 | the previous tuple is always replaced by the new one; the answer is true iff some position of the new tuple is `notEqual` to the previous tuple's entry there (`undefined` past its end) |
| TaskController.Task.HostUpdated | packages/lit-dev-content/samples/docs/controllers/forex/task.ts:102-116 | a key is returned iff the tuple changed; a clean update changes no status, value, error, call id or host count; a dirty one sets PENDING, clears value and error, requests exactly one update, and increments `callId` by one, returning the new id as the key; the invariant is kept |
| TaskController.Task.Settle | packages/lit-dev-content/samples/docs/controllers/forex/task.ts:117-134 | a stale key changes nothing and requests no update; the current key requests exactly one update. The `initialState` sentinel gives INITIAL with value and error cleared. Another result gives COMPLETE with that value. A throw gives no value and that error, ERROR iff the error is not `undefined` (COMPLETE otherwise). The invariant is kept, so at most one of value and error is ever defined |
| TaskController.Task.Value | packages/lit-dev-content/samples/docs/controllers/forex/task.ts:138-140 | the value is `undefined` unless the task is COMPLETE, and is never defined together with an error |
| TaskController.Task.Error | packages/lit-dev-content/samples/docs/controllers/forex/task.ts:142-144 | the error is defined exactly when the status is ERROR |
| TaskController.RenderUsesOnlyCurrentCallback | packages/lit-dev-content/samples/docs/controllers/forex/task.ts:146-160 | two renderers that agree on the current status's callback render the same, so no other callback is consulted |
| TaskController.RenderPassesOutcome | packages/lit-dev-content/samples/docs/controllers/forex/task.ts:138-160 | for a task in its invariant: COMPLETE hands the task's value to the `complete` callback; ERROR hands a defined error to the `error` callback, with no value; INITIAL and PENDING have neither value nor error and call their callback with no argument; an absent callback renders `undefined` |
| TaskController.UnchangedDepsAreClean | packages/lit-dev-content/samples/docs/controllers/forex/task.ts:162-173 | the previous tuple, extended by any number of `undefined` entries, is never dirty against itself |
| TaskController.FirstNonEmptyDepsAreDirty | packages/lit-dev-content/samples/docs/controllers/forex/task.ts:162-173 | against the empty initial tuple, a tuple whose first entry is defined is dirty |
| Redirects.NormalizeKey | packages/lit-dev-server/src/redirects.ts:35 | the canonical key is the path itself or the path followed by `/` |
| Redirects.NormalizeKeyAppendsIffMatch | packages/lit-dev-server/src/redirects.ts:35 | a `/` is appended exactly when the path ends in `/` followed by a non-empty segment with no `/` or `.`; otherwise the path is kept |
| Redirects.NormalizedKeyIsStable | packages/lit-dev-server/src/redirects.ts:35 | a canonical key no longer matches the pattern |
| Redirects.NormalizeKeyIdempotent | packages/lit-dev-server/src/redirects.ts:35 | canonicalising twice is the same as canonicalising once |
| Redirects.NormalizeKeyExtends | packages/lit-dev-server/src/redirects.ts:35 | the canonical key starts with the path and is at most one character longer |
| Redirects.DottedLastSegmentUnchanged | packages/lit-dev-server/src/redirects.ts:29-35 | a path whose last segment holds a `.` is left unchanged (why `1.3.0` and `1.2.0` are listed themselves) |
| Redirects.PlainLastSegmentGetsSlash | packages/lit-dev-server/src/redirects.ts:35 | a path ending in `/` and a plain segment gains a trailing `/` |
| Redirects.NormalizeKeyInjective | packages/lit-dev-server/src/redirects.ts:35 | two paths without a trailing `/` that canonicalise alike are equal |
| Redirects.ToMap | packages/lit-dev-server/src/redirects.ts:7-37 | the map built from the pairs, later pairs overriding earlier ones as in a JavaScript `Map`, has exactly the pairs' keys |
| Redirects.ToMapFindsEveryEntry | packages/lit-dev-server/src/redirects.ts:7-37 | with pairwise distinct keys, every pair's key maps to that pair's target |
| Redirects.PageRedirectPathsUnslashed | packages/lit-dev-server/src/redirects.ts:7-31 | no listed page-redirect path ends in `/` |
| Redirects.PageRedirectPathsDistinct | packages/lit-dev-server/src/redirects.ts:7-31 | the listed page-redirect paths are pairwise distinct |
| Redirects.PageRedirectsFindEveryEntry | packages/lit-dev-server/src/redirects.ts:7-37 | every listed entry's canonical path is a key of `pageRedirects` and maps to that entry's target |
| Redirects.PageRedirectKeysAreCanonicalPaths | packages/lit-dev-server/src/redirects.ts:32-37 | the keys of `pageRedirects` are exactly the canonical forms of the listed paths, nothing more |
| Redirects.ReleaseNotePathsKeepNoSlash | packages/lit-dev-server/src/redirects.ts:29-31 | the release-note paths `…/1.3.0` and `…/1.2.0` are their own canonical keys |
| Redirects.OldLitHtmlSiteKeepsRoot | packages/lit-dev-server/src/redirects.ts:39-40 | the legacy lit-html table maps `/` to `/` |
| Redirects.OldLitElementSiteKeepsRoot | packages/lit-dev-server/src/redirects.ts:76-77 | the legacy LitElement table maps `/` to `/` |
| Redirects.LegacyTablesNotNormalized | packages/lit-dev-server/src/redirects.ts:39-79 | both legacy tables have the key `/guide` as written, without a trailing `/` |
| Redirects.GuidePathWouldGainSlash | packages/lit-dev-server/src/redirects.ts:35 | `/guide` would gain a `/` if canonicalised, so the legacy tables are looked up as written |
| PolicyText.ParseJoinedTexts | packages/lit-dev-server/src/middleware/content-security-policy-middleware.ts:61-71 | joining ASCII, trimmed directive texts free of `;` and `,` with `; ` and parsing the result back gives exactly those texts, in order |
| PolicyText.TextClean | packages/lit-dev-server/src/middleware/content-security-policy-middleware.ts:78-89 | a directive with a non-empty name that does not start with whitespace, a last word that does not end with whitespace, and only ASCII and no `;` or `,` in any word serialises (its words joined by spaces) to a clean token: non-empty, ASCII, free of `;` and `,`, and without whitespace at either end |
| ContentSecurityPolicy.PolicyDirectives | packages/lit-dev-server/src/middleware/content-security-policy-middleware.ts:61-71 | `makePolicy`'s directive list is the given directives, then `base-uri 'none'`, `form-action 'none'`, `frame-ancestors 'none'`, then `report-uri` last exactly when violations are reported |
| ContentSecurityPolicy.ScriptSources | packages/lit-dev-server/src/middleware/content-security-policy-middleware.ts:78-89 | `script-src` lists `'self'`, `'unsafe-eval'`, the gtag URL and the analytics hash, then each extra hash quoted in order, then `data:` last in dev mode; nothing else |
| ContentSecurityPolicy.ScriptSrcClean | packages/lit-dev-server/src/middleware/content-security-policy-middleware.ts:78-89 | with ASCII options free of `;` and `,`, the `script-src` directive serialises to a clean token of the policy |
| ContentSecurityPolicy.ConnectSrcText | packages/lit-dev-server/src/middleware/content-security-policy-middleware.ts:96 | the `connect-src` directive is written exactly as `connect-src 'self' https://unpkg.com/`, followed by ` ws:` in dev mode |
| ContentSecurityPolicy.ConnectSrcClean | packages/lit-dev-server/src/middleware/content-security-policy-middleware.ts:96 | the `connect-src` directive serialises to a clean token of the policy |
| ContentSecurityPolicy.FrameSrcText | packages/lit-dev-server/src/middleware/content-security-policy-middleware.ts:99 | the `frame-src` directive is written exactly as `frame-src`, the preview origin, and `https://www.youtube-nocookie.com/`, separated by spaces |
| ContentSecurityPolicy.FrameSrcClean | packages/lit-dev-server/src/middleware/content-security-policy-middleware.ts:99 | with an ASCII preview origin free of `;` and `,`, the `frame-src` directive serialises to a clean token of the policy |
| ContentSecurityPolicy.NonAsciiOriginSkipsFrameSrc | packages/lit-dev-server/src/middleware/content-security-policy-middleware.ts:99 | a preview origin holding a character outside ASCII makes the policy parse skip the whole `frame-src` directive, wherever it stands |
| ContentSecurityPolicy.CommaOriginSplitsHtmlCsp | packages/lit-dev-server/src/middleware/content-security-policy-middleware.ts:99 | a preview origin holding a `,` makes the HTML pages' header read as two or more policies |
| ContentSecurityPolicy.DevModeSources | packages/lit-dev-server/src/middleware/content-security-policy-middleware.ts:78-96 | `data:` is a script source and `ws:` a connect source exactly in dev mode |
| ContentSecurityPolicy.ParseMakePolicy | packages/lit-dev-server/src/middleware/content-security-policy-middleware.ts:61-71 | a policy made from clean directives is one policy of the header, and parses back to the texts of its directive list |
| ContentSecurityPolicy.SelectPolicy | packages/lit-dev-server/src/middleware/content-security-policy-middleware.ts:182-188 | the same choice among `htmlCsp`, `playgroundWorkerCsp` and `strictFallbackCsp` |
| ContentSecurityPolicy.SelectedPolicyParses | packages/lit-dev-server/src/middleware/content-security-policy-middleware.ts:61-191 | with ASCII options free of `;` and `,`, the header value set for any response is one policy, which parses back to the chosen directives, the three restrictions and, when reporting, the report address |
| ContentSecurityPolicy.StrictFallbackReadsBack | packages/lit-dev-server/src/middleware/content-security-policy-middleware.ts:176 | `strictFallbackCsp` parses back to exactly `default-src 'none'`, the three restrictions and, when reporting, the report address |
| ContentSecurityPolicy.HtmlCspReadsBack | packages/lit-dev-server/src/middleware/content-security-policy-middleware.ts:74-131 | with ASCII options free of `;` and `,`, `htmlCsp` is one policy of the header and parses back to exactly the `script-src`, `connect-src`, `frame-src`, `style-src`, `font-src`, `img-src`, `object-src` and `default-src 'self'` directives in the source's order, then the three restrictions and, when reporting, the report address |
| ContentSecurityPolicy.PlaygroundWorkerReadsBack | packages/lit-dev-server/src/middleware/content-security-policy-middleware.ts:140-168 | `playgroundWorkerCsp` parses back to exactly `script-src 'unsafe-eval'`, `connect-src https://unpkg.com/`, `default-src 'none'`, the three restrictions and, when reporting, the report address |
| ContentSecurityPolicy.EveryPolicyKeepsRestrictions | packages/lit-dev-server/src/middleware/content-security-policy-middleware.ts:61-71 | every chosen policy contains `base-uri 'none'`, `form-action 'none'` and `frame-ancestors 'none'` as directives |
| ContentSecurityPolicy.ReportOnlyWhenAsked | packages/lit-dev-server/src/middleware/content-security-policy-middleware.ts:70 | for given directives whose names do not start with `r`, so that none is the report directive, the report directive is among a policy's directives iff violations are reported |
| ContentSecurityPolicy.EveryPolicyReportsIffEnabled | packages/lit-dev-server/src/middleware/content-security-policy-middleware.ts:70 | every chosen policy, parsed, contains the report directive iff violations are reported |
| ContentSecurityPolicy.SetHeader | packages/lit-dev-server/src/middleware/content-security-policy-middleware.ts:191 | `ctx.set` stores the value under the lower-cased name and keeps every other header; in a store keyed by lower-cased names, the result is again such a store and holds exactly one header whose name matches the given one in any case |
| ContentSecurityPolicy.Middleware.constructor | packages/lit-dev-server/src/middleware/content-security-policy-middleware.ts:74-176 | the three policies are computed once, from the options, and the middleware's invariant ties them to those options |
| ContentSecurityPolicy.Middleware.Handle | packages/lit-dev-server/src/middleware/content-security-policy-middleware.ts:178-192 | if the downstream handlers reject, the rejection passes through and no header is set; otherwise the response keeps their content type and headers, and `Content-Security-Policy-Report-Only` is set, replacing a header of that name in any case, to the policy selected by content type and path |
| LitDevEnvironments.IntegerEnv | packages/lit-dev-tools-cjs/src/lit-dev-environments.ts:34-43 | succeeds iff the variable is set to a non-empty string of ASCII digits, with the decimal value of those digits; otherwise fails naming the variable and its value (or its absence) |
| LitDevEnvironments.NatToDecimal | packages/lit-dev-tools-cjs/src/lit-dev-environments.ts:76 | a port written in a template string is a non-empty string of digits |
| LitDevEnvironments.DecimalValueOfNatToDecimal | packages/lit-dev-tools-cjs/src/lit-dev-environments.ts:42 | reading back a written number gives that number |
| LitDevEnvironments.IntegerEnvRoundTrip | packages/lit-dev-tools-cjs/src/lit-dev-environments.ts:34-43 | a variable set to a written number is read back by `integerEnv` as that number |
| LitDevEnvironments.LeadingZeroIgnored | packages/lit-dev-tools-cjs/src/lit-dev-environments.ts:42 | a leading zero does not change the value of a digit string |
| LitDevEnvironments.UrlEnv | packages/lit-dev-tools-cjs/src/lit-dev-environments.ts:49-60 | succeeds with the value iff the variable is set and the URL parser accepts it; otherwise fails naming the variable and its value |
| LitDevEnvironments.GetEnvironment | packages/lit-dev-tools-cjs/src/lit-dev-environments.ts:182-193 | a configuration is returned only when `LITDEV_ENV` holds its name; any other value or none fails with an error naming that value |
| LitDevEnvironments.GetEnvironmentRoundTrip | packages/lit-dev-tools-cjs/src/lit-dev-environments.ts:176-193 | setting `LITDEV_ENV` to a configuration's name selects that configuration |
| LitDevEnvironments.GetEnvironmentWithoutVariable | packages/lit-dev-tools-cjs/src/lit-dev-environments.ts:183-191 | with `LITDEV_ENV` unset, the lookup fails |
| LitDevEnvironments.LocalUrls | packages/lit-dev-tools-cjs/src/lit-dev-environments.ts:67-120 | in `dev` and `local`, the sandbox URL is `http://localhost:<playgroundPort>/`, the GitHub main URL is `http://localhost:<fakeGithubPort>/`, the API URL equals the main URL, and the sign-in redirect is `http://localhost:<mainPort>/playground/signin/` |
| LitDevEnvironments.DevSandboxUrl | packages/lit-dev-tools-cjs/src/lit-dev-environments.ts:67-77 | in `dev` the sandbox URL is `http://localhost:5416/` |
| LitDevEnvironments.LocalPortsDistinct | packages/lit-dev-tools-cjs/src/lit-dev-environments.ts:67-120 | within `dev` and within `local`, the main, playground and fake GitHub ports differ, and `dev`'s main port differs from `local`'s |
| LitDevEnvironments.AssignedPort | packages/lit-dev-tools-cjs/src/lit-dev-environments.ts:125-162 | in `pr` and `prod`, the main and playground ports are both `integerEnv('PORT')`; a written `PORT` is read back, and an unset one fails |
| LitDevEnvironments.GithubOnlyLocally | packages/lit-dev-tools-cjs/src/lit-dev-environments.ts:67-174 | the fake GitHub port and every GitHub field are defined exactly in `dev` and `local`, where the client id and secret are the fake ones |
| LitDevEnvironments.ProductionOnly | packages/lit-dev-tools-cjs/src/lit-dev-environments.ts:67-174 | only `prod` reports CSP violations and uses the production analytics id, the others using the test id; only `dev` builds in Eleventy dev mode into `_dev`, the others in production mode into `_site` |
| LitDevEnvironments.DeployedSandboxUrls | packages/lit-dev-tools-cjs/src/lit-dev-environments.ts:139-168 | in `pr` the sandbox URL is the `PLAYGROUND_SANDBOX` variable, succeeding iff it is set and parses as a URL; in `prod` it is the fixed live sandbox address |
| LitDevEnvironments.LocalhostUrlInjective | packages/lit-dev-tools-cjs/src/lit-dev-environments.ts:76-116 | two localhost URLs with the same path are equal only for the same port, so the local servers' URLs differ |
| Carousel.NextSelected | packages/lit-dev-content/samples/tutorials/carousel/03/before/motion-carousel.ts:17-22 | with at least one slide, the new index lies in `[0, max]` whatever the old index and the request |
| Carousel.WrapsExclusive | packages/lit-dev-content/samples/tutorials/carousel/03/before/motion-carousel.ts:19-20 | the wrap to the start and the wrap to the end never both apply |
| Carousel.NextSelectedCases | packages/lit-dev-content/samples/tutorials/carousel/03/before/motion-carousel.ts:19-22 | stepping past the last index gives 0, stepping before 0 gives the last index, and anything else is the request clamped to `[0, max]` |
| Carousel.ExistingSlideKept | packages/lit-dev-content/samples/tutorials/carousel/03/before/motion-carousel.ts:19-22 | a request for an existing index is granted as asked |
| Carousel.StepsAreCyclic | packages/lit-dev-content/samples/tutorials/carousel/03/before/motion-carousel.ts:19-22 | from a valid index, one step forward or back is that step modulo the number of slides |
| Carousel.WithoutChildren | packages/lit-dev-content/samples/tutorials/carousel/03/before/motion-carousel.ts:17-22 | with no slides the setter stores -1, except from -1 with a larger request, which stores 0 |
| Carousel.MotionCarousel.constructor | packages/lit-dev-content/samples/tutorials/carousel/03/before/motion-carousel.ts:9-10 | a new carousel shows index 0, is not advancing, and has requested no update |
| Carousel.MotionCarousel.SetSelected | packages/lit-dev-content/samples/tutorials/carousel/03/before/motion-carousel.ts:16-28 | with at least one slide the stored index is valid afterwards. If the computed index equals the old one, nothing changes. Otherwise the index is stored, `isAdvancing` is whether the request exceeded the old index, and exactly one `requestUpdate('selected', old)` is recorded |

## Left out

- Asynchronous scheduling is not modelled.
  - The promise returned by the operation, the timing of `await`, and host rendering are left out. `addController` is also left out.
  - Any order of `HostUpdated` and `Settle` events stands for a run. The operation's outcome is a parameter of `Settle`.
  - Host update requests are a counter.
- `TaskController.NotEqual` models `notEqual` from the reactive element library, which is not part of this model. It is written after that library's formula over a value type with a distinguished NaN, not over floating-point numbers.
- The TODO notes about `updated`/`willUpdate` timing in `task.ts` concern host scheduling and are not modelled.
- `LitDevEnvironments.UrlEnv` takes the `URL` constructor's acceptance test as a parameter. The URL parser is foreign code.
- `process.env` becomes a map parameter.
- `LitDevEnvironments.IntegerEnv` returns the exact value of the digits. `Number` loses precision above 2^53, which the model does not capture.
- The error messages built with `JSON.stringify` are modelled as error values that carry the variable's name and its value.
- `LitDevEnvironments.GetEnvironment`: `getEnvironment` also accepts keys inherited from `Object.prototype`, such as `toString`. Only the four named configurations are modelled.
- Koa itself (`ctx`, `next`, `ctx.set`) is modelled only as far as the middleware uses it.
  - A response is its content type and a header map.
  - The content type is the MIME type Koa reports, without parameters.
- `ContentSecurityPolicy.Middleware.Handle` models a rejection of `await next()` as an error outcome of the downstream handlers that leaves the response as it was. Whatever those handlers wrote to `ctx` before rejecting is not modelled.
- `ContentSecurityPolicy.SetHeader` lower-cases header names in ASCII only, as HTTP header names are ASCII tokens. Node's validation of header names and values is not modelled.
- `PolicyText.ParseJoinedTexts` and the policy lemmas that use it assume options whose preview origin and extra hashes are ASCII with no `;` or `,` (`ContentSecurityPolicy.SafeOptions`). The middleware does not check this. `ContentSecurityPolicy.NonAsciiOriginSkipsFrameSrc` and `ContentSecurityPolicy.CommaOriginSplitsHtmlCsp` show what a non-ASCII or comma-holding origin does.
- `PolicyText.ParseHeader` splits a header value at every `,`. HTTP's list syntax keeps a `,` inside a double-quoted string, which is not modelled. Safe options put no `,` in the header, so the read-back lemmas do not depend on it. `ContentSecurityPolicy.CommaOriginSplitsHtmlCsp` is stated for the every-comma split.
- `ContentSecurityPolicy.Middleware.Handle` takes `ctx.path` as the request's path. Koa lets downstream handlers assign `ctx.path` before the policy is chosen, which is not modelled.
- The PolicyText reading stops at the token list. It does not split a directive into name and value, and it does not model the rule that ignores a repeated directive name.
- The long URL and hash literals in `CspSources` are written as concatenations of shorter pieces. Their values are those of the source.
- `Carousel.MotionCarousel.SetSelected` takes integer requests and an integer child count. Fractional or NaN requests are floating-point behaviour and are not modelled.
- The child count is a field, not the element's live DOM children.
- The rest of the repository is not part of this model. That covers the Eleventy, rollup and Playwright configuration, the API-docs data files, the browser playground glue, the file-serving middleware, and the other samples.
