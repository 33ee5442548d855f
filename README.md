# Locale handling and contact endpoint of the Shangshu website

This project is a Dafny model of the three pieces of logic in a bilingual (zh/en) marketing site.

- **Header** (`header.dfy`) covers the site header's path handling:
  - the locale named by the first segment of the browser's pathname (`getCurrentLocale`);
  - the path with its locale prefix removed (`getCurrentPath`);
  - the other locale and the language-switch link;
  - the four navigation links.
  
  The browser's `window.location.pathname` is an `Option<string>` parameter. `None` is server-side rendering, where there is no window.
- **Contact** (`contact.dfy`) covers the Cloudflare Pages function `onRequestPost`:
  - it parses the body, checks the three required fields and then the D1 binding;
  - it inserts one row into the `contacts` table;
  - it answers with a JSON response.
  
  The table is a `Database` class holding a `seq<Row>`. A missing binding is `null`. Whether the insert throws, and the timestamp `new Date().toISOString()` would give, are inputs.
- **Request** (`request.dfy`) covers the next-intl request configuration. A requested locale that is truthy and supported is kept; anything else becomes the routing's default. The message table of the resulting locale is loaded. The routing (supported locales and default) and the message tables are parameters.

`wrappers.dfy` holds the shared `Option` datatype.

One property is proved about a sequence of requests, not one call: the contacts table is append-only. `Replay` serves a sequence of calls, and `AcceptedRows` lists the rows they should add.

The handler tests JavaScript truthiness only: among strings only `""` is empty, so a name of `" "` is accepted. A JSON `null` body is not an object: reading its fields throws, and the handler answers with the generic 500.

## Model

| member | source | states |
|---|---|---|
| Header.MatchPrefix | components/Header.tsx:20 | the prefix pattern of line 20 matches locale `l` exactly when `"/" + l` is a prefix of the path |
| Header.MatchSegment | components/Header.tsx:12 | the segment pattern of line 12 matches `l` exactly when `"/" + l` is a prefix followed by `/` or the end of the path |
| Header.CurrentLocale | components/Header.tsx:9-14 | no window gives `zh`; the locale is `en` exactly when the path starts with `/en` followed by `/` or its end, otherwise `zh` |
| Header.StripPrefix | components/Header.tsx:20 | a leading `/zh` or `/en` is removed once, whatever follows it; any other path is unchanged |
| Header.CurrentPath | components/Header.tsx:17-21 | the result is never empty; no window gives `/`; a path starting with `/zh` or `/en` gives the rest after those three characters, or `/` if nothing is left; any other path is returned unchanged, except that the empty path gives `/` |
| Header.SwitchLocale | components/Header.tsx:29 | the offered locale is never the current one |
| Header.SwitchLocaleInvolution | components/Header.tsx:29 | switching twice gives back the original locale |
| Header.SwitchLocalePath | components/Header.tsx:12-30 | the link is the other locale's prefix followed by a copy of the current rest path, which reads back unchanged from the link for every pathname; followed from no window or from a path that is empty or starts with `/` and whose locale prefix, if any, ends its segment, it reads as the other locale; from a path with a locale prefix glued to more text it still reads as `zh` |
| Header.NavItems | components/Header.tsx:32-37 | four entries keyed home, about, services, contact in that order; every href starts with the current locale's prefix, and home's href is exactly that prefix |
| Header.NavItemsStayInLocale | components/Header.tsx:12-37 | each nav href parses back to the current locale, with rest paths `/`, `/about`, `/services`, `/contact` |
| Header.GluedPrefixExample | components/Header.tsx:12-30 | `/english` reads as `zh` with rest path `glish`, and its switch link is `/english` itself |
| Header.PathExamples | components/Header.tsx:12-30 | `/en/about` reads as `en` with rest `/about`; `/zh` has rest path `/` and switch link `/en/`; `/about` keeps its path and switches to `/en/about` |
| Contact.RowFor | functions/api/contact.js:38-44 | the row carries the submitted name, email and message (all non-empty) and the timestamp; its phone is `''` exactly when the phone was missing or empty, and otherwise the submitted phone |
| Contact.HandlerResponse | functions/api/contact.js:3-63 | every response is JSON with status 200, 400 or 500; 200 exactly for a complete form with a binding and a successful insert; 400 exactly for a parsed form missing a required field, with the required-fields error; the configuration error exactly for a complete form without a binding; the generic failure exactly when parsing or the insert throws |
| Contact.ValidationBeforeBinding | functions/api/contact.js:9-31 | an incomplete form gets 400 with the required-fields error whether or not the binding exists |
| Contact.Stored | functions/api/contact.js:34-45 | after a 200 the table is the old rows plus exactly one new row for the form; after any other response it is unchanged |
| Contact.NoDeduplication | functions/api/contact.js:34-45 | the same accepted form submitted twice is stored twice |
| Contact.ReplayAppendsAcceptedRows | functions/api/contact.js:34-45 | serving any sequence of calls keeps the existing rows as a prefix and appends one row per accepted call, in call order |
| Contact.SubmissionExamples | functions/api/contact.js:9-53 | `{name:"Alice", email:"a@x.com", message:"Hi"}` is stored as `("Alice","a@x.com","","Hi",now)`; the same form with an empty name gets 400 and stores nothing |
| Contact.Database.Insert | functions/api/contact.js:34-45 | a successful insert appends exactly the row; a failed one leaves the table unchanged (see Left out) |
| Contact.OnRequestPost | functions/api/contact.js:3-64 | the response is the one `HandlerResponse` decides, and a bound table afterwards is what `Stored` gives from its old rows |
| Request.ValidLocale | i18n/request.ts:6-8 | a present, non-empty, supported locale is returned unchanged; a missing, empty or unsupported one gives the default |
| Request.FallbackSupported | i18n/request.ts:6-8 | if the default is supported, the result is always supported |
| Request.FallbackIdempotent | i18n/request.ts:6-8 | applying the fallback to its own result changes nothing |
| Request.RequestConfig | i18n/request.ts:10-13 | a truthy supported locale is configured with its own message table; a missing, empty or unsupported one is configured as the default locale with the default's table |

## Left out

- JSX rendering, CSS classes, icons and the brand text of the header: these are presentation.
- The mobile-menu toggle (`isMenuOpen`): it is UI state with no invariant beyond a boolean flip.
- The footer's navigation list: it repeats the header's list. The structured-data objects are constant data. The build configuration has no logic.
- The JSON text of responses: `JSON.stringify` is not modelled. A body is the structured `Payload` it serialises.
- JSON field values that are not strings: numbers, booleans, nested objects. A field is either missing or a string. A JSON body that is a number or a string is not modelled; its fields would all be missing.
- `console.error` logging.
- The real clock: the timestamp is an input, so its ISO-8601 format and its relation to the call time are not modelled.
- The D1 `prepare/bind/run` call chain: an insert is an append to a sequence of rows, with a flag saying whether it throws.
- Contact.Database.Insert: a `run()` that throws after the row was committed (for example when the reply is lost) is not modelled; a failed insert is taken to have written nothing, so the no-row promise of `Stored` for a failed insert rests on that.
- async/await: each request is served alone and in sequence.
- The next-intl library (`getRequestConfig`, translation lookups) and the `./routing` module: the routing is a parameter.
- The dynamic import of `../messages/<locale>.json`: the message tables are a function parameter, so a missing message file is not modelled.
