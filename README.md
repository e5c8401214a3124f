# Flagify flag grid, modelled in Dafny

Flagify is a browser page that shows the flags of the world in a grid with a
search box. On every render it fetches the code list (`codes.json`, a JSON
object from country code to country name) from the flag host, clears the
grid, and appends one card per country whose name contains the search term,
ignoring case. Each card shows the flag's SVG image and offers an SVG copy
button and a PNG download button; the download is saved under the last path
segment of the PNG URL.

This project models that core of `js/copy.js`:

- `JsString.dfy` — the three string builtins the page uses: `toLowerCase`
  (ASCII folding), `includes` (substring search, proved equivalent to "occurs
  at some position") and `lastIndexOf`.
- `CodeDirectory.dfy` — the code directory as the sequence of its entries in
  key-enumeration order, the response of the GET request as a value, and
  `fetchCountryCodes`, which turns every failure into the empty directory and
  one console entry.
- `FlagUrls.dfy` — the SVG and PNG URL templates with their inverses, and the
  download file name as the unique last path segment of a URL.
- `FlagRenderer.dfy` — the card set as a function of directory and search term
  (`Render`), lemmas that pin it down exactly (sound, complete, in directory
  order, duplicate-free, everything for the empty term, nothing after a failed
  fetch), the `.grid` container as a class, and `generateFlags` as a method
  with the source's clear-then-append loop and its `found` flag.

The network response is a parameter of `GenerateFlags` (`Response`: a network
failure, or a status with a body that parsed to an object or did not), and
the console is modelled by the list of diagnostics the method returns.

Two consequences of the code are worth stating on their own:

- Searching `{"fr": "France", "de": "Germany"}` for `"an"` shows both flags,
  France first, because "france" contains "an" (`FranceGermanySearch`).
- A name that is not a JSON string makes `toLowerCase` throw inside the loop
  (`js/copy.js:26`). The catch at `js/copy.js:37-39` keeps the cards appended
  before that entry and shows none after it (`Render`, `TextPrefix`).

## Model

| member | source | states |
|---|---|---|
| JsString.Lower | js/copy.js:26-27 | lower-casing keeps the length and folds each character on its own, leaving no ASCII capital |
| JsString.LowerChar | js/copy.js:26-27 | an ASCII capital becomes the letter 32 code points later, every other character is kept, and no ASCII capital is left |
| JsString.LowerIdempotent | js/copy.js:26-27 | folding an already folded string changes nothing |
| JsString.Includes | js/copy.js:27 | `includes(s, t)` holds only when `t` is no longer than `s`; its full meaning is `IncludesIffOccurs` |
| JsString.IncludesIffOccurs | js/copy.js:27 | `includes(s, t)` holds exactly when `t` occurs in `s` at some position, in both directions |
| JsString.LastIndexOf | js/copy.js:134 | the result is -1 or a position holding the character, and no later position holds it |
| JsString.LastIndexOfAbsent | js/copy.js:134 | `lastIndexOf` gives -1 exactly when the character does not occur |
| FlagUrls.SvgUrl | js/copy.js:29 | the SVG URL is the host prefix, then the code, then `.svg` |
| FlagUrls.PngUrl | js/copy.js:67 | the PNG URL is the `256x192/` prefix, then the code, then `.png` |
| FlagUrls.SvgUrlRoundTrip | js/copy.js:29 | the code read back from an SVG URL is the code it was built from, and only that code's URL reads back to it |
| FlagUrls.PngUrlRoundTrip | js/copy.js:67 | the code read back from a PNG URL is the code it was built from, and only that code's URL reads back to it |
| FlagUrls.DownloadFilename | js/copy.js:134 | the file name is a suffix of the URL without `/`, and is the whole URL or follows a `/` |
| FlagUrls.LastSegmentUnique | js/copy.js:134 | a URL has only one such last segment, so the file name is determined by that property |
| FlagUrls.FilenameWithoutSlash | js/copy.js:134 | a URL with no `/` is its own file name |
| FlagUrls.PngFilename | js/copy.js:134 | the PNG URL of a `/`-free code downloads as `<code>.png` |
| CodeDirectory.FetchCountryCodes | js/copy.js:2-14 | a successful status with a parsed object yields that object and no log; a network failure, a non-success status or a parse failure yields the empty directory and exactly one logged error |
| FlagRenderer.CardFor | js/copy.js:29-30 | a card carries its code, and its SVG and PNG URLs both read back to that code |
| FlagRenderer.TextPrefix | js/copy.js:26 | the loop handles the entries before the first non-string name, all of whose names are strings |
| FlagRenderer.NameMatchesIffOccurs | js/copy.js:26-27 | the test of `NameMatches` (and so of `IsMatch`, which also asks for a string name) holds exactly when the lower-cased term occurs somewhere in the lower-cased name |
| FlagRenderer.Render | js/copy.js:25-33 | the grid never holds more cards than the directory has entries; its exact contents are `RenderIsFilter` |
| FlagRenderer.RenderIsFilter | js/copy.js:25-33 | the grid equals the order-preserving filter of the entries before the first non-string name |
| FlagRenderer.RenderIsFilterWhenNoThrow | js/copy.js:25-32 | with only string names, the grid equals the order-preserving filter of the whole directory |
| FlagRenderer.RenderLength | js/copy.js:25-33 | the grid holds exactly as many cards as there are matching entries before the first non-string name |
| FlagRenderer.RenderAt | js/copy.js:25-32 | every matching entry is rendered, at the index equal to the number of matching entries before it |
| FlagRenderer.RenderSound | js/copy.js:25-32 | every card comes from an entry before the first non-string name whose lower-cased name includes the lower-cased term |
| FlagRenderer.RenderOrder | js/copy.js:25-31 | of two matching entries, the earlier one's card stands earlier in the grid |
| FlagRenderer.RenderedCodesDistinct | js/copy.js:25-31 | a directory with distinct keys renders no code twice |
| FlagRenderer.EmptyTermRendersAll | js/copy.js:17-27 | with the default empty term and only string names, every entry is rendered, in order |
| FlagRenderer.SearchIgnoresCase | js/copy.js:26-27 | matching gives the same answer whether the term or the name is folded first |
| FlagRenderer.FailedFetchRendersNothing | js/copy.js:10-21 | after a failed fetch the grid is empty and one fetch error is logged |
| FlagRenderer.CardDownloadsAsCode | js/copy.js:67 | the PNG URL of a rendered card with a `/`-free code yields the file name `<code>.png` (for codes the markup passes through unchanged, see `FlagRenderer.CardFor` under Left out) |
| FlagRenderer.FranceGermanySearch | js/copy.js:25-32 | France and Germany searched for "an" both render, France first |
| FlagRenderer.Grid.Clear | js/copy.js:21 | clearing leaves the grid with no children |
| FlagRenderer.Grid.AppendChild | js/copy.js:31 | appending adds the card at the end and keeps the rest |
| FlagRenderer.GenerateFlags | js/copy.js:17-40 | the grid ends equal to `Render` of the fetched directory, whatever it held before; `found` is true exactly when a card was appended; the log holds the fetch error, if any, then the render error, if a non-string name was reached |
| FlagRenderer.AppendMatching | js/copy.js:25-33 | on a cleared grid the loop leaves exactly `Render` of the directory; `found` is true exactly when a card was appended; it reports an exception exactly when a non-string name is reached |
| FlagRenderer.RenderTwice | js/copy.js:21-31 | a second render with the same inputs leaves the grid exactly as the first left it |

## Left out

- The HTTP requests themselves (`fetch`): the response is a parameter. Only "succeeded with a parsed object" versus "failed" is modelled; a body that parses to JSON other than an object, and duplicate keys in the object, are not.
- The order in which JavaScript enumerates object keys (integer-like keys first): the directory is given in enumeration order. Country codes are not integer-like, so this is their order in the JSON text.
- JsString.Lower: folds ASCII letters only, not the full Unicode mapping of `toLowerCase`.
- The markup built by `createFlagElement` (classes and inline icons): a card is only its code and two URLs.
- FlagRenderer.CardFor: assumes the markup passes the URLs through unchanged. `createFlagElement` puts them into an `src` attribute and into single-quoted JavaScript literals inside `onclick` attributes of an `innerHTML` template (`js/copy.js:49`, `52`, `67`). A code containing `'`, `"`, `\`, `&` or `<` changes what `copyFlag` and `downloadPng` receive: `a&amp;b` arrives as `a&b`, and `a'b` makes the handler a syntax error. The model, and so `CardDownloadsAsCode`, covers only codes free of these characters.
- `document.querySelector(".grid")` finding no element: the grid is always present.
- `copyFlag`: fetching the SVG text and copying it through a temporary textarea are browser side effects.
- `downloadPng` apart from its file name: the blob fetch, the object URL, the anchor click and the toast are browser side effects.
- `showToast`: its timers and CSS transitions are event-loop driven.
- `window.onload` and the input listener, and the race between overlapping asynchronous renders, which is about concurrency.
- The `found` flag is computed but never read by the source; the model returns it so its invariant can be stated.
