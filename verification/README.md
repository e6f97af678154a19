# Coffee carousel and explorer: a Dafny model

This project models the state logic of two React components of a small coffee
gallery application.

- **The image carousel** (`CoffeeImageCarousel.jsx`) keeps four state cells:
  a window of image URLs, a display index, a `loading` flag and an `error`
  value.
  - On mount, a batch of five single fetches fills the window. Only the
    non-null URLs are kept, in request order. If none is kept, the batch
    records its own error.
  - A refresh timer fetches one URL at a time. The updater copies the
    window, shifts off the oldest URL and pushes the new one.
  - A slide timer advances the display index modulo the window length.
  - The render selects a spinner, an error panel, or a carousel with exactly
    one active slide and indicator.
- **The recipe explorer** (`CoffeeExplorer.jsx`) fetches a recipe list once.
  It records either the list or an error, and renders a spinner, an error
  panel or one card per recipe. An ingredient string that contains `*` is
  shown with its first `*` removed and tagged optional.

Files:

- `js_values.dfy` (module `JsValues`) holds the JavaScript conventions both
  components use: a value that may be `null` (`Option`), truthiness of such a
  string (`Truthy`), and `message || fallback` (`OrElse`).
- `image_carousel.dfy` (module `ImageCarousel`) holds the specification
  functions and lemmas of the carousel and the class `CoffeeImageCarousel`.
  Its fields are the component's state cells. Its methods are the fetch
  continuations and timer callbacks, each one atomic step.
- `coffee_explorer.dfy` (module `CoffeeExplorer`) holds the label rule, the
  render selection and the class `Explorer`, whose method `FetchCoffeeData`
  is the completion of the one fetch.

Network results are inputs. A single image fetch is a `FetchOutcome`: either
`Received(file)` or `Failed(message)`. The recipe fetch is a `Response`:
either `Loaded(data)` or `Rejected(message)`.

Behaviour of the code worth knowing:

- A failed single fetch always records an error
  (`CoffeeImageCarousel.jsx:25`), even inside a batch that keeps other URLs
  and even during a refresh. Nothing clears the error, and the render checks
  it before the carousel (`CoffeeImageCarousel.jsx:111`). So a partial batch,
  or one failed refresh, shows the error panel for good.
  `PartialBatchOnMount` shows a batch that keeps three of five URLs ending on
  the error panel. `FailedRefreshAfterMount` shows a working carousel that
  switches to the error panel after one failed refresh and stays there after
  a later successful one.
- The batch runs once per mount (`CoffeeImageCarousel.jsx:60-82`), and the
  model records that with the ghost field `batchDone`. Before the batch
  completes, only an early refresh can touch the window, so it holds at most
  one URL and the display index is 0. The batch does not reset the index.
  Because the index is 0 when the batch runs, the index points into the
  window whenever the window holds a URL. So every carousel the component can
  show has exactly one active slide and one active indicator.
- The batch filter drops only `null`, so an empty URL is kept. The refresh
  path tests truthiness, so an empty URL leaves the window alone.

## Model

| member | source | states |
|---|---|---|
| `JsValues.OrElse` | src/components/CoffeeImageCarousel.jsx:25 | the message, or the fallback when the message is empty: never empty, and equal to the message whenever the message is non-empty |
| `ImageCarousel.ImageOf` | src/components/CoffeeImageCarousel.jsx:16-28 | a single fetch resolves to `null` exactly when it failed, and otherwise to the response's URL |
| `ImageCarousel.BatchResults` | src/components/CoffeeImageCarousel.jsx:36-41 | the array the batch resolves to has one entry per request slot, and the i-th entry is what the i-th fetch resolved to |
| `ImageCarousel.KeepNonNull` | src/components/CoffeeImageCarousel.jsx:43-44 | the batch filter keeps exactly the URLs that are present among the results, and one entry per non-null result, so never more than were requested |
| `ImageCarousel.KeepNonNullAppend` | src/components/CoffeeImageCarousel.jsx:36-44 | the filter preserves request order: filtering a concatenation concatenates the filtered parts |
| `ImageCarousel.BatchAllReceived` | src/components/CoffeeImageCarousel.jsx:36-48 | when all `count` fetches succeed, all `count` URLs are kept, each at its request position |
| `ImageCarousel.BatchAllFailed` | src/components/CoffeeImageCarousel.jsx:41-51 | when all fetches fail, nothing is kept, so the batch takes its error path |
| `ImageCarousel.PartialBatchKept` | src/components/CoffeeImageCarousel.jsx:36-48 | a batch of five that loses its second and fourth fetches keeps the other three URLs, in request order |
| `ImageCarousel.ErrorAfter` | src/components/CoffeeImageCarousel.jsx:23-26 | after a run of single fetches an error is recorded iff one was before or some fetch failed; successes alone leave it as it was; a changed error is a non-empty message |
| `ImageCarousel.LastFailureWins` | src/components/CoffeeImageCarousel.jsx:23-26 | after a run of fetches the recorded error is the message, or the default text, of the last fetch that failed; later successes do not touch it |
| `ImageCarousel.Rotated` | src/components/CoffeeImageCarousel.jsx:69-75 | one refresh drops the oldest URL, moves the others forward and puts the new URL last; a non-empty window keeps its length, an empty one becomes `[url]` |
| `ImageCarousel.WindowSlides` | src/components/CoffeeImageCarousel.jsx:66-78 | the window is a FIFO: after any number k of refreshes, a non-empty window is the old window followed by the k new URLs, less its first k entries |
| `ImageCarousel.WindowKeepsLength` | src/components/CoffeeImageCarousel.jsx:66-78 | refreshes keep a non-empty window's length; at most as many refreshes as the window holds evict exactly its oldest URLs and append the new ones in arrival order |
| `ImageCarousel.WindowFromEmpty` | src/components/CoffeeImageCarousel.jsx:69-74 | an empty window refreshed with one or more URLs holds only the newest one |
| `ImageCarousel.NextIndex` | src/components/CoffeeImageCarousel.jsx:91 | one tick moves the index to the next slide, wraps from the last slide to the first, and stays inside the window |
| `ImageCarousel.AdvanceTimesAdd` | src/components/CoffeeImageCarousel.jsx:90-92 | a + b ticks are a ticks followed by b ticks |
| `ImageCarousel.AdvanceTimesBeforeWrap` | src/components/CoffeeImageCarousel.jsx:90-92 | before the wrap, k ticks advance the index by k |
| `ImageCarousel.AdvanceCycle` | src/components/CoffeeImageCarousel.jsx:85-96 | ticking as many times as the window holds URLs brings any in-range index back to where it started |
| `ImageCarousel.Render` | src/components/CoffeeImageCarousel.jsx:98-166 | spinner iff loading; otherwise error panel, showing the error, iff an error is recorded; otherwise one indicator and one slide per URL in window order, active exactly at the display index |
| `ImageCarousel.ExactlyOneActive` | src/components/CoffeeImageCarousel.jsx:132-150 | in the carousel the set of active slides and the set of active indicators are both exactly the display index when it is in the window, and empty otherwise |
| `ImageCarousel.CoffeeImageCarousel.constructor` | src/components/CoffeeImageCarousel.jsx:7-13 | on mount: no images, loading, no error, index 0 |
| `ImageCarousel.CoffeeImageCarousel.View` | src/components/CoffeeImageCarousel.jsx:98-150 | in a valid state the error panel shows iff loading is over and any error is recorded, and the carousel shows iff loading is over and no error is recorded; whenever the carousel shows, the active slides and the active indicators are exactly the display index |
| `ImageCarousel.CoffeeImageCarousel.FetchRandomCoffeeImage` | src/components/CoffeeImageCarousel.jsx:16-28 | resolves to the URL or `null`; a failure records its message, or the default text when the message is empty; a recorded error stays recorded |
| `ImageCarousel.CoffeeImageCarousel.FetchMultipleCoffeeImages` | src/components/CoffeeImageCarousel.jsx:31-57 | issues `count` fetches; if any URL survives the filter, the window becomes exactly the kept URLs in request order and the error is whatever the failures left; otherwise the window is unchanged and the error is "Could not fetch any coffee images"; loading is false either way; the index is untouched and is 0; it runs at most once per mount |
| `ImageCarousel.CoffeeImageCarousel.RefreshImage` | src/components/CoffeeImageCarousel.jsx:66-78 | a truthy URL rotates the window (`Rotated`); a `null` or empty URL leaves it unchanged; a failure records its error and a success leaves it; the invariant, including an in-range index, is kept |
| `ImageCarousel.CoffeeImageCarousel.AdvanceSlide` | src/components/CoffeeImageCarousel.jsx:85-96 | does nothing on an empty window; otherwise moves the index to `NextIndex`, so it lies inside the window |
| `CoffeeExplorer.FirstIndexOf` | src/components/CoffeeExplorer.jsx:105 | the position of the first occurrence of the character: it holds the character, and no earlier position does |
| `CoffeeExplorer.ReplaceFirst` | src/components/CoffeeExplorer.jsx:105 | `replace` with a one-character string pattern: without that character the string is unchanged; otherwise exactly its first occurrence is removed and the rest keeps its order |
| `CoffeeExplorer.LabelIngredient` | src/components/CoffeeExplorer.jsx:103-109 | tagged optional iff the ingredient contains `*`; untagged text is the ingredient unchanged; tagged text is the ingredient without its first `*`, one character shorter |
| `CoffeeExplorer.LabelKeepsOtherCharacters` | src/components/CoffeeExplorer.jsx:105 | removing the marker removes exactly one `*`, so later `*` characters and all other characters remain |
| `CoffeeExplorer.CardOf` | src/components/CoffeeExplorer.jsx:78-121 | a card shows its recipe's title, description and image, and one list item per ingredient in order, each labelled by the rule and tagged optional iff its ingredient has a `*` |
| `CoffeeExplorer.Render` | src/components/CoffeeExplorer.jsx:46-124 | spinner iff loading; otherwise error panel, showing the error, iff an error is recorded; otherwise one card per recipe in list order |
| `CoffeeExplorer.Explorer.constructor` | src/components/CoffeeExplorer.jsx:8-12 | on mount: no recipes, loading, no error |
| `CoffeeExplorer.Explorer.View` | src/components/CoffeeExplorer.jsx:46-69 | in a valid state the error panel shows iff loading is over and an error is recorded, and the grid shows iff loading is over and none is |
| `CoffeeExplorer.Explorer.FetchCoffeeData` | src/components/CoffeeExplorer.jsx:17-39 | on success the list becomes the response's list and the error is untouched; on failure the error becomes the message, or the default text, and the list is untouched; loading is false either way |

## Left out

- Network calls (`axios.get`) are not modelled. Each fetch is an input outcome.
- Only a response whose `file` field is a string is modelled. A response
  without that field would resolve to `undefined`. The batch filter would
  keep it, and the refresh test would skip it.
- The recipe response is assumed to be a list of records with an
  `ingredients` list. A malformed body makes the render throw in JavaScript,
  and that is not modelled.
- Timers are not modelled: `setInterval`/`clearInterval`, the 30-second and
  3-second periods, effect re-runs and clean-up on unmount. Only the
  callbacks are modelled, as atomic steps that may come in any order. The
  slide callback reads the window length captured when its effect last ran.
  That effect re-runs whenever the length changes, so the model reads the
  current length.
- `FetchMultipleCoffeeImages` handles completions in request order, not in
  any other order, and it does not interleave with a refresh. In the source
  the fetches complete in any order, so the message left in `error` after
  several failures depends on which failure completes last. The kept URLs do
  not depend on completion order.
- The `loading` value between `setLoading(true)` and the end of the batch or
  fetch is not observable in the model, because each method is one atomic
  step.
- Presentation is not modelled: Bootstrap classes, styles, captions,
  `console.error`, the image `onError` placeholder swap, and React `key`
  values, including duplicate URLs used as keys.
- `src/pages/HomePage.jsx` and `src/App.jsx` are static markup and routes, and
  are not part of this model.
