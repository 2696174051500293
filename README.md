# Suspense-Feature in Dafny

A model of the sequential logic of a small React demonstration of suspending data loading
(`src/App.jsx`). It covers:

- the two simulated fetchers, `fetchPost` and `fetchComments`, reduced to the outcome their
  promises settle with (module `Fetchers`, built on `Decimal`, the decimal text a template
  literal writes for an integer);
- `createResource`, the memoising tri-state wrapper around one promise, as the class
  `Resources.Resource` with the closure's `status`, `result` and `error` variables as fields.
  `Read` returns a tagged `ReadResult` (`Ready(v)`, `Pending`, `Failed(e)`) where the
  JavaScript throws. `Settle(o)` is one run of the continuation that a pending read
  registers with `promise.then`. The promise's outcome is a ghost constant fixed at
  construction, and `Settle` must be given that outcome;
- the `ErrorBoundary` component (`Boundaries.ErrorBoundary`): its one `error` field, the
  capture of a thrown error and the render choice between the children and "Error: " followed
  by the message;
- the `App` component's state (`Screen.App`): the selected `id`, the resource pair and
  `prevId`, with the click handler and the effect that rebuilds both resources when `id`
  differs from `prevId`;
- `Screen.ShowPost`, one post region from start to end: read while loading, settle, read
  again, then the boundary renders.

A read while loading throws a new derived promise, `promise.then(...)`, each time and
registers one more pair of callbacks. So `Read` returns an identity-free `Pending` and counts
one more registered continuation (`callbacks`), and `Settle` is proved idempotent for repeated
runs.

## Model

| member | source | states |
|---|---|---|
| `Decimal.NatToDecimal` | src/App.jsx:11 | the text of a natural number is a non-empty digit string without a leading zero, and it denotes that number |
| `Decimal.IntToDecimal` | src/App.jsx:11 | the text `${n}` of any integer parses back to `n` |
| `Decimal.ParseNat` | src/App.jsx:11 | the parser accepts every canonical digit string, and whatever it accepts is the printed text of the number it returns |
| `Decimal.CanonicalIsPrinted` | src/App.jsx:11 | every canonical digit string is the printed text of the number it denotes |
| `Decimal.ParseIntExact` | src/App.jsx:11 | parsing gives `n` exactly when the string is the text of `n`, for every string and integer |
| `Decimal.IntToDecimalInjective` | src/App.jsx:11 | two integers have the same text only when they are equal |
| `Fetchers.UnlabelExact` | src/App.jsx:11 | a prefix followed by an integer's text decodes to that integer, and only such strings decode to it |
| `Fetchers.FetchPost` | src/App.jsx:5-14 | rejects, with message "Invalid post ID", exactly when `id > 5`; otherwise resolves with a post whose id is `id` and whose title and content decode to `id` |
| `Fetchers.FetchPostRecord` | src/App.jsx:11 | a resolved post has title "Post " + id and content "This is the content of post " + id |
| `Fetchers.DistinctTitles` | src/App.jsx:11 | posts of different valid ids have different titles |
| `Fetchers.CommentIdsDetermineText` | src/App.jsx:20 | a string that decodes to a comment index and a post id is exactly the comment text for them, and the index is one digit |
| `Fetchers.CommentIdsExact` | src/App.jsx:20 | a comment text with a one-digit index decodes to its index and post id, and only that text does |
| `Fetchers.CommentTextsDecode` | src/App.jsx:20 | each of the five comment texts of a post decodes to its own index and the post id |
| `Fetchers.FetchComments` | src/App.jsx:17-22 | always resolves, with exactly five comments; comment `i` has id `i` and a text naming `i` and the post id |
| `Resources.Resource.constructor` | src/App.jsx:25-28 | a new resource is loading, with no result, no error and no registered continuation |
| `Resources.Resource.Read` | src/App.jsx:30-47 | changes no status, result or error; while loading signals `Pending` and registers one continuation; after success returns the promise's value and after failure its reason, on every call |
| `Resources.Resource.Settle` | src/App.jsx:32-40 | a continuation moves the resource to success with the value or to error with the reason; never back to loading; on a settled resource it changes nothing but the count of pending continuations |
| `Boundaries.ErrorBoundary.constructor` | src/App.jsx:79 | a new boundary holds no error |
| `Boundaries.ErrorBoundary.Capture` | src/App.jsx:81-83 | after a capture the boundary holds the captured error; no operation clears it |
| `Boundaries.ErrorBoundary.Render` | src/App.jsx:85-91 | renders the children exactly when no error is held, otherwise "Error: " followed by the held error's message |
| `Screen.App.constructor` | src/App.jsx:96-99 | the screen starts at id 1 with a fresh loading resource pair for id 1 and `prevId` 1 |
| `Screen.App.SetId` | src/App.jsx:114 | a click selects its id |
| `Screen.App.Effect` | src/App.jsx:101-107 | replaces both resources by fresh loading ones if and only if `prevId` differs from `id`; afterwards `prevId == id`, both resources wrap the fetches for `id` and each keeps its own invariant; with `id` unchanged it is a no-op |
| `Screen.ShowPost` | src/App.jsx:119-122 | the first read of a post resource is pending; after settlement the read fails exactly when `id > 5`, and the boundary then shows "Error: Invalid post ID", otherwise it returns the post `fetchPost(id)` resolves with, whose id is `id` and whose title and content decode to `id` |

## Left out

- The timers: `setTimeout` with a delay of `2000 * id` and the event loop's scheduling. Settlement is an explicit `Settle` step.
- React's `Suspense` (the fallback "Loading post..."/"Loading comments..." and the retry on settlement). It belongs to the library, whose code is not part of this model.
- The `Post` and `Comments` components (src/App.jsx:52-75) beyond their `read()` call, JSX markup, CSS class names and the six-button list. These are presentation only.
- React hook mechanics (`useState`, `useRef`, when renders and effects run). The initial `useState(createResource(fetchPost(id)))` argument is evaluated on every render and its resources discarded; the model keeps only the first pair.
- Identity of thrown promises and the exception channel. Reads return a tagged result instead.
- Numbers: ids are integers and `${n}` is their plain decimal text. Fractional or huge JavaScript numbers are not modelled.
- Falsy thrown values: the boundary tests `this.state.error` for truthiness; the model holds `Error` objects only, which are always truthy.
- The screen's single error boundary (src/App.jsx:119-126) wraps both regions and is never reset, so after a rejected post every later selection still shows the error display. `Screen.App` does not hold that boundary, and this effect across selections is not composed into it; `Screen.ShowPost` uses a fresh boundary for one region.
- Cancellation of superseded fetches: the code has none, and a replaced resource is simply no longer read.
- `Fetchers.CommentIdsExact`: decodes only one-digit comment indices, which covers the indices 0 to 4 that `fetchComments` writes.
