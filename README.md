# Gemini proxy handler — a verified model

`api/gemini-proxy.js` is a serverless HTTP endpoint. It relays a text prompt to
Google's Gemini `generateContent` API. It tries an ordered list of model names
and returns the first non-empty generated text. This project models its
decision logic in Dafny and proves properties of it:

- **Request gating, in a fixed order.** The `OPTIONS` preflight comes first.
  Then every method other than `POST` is rejected. Then the
  `GEMINI_API_KEY` check runs, then the request body is read, then the prompt
  is validated.
- **Candidate selection.** The candidate list is the caller's `models`, or the
  built-in default list. Candidates are sent upstream in list order, each at
  most once. The first one whose reply is ok and whose extracted text is
  non-empty wins. If none wins, the answer is 503.
- **Text extraction.** The text fields of the first reply candidate's parts
  are joined in order and then trimmed.
- **The response object.** The handler sets four CORS headers on every
  response, then sets a status and writes exactly one body.

Files:

- `wrappers.dfy` (module `Wrappers`): the `Option` type. It stands for
  JavaScript's `undefined`/`null` against a present value.
- `extraction.dfy` (module `Extraction`): the reply data types, the
  `?.` chain, the join, and `trim`. These are pure functions with lemmas that
  characterise them.
- `proxy.dfy` (module `GeminiProxy`): the request and response types and the
  handler as a specification function `Handle`. Beside it are the imperative
  versions:
  - `TryCandidates`: the `for...of` loop with `continue` and an early return.
    It is proved equal to the specification.
  - `Route`: the gate sequence.
  - `Handler`: sets the headers on a `ServerResponse` object and writes the
    response.

How the environment is modelled:

- **The upstream call.** Each `fetch` is an `Outcome`. `Failed` stands for a
  non-ok HTTP status or any thrown error, such as a network failure or a JSON
  parse error. `Ok(data)` carries the parsed reply. The service for one
  request is a function `Upstream = (nat, string) -> Outcome`: it gives the
  outcome of the attempt at each list position for each model name. The key
  and the prompt are fixed for one request, so they are not arguments.
- **The environment variable.** `process.env.GEMINI_API_KEY` is an
  `Option<string>`.
- **Trimming.** The set of characters that JavaScript's `trim` removes is a
  parameter, `ws: char -> bool`.
- **Determinism.** `Handle` is a function, so the same request against the
  same upstream always gives the same response. No state is carried between
  requests.

Behaviour of the code that the model keeps as written:

- The API-key check comes before prompt validation. So a `POST` without a key
  gets 500 even when the prompt is invalid.
- The 503 message is `All Gemini models failed to respond`.
- The default list is `["gemini-2.0-flash-lite", "gemini-flash-lite-latest"]`.
- The handler reads the key only from the environment variable. A remote
  key-store lookup is not part of this model.
- An explicitly supplied empty `models` array is truthy, so it is used as it
  is. Nothing is tried and the answer is 503.
- A request body that is `undefined` or `null` makes the logging on line 40 or
  the destructuring on line 42 throw. That error reaches the outer `catch` and
  gives a 500 `Internal server error: …` response. This happens only after the
  key check. It is modelled as `Body.Unreadable(message)`.

## Model

| member | source | states |
|---|---|---|
| `Extraction.PartText` | api/gemini-proxy.js:86 | a part's text is its `text` field when present and `""` when absent |
| `Extraction.PartsOf` | api/gemini-proxy.js:85 | both directions: a non-empty parts list exists only when the reply, its candidates list, a first candidate, its content and its parts are all present, and whenever that whole chain is present the result is exactly its parts list (even an empty one); every missing link gives no parts |
| `Extraction.Concat` | api/gemini-proxy.js:86 | the join of the parts' texts with no separator, defined by recursion over the list and described by `ConcatAppend`, `ConcatEmpty`, `ConcatLocate` and `ConcatPlace`; its own contract states only that no parts give `""` |
| `Extraction.ConcatEmpty` | api/gemini-proxy.js:86 | the joined text is empty if and only if every part's text (missing text counted as `""`) is empty |
| `Extraction.ConcatLocate` | api/gemini-proxy.js:86 | every character of the joined text is a character of some part's text |
| `Extraction.ConcatPlace` | api/gemini-proxy.js:86 | every character of every part's text appears in the joined text (the converse of `ConcatLocate`) |
| `Extraction.ConcatAppend` | api/gemini-proxy.js:86 | joining is in order: the text of `a + b` is the text of `a` followed by the text of `b` |
| `Extraction.TrimStart` | api/gemini-proxy.js:86 | the result is no longer than the input and does not start with whitespace |
| `Extraction.TrimStartCuts` | api/gemini-proxy.js:86 | the result is a suffix of the input and every character cut off is whitespace |
| `Extraction.TrimEnd` | api/gemini-proxy.js:86 | the result is no longer than the input and does not end with whitespace |
| `Extraction.TrimEndCuts` | api/gemini-proxy.js:86 | the result is a prefix of the input and every character cut off is whitespace |
| `Extraction.Trim` | api/gemini-proxy.js:86 | the trimmed text neither starts nor ends with whitespace and is no longer than the input |
| `Extraction.TrimCuts` | api/gemini-proxy.js:86 | the trimmed text is one contiguous piece of the input, and everything before and after it is whitespace |
| `Extraction.TrimUnique` | api/gemini-proxy.js:86 | any piece of the input whose surroundings are whitespace and whose two ends are not equals the trimmed text (trim is determined by these cut points) |
| `Extraction.TrimIdempotent` | api/gemini-proxy.js:86 | trimming an already trimmed string changes nothing |
| `Extraction.TrimEmptyIff` | api/gemini-proxy.js:86 | trimming gives `""` if and only if every character is whitespace |
| `Extraction.ExtractText` | api/gemini-proxy.js:84-86 | the extracted text never starts or ends with whitespace |
| `Extraction.ExtractTextNoParts` | api/gemini-proxy.js:85-86 | a reply without parts (a missing link in the chain, or an empty list) yields `""` |
| `Extraction.ExtractTextTrimmed` | api/gemini-proxy.js:85-86 | the extracted text is a fixed point of trim |
| `Extraction.ExtractTextSource` | api/gemini-proxy.js:85-88 | a reply yields non-empty text if and only if some part of its first candidate holds a non-whitespace character |
| `GeminiProxy.SetAll` | api/gemini-proxy.js:8-11 | after a run of `setHeader` calls, the name of the last call is present with that call's value |
| `GeminiProxy.SetAllValues` | api/gemini-proxy.js:8-11 | after a run of `setHeader` calls, the header names are the old ones plus every name set, each name has the value of its last call, and headers no call names keep their values |
| `GeminiProxy.CorsHeadersSet` | api/gemini-proxy.js:8-11 | after the four CORS calls, each CORS header has its fixed value, whatever the headers were before |
| `GeminiProxy.KeyPresent` | api/gemini-proxy.js:27 | an absent key and an empty key both fail the key check; any non-empty key passes it |
| `GeminiProxy.ValidPrompt` | api/gemini-proxy.js:45 | a missing prompt, a prompt that is not a string, and the empty string are all rejected; any non-empty string is accepted |
| `GeminiProxy.Usable` | api/gemini-proxy.js:77-88 | only an ok upstream call can be usable (a failed call is always skipped) |
| `GeminiProxy.UsableIff` | api/gemini-proxy.js:77-88 | an upstream outcome is usable if and only if the call was ok and some part of its first candidate holds a non-whitespace character |
| `GeminiProxy.Candidates` | api/gemini-proxy.js:50-53 | the candidate list is the caller's `models` when supplied, even an empty one, and otherwise exactly the two default model names |
| `GeminiProxy.FirstUsable` | api/gemini-proxy.js:56-100 | the result is the least position at or after `from` whose outcome is ok with non-empty text; `None` means that no position from `from` on is usable |
| `GeminiProxy.Fallback` | api/gemini-proxy.js:56-107 | the models attempted are a prefix of the list; the status is 200 if and only if some candidate is usable; on 200, the last attempted candidate is usable, every earlier one is not, and the body is that candidate's extracted text and name; otherwise the response is exactly 503 `All Gemini models failed to respond` and the whole list was attempted |
| `GeminiProxy.Handle` | api/gemini-proxy.js:4-116 | OPTIONS gives 200 with no body; any other non-POST method gives 405 `Method not allowed`; a POST without a non-empty key gives 500 with the missing-key message, whatever the body; an unreadable body gives 500 `Internal server error: ` plus the message; an invalid prompt gives 400 `Invalid prompt`; in all these cases no model is attempted; only a request that passes every gate attempts any model, and it gets exactly the fallback result over its candidate list; the models attempted are always a prefix of that list; the status is always one of 200, 400, 405, 500, 503; a success body has non-empty text with no surrounding whitespace, and its model is the last one attempted |
| `GeminiProxy.TryCandidates` | api/gemini-proxy.js:56-107 | the loop that sends candidates upstream in order, continues past a failed call or empty text, and returns on the first text, produces exactly the `Fallback` result, and its record of attempted models matches it |
| `GeminiProxy.ServerResponse.SetHeader` | api/gemini-proxy.js:8-11 | `setHeader` replaces that one header's value and changes nothing else |
| `GeminiProxy.ServerResponse.Status` | api/gemini-proxy.js:15 | `status(code)` sets the status code and changes nothing else |
| `GeminiProxy.ServerResponse.Json` | api/gemini-proxy.js:20 | `json(body)` sends that body on a response that has not been sent yet |
| `GeminiProxy.ServerResponse.End` | api/gemini-proxy.js:15 | `end()` sends an empty body on a response that has not been sent yet |
| `GeminiProxy.SetCorsHeaders` | api/gemini-proxy.js:7-11 | the four header calls leave the headers as `SetAll` of the CORS list, and leave the status and the body untouched |
| `GeminiProxy.Route` | api/gemini-proxy.js:13-114 | the imperative gate sequence with early returns produces exactly `Handle`'s result |
| `GeminiProxy.Handler` | api/gemini-proxy.js:4-116 | the handler sets the CORS headers, writes exactly one response, whose status and body are `Handle`'s, and returns `Handle`'s list of attempted models |
| `GeminiProxy.FirstUsableAt` | api/gemini-proxy.js:56-95 | when every candidate from `from` up to `n` is unusable and candidate `n` is usable, the scan from `from` stops exactly at `n` |
| `GeminiProxy.FallbackPicksFirstUsable` | api/gemini-proxy.js:56-95 | if the first `n` candidates fail and candidate `n` is usable, the response is 200 with candidate `n`'s text and name, and exactly the first `n + 1` candidates were attempted |
| `GeminiProxy.EmptyListExhausts` | api/gemini-proxy.js:50-107 | a valid request with an explicit empty `models` list attempts nothing and gets exactly the 503 response |
| `GeminiProxy.SuccessTextTrimmed` | api/gemini-proxy.js:85-94 | the text of a success response is a fixed point of trim |

## Left out

- The `fetch` call, URL construction, `encodeURIComponent` and JSON
  serialisation and parsing are network I/O and library calls. They are
  replaced by the abstract `Upstream` outcome of each attempt.
- Reading `process.env` is replaced by an optional key argument.
- `console.log`, `console.warn` and `console.error` are left out. They have no
  effect on the response.
- The exact whitespace set of `String.prototype.trim` is left out. It is the
  parameter `ws`.
- async/await scheduling is left out. The attempts are strictly sequential,
  and the model runs them in order.
- A `models` value that is truthy but not an array is left out: a string
  would be iterated character by character, and other values throw into the
  outer `catch`. Non-string entries in `models` are left out too. `models`
  is a list of strings or absent.
- A `text` field that is present but not a string is left out. JavaScript's
  `join` would convert it to a string. A part's text is a string or absent.
- A `null` element of `parts` makes `p.text` throw inside the per-model
  `try`, so the next model is tried. The model has no such part; that attempt
  is a `Failed` outcome.
- Exceptions reaching the outer `catch` for reasons other than an
  `undefined`/`null` body are left out, for example a body that
  `JSON.stringify` cannot serialise. Only the unreadable-body case is
  modelled.
- `prompt` values are grouped by what the check on line 45 distinguishes:
  absent, not a string, or a string.
- The remote key-store variant of the key lookup is not part of this model.
- `Handler` writes the response once, after the decision, where the source
  writes it inside each branch. The headers, status and body written are the
  same.
