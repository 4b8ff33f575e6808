# Text robot, modelled in Dafny

The text robot of the video maker loads a `content` record and runs it through a
fixed sequence of stages:

1. fetch a Wikipedia article for the search term;
2. sanitize it: drop blank lines and `=`-headings, join the rest with spaces,
   delete parenthesised asides, and collapse double spaces;
3. cut it into sentences;
4. keep the first `maximumSentences` of them;
5. ask a natural-language service for the keywords of each sentence;
6. save the record.

This project models that pipeline and proves what each stage computes.

Files:

- `wrappers.dfy`: `Option`, `Result` (what an asynchronous call resolves or rejects
  with) and `Outcome` (a stage that completes or aborts the run).
- `seqs.dfy`: order-preserving subsequences.
- `js_string.dfy`: the JavaScript string built-ins the sanitizer uses: `trim`
  (with the ECMAScript white-space set), `split` on one character, and
  `Array.prototype.join`.
- `js_array.dfy`: `Array.prototype.slice(0, end)`, with the negative and absent `end`
  cases.
- `sanitizer.dfy`: the three text passes, all pure functions.
  - The pattern `/\((?:\([^()]*\)|[^()])*\)/g` is a deterministic scanner
    (`InnerLength`, `StepLength`, `BodyLength`, `MatchAt`). It is proved to find
    exactly the spans of a grammar of pieces: a plain non-parenthesis character, or
    a parenthesis-free inner group.
  - `/  /g` is a pairwise scan. It is proved equal to a run-by-run reference
    definition.
- `pipeline.dfy`: the robot itself.
  - `Content` is a class whose fields the stage methods update in place.
  - The language service (`Nlu`) and the state file (`Store`) are objects that record
    each request and each save. Both also append to one shared `Trace` of events, so
    the order of requests and saves is observable.
  - `RunPipeline` is a pure function giving the value a run saves, and `RunRequests`
    lists the keyword requests a run makes. `Robot` is proved to save exactly that
    value, to save nothing when a stage fails, and to make exactly those requests.
- `run_facts.dfy`: what a whole run does, stated over `RunPipeline` and
  `RunRequests`: when it completes, where it stops, and which requests it makes.

The outside services enter as parameters:

- the article service is a function from search term to `Result`;
- the `sbd` sentence segmenter is an uninterpreted function from text to segments;
- the language service answers according to a function of the call number and the
  text, so its answers can differ between calls.

## Model

| member | source | states |
|---|---|---|
| JsString.Trim | src/robots/text.js:51 | `trim()` removes only the surrounding white space: the line is white space, then the result, then white space. The result is empty exactly when the line is all white space; otherwise it starts and ends with the line's first and last visible characters, neither of them white space |
| JsString.Split | src/robots/text.js:48 | `split("\n")` yields at least one piece and no piece contains the separator |
| JsString.JoinSplit | src/robots/text.js:48 | joining the pieces of a split with the separator gives back the original text |
| JsString.SplitUnique | src/robots/text.js:48 | any separator-free pieces joined with the separator split back into exactly those pieces |
| JsString.JoinExcludes | src/robots/text.js:58 | a character in neither the parts nor the separator is not in the join |
| JsString.JoinEmpty | src/robots/text.js:58 | with a non-empty separator, the join is empty exactly when there are no parts or one empty part |
| Sanitizer.KeepLineFirstVisible | src/robots/text.js:50-56 | a line is kept exactly when it has a visible character and its first visible character is not `=` |
| Sanitizer.KeptLines | src/robots/text.js:50-56 | the kept lines are a subsequence of the input lines (same order, untrimmed); every kept line passes the test; every input line that passes is kept |
| Sanitizer.KeptLinesSingle | src/robots/text.js:50-56 | a single line survives the filter exactly when it passes the test |
| Sanitizer.KeptLinesAppend | src/robots/text.js:50-56 | filtering a concatenation of line lists filters each part, so with the single-line case the filter is fixed line by line |
| Sanitizer.KeptLinesEmpty | src/robots/text.js:50-56 | nothing is kept exactly when no line passes the test |
| Sanitizer.FilteredHasNoLineBreak | src/robots/text.js:47-59 | the joined text contains no `"\n"` |
| Sanitizer.JoinedKeptEmpty | src/robots/text.js:58 | joining kept lines with `" "` gives `""` exactly when no line was kept |
| Sanitizer.FilteredEmpty | src/robots/text.js:47-59 | the filtered text is `""` exactly when every input line is blank or a heading |
| Sanitizer.InnerLengthFinds | src/robots/text.js:63 | a parenthesis-free text followed by `)` is read as an inner group up to exactly that `)` |
| Sanitizer.StepLengthFinds | src/robots/text.js:63 | one valid piece at the head of the text is read as one step of exactly its length |
| Sanitizer.BodyLengthFinds | src/robots/text.js:63 | valid pieces followed by `)` are read as a span body up to exactly that `)` |
| Sanitizer.MatchAtComplete | src/robots/text.js:63 | if the text from `i` to `e` is a span of the pattern, the scanner matches at `i` and ends at `e` |
| Sanitizer.InnerLengthSound | src/robots/text.js:63 | what the inner-group reader consumes is parenthesis-free text and then `)` |
| Sanitizer.StepLengthSound | src/robots/text.js:63 | what one step consumes is the text of one valid piece |
| Sanitizer.BodyLengthSound | src/robots/text.js:63 | what the body reader consumes is valid pieces and then `)` |
| Sanitizer.MatchAtSound | src/robots/text.js:63 | whatever the scanner matches at `i` is a span of the pattern |
| Sanitizer.MatchAtSpan | src/robots/text.js:63 | the scanner matches `i..e` exactly when that slice is a span: `(`, pieces that are plain characters or parenthesis-free inner groups, then `)` |
| Sanitizer.RemoveSpansFrom | src/robots/text.js:63 | the scan from `i` yields a subsequence of the text from `i` |
| Sanitizer.RemoveParenthesized | src/robots/text.js:63 | the result is a subsequence of the input and no longer than it |
| Sanitizer.RemoveSpansStep | src/robots/text.js:63 | deletion is leftmost and non-overlapping: where a span starts the scan resumes after it; otherwise the character is kept and the scan moves one on |
| Sanitizer.NoCloseNoMatch | src/robots/text.js:63 | without a `)` no span body or inner group can be closed |
| Sanitizer.RemoveSpansUnmatched | src/robots/text.js:63 | text with no `)`, or with no `(`, passes through unchanged |
| Sanitizer.LeadingSpaces | src/robots/text.js:64 | the count of leading spaces: that prefix is all spaces and the next character is not a space |
| Sanitizer.CollapseRun | src/robots/text.js:64 | a run of k spaces before a non-space becomes ceil(k/2) spaces |
| Sanitizer.CollapseHalvesRuns | src/robots/text.js:64 | the pairwise replacement equals the reference that turns every maximal run of k spaces into ceil(k/2) spaces and copies everything else |
| Sanitizer.CollapseKeepsOthers | src/robots/text.js:64 | the characters other than spaces are unchanged and in order; the result is a subsequence of the input and never longer |
| Sanitizer.SanitizeShape | src/robots/text.js:39-45 | the sanitized text has no line break, is no longer than the filtered lines, and is `""` when every line is blank or a heading |
| JsArray.SliceTo | src/robots/text.js:84 | `slice(0, n)` is a prefix; all of the list when `n` is absent; `min(n, len)` elements for `n >= 0`; `max(len + n, 0)` elements for negative `n` |
| JsArray.SliceToIdempotent | src/robots/text.js:84 | with `n >= 0`, limiting a second time changes nothing |
| JsArray.SliceToNegativeTwice | src/robots/text.js:84 | with negative `n`, limiting twice is limiting once with `2n`, dropping twice as many from the back |
| JsArray.SliceToBounds | src/robots/text.js:84 | `n = 0` empties the list, `n >= len` keeps it whole, `n <= -len` empties it |
| TextRobot.KeywordTexts | src/robots/text.js:107-109 | the keyword texts are one per keyword object, in order, each being that object's `text` |
| TextRobot.SentencesOf | src/robots/text.js:74-80 | one sentence record per segment, in order, with the segment as text and empty keywords and images |
| TextRobot.Texts | src/robots/text.js:88-89 | the texts of the sentences, one per sentence, in order |
| TextRobot.TextsOfSentences | src/robots/text.js:74-80 | the texts of freshly built sentences are the segments they came from |
| TextRobot.SliceOfSentences | src/robots/text.js:83-85 | limiting the sentence records is building records from the limited segments |
| TextRobot.EnrichFrom | src/robots/text.js:87-91 | the loop from turn `i` either keeps the length or fails at a sentence at or after `i` |
| TextRobot.Enrich | src/robots/text.js:87-91 | the whole loop either keeps the length or fails at some sentence index |
| TextRobot.EnrichedUpToStep | src/robots/text.js:88-89 | one successful turn extends "prefix enriched, suffix untouched" by one sentence |
| TextRobot.EnrichFromUpTo | src/robots/text.js:87-91 | from any loop state, the loop succeeds exactly when every remaining sentence is answered, and then every sentence carries its own answer's keywords; otherwise it stops at the first failing answer, with that answer's error |
| TextRobot.EnrichSpec | src/robots/text.js:87-91 | enrichment succeeds exactly when every sentence is answered. On success every sentence keeps its text and images and gets its own answer's keyword texts. On failure it names the first failed sentence and that answer's error |
| RunFacts.RunPipelineSpec | src/robots/text.js:17-26 | a completed run keeps search term, prefix and limit; stores the article and its sanitized form; and holds one sentence per kept segment, in order, with its own keywords and no images. A failed fetch fails the run with the fetch error |
| TextRobot.Nlu.Analyze | src/robots/text.js:95-101 | one request is logged, and one `Asked` event is added to the trace; the answer is the service's answer for that call number and text |
| TextRobot.Store.Save | src/robots/text.js:26 | the saved record is appended to what the state file received, and one `Saved` event to the trace |
| TextRobot.FetchWatsonAndReturnKeywords | src/robots/text.js:93-115 | exactly one request for the text, with its `Asked` event; on success the keyword texts of the answer, on failure its error |
| TextRobot.Content.constructor | src/robots/text.js:18 | the object holds exactly the loaded record |
| TextRobot.Content.FetchContentFromWikipedia | src/robots/text.js:28-37 | on success `sourceContentOriginal` is the article; on failure the stage fails and the field is unchanged; nothing else is written |
| TextRobot.Content.SanitizeContent | src/robots/text.js:39-45 | writes only `sourceContentSanitized`, which becomes the sanitized `sourceContentOriginal` |
| TextRobot.Content.BreakContentIntoSentences | src/robots/text.js:68-81 | the old list is discarded; the new one holds one record per segment, in order, with empty keywords and images; nothing else is written |
| TextRobot.Content.LimitMaximumSentences | src/robots/text.js:83-85 | `sentences` becomes `slice(0, maximumSentences)` of the old list; nothing else is written |
| TextRobot.Content.FetchKeywordsOfSentence | src/robots/text.js:89 | one request for sentence `i`'s text, with its `Asked` event; on success only that sentence's keywords change, on failure nothing changes and the failure carries index `i` |
| TextRobot.Content.FetchKeywordsOfAllSentences | src/robots/text.js:87-91 | requests are issued one per sentence, in index order, and the list ends as `Enrich` says. On a failure the requests stop after the failed one, the sentences before it are enriched and the rest are untouched. The trace gains one `Asked` event per request, in the same order, and nothing else |
| TextRobot.Content.ProcessArticle | src/robots/text.js:21-23 | sanitizing, breaking into sentences and limiting, in that order, leave the record as `Prepared` describes for the fetched article |
| TextRobot.Prepare | src/robots/text.js:20-23 | after a successful fetch the record is sanitized, broken and limited; after a failed one it is unchanged and the run fails |
| TextRobot.Robot | src/robots/text.js:17-26 | the record ends as `RunPipeline` says and is saved once; when a stage fails nothing is saved. The language service receives exactly the requests `RunRequests` lists, and no others. In the shared trace, a completed run adds the `Asked` events of those requests and then one `Saved` event, so the save comes after every request; a failed run adds only the `Asked` events |
| RunFacts.SentencesAnswered | src/robots/text.js:87-91 | the keyword loop over freshly built sentences completes exactly when every segment's answer succeeds |
| RunFacts.SentencesStop | src/robots/text.js:87-91 | when that loop fails, it names a segment index and that segment's error; the segment's answer failed and every segment before it was answered |
| RunFacts.PreparedSentences | src/robots/text.js:68-85 | the sentences a run prepares are built from the kept segments: the sanitized article's segments, limited by `maximumSentences` |
| RunFacts.RunPipelineCompletes | src/robots/text.js:17-26 | after a successful fetch, the run completes (and saves) exactly when every kept segment gets a successful answer, asked in call `first + k` |
| RunFacts.RunPipelineStops | src/robots/text.js:17-26 | after a successful fetch, a failed run fails at a kept segment index `i` with that answer's error; every kept segment before `i` was answered |
| RunFacts.EnrichKeepsTexts | src/robots/text.js:87-91 | enrichment writes only keywords: the texts of the sentences are unchanged |
| RunFacts.RunRequestsSpec | src/robots/text.js:17-26 | a failed fetch makes no request; a completed run asks once for each saved sentence's text, in order; a run that fails at kept segment `i` asks for the kept segments `0..i` and no more |

## Left out

- The article service is a function from search term to `Result`. Algorithmia
  authentication, the `WikipediaParser` algorithm name and its timeout
  (`text.js:29-34`) are not modelled.
- The language-service client (`text.js:5-13`) is an object with an answer function
  and a request log. Its credentials, version, URL and HTTP exchange are not
  modelled. A keyword keeps the relevance score of the response as a `real`, but
  the robot never reads it, so no property of relevance is stated.
- The `sbd` segmenter (`text.js:3`, `71`) is an uninterpreted function. No sentence
  boundary rule is modelled.
- Credential loading (`text.js:2`, `5`) is not part of this model.
- `./state` is not part of this model. `state.load()` is the `Content` constructor
  taking any record. `state.save` appends to a log, so the file format and the
  load/save round trip are not captured.
- `src/app.js` (interactive prompting and console output) is not part of this model.
- A language-service error is thrown inside the callback (`text.js:104`), so the
  promise never settles and `save` is never reached. It is modelled as a failed
  stage that ends the run before the save. The event loop is not modelled.
- A rejected or failing article fetch is likewise a failed stage.
- Concurrency is not modelled. The requests are awaited one at a time, and the model
  is sequential.
- `maximumSentences` is an optional integer. `NaN`, fractional and non-numeric values,
  which `slice` would convert, are not modelled.
- Sentences are values in a sequence field. Object identity of the sentence records,
  which nothing else in the robot shares, is not modelled.
- Strings are sequences of characters. UTF-16 surrogate pairs are not distinguished,
  and none of the characters the operations compare can be part of one.
- The removal of parenthesised spans is specified through the scanner's equivalence
  with the span grammar, not through a regular-expression engine. The equivalence is
  exact because no alternative order of the pattern's branches can change a match.
- The loop body of `fetchKeywordsOfAllSentences` (`text.js:89`) is its own method,
  `FetchKeywordsOfSentence`. The stages before the keyword requests
  (`text.js:20-23`) are grouped in `Prepare`, and the three after the fetch
  (`text.js:21-23`) in `ProcessArticle`. The order of calls is the source's.

Where the code and a plain reading of its intent differ, the model follows the code:

- only one level of nested parentheses is removed: `"(a(b(c)d)e)"` keeps
  `"(ae)"`;
- three spaces collapse to two, not to one;
- a negative `maximumSentences` drops sentences from the end rather than
  emptying the list;
- sanitizing twice can change the text again, so `Sanitize` is not claimed to be
  idempotent.
