/**
 * The text robot: one `content` record carried through a fixed sequence of stages
 * (fetch the article, sanitize it, cut it into sentences, keep the first ones, ask
 * the language service for each sentence's keywords) and saved only when every
 * stage has finished.
 *
 * The article service, the sentence segmenter and the language service are outside
 * the model. The first two are function parameters; the language service is an
 * object whose answers depend on the call number and the text, and which records
 * every request it receives. The state file is an object that records every save.
 */
module TextRobot {
  import opened Wrappers
  import opened JsArray
  import opened Sanitizer

  /** One entry of `content.sentences`. */
  datatype Sentence = Sentence(text: string, keywords: seq<string>, images: seq<string>)

  /** One keyword object of a language-service response; only `text` is used. */
  datatype Keyword = Keyword(text: string, relevance: real)

  /** Why a run stopped before saving. */
  datatype Failure =
    | FetchFailed(reason: string)
    | AnalysisFailed(index: nat, reason: string)

  /** The fields of `content` the robot reads or writes. */
  datatype Record = Record(
    searchTerm: string,
    prefix: string,
    maximumSentences: Option<int>,
    sourceContentOriginal: string,
    sourceContentSanitized: string,
    sentences: seq<Sentence>)

  /** What the language service answers to its call number `n` about a text. */
  type Answers = (nat, string) -> Result<seq<Keyword>, string>

  /** What the outside world sees the robot do: ask about a text, or save a record. */
  datatype Event = Asked(text: string) | Saved(record: Record)

  // ---------------------------------------------------------------------------
  // Value-level definitions the stages are specified by
  // ---------------------------------------------------------------------------

  /** `response.keywords.map(keyword => keyword.text)`. */
  function KeywordTexts(ks: seq<Keyword>): (r: seq<string>)
    ensures |r| == |ks| && forall k :: 0 <= k < |ks| ==> r[k] == ks[k].text
    decreases |ks|
  {
    if ks == [] then [] else [ks[0].text] + KeywordTexts(ks[1..])
  }

  /** One fresh record `{text, keywords: [], images: []}` per segment, in order. */
  function SentencesOf(texts: seq<string>): (r: seq<Sentence>)
    ensures |r| == |texts| && forall k :: 0 <= k < |texts| ==> r[k] == Sentence(texts[k], [], [])
    decreases |texts|
  {
    if texts == [] then [] else [Sentence(texts[0], [], [])] + SentencesOf(texts[1..])
  }

  /** The texts of the sentences, in order. */
  function Texts(ss: seq<Sentence>): (r: seq<string>)
    ensures |r| == |ss| && forall k :: 0 <= k < |ss| ==> r[k] == ss[k].text
  {
    seq(|ss|, k requires 0 <= k < |ss| => ss[k].text)
  }

  /** The texts of freshly built sentences are the segments they were built from. */
  lemma TextsOfSentences(texts: seq<string>)
    ensures Texts(SentencesOf(texts)) == texts
  {
    var r := Texts(SentencesOf(texts));
    assert |r| == |texts|;
    forall k | 0 <= k < |texts|
      ensures r[k] == texts[k]
    {
    }
  }

  /** The sentence with its keywords replaced by the texts of a service answer. */
  function WithKeywords(s: Sentence, ks: seq<Keyword>): Sentence {
    s.(keywords := KeywordTexts(ks))
  }

  /**
   * The keyword loop as a value, from index `i` on: sentence `i` is asked about in
   * call `first + i`; a failed answer stops the loop there, a successful one
   * overwrites that sentence's keywords.
   */
  function EnrichFrom(ss: seq<Sentence>, i: nat, answers: Answers, first: nat): (r: Result<seq<Sentence>, Failure>)
    requires i <= |ss|
    ensures r.Success? ==> |r.value| == |ss|
    ensures r.Failure? ==> r.error.AnalysisFailed? && i <= r.error.index < |ss|
    decreases |ss| - i
  {
    if i == |ss| then Success(ss)
    else
      match answers(first + i, ss[i].text)
      case Failure(e) => Failure(AnalysisFailed(i, e))
      case Success(ks) => EnrichFrom(ss[i := WithKeywords(ss[i], ks)], i + 1, answers, first)
  }

  /** One turn of the keyword loop. */
  lemma EnrichFromStep(ss: seq<Sentence>, i: nat, answers: Answers, first: nat, ks: seq<Keyword>)
    requires i < |ss| && answers(first + i, ss[i].text) == Success(ks)
    ensures EnrichFrom(ss, i, answers, first) == EnrichFrom(ss[i := WithKeywords(ss[i], ks)], i + 1, answers, first)
  {
  }

  /** All sentences of `ss` enriched, the first one asked about in call `first`. */
  function Enrich(ss: seq<Sentence>, answers: Answers, first: nat): (r: Result<seq<Sentence>, Failure>)
    ensures r.Success? ==> |r.value| == |ss|
    ensures r.Failure? ==> r.error.AnalysisFailed? && r.error.index < |ss|
  {
    EnrichFrom(ss, 0, answers, first)
  }

  /**
   * `cur` is `orig` after `i` turns of the keyword loop: the sentences before `i`
   * got a successful answer and carry its keywords, the others are untouched.
   */
  predicate EnrichedUpTo(cur: seq<Sentence>, orig: seq<Sentence>, i: nat, answers: Answers, first: nat) {
    |cur| == |orig| && i <= |orig| &&
    (forall k :: 0 <= k < i ==>
      answers(first + k, orig[k].text).Success? &&
      cur[k] == WithKeywords(orig[k], answers(first + k, orig[k].text).value)) &&
    (forall k :: i <= k < |orig| ==> cur[k] == orig[k])
  }

  lemma EnrichedUpToStep(cur: seq<Sentence>, orig: seq<Sentence>, i: nat, answers: Answers, first: nat, ks: seq<Keyword>)
    requires EnrichedUpTo(cur, orig, i, answers, first) && i < |orig|
    requires answers(first + i, orig[i].text) == Success(ks)
    ensures EnrichedUpTo(cur[i := WithKeywords(cur[i], ks)], orig, i + 1, answers, first)
  {
  }

  /** A successful turn of the keyword loop keeps both of the loop's invariants. */
  lemma KeywordTurn(cur: seq<Sentence>, orig: seq<Sentence>, i: nat, answers: Answers, first: nat, ks: seq<Keyword>)
    requires EnrichedUpTo(cur, orig, i, answers, first) && i < |orig|
    requires answers(first + i, cur[i].text) == Success(ks)
    ensures EnrichedUpTo(cur[i := WithKeywords(cur[i], ks)], orig, i + 1, answers, first)
    ensures EnrichFrom(cur[i := WithKeywords(cur[i], ks)], i + 1, answers, first) == EnrichFrom(cur, i, answers, first)
  {
    assert cur[i] == orig[i];
    EnrichedUpToStep(cur, orig, i, answers, first, ks);
    EnrichFromStep(cur, i, answers, first, ks);
  }

  /** A failed answer at index `i` ends the keyword loop there, with that answer's error. */
  lemma KeywordStop(cur: seq<Sentence>, orig: seq<Sentence>, i: nat, answers: Answers, first: nat)
    requires EnrichedUpTo(cur, orig, i, answers, first) && i < |orig|
    requires answers(first + i, cur[i].text).Failure?
    ensures EnrichFrom(cur, i, answers, first) == Failure(AnalysisFailed(i, answers(first + i, cur[i].text).error))
    ensures Texts(orig)[..i + 1] == Texts(orig)[..i] + [cur[i].text]
  {
    assert cur[i] == orig[i];
    TextsPrefixStep(orig, i);
  }

  /** The events of asking about each text in turn. */
  function Asks(texts: seq<string>): (r: seq<Event>)
    ensures |r| == |texts| && forall k :: 0 <= k < |texts| ==> r[k] == Asked(texts[k])
  {
    seq(|texts|, k requires 0 <= k < |texts| => Asked(texts[k]))
  }

  /**
   * One request of the keyword loop keeps its logs in step: the requests are the
   * texts asked so far, and the trace holds one `Asked` event for each of them.
   */
  lemma LogTurn(requests: seq<string>, events: seq<Event>, log: seq<string>, told: seq<Event>,
                texts: seq<string>, i: nat)
    requires i < |texts| && requests == log + texts[..i] && events == told + Asks(requests[|log|..])
    ensures requests + [texts[i]] == log + texts[..i + 1]
    ensures events + [Asked(texts[i])] == told + Asks((requests + [texts[i]])[|log|..])
  {
    assert texts[..i + 1] == texts[..i] + [texts[i]];
    assert (requests + [texts[i]])[|log|..] == requests[|log|..] + [texts[i]];
  }

  lemma PrefixStep<T>(t: seq<T>, i: nat)
    requires i < |t|
    ensures t[..i + 1] == t[..i] + [t[i]]
  {
  }

  lemma TextsPrefixStep(ss: seq<Sentence>, i: nat)
    requires i < |ss|
    ensures Texts(ss)[..i + 1] == Texts(ss)[..i] + [ss[i].text]
  {
    PrefixStep(Texts(ss), i);
  }

  /** Every sentence from index `i` up to (not including) `j` gets a successful answer. */
  predicate Answered(ss: seq<Sentence>, i: nat, j: nat, answers: Answers, first: nat) {
    forall k :: i <= k < j && k < |ss| ==> answers(first + k, ss[k].text).Success?
  }

  /**
   * Run from a state `i` turns into the loop, the keyword loop succeeds exactly
   * when every remaining sentence is answered, and then every sentence carries the
   * keywords of its own answer. Otherwise it stops at the first sentence from `i`
   * on whose answer failed, with that answer's error.
   */
  lemma {:induction false} EnrichFromUpTo(cur: seq<Sentence>, orig: seq<Sentence>, i: nat, answers: Answers, first: nat)
    requires EnrichedUpTo(cur, orig, i, answers, first)
    ensures EnrichFrom(cur, i, answers, first).Success? <==> Answered(orig, i, |orig|, answers, first)
    ensures EnrichFrom(cur, i, answers, first).Success? ==>
            EnrichedUpTo(EnrichFrom(cur, i, answers, first).value, orig, |orig|, answers, first)
    ensures EnrichFrom(cur, i, answers, first).Failure? ==>
            var f := EnrichFrom(cur, i, answers, first).error;
            answers(first + f.index, orig[f.index].text) == Failure(f.reason) &&
            Answered(orig, i, f.index, answers, first)
    decreases |orig| - i
  {
    if i < |orig| {
      var a := answers(first + i, orig[i].text);
      if a.Success? {
        EnrichedUpToStep(cur, orig, i, answers, first, a.value);
        EnrichFromUpTo(cur[i := WithKeywords(cur[i], a.value)], orig, i + 1, answers, first);
      }
    }
  }

  /**
   * Keyword enrichment succeeds exactly when every sentence is answered; then
   * every sentence keeps its text and images and gets the keywords of its own
   * answer. Otherwise it reports the first sentence whose answer failed, and the
   * error of that answer.
   */
  lemma EnrichSpec(ss: seq<Sentence>, answers: Answers, first: nat)
    ensures Enrich(ss, answers, first).Success? <==> Answered(ss, 0, |ss|, answers, first)
    ensures Enrich(ss, answers, first).Success? ==>
            EnrichedUpTo(Enrich(ss, answers, first).value, ss, |ss|, answers, first)
    ensures Enrich(ss, answers, first).Failure? ==>
            var f := Enrich(ss, answers, first).error;
            answers(first + f.index, ss[f.index].text) == Failure(f.reason) &&
            Answered(ss, 0, f.index, answers, first)
  {
    EnrichFromUpTo(ss, ss, 0, answers, first);
  }

  /**
   * The record after a successful fetch of `original`, sanitizing, sentence
   * breaking and limiting, and before any keyword request.
   */
  function Prepared(s: Record, original: string, segment: string -> seq<string>): Record {
    var sanitized := Sanitize(original);
    s.(sourceContentOriginal := original, sourceContentSanitized := sanitized,
       sentences := SliceTo(SentencesOf(segment(sanitized)), s.maximumSentences))
  }

  /** The record after each stage of `Prepare` in turn is the `Prepared` one. */
  lemma PreparedStages(s: Record, original: string, segment: string -> seq<string>,
                       sanitized: string, broken: seq<Sentence>, limited: seq<Sentence>)
    requires sanitized == Sanitize(original)
    requires broken == SentencesOf(segment(sanitized))
    requires limited == SliceTo(broken, s.maximumSentences)
    ensures Prepared(s, original, segment) ==
            s.(sourceContentOriginal := original, sourceContentSanitized := sanitized, sentences := limited)
  { }

  /** The value `robot()` would save, given what the outside services answer. */
  function RunPipeline(s: Record, article: string -> Result<string, string>,
                       segment: string -> seq<string>, answers: Answers, first: nat): Result<Record, Failure>
  {
    match article(s.searchTerm)
    case Failure(e) => Failure(FetchFailed(e))
    case Success(original) =>
      var p := Prepared(s, original, segment);
      match Enrich(p.sentences, answers, first)
      case Failure(f) => Failure(f)
      case Success(enriched) => Success(p.(sentences := enriched))
  }

  /**
   * The segments a run keeps once its fetch has succeeded: the segmenter's output
   * for the sanitized article, cut by `slice(0, maximumSentences)`.
   */
  function KeptSegments(s: Record, original: string, segment: string -> seq<string>): seq<string> {
    SliceTo(segment(Sanitize(original)), s.maximumSentences)
  }

  /**
   * The texts a run sends to the language service, in order: none when the fetch
   * fails; the texts of all kept sentences when every answer succeeds; otherwise
   * those up to and including the first sentence whose answer failed.
   */
  function RunRequests(s: Record, article: string -> Result<string, string>,
                       segment: string -> seq<string>, answers: Answers, first: nat): seq<string>
  {
    match article(s.searchTerm)
    case Failure(_) => []
    case Success(original) =>
      var sentences := Prepared(s, original, segment).sentences;
      match Enrich(sentences, answers, first)
      case Success(_) => Texts(sentences)
      case Failure(f) => Texts(sentences)[..f.index + 1]
  }

  /** Cutting the records is cutting the segments they were built from. */
  lemma SliceOfSentences(texts: seq<string>, end: Option<int>)
    ensures SliceTo(SentencesOf(texts), end) == SentencesOf(SliceTo(texts, end))
  {
    var a := SliceTo(SentencesOf(texts), end);
    var b := SentencesOf(SliceTo(texts, end));
    assert |a| == |b|;
    forall k | 0 <= k < |a|
      ensures a[k] == b[k]
    {
      assert a[k] == SentencesOf(texts)[k];
    }
  }

  // ---------------------------------------------------------------------------
  // The outside services
  // ---------------------------------------------------------------------------

  /** The requests and saves of a run, in the order the outside world receives them. */
  class Trace {
    var events: seq<Event>

    constructor ()
      ensures events == []
    {
      events := [];
    }
  }

  /** The language-service client, with the log of the texts it was asked about. */
  class Nlu {
    const answers: Answers
    const trace: Trace
    var requests: seq<string>

    constructor (answers: Answers, trace: Trace)
      ensures this.answers == answers && this.trace == trace && requests == []
    {
      this.answers := answers;
      this.trace := trace;
      requests := [];
    }

    /** `nlu.analyze({text, features: {keywords: {}}}, callback)`: one request, logged. */
    method Analyze(text: string) returns (r: Result<seq<Keyword>, string>)
      modifies this, trace
      ensures requests == old(requests) + [text]
      ensures trace.events == old(trace.events) + [Asked(text)]
      ensures r == answers(|old(requests)|, text)
    {
      r := answers(|requests|, text);
      requests := requests + [text];
      trace.events := trace.events + [Asked(text)];
    }
  }

  /** The state file, as the sequence of records saved to it. */
  class Store {
    const trace: Trace
    var saved: seq<Record>

    constructor (trace: Trace)
      ensures this.trace == trace && saved == []
    {
      this.trace := trace;
      saved := [];
    }

    /** `state.save(content)`. */
    method Save(s: Record)
      modifies this, trace
      ensures saved == old(saved) + [s]
      ensures trace.events == old(trace.events) + [Saved(s)]
    {
      saved := saved + [s];
      trace.events := trace.events + [Saved(s)];
    }
  }

  /**
   * `fetchWatsonAndReturnKeywords`: one request; on success the texts of the
   * keywords in the answer, in order. A failed answer is the error the callback
   * throws.
   */
  method FetchWatsonAndReturnKeywords(nlu: Nlu, text: string) returns (r: Result<seq<string>, string>)
    modifies nlu, nlu.trace
    ensures nlu.requests == old(nlu.requests) + [text]
    ensures nlu.trace.events == old(nlu.trace.events) + [Asked(text)]
    ensures var a := nlu.answers(|old(nlu.requests)|, text);
            (a.Success? ==> r == Success(KeywordTexts(a.value))) &&
            (a.Failure? ==> r == Failure(a.error))
  {
    var a := nlu.Analyze(text);
    match a
    case Success(ks) => r := Success(KeywordTexts(ks));
    case Failure(e) => r := Failure(e);
  }

  // ---------------------------------------------------------------------------
  // The record and its stages
  // ---------------------------------------------------------------------------

  /** The shared `content` object. */
  class Content {
    var searchTerm: string
    var prefix: string
    var maximumSentences: Option<int>
    var sourceContentOriginal: string
    var sourceContentSanitized: string
    var sentences: seq<Sentence>

    /** The record as `state.load()` hands it over. */
    constructor (s: Record)
      ensures Snapshot() == s
    {
      searchTerm := s.searchTerm;
      prefix := s.prefix;
      maximumSentences := s.maximumSentences;
      sourceContentOriginal := s.sourceContentOriginal;
      sourceContentSanitized := s.sourceContentSanitized;
      sentences := s.sentences;
    }

    function Snapshot(): Record
      reads this
    {
      Record(searchTerm, prefix, maximumSentences, sourceContentOriginal, sourceContentSanitized, sentences)
    }

    /** `fetchContentFromWikipedia`: the article for the search term becomes `sourceContentOriginal`. */
    method FetchContentFromWikipedia(article: string -> Result<string, string>) returns (o: Outcome<Failure>)
      modifies this`sourceContentOriginal
      ensures article(searchTerm).Success? ==> o.Pass? && sourceContentOriginal == article(searchTerm).value
      ensures article(searchTerm).Failure? ==>
              o == Fail(FetchFailed(article(searchTerm).error)) && sourceContentOriginal == old(sourceContentOriginal)
    {
      var response := article(searchTerm);
      match response
      case Success(text) =>
        sourceContentOriginal := text;
        o := Pass;
      case Failure(e) =>
        o := Fail(FetchFailed(e));
    }

    /** `sanitizeContent`: writes the sanitized article, and nothing else. */
    method SanitizeContent()
      modifies this`sourceContentSanitized
      ensures sourceContentSanitized == Sanitize(sourceContentOriginal)
    {
      var withoutBlankLinesAndMarkdown := RemoveBlankLinesAndMarkdown(sourceContentOriginal);
      var withoutDates := RemoveDates(withoutBlankLinesAndMarkdown);
      sourceContentSanitized := withoutDates;
    }

    /**
     * `breakContentIntoSentences`: the old list is discarded and one record per
     * segment of the sanitized text is pushed, in order.
     */
    method BreakContentIntoSentences(segment: string -> seq<string>)
      modifies this`sentences
      ensures sentences == SentencesOf(segment(sourceContentSanitized))
    {
      sentences := [];
      var texts := segment(sourceContentSanitized);
      var i := 0;
      while i < |texts|
        invariant 0 <= i <= |texts|
        invariant |sentences| == i
        invariant forall k :: 0 <= k < i ==> sentences[k] == Sentence(texts[k], [], [])
      {
        sentences := sentences + [Sentence(texts[i], [], [])];
        i := i + 1;
      }
    }

    /** `limitMaximumSentences`: `sentences.slice(0, maximumSentences)`. */
    method LimitMaximumSentences()
      modifies this`sentences
      ensures sentences == SliceTo(old(sentences), maximumSentences)
    {
      sentences := SliceTo(sentences, maximumSentences);
    }

    /**
     * The stages of `robot()` between the fetch and the keyword requests, in their
     * order: sanitize, break into sentences, limit them.
     */
    method ProcessArticle(segment: string -> seq<string>)
      modifies this
      ensures Snapshot() == Prepared(old(Snapshot()), old(sourceContentOriginal), segment)
    {
      ghost var s := Snapshot();
      SanitizeContent();
      ghost var sanitized := sourceContentSanitized;
      BreakContentIntoSentences(segment);
      ghost var broken := sentences;
      LimitMaximumSentences();
      PreparedStages(s, s.sourceContentOriginal, segment, sanitized, broken, sentences);
    }

    /**
     * One turn of the keyword loop: sentence `i` is asked about, and on success its
     * keywords are overwritten with the texts of the answer's keywords.
     */
    method FetchKeywordsOfSentence(nlu: Nlu, i: nat) returns (o: Outcome<Failure>)
      requires i < |sentences|
      modifies this`sentences, nlu, nlu.trace
      ensures nlu.requests == old(nlu.requests) + [old(sentences)[i].text]
      ensures nlu.trace.events == old(nlu.trace.events) + [Asked(old(sentences)[i].text)]
      ensures o.Pass? <==> nlu.answers(|old(nlu.requests)|, old(sentences)[i].text).Success?
      ensures var a := nlu.answers(|old(nlu.requests)|, old(sentences)[i].text);
              (a.Success? ==> o.Pass? && sentences == old(sentences)[i := WithKeywords(old(sentences)[i], a.value)]) &&
              (a.Failure? ==> o == Fail(AnalysisFailed(i, a.error)) && sentences == old(sentences))
    {
      var keywords := FetchWatsonAndReturnKeywords(nlu, sentences[i].text);
      match keywords
      case Failure(e) =>
        o := Fail(AnalysisFailed(i, e));
      case Success(ks) =>
        sentences := sentences[i := sentences[i].(keywords := ks)];
        o := Pass;
    }

    /**
     * `fetchKeywordsOfAllSentences`: one request per sentence, in index order, each
     * overwriting that sentence's keywords; the first failed request stops the loop.
     * The outcome and the new list are those of `Enrich`, the requests are the texts
     * asked about, and on a failure the sentences before it are enriched and the
     * rest are untouched. The trace receives one `Asked` event per request.
     */
    method FetchKeywordsOfAllSentences(nlu: Nlu) returns (o: Outcome<Failure>)
      modifies this`sentences, nlu, nlu.trace
      ensures old(nlu.requests) <= nlu.requests
      ensures nlu.trace.events == old(nlu.trace.events) + Asks(nlu.requests[|old(nlu.requests)|..])
      ensures var e := Enrich(old(sentences), nlu.answers, |old(nlu.requests)|);
              (e.Success? ==> o.Pass? && sentences == e.value &&
                              nlu.requests == old(nlu.requests) + Texts(old(sentences))) &&
              (e.Failure? ==> o == Fail(e.error) &&
                              nlu.requests == old(nlu.requests) + Texts(old(sentences))[..e.error.index + 1] &&
                              EnrichedUpTo(sentences, old(sentences), e.error.index, nlu.answers, |old(nlu.requests)|))
    {
      ghost var orig := sentences;
      ghost var log := nlu.requests;
      ghost var told := nlu.trace.events;
      ghost var answers := nlu.answers;
      var first := |nlu.requests|;
      ghost var goal := Enrich(orig, answers, first);
      var i := 0;
      while i < |sentences|
        invariant 0 <= i <= |sentences| == |orig|
        invariant |nlu.requests| == first + i
        invariant nlu.requests == log + Texts(orig)[..i]
        invariant nlu.trace.events == told + Asks(nlu.requests[first..])
        invariant EnrichFrom(sentences, i, answers, first) == goal
        invariant EnrichedUpTo(sentences, orig, i, answers, first)
      {
        ghost var before := sentences;
        assert before[i].text == Texts(orig)[i];
        LogTurn(nlu.requests, nlu.trace.events, log, told, Texts(orig), i);
        o := FetchKeywordsOfSentence(nlu, i);
        if o.Fail? {
          KeywordStop(before, orig, i, answers, first);
          return;
        }
        KeywordTurn(before, orig, i, answers, first, answers(first + i, before[i].text).value);
        i := i + 1;
      }
      assert EnrichFrom(sentences, i, answers, first) == Success(sentences);
      assert Texts(orig)[..i] == Texts(orig);
      o := Pass;
    }
  }

  /**
   * The stages of `robot()` before the keyword requests: fetch, then (if the fetch
   * succeeded) sanitize, break into sentences and limit them.
   */
  method Prepare(content: Content, article: string -> Result<string, string>,
                 segment: string -> seq<string>) returns (o: Outcome<Failure>)
    modifies content
    ensures var s := old(content.Snapshot());
            article(s.searchTerm).Success? ==>
              o.Pass? && content.Snapshot() == Prepared(s, article(s.searchTerm).value, segment)
    ensures var s := old(content.Snapshot());
            article(s.searchTerm).Failure? ==>
              o == Fail(FetchFailed(article(s.searchTerm).error)) && content.Snapshot() == s
  {
    o := content.FetchContentFromWikipedia(article);
    if o.Fail? {
      return;
    }
    content.ProcessArticle(segment);
  }

  /**
   * `robot()`: the stages in their fixed order on one record, then one save. A
   * failed fetch or keyword request stops the run before the save. What is saved is
   * the value `RunPipeline` computes from the record as loaded. The language service
   * and the state file share one trace, so the order of the requests and the save
   * is stated: every request comes first, and the save, if any, comes last.
   */
  method Robot(content: Content, article: string -> Result<string, string>,
               segment: string -> seq<string>, nlu: Nlu, store: Store) returns (o: Outcome<Failure>)
    requires nlu.trace == store.trace
    modifies content, nlu, store, nlu.trace
    ensures var run := RunPipeline(old(content.Snapshot()), article, segment, nlu.answers, |old(nlu.requests)|);
            (run.Success? ==> o.Pass? && content.Snapshot() == run.value && store.saved == old(store.saved) + [run.value]) &&
            (run.Failure? ==> o == Fail(run.error) && store.saved == old(store.saved))
    ensures nlu.requests ==
            old(nlu.requests) + RunRequests(old(content.Snapshot()), article, segment, nlu.answers, |old(nlu.requests)|)
    ensures var run := RunPipeline(old(content.Snapshot()), article, segment, nlu.answers, |old(nlu.requests)|);
            var asked := Asks(RunRequests(old(content.Snapshot()), article, segment, nlu.answers, |old(nlu.requests)|));
            (run.Success? ==> nlu.trace.events == old(nlu.trace.events) + asked + [Saved(run.value)]) &&
            (run.Failure? ==> nlu.trace.events == old(nlu.trace.events) + asked)
  {
    o := Prepare(content, article, segment);
    if o.Fail? {
      return;
    }
    o := content.FetchKeywordsOfAllSentences(nlu);
    if o.Fail? {
      return;
    }
    store.Save(content.Snapshot());
  }
}
