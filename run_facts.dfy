/**
 * What a whole run of the text robot does, stated over the value `RunPipeline`
 * computes and the requests `RunRequests` lists: when it completes, where it
 * stops, and what it saves and asks.
 */
module RunFacts {
  import opened Wrappers
  import opened JsArray
  import opened Sanitizer
  import opened TextRobot

  /**
   * A completed run keeps the search term, prefix and limit; stores the article and
   * its sanitized form; and holds one sentence per kept segment, in order, with the
   * segment as its text, no images, and the keywords of its own answer. The kept
   * segments are the segmenter's output cut by `slice(0, maximumSentences)`.
   */
  lemma RunPipelineSpec(s: Record, article: string -> Result<string, string>,
                        segment: string -> seq<string>, answers: Answers, first: nat)
    ensures RunPipeline(s, article, segment, answers, first).Success? ==>
            var r := RunPipeline(s, article, segment, answers, first).value;
            var kept := SliceTo(segment(Sanitize(article(s.searchTerm).value)), s.maximumSentences);
            article(s.searchTerm).Success? &&
            r.searchTerm == s.searchTerm && r.prefix == s.prefix && r.maximumSentences == s.maximumSentences &&
            r.sourceContentOriginal == article(s.searchTerm).value &&
            r.sourceContentSanitized == Sanitize(r.sourceContentOriginal) &&
            |r.sentences| == |kept| &&
            forall k :: 0 <= k < |kept| ==>
              answers(first + k, kept[k]).Success? &&
              r.sentences[k] == Sentence(kept[k], KeywordTexts(answers(first + k, kept[k]).value), [])
    ensures article(s.searchTerm).Failure? ==>
            RunPipeline(s, article, segment, answers, first) == Failure(FetchFailed(article(s.searchTerm).error))
  {
    if article(s.searchTerm).Success? {
      var segments := segment(Sanitize(article(s.searchTerm).value));
      var all := SentencesOf(segments);
      var limited := SliceTo(all, s.maximumSentences);
      var kept := SliceTo(segments, s.maximumSentences);
      SliceOfSentences(segments, s.maximumSentences);
      EnrichSpec(limited, answers, first);
    }
  }

  /**
   * Enriching freshly built sentences succeeds exactly when every segment gets a
   * successful answer, its call number being `first` plus its index.
   */
  lemma SentencesAnswered(kept: seq<string>, answers: Answers, first: nat)
    ensures Enrich(SentencesOf(kept), answers, first).Success? <==>
            forall k :: 0 <= k < |kept| ==> answers(first + k, kept[k]).Success?
  {
    EnrichSpec(SentencesOf(kept), answers, first);
  }

  /** A failed enrichment of freshly built sentences names one of the segments. */
  lemma SentencesFailIndex(kept: seq<string>, answers: Answers, first: nat)
    requires Enrich(SentencesOf(kept), answers, first).Failure?
    ensures var f := Enrich(SentencesOf(kept), answers, first).error;
            f.AnalysisFailed? && f.index < |kept|
  {
    EnrichSpec(SentencesOf(kept), answers, first);
  }

  /** The segment a failed enrichment names got a failed answer, whose error is the one reported. */
  lemma SentencesFailAnswer(kept: seq<string>, answers: Answers, first: nat)
    requires Enrich(SentencesOf(kept), answers, first).Failure?
    ensures var f := Enrich(SentencesOf(kept), answers, first).error;
            answers(first + f.index, kept[f.index]) == Failure(f.reason)
  {
    var ss := SentencesOf(kept);
    EnrichSpec(ss, answers, first);
    var f := Enrich(ss, answers, first).error;
    assert ss[f.index].text == kept[f.index];
  }

  /** Every segment before the one a failed enrichment names got a successful answer. */
  lemma SentencesAnsweredBefore(kept: seq<string>, answers: Answers, first: nat)
    requires Enrich(SentencesOf(kept), answers, first).Failure?
    ensures var f := Enrich(SentencesOf(kept), answers, first).error;
            forall k :: 0 <= k < f.index ==> answers(first + k, kept[k]).Success?
  {
    var ss := SentencesOf(kept);
    EnrichSpec(ss, answers, first);
    var f := Enrich(ss, answers, first).error;
    forall k | 0 <= k < f.index
      ensures answers(first + k, kept[k]).Success?
    {
      assert ss[k].text == kept[k];
    }
  }

  /**
   * Enriching freshly built sentences fails at the first segment whose answer
   * failed, with that answer's error.
   */
  lemma SentencesStop(kept: seq<string>, answers: Answers, first: nat)
    requires Enrich(SentencesOf(kept), answers, first).Failure?
    ensures var f := Enrich(SentencesOf(kept), answers, first).error;
            f.AnalysisFailed? && f.index < |kept| &&
            answers(first + f.index, kept[f.index]) == Failure(f.reason) &&
            forall k :: 0 <= k < f.index ==> answers(first + k, kept[k]).Success?
  {
    SentencesFailIndex(kept, answers, first);
    SentencesFailAnswer(kept, answers, first);
    SentencesAnsweredBefore(kept, answers, first);
  }

  /** The sentences a run prepares are built from its kept segments. */
  lemma PreparedSentences(s: Record, original: string, segment: string -> seq<string>)
    ensures Prepared(s, original, segment).sentences == SentencesOf(KeptSegments(s, original, segment))
  {
    SliceOfSentences(segment(Sanitize(original)), s.maximumSentences);
  }

  /**
   * A run whose fetch succeeded completes exactly when every kept segment gets a
   * successful answer, its call number being `first` plus the segment's index.
   */
  lemma RunPipelineCompletes(s: Record, article: string -> Result<string, string>,
                             segment: string -> seq<string>, answers: Answers, first: nat)
    requires article(s.searchTerm).Success?
    ensures var kept := KeptSegments(s, article(s.searchTerm).value, segment);
            RunPipeline(s, article, segment, answers, first).Success? <==>
            forall k :: 0 <= k < |kept| ==> answers(first + k, kept[k]).Success?
  {
    var original := article(s.searchTerm).value;
    PreparedSentences(s, original, segment);
    SentencesAnswered(KeptSegments(s, original, segment), answers, first);
  }

  /**
   * A run whose fetch succeeded but which does not complete fails with
   * `AnalysisFailed(i, e)`: segment `i` is the first kept segment whose answer
   * failed, and `e` is that answer's error.
   */
  lemma RunPipelineStops(s: Record, article: string -> Result<string, string>,
                         segment: string -> seq<string>, answers: Answers, first: nat)
    requires article(s.searchTerm).Success?
    requires RunPipeline(s, article, segment, answers, first).Failure?
    ensures var kept := KeptSegments(s, article(s.searchTerm).value, segment);
            var f := RunPipeline(s, article, segment, answers, first).error;
            f.AnalysisFailed? && f.index < |kept| &&
            answers(first + f.index, kept[f.index]) == Failure(f.reason) &&
            forall k :: 0 <= k < f.index ==> answers(first + k, kept[k]).Success?
  {
    var kept := KeptSegments(s, article(s.searchTerm).value, segment);
    RunPipelineError(s, article, segment, answers, first);
    SentencesStop(kept, answers, first);
  }

  /** A run whose fetch succeeded fails with the error of enriching its kept segments. */
  lemma RunPipelineError(s: Record, article: string -> Result<string, string>,
                         segment: string -> seq<string>, answers: Answers, first: nat)
    requires article(s.searchTerm).Success?
    requires RunPipeline(s, article, segment, answers, first).Failure?
    ensures var kept := KeptSegments(s, article(s.searchTerm).value, segment);
            Enrich(SentencesOf(kept), answers, first).Failure? &&
            RunPipeline(s, article, segment, answers, first).error == Enrich(SentencesOf(kept), answers, first).error
  {
    PreparedSentences(s, article(s.searchTerm).value, segment);
  }

  /** Enrichment only writes keywords: the texts of the sentences stay as they were. */
  lemma EnrichKeepsTexts(ss: seq<Sentence>, answers: Answers, first: nat)
    requires Enrich(ss, answers, first).Success?
    ensures Texts(Enrich(ss, answers, first).value) == Texts(ss)
  {
    EnrichSpec(ss, answers, first);
  }

  /**
   * The requests of a run: none after a failed fetch; the texts of the saved
   * sentences after a completed run; after a failed answer, the kept segments up to
   * and including the one whose answer failed.
   */
  lemma RunRequestsSpec(s: Record, article: string -> Result<string, string>,
                        segment: string -> seq<string>, answers: Answers, first: nat)
    ensures article(s.searchTerm).Failure? ==> RunRequests(s, article, segment, answers, first) == []
    ensures RunPipeline(s, article, segment, answers, first).Success? ==>
            RunRequests(s, article, segment, answers, first) ==
            Texts(RunPipeline(s, article, segment, answers, first).value.sentences)
    ensures article(s.searchTerm).Success? && RunPipeline(s, article, segment, answers, first).Failure? ==>
            var kept := KeptSegments(s, article(s.searchTerm).value, segment);
            var f := RunPipeline(s, article, segment, answers, first).error;
            f.AnalysisFailed? && f.index < |kept| &&
            RunRequests(s, article, segment, answers, first) == kept[..f.index + 1]
  {
    if article(s.searchTerm).Success? {
      var segments := segment(Sanitize(article(s.searchTerm).value));
      var limited := SliceTo(SentencesOf(segments), s.maximumSentences);
      SliceOfSentences(segments, s.maximumSentences);
      TextsOfSentences(SliceTo(segments, s.maximumSentences));
      if Enrich(limited, answers, first).Success? {
        EnrichKeepsTexts(limited, answers, first);
      }
    }
  }
}
