/**
 * `DocumentService` (src/documentService.ts): the Pinecone configuration
 * check, the splitting of a document into overlapping chunks, the index URL,
 * the document records kept in local storage, and the assembly of a search
 * result from the matches the index returns.
 *
 * Local storage is the `saved` field of the service, in storage order; the
 * embedding and index requests are left out, and the matches a query returns
 * are a parameter.
 */
module Documents {
  import opened Wrappers
  import opened Text
  import opened Lists

  datatype DocumentServiceConfig = DocumentServiceConfig(pineconeApiKey: string, indexName: string, environment: string)

  /** A piece of a document as stored in the index. */
  datatype DocumentChunk = DocumentChunk(id: string, content: string, pineconeId: string, startIndex: nat, endIndex: nat)

  /** A document record; the file type, size and time stamps are left out. */
  datatype SavedDocument = SavedDocument(id: string, name: string, content: string, chunks: seq<DocumentChunk>)

  const ApiKeyRequired: string := "Pinecone API key is required"
  const IndexNameRequired: string := "Pinecone index name is required"
  const NotConfigured: string := "Pinecone not configured"

  /** What `validateConfig` reports: the key, then the index name; a missing configuration lacks both. */
  function DocumentConfigErrors(config: Option<DocumentServiceConfig>): seq<string> {
    (if config.None? || config.value.pineconeApiKey == "" then [ApiKeyRequired] else [])
    + (if config.None? || config.value.indexName == "" then [IndexNameRequired] else [])
  }

  /**
   * Each message is reported exactly when its setting is missing, the key's
   * first; a configuration passes exactly when both are present, and the
   * environment never matters.
   */
  lemma DocumentConfigErrorsFacts(config: Option<DocumentServiceConfig>)
    ensures var errs := DocumentConfigErrors(config);
      && (ApiKeyRequired in errs <==> config.None? || config.value.pineconeApiKey == "")
      && (IndexNameRequired in errs <==> config.None? || config.value.indexName == "")
      && (errs == [] <==> config.Some? && config.value.pineconeApiKey != "" && config.value.indexName != "")
      && |errs| <= 2
      && (|errs| == 2 ==> errs == [ApiKeyRequired, IndexNameRequired])
    ensures config.Some? ==> forall e :: DocumentConfigErrors(Some(config.value.(environment := e))) == DocumentConfigErrors(config)
  {
    assert ApiKeyRequired[9] != IndexNameRequired[9];
  }

  // Chunking

  /** `chunkText` stops once it has produced more than this many chunks. */
  const MaxChunks: nat := 1000

  /** A window `[start, end)` of the text. */
  type Span = (nat, nat)

  function Min(a: int, b: int): int {
    if a <= b then a else b
  }

  /**
   * The windows `chunkText` cuts from a text of length `len`, starting at
   * `start` with `made` chunks already produced: the window is `chunkSize`
   * long or runs to the end, the next one starts `overlap` before its end,
   * and the loop stops when that would not move forward or when the cap is
   * passed.
   */
  function SpansFrom(len: nat, size: nat, overlap: nat, start: nat, made: nat): (spans: seq<Span>)
    requires overlap < size
    ensures forall i :: 0 <= i < |spans| ==> start <= spans[i].0 < spans[i].1 <= len
    decreases len - start
  {
    if start >= len then []
    else
      var end := Min(start + size, len);
      var next := end - overlap;
      if next <= start || made + 1 > MaxChunks then [(start, end)]
      else [(start, end)] + SpansFrom(len, size, overlap, next, made + 1)
  }

  function Spans(len: nat, size: nat, overlap: nat): seq<Span>
    requires overlap < size
  {
    SpansFrom(len, size, overlap, 0, 0)
  }

  /** Every window lies inside a text of length `len`. */
  predicate Within(spans: seq<Span>, len: nat) {
    forall i :: 0 <= i < |spans| ==> spans[i].0 <= spans[i].1 <= len
  }

  /** The text under each window. */
  function Slices(text: string, spans: seq<Span>): seq<string>
    requires Within(spans, |text|)
  {
    seq(|spans|, i requires 0 <= i < |spans| => text[spans[i].0..spans[i].1])
  }

  function InvalidChunkParameters(chunkSize: int, overlap: int): string {
    "Invalid chunk parameters: chunkSize=" + IntToString(chunkSize) + ", overlap=" + IntToString(overlap)
  }

  /**
   * `chunkText`: refuses parameters that could not make progress, then
   * slides the window along the text.
   */
  method ChunkText(text: string, chunkSize: int, overlap: int) returns (r: Result<seq<string>, string>)
    ensures r.Failure? <==> chunkSize <= 0 || overlap < 0 || overlap >= chunkSize
    ensures r.Failure? ==> r.error == InvalidChunkParameters(chunkSize, overlap)
    ensures r.Success? ==> 0 <= overlap < chunkSize && r.value == Slices(text, Spans(|text|, chunkSize, overlap))
  {
    if chunkSize <= 0 || overlap < 0 || overlap >= chunkSize {
      return Failure(InvalidChunkParameters(chunkSize, overlap));
    }
    var size: nat, ov: nat := chunkSize, overlap;
    var chunks: seq<string> := [];
    ghost var done: seq<Span> := [];
    var start: nat := 0;
    while start < |text|
      invariant start <= |text|
      invariant done + SpansFrom(|text|, size, ov, start, |done|) == Spans(|text|, size, ov)
      invariant |chunks| == |done|
      invariant Within(done, |text|)
      invariant chunks == Slices(text, done)
      decreases |text| - start
    {
      Advance(|text|, size, ov, done, start);
      var end := Min(start + size, |text|);
      SlicesSnoc(text, done, (start, end));
      chunks := chunks + [text[start..end]];
      done := done + [(start, end)];
      var newStart := end - ov;
      if newStart <= start {
        break;
      }
      start := newStart;
      if |chunks| > MaxChunks {
        break;
      }
    }
    return Success(chunks);
  }

  /** The loop's invariant carried over one turn: the windows cut so far, then those still to come, are all the windows. */
  lemma Advance(len: nat, size: nat, overlap: nat, done: seq<Span>, start: nat)
    requires overlap < size && start < len
    requires done + SpansFrom(len, size, overlap, start, |done|) == Spans(len, size, overlap)
    ensures var end := Min(start + size, len);
      var next := end - overlap;
      var done' := done + [(start, end)];
      if next <= start || |done'| > MaxChunks then done' == Spans(len, size, overlap)
      else done' + SpansFrom(len, size, overlap, next, |done'|) == Spans(len, size, overlap)
  {
    SpansFromStep(len, size, overlap, start, |done|);
  }

  lemma SlicesSnoc(text: string, done: seq<Span>, s: Span)
    requires Within(done, |text|)
    requires s.0 <= s.1 <= |text|
    ensures Within(done + [s], |text|)
    ensures Slices(text, done + [s]) == Slices(text, done) + [text[s.0..s.1]]
  {
  }

  /** One turn of the loop: the window at `start`, then the rest unless the loop stops. */
  lemma SpansFromStep(len: nat, size: nat, overlap: nat, start: nat, made: nat)
    requires overlap < size && start < len
    ensures var end := Min(start + size, len);
      var next := end - overlap;
      SpansFrom(len, size, overlap, start, made)
        == [(start, end)] + (if next <= start || made + 1 > MaxChunks then [] else SpansFrom(len, size, overlap, next, made + 1))
  {
  }

  /**
   * The windows from `start`: none exactly when `start` is past the end,
   * otherwise the first starts there, and each is as long as the chunk size
   * allows.
   */
  lemma {:induction false} SpansFromShape(len: nat, size: nat, overlap: nat, start: nat, made: nat)
    requires overlap < size
    ensures var spans := SpansFrom(len, size, overlap, start, made);
      && (spans == [] <==> start >= len)
      && (spans != [] ==> spans[0].0 == start)
      && (forall i :: 0 <= i < |spans| ==> spans[i].1 == Min(spans[i].0 + size, len))
    decreases len - start
  {
    if start < len {
      var next := Min(start + size, len) - overlap;
      if !(next <= start || made + 1 > MaxChunks) {
        SpansFromShape(len, size, overlap, next, made + 1);
      }
    }
  }

  /** Each next window starts `overlap` before the end of the previous one. */
  lemma {:induction false} SpansFromChain(len: nat, size: nat, overlap: nat, start: nat, made: nat)
    requires overlap < size
    ensures var spans := SpansFrom(len, size, overlap, start, made);
      forall i :: 0 <= i < |spans| - 1 ==> spans[i + 1].0 == spans[i].1 - overlap
    decreases len - start
  {
    if start < len {
      var next := Min(start + size, len) - overlap;
      if !(next <= start || made + 1 > MaxChunks) {
        SpansFromChain(len, size, overlap, next, made + 1);
        SpansFromStep(len, size, overlap, start, made);
        SpansFromHead(len, size, overlap, next, made + 1);
        ChainCons((start, Min(start + size, len)), SpansFrom(len, size, overlap, next, made + 1), overlap);
      }
    }
  }

  lemma SpansFromHead(len: nat, size: nat, overlap: nat, start: nat, made: nat)
    requires overlap < size
    ensures var spans := SpansFrom(len, size, overlap, start, made);
      spans != [] ==> spans[0].0 == start
  {
    if start < len {
      SpansFromStep(len, size, overlap, start, made);
    }
  }

  lemma ChainCons(a: Span, rest: seq<Span>, overlap: nat)
    requires rest != [] ==> rest[0].0 == a.1 - overlap
    requires forall i :: 0 <= i < |rest| - 1 ==> rest[i + 1].0 == rest[i].1 - overlap
    ensures var spans := [a] + rest;
      forall i :: 0 <= i < |spans| - 1 ==> spans[i + 1].0 == spans[i].1 - overlap
  {
    var spans := [a] + rest;
    forall i | 0 <= i < |spans| - 1 ensures spans[i + 1].0 == spans[i].1 - overlap {
      assert spans[i + 1] == rest[i];
      if i > 0 {
        assert spans[i] == rest[i - 1];
      }
    }
  }

  /** The window starts increase strictly, so the loop makes progress. */
  lemma {:induction false} SpansFromAdvances(len: nat, size: nat, overlap: nat, start: nat, made: nat)
    requires overlap < size
    ensures var spans := SpansFrom(len, size, overlap, start, made);
      forall i :: 0 <= i < |spans| - 1 ==> spans[i].0 < spans[i + 1].0
    decreases len - start
  {
    if start < len {
      var next := Min(start + size, len) - overlap;
      if !(next <= start || made + 1 > MaxChunks) {
        SpansFromAdvances(len, size, overlap, next, made + 1);
        SpansFromShape(len, size, overlap, next, made + 1);
      }
    }
  }

  /** At most the cap plus one windows are cut, and the last reaches the end of the text unless the cap stopped the loop. */
  lemma {:induction false} SpansFromCount(len: nat, size: nat, overlap: nat, start: nat, made: nat)
    requires overlap < size && made <= MaxChunks
    ensures var spans := SpansFrom(len, size, overlap, start, made);
      && made + |spans| <= MaxChunks + 1
      && (spans != [] && spans[|spans| - 1].1 < len ==> made + |spans| == MaxChunks + 1)
    decreases len - start
  {
    if start < len {
      var next := Min(start + size, len) - overlap;
      if !(next <= start || made + 1 > MaxChunks) {
        SpansFromCount(len, size, overlap, next, made + 1);
        var spans := SpansFrom(len, size, overlap, start, made);
        var rest := SpansFrom(len, size, overlap, next, made + 1);
        assert spans == [(start, Min(start + size, len))] + rest;
        assert rest != [] ==> spans[|spans| - 1] == rest[|rest| - 1];
      }
    }
  }

  /** Character `k` lies in one of the windows. */
  predicate Covers(spans: seq<Span>, k: int) {
    exists i :: 0 <= i < |spans| && spans[i].0 <= k < spans[i].1
  }

  /**
   * The chunks `chunkText` returns with valid parameters: none for an empty
   * text, otherwise the first starts at the beginning, each is non-empty and
   * at most `chunkSize` long, at most 1001 are made, and unless the cap
   * stopped the loop every character of the text lies in some chunk.
   */
  lemma ChunkProperties(len: nat, size: nat, overlap: nat)
    requires overlap < size
    ensures var spans := Spans(len, size, overlap);
      && (spans == [] <==> len == 0)
      && (spans != [] ==> spans[0].0 == 0)
      && (forall i :: 0 <= i < |spans| ==> 0 < spans[i].1 - spans[i].0 <= size)
      && (forall i :: 0 <= i < |spans| - 1 ==> spans[i].0 < spans[i + 1].0)
      && |spans| <= MaxChunks + 1
      && (|spans| <= MaxChunks ==> forall k :: 0 <= k < len ==> Covers(spans, k))
  {
    SpansFromShape(len, size, overlap, 0, 0);
    SpansFromChain(len, size, overlap, 0, 0);
    SpansFromAdvances(len, size, overlap, 0, 0);
    SpansFromCount(len, size, overlap, 0, 0);
    var spans := Spans(len, size, overlap);
    if 0 < len && |spans| <= MaxChunks {
      Covered(spans, len, overlap);
    }
  }

  /** Windows that start at 0, chain by overlap and end at `len` leave no character out. */
  lemma {:induction false} Covered(spans: seq<Span>, len: nat, overlap: nat)
    requires spans != [] && spans[0].0 == 0 && spans[|spans| - 1].1 == len
    requires forall i :: 0 <= i < |spans| - 1 ==> spans[i + 1].0 == spans[i].1 - overlap
    ensures forall k :: 0 <= k < len ==> Covers(spans, k)
    decreases |spans|
  {
    if |spans| > 1 {
      var init := spans[..|spans| - 1];
      Covered(init, init[|init| - 1].1, overlap);
      forall k | 0 <= k < len ensures Covers(spans, k) {
        if k < init[|init| - 1].1 {
          assert Covers(init, k);
          var i :| 0 <= i < |init| && init[i].0 <= k < init[i].1;
          assert spans[i] == init[i];
        } else {
          assert spans[|spans| - 1].0 <= k < spans[|spans| - 1].1;
        }
      }
    } else {
      forall k | 0 <= k < len ensures Covers(spans, k) {
        assert spans[0].0 <= k < spans[0].1;
      }
    }
  }

  /**
   * The windows the loop was evidently meant to cut: it stops as soon as a
   * window reaches the end of the text, instead of one window later.
   */
  function IntendedSpansFrom(len: nat, size: nat, overlap: nat, start: nat, made: nat): (spans: seq<Span>)
    requires overlap < size
    ensures forall i :: 0 <= i < |spans| ==> start <= spans[i].0 < spans[i].1 <= len
    decreases len - start
  {
    if start >= len then []
    else
      var end := Min(start + size, len);
      if end == len || made + 1 > MaxChunks then [(start, end)]
      else [(start, end)] + IntendedSpansFrom(len, size, overlap, end - overlap, made + 1)
  }

  function IntendedSpans(len: nat, size: nat, overlap: nat): seq<Span>
    requires overlap < size
  {
    IntendedSpansFrom(len, size, overlap, 0, 0)
  }

  /**
   * The loop as written cuts the intended windows and, when the window that
   * reached the end started before `len - overlap` and the cap did not stop
   * it, one more window `[len - overlap, len)`, which lies inside the window
   * before it.
   */
  lemma {:induction false} WrittenSpansFrom(len: nat, size: nat, overlap: nat, start: nat, made: nat)
    requires overlap < size
    ensures OneMoreAtMost(SpansFrom(len, size, overlap, start, made), IntendedSpansFrom(len, size, overlap, start, made), len, overlap)
    decreases len - start
  {
    if start < len {
      var end := Min(start + size, len);
      var next := end - overlap;
      if made + 1 > MaxChunks || next <= start || end == len {
        WrittenLastWindow(len, size, overlap, start, made);
      } else {
        WrittenSpansFrom(len, size, overlap, next, made + 1);
        var w := SpansFrom(len, size, overlap, next, made + 1);
        var v := IntendedSpansFrom(len, size, overlap, next, made + 1);
        SpansFromStep(len, size, overlap, start, made);
        IntendedSpansFromStep(len, size, overlap, start, made);
        AtMostOneMore((start, end), w, v, len, overlap);
      }
    }
  }

  lemma IntendedSpansFromStep(len: nat, size: nat, overlap: nat, start: nat, made: nat)
    requires overlap < size && start < len
    requires Min(start + size, len) < len && made + 1 <= MaxChunks
    ensures IntendedSpansFrom(len, size, overlap, start, made)
      == [(start, Min(start + size, len))] + IntendedSpansFrom(len, size, overlap, Min(start + size, len) - overlap, made + 1)
  {
  }

  /** Where the intended loop stops, the loop as written cuts at most the one window `[len - overlap, len)` more. */
  lemma WrittenLastWindow(len: nat, size: nat, overlap: nat, start: nat, made: nat)
    requires overlap < size && start < len
    requires var end := Min(start + size, len); made + 1 > MaxChunks || end - overlap <= start || end == len
    ensures var end := Min(start + size, len);
      && IntendedSpansFrom(len, size, overlap, start, made) == [(start, end)]
      && (|| SpansFrom(len, size, overlap, start, made) == [(start, end)]
          || (start < len - overlap && end == len && SpansFrom(len, size, overlap, start, made) == [(start, end), (len - overlap, len)]))
  {
    var end := Min(start + size, len);
    var next := end - overlap;
    if made + 1 > MaxChunks || next <= start {
    } else if overlap > 0 {
      SpansFromStep(len, size, overlap, next, made + 1);
    }
  }

  /**
   * `written` is `intended`, or `intended` followed by the window
   * `[len - overlap, len)`, which starts after the last intended window,
   * whose end is `len`.
   */
  predicate OneMoreAtMost(written: seq<Span>, intended: seq<Span>, len: nat, overlap: nat) {
    || written == intended
    || (&& intended != []
        && intended[|intended| - 1].0 < len - overlap
        && intended[|intended| - 1].1 == len
        && written == intended + [(len - overlap, len)])
  }

  /** Putting the same window in front of both keeps `OneMoreAtMost`. */
  lemma AtMostOneMore(a: Span, w: seq<Span>, v: seq<Span>, len: nat, overlap: nat)
    requires OneMoreAtMost(w, v, len, overlap)
    ensures OneMoreAtMost([a] + w, [a] + v, len, overlap)
  {
    if w != v {
      assert [a] + (v + [(len - overlap, len)]) == ([a] + v) + [(len - overlap, len)];
    }
  }

  /** The redundant chunk: "abc" cut two characters at a time with overlap 1 gives a last chunk inside the one before. */
  lemma RedundantTrailingChunk()
    ensures Spans(3, 2, 1) == [(0, 2), (1, 3), (2, 3)]
    ensures Slices("abc", Spans(3, 2, 1)) == ["ab", "bc", "c"]
  {
    SpansFromStep(3, 2, 1, 0, 0);
    SpansFromStep(3, 2, 1, 1, 1);
    SpansFromStep(3, 2, 1, 2, 2);
    AbcSlices();
    var s := Slices("abc", [(0, 2), (1, 3), (2, 3)]);
    assert s[0] == "abc"[0..2] && s[1] == "abc"[1..3] && s[2] == "abc"[2..3];
  }

  /** The intended loop cuts "abc" into "ab" and "bc" only. */
  lemma IntendedChunksOfExample()
    ensures IntendedSpans(3, 2, 1) == [(0, 2), (1, 3)]
    ensures Slices("abc", IntendedSpans(3, 2, 1)) == ["ab", "bc"]
  {
    assert IntendedSpansFrom(3, 2, 1, 1, 1) == [(1, 3)];
    AbcSlices();
    var s := Slices("abc", [(0, 2), (1, 3)]);
    assert s[0] == "abc"[0..2] && s[1] == "abc"[1..3];
  }

  lemma AbcSlices()
    ensures "abc"[0..2] == "ab" && "abc"[1..3] == "bc" && "abc"[2..3] == "c"
  {
    var t := "abc";
    assert t[0] == 'a' && t[1] == 'b' && t[2] == 'c';
  }

  /** With the default parameters, a 500-character document is stored as two chunks, the second a copy of its last 200 characters. */
  lemma RedundantChunkAtDefaults()
    ensures Spans(500, 1000, 200) == [(0, 500), (300, 500)]
    ensures IntendedSpans(500, 1000, 200) == [(0, 500)]
  {
    SpansFromStep(500, 1000, 200, 0, 0);
    SpansFromStep(500, 1000, 200, 300, 1);
  }

  /** Every intended window but the last stops short of the end, and each ends strictly after the one before. */
  lemma {:induction false} IntendedEndsIncrease(len: nat, size: nat, overlap: nat, start: nat, made: nat)
    requires overlap < size
    ensures var spans := IntendedSpansFrom(len, size, overlap, start, made);
      forall i :: 0 <= i < |spans| - 1 ==> spans[i].1 < len && spans[i].1 < spans[i + 1].1
    decreases len - start
  {
    if start < len {
      var end := Min(start + size, len);
      if !(end == len || made + 1 > MaxChunks) {
        var next := end - overlap;
        IntendedEndsIncrease(len, size, overlap, next, made + 1);
        IntendedSpansFromStep(len, size, overlap, start, made);
        var rest := IntendedSpansFrom(len, size, overlap, next, made + 1);
        assert rest != [] && rest[0].1 == Min(next + size, len);
        EndsIncreaseCons((start, end), rest, len);
      }
    }
  }

  lemma EndsIncreaseCons(a: Span, rest: seq<Span>, len: nat)
    requires a.1 < len && rest != [] && a.1 < rest[0].1
    requires forall i :: 0 <= i < |rest| - 1 ==> rest[i].1 < len && rest[i].1 < rest[i + 1].1
    ensures var spans := [a] + rest;
      forall i :: 0 <= i < |spans| - 1 ==> spans[i].1 < len && spans[i].1 < spans[i + 1].1
  {
    var spans := [a] + rest;
    forall i | 0 <= i < |spans| - 1 ensures spans[i].1 < len && spans[i].1 < spans[i + 1].1 {
      assert spans[i + 1] == rest[i];
      if i > 0 {
        assert spans[i] == rest[i - 1];
      }
    }
  }

  /** The intended windows are the first windows the loop as written cuts; when it cuts more, the last intended one reaches the end. */
  lemma IntendedIsPrefix(len: nat, size: nat, overlap: nat)
    requires overlap < size
    ensures var written := Spans(len, size, overlap);
      var intended := IntendedSpans(len, size, overlap);
      && |intended| <= |written|
      && (forall i :: 0 <= i < |intended| ==> intended[i] == written[i])
      && (|intended| < |written| ==> intended != [] && intended[|intended| - 1].1 == len)
  {
    WrittenSpansFrom(len, size, overlap, 0, 0);
  }

  /**
   * The intended chunks keep the properties of the written ones: none for an
   * empty text, the first at the beginning, each non-empty and at most the
   * chunk size, starts increasing, at most 1001, and every character covered
   * unless the cap stopped the loop.
   */
  lemma IntendedSpansProperties(len: nat, size: nat, overlap: nat)
    requires overlap < size
    ensures var spans := IntendedSpans(len, size, overlap);
      && (spans == [] <==> len == 0)
      && (spans != [] ==> spans[0].0 == 0)
      && (forall i :: 0 <= i < |spans| ==> 0 < spans[i].1 - spans[i].0 <= size)
      && (forall i :: 0 <= i < |spans| - 1 ==> spans[i].0 < spans[i + 1].0)
      && |spans| <= MaxChunks + 1
      && (|spans| <= MaxChunks ==> forall k :: 0 <= k < len ==> Covers(spans, k))
  {
    var written := Spans(len, size, overlap);
    var spans := IntendedSpans(len, size, overlap);
    IntendedIsPrefix(len, size, overlap);
    ChunkProperties(len, size, overlap);
    SpansFromChain(len, size, overlap, 0, 0);
    SpansFromCount(len, size, overlap, 0, 0);
    if 0 < len && |spans| <= MaxChunks {
      if |spans| == |written| {
        assert spans[|spans| - 1] == written[|written| - 1];
      }
      Covered(spans, len, overlap);
    }
  }

  // The index URL

  const PineconeHost: string := "-kidmlxz.svc.aped-4627-b74a.pinecone.io"

  /** `getPineconeUrl`: refuses without a configuration, otherwise the index's host followed by the path. */
  function PineconeUrl(config: Option<DocumentServiceConfig>, path: string): Result<string, string> {
    if config.None? then Failure(NotConfigured)
    else Success("https://" + config.value.indexName + PineconeHost + path)
  }

  /**
   * The URL is an https URL whose host begins with the index name and which
   * ends with the path; the path and the index name can be read back from it,
   * so different paths or different index names give different URLs.
   */
  lemma PineconeUrlParts(config: Option<DocumentServiceConfig>, path: string)
    ensures PineconeUrl(config, path).Failure? <==> config.None?
    ensures PineconeUrl(config, path).Failure? ==> PineconeUrl(config, path).error == NotConfigured
    ensures config.Some? ==> var url := PineconeUrl(config, path).value;
      var n := |config.value.indexName|;
      && StartsWith(url, "https://")
      && url[8..8 + n] == config.value.indexName
      && url[8 + n..8 + n + |PineconeHost|] == PineconeHost
      && url[|url| - |path|..] == path
  {
  }

  /** Different paths give different URLs. */
  lemma PineconeUrlInjective(config: DocumentServiceConfig, path: string, path': string)
    requires PineconeUrl(Some(config), path) == PineconeUrl(Some(config), path')
    ensures path == path'
  {
    var base := "https://" + config.indexName + PineconeHost;
    assert base + path == base + path';
    assert path == (base + path)[|base|..];
    assert path' == (base + path')[|base|..];
  }

  // Document records

  function HasId(id: string): SavedDocument -> bool {
    (d: SavedDocument) => d.id == id
  }

  /** `findIndex` by id: the first record with that id. */
  function FindIndex(docs: seq<SavedDocument>, id: string): Option<nat> {
    FirstIndex(docs, HasId(id))
  }

  /** The records after `saveDocument(d)`. */
  function Upsert(docs: seq<SavedDocument>, d: SavedDocument): seq<SavedDocument> {
    match FindIndex(docs, d.id)
    case Some(i) => docs[i := d]
    case None => docs + [d]
  }

  function HasNotId(id: string): SavedDocument -> bool {
    (d: SavedDocument) => d.id != id
  }

  /** The records after `deleteDocumentFromStorage(id)`. */
  function WithoutId(docs: seq<SavedDocument>, id: string): seq<SavedDocument> {
    Keep(docs, HasNotId(id))
  }

  /**
   * Saving replaces the first record with the same id where it stands and
   * leaves the others alone, or appends the record; either way the record is
   * what a lookup of its id then finds.
   */
  lemma UpsertProperties(docs: seq<SavedDocument>, d: SavedDocument)
    ensures var r := Upsert(docs, d);
      && FindIndex(r, d.id).Some? && r[FindIndex(r, d.id).value] == d
      && (FindIndex(docs, d.id).Some? ==>
            |r| == |docs| && FindIndex(r, d.id) == FindIndex(docs, d.id)
            && forall j :: 0 <= j < |docs| && j != FindIndex(docs, d.id).value ==> r[j] == docs[j])
      && (FindIndex(docs, d.id).None? ==> r == docs + [d])
  {
    var r := Upsert(docs, d);
    match FindIndex(docs, d.id)
    case Some(i) =>
      assert forall j :: 0 <= j < i ==> r[j] == docs[j];
      FirstIndexIs(r, HasId(d.id), i);
    case None =>
      FirstIndexIs(r, HasId(d.id), |docs|);
  }

  /** Saving the same record twice is saving it once. */
  lemma UpsertIdempotent(docs: seq<SavedDocument>, d: SavedDocument)
    ensures Upsert(Upsert(docs, d), d) == Upsert(docs, d)
  {
    UpsertProperties(docs, d);
  }

  /**
   * Deleting removes every record with the id, keeps every other record and
   * adds none; the survivors keep their order, because deleting from a
   * concatenation deletes from each part.
   */
  lemma WithoutIdProperties(docs: seq<SavedDocument>, more: seq<SavedDocument>, id: string)
    ensures forall d :: d in WithoutId(docs, id) <==> d in docs && d.id != id
    ensures WithoutId(docs + more, id) == WithoutId(docs, id) + WithoutId(more, id)
    ensures FindIndex(WithoutId(docs, id), id).None?
    ensures (forall j :: 0 <= j < |docs| ==> docs[j].id != id) ==> WithoutId(docs, id) == docs
  {
    KeepMembers(docs, HasNotId(id));
    KeepAppend(docs, more, HasNotId(id));
    var r := WithoutId(docs, id);
    forall j | 0 <= j < |r| ensures r[j].id != id {
      assert r[j] in r;
    }
    if forall j :: 0 <= j < |docs| ==> docs[j].id != id {
      KeepAll(docs, HasNotId(id));
    }
  }

  /** Deleting after saving a record is deleting without saving it: the save leaves no trace under any other id either. */
  lemma DeleteAfterSave(docs: seq<SavedDocument>, d: SavedDocument)
    ensures WithoutId(Upsert(docs, d), d.id) == WithoutId(docs, d.id)
  {
    match FindIndex(docs, d.id)
    case Some(i) =>
      var r := Upsert(docs, d);
      assert docs == docs[..i] + [docs[i]] + docs[i + 1..];
      assert r == docs[..i] + [d] + docs[i + 1..];
      KeepAppend(docs[..i] + [docs[i]], docs[i + 1..], HasNotId(d.id));
      KeepAppend(docs[..i], [docs[i]], HasNotId(d.id));
      KeepAppend(docs[..i] + [d], docs[i + 1..], HasNotId(d.id));
      KeepAppend(docs[..i], [d], HasNotId(d.id));
    case None =>
      KeepAppend(docs, [d], HasNotId(d.id));
  }

  // Search results

  /** What the index stores with a vector and returns with a match. */
  datatype MatchMetadata = MatchMetadata(content: string, documentId: string)

  /** A match of a query; the similarity score is left out. */
  datatype Match = Match(id: string, metadata: Option<MatchMetadata>)

  datatype RagContext = RagContext(query: string, relevantChunks: seq<DocumentChunk>, sources: seq<SavedDocument>)

  /** The chunk a match with metadata becomes: its position in the document is not known. */
  function ChunkOf(id: string, m: MatchMetadata): DocumentChunk {
    DocumentChunk(id, m.content, id, 0, |m.content|)
  }

  /** The chunks of the matches that carry metadata, in match order. */
  function MatchedChunks(matches: seq<Match>): seq<DocumentChunk> {
    if matches == [] then []
    else
      var last := matches[|matches| - 1];
      MatchedChunks(matches[..|matches| - 1]) + (if last.metadata.Some? then [ChunkOf(last.id, last.metadata.value)] else [])
  }

  /** The documents those matches come from. */
  function MatchedDocumentIds(matches: seq<Match>): set<string> {
    set i | 0 <= i < |matches| && matches[i].metadata.Some? :: matches[i].metadata.value.documentId
  }

  function IdIn(ids: set<string>): SavedDocument -> bool {
    (d: SavedDocument) => d.id in ids
  }

  /** The result `searchDocuments` assembles; a reply without `matches` gives no chunks and no sources. */
  function Context(query: string, matches: Option<seq<Match>>, saved: seq<SavedDocument>): RagContext {
    var ms := matches.GetOr([]);
    RagContext(query, MatchedChunks(ms), Keep(saved, IdIn(MatchedDocumentIds(ms))))
  }

  /** The loop over the matches: push a chunk and record the document for each match with metadata. */
  method CollectMatches(matches: seq<Match>) returns (chunks: seq<DocumentChunk>, ids: set<string>)
    ensures chunks == MatchedChunks(matches)
    ensures ids == MatchedDocumentIds(matches)
  {
    chunks := [];
    ids := {};
    for k := 0 to |matches|
      invariant chunks == MatchedChunks(matches[..k])
      invariant ids == MatchedDocumentIds(matches[..k])
    {
      var m := matches[k];
      assert matches[..k + 1][..k] == matches[..k];
      if m.metadata.Some? {
        chunks := chunks + [ChunkOf(m.id, m.metadata.value)];
        ids := ids + {m.metadata.value.documentId};
      }
      assert MatchedDocumentIds(matches[..k + 1]) == MatchedDocumentIds(matches[..k]) + (if m.metadata.Some? then {m.metadata.value.documentId} else {}) by {
        var pre := matches[..k];
        var ext := matches[..k + 1];
        forall x | x in MatchedDocumentIds(ext) ensures x in MatchedDocumentIds(pre) + (if m.metadata.Some? then {m.metadata.value.documentId} else {}) {
          var i :| 0 <= i < |ext| && ext[i].metadata.Some? && ext[i].metadata.value.documentId == x;
          if i < k {
            assert pre[i] == ext[i];
          }
        }
        forall x | x in MatchedDocumentIds(pre) ensures x in MatchedDocumentIds(ext) {
          var i :| 0 <= i < |pre| && pre[i].metadata.Some? && pre[i].metadata.value.documentId == x;
          assert ext[i] == pre[i];
        }
        if m.metadata.Some? {
          assert ext[k] == m;
        }
      }
    }
    assert matches[..|matches|] == matches;
  }

  /** The chunks of a longer list of matches are those of its parts, in order. */
  lemma {:induction false} MatchedChunksAppend(matches: seq<Match>, more: seq<Match>)
    ensures MatchedChunks(matches + more) == MatchedChunks(matches) + MatchedChunks(more)
    decreases |more|
  {
    if more != [] {
      MatchedChunksAppend(matches, more[..|more| - 1]);
      assert (matches + more)[..|matches + more| - 1] == matches + more[..|more| - 1];
    } else {
      assert matches + more == matches;
    }
  }

  /**
   * Exactly the matches with metadata become chunks: each chunk comes from
   * such a match, names it as its vector and spans its whole content, and
   * there are no chunks exactly when no match carries metadata.
   */
  lemma {:induction false} MatchedChunksMembers(matches: seq<Match>)
    ensures |MatchedChunks(matches)| <= |matches|
    ensures forall c :: c in MatchedChunks(matches) ==>
      && c.pineconeId == c.id && c.startIndex == 0 && c.endIndex == |c.content|
      && exists i :: 0 <= i < |matches| && matches[i].metadata.Some? && c == ChunkOf(matches[i].id, matches[i].metadata.value)
    ensures (forall i :: 0 <= i < |matches| ==> matches[i].metadata.None?) <==> MatchedChunks(matches) == []
    decreases |matches|
  {
    if matches != [] {
      var init := matches[..|matches| - 1];
      var last := matches[|matches| - 1];
      MatchedChunksMembers(init);
      forall c | c in MatchedChunks(matches)
        ensures exists i :: 0 <= i < |matches| && matches[i].metadata.Some? && c == ChunkOf(matches[i].id, matches[i].metadata.value)
      {
        if c in MatchedChunks(init) {
          var i :| 0 <= i < |init| && init[i].metadata.Some? && c == ChunkOf(init[i].id, init[i].metadata.value);
          assert matches[i] == init[i];
        }
      }
      if forall i :: 0 <= i < |matches| ==> matches[i].metadata.None? {
        assert forall i :: 0 <= i < |init| ==> init[i] == matches[i];
      }
    }
  }

  /** A saved document is a source exactly when a match with metadata names it; without matches there is nothing. */
  lemma SourcesProperties(query: string, matches: Option<seq<Match>>, saved: seq<SavedDocument>)
    ensures var ctx := Context(query, matches, saved);
      && ctx.query == query
      && (forall d :: d in ctx.sources <==> d in saved && d.id in MatchedDocumentIds(matches.GetOr([])))
      && (matches.None? ==> ctx.relevantChunks == [] && ctx.sources == [])
  {
    KeepMembers(saved, IdIn(MatchedDocumentIds(matches.GetOr([]))));
    if matches.None? {
      var sources := Keep(saved, IdIn(MatchedDocumentIds([])));
      assert MatchedDocumentIds([]) == {};
      if sources != [] {
        assert sources[0] in sources;
      }
    }
  }

  /** The service object: the configuration and the stored records are its state. */
  class DocumentService {
    var config: Option<DocumentServiceConfig>
    /** The records in local storage, in storage order. */
    var saved: seq<SavedDocument>

    constructor(config: Option<DocumentServiceConfig>, saved: seq<SavedDocument>)
      ensures this.config == config && this.saved == saved
    {
      this.config := config;
      this.saved := saved;
    }

    method UpdateConfig(config: DocumentServiceConfig)
      modifies this
      ensures this.config == Some(config) && saved == old(saved)
    {
      this.config := Some(config);
    }

    /** `validateConfig`: push an error for each missing setting. */
    method ValidateConfig() returns (v: Validation)
      ensures v.errors == DocumentConfigErrors(config)
      ensures v.isValid <==> v.errors == []
    {
      var errors: seq<string> := [];
      if config.None? || config.value.pineconeApiKey == "" {
        errors := errors + [ApiKeyRequired];
      }
      if config.None? || config.value.indexName == "" {
        errors := errors + [IndexNameRequired];
      }
      v := Validation(errors == [], errors);
    }

    /** `saveDocument`: overwrite the record with the same id in place, or append it. */
    method SaveDocument(d: SavedDocument)
      modifies this
      ensures saved == Upsert(old(saved), d) && config == old(config)
    {
      var existing := FindIndex(saved, d.id);
      if existing.Some? {
        saved := saved[existing.value := d];
      } else {
        saved := saved + [d];
      }
    }

    /** `deleteDocumentFromStorage`. */
    method DeleteDocumentFromStorage(id: string)
      modifies this
      ensures saved == WithoutId(old(saved), id) && config == old(config)
    {
      saved := Keep(saved, HasNotId(id));
    }

    /** `searchDocuments`, given the matches the index returns for the query. */
    method SearchDocuments(query: string, matches: Option<seq<Match>>) returns (r: Result<RagContext, string>)
      ensures DocumentConfigErrors(config) != [] ==> r == Failure("Configuration error: " + Join(DocumentConfigErrors(config), ", "))
      ensures DocumentConfigErrors(config) == [] ==> r == Success(Context(query, matches, saved))
    {
      var validation := ValidateConfig();
      if !validation.isValid {
        return Failure("Configuration error: " + Join(validation.errors, ", "));
      }
      var chunks: seq<DocumentChunk> := [];
      var ids: set<string> := {};
      if matches.Some? {
        chunks, ids := CollectMatches(matches.value);
      } else {
        assert MatchedDocumentIds([]) == {};
      }
      var sources := Keep(saved, IdIn(ids));
      r := Success(RagContext(query, chunks, sources));
    }
  }
}
