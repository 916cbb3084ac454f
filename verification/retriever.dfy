/** Answer assembly of the retrieval pipeline (`RAGRetriever.retrieve_and_generate`):
    the similarity search and the language model are parameters, and what
    remains is string and sequence logic. */
module Retriever {
  import opened Types
  import opened Seqs
  import opened Text

  /** How many chunks a query retrieves (`TOP_K_RESULTS`). */
  const TopKResults: nat := 1

  /** The answer given when the search finds nothing. */
  const NoDocsAnswer: string := "No relevant documents found in the knowledge base."

  /** The metadata key under which a chunk records its PDF, and the fallback. */
  const SourceKey: string := "source_file"
  const UnknownSource: string := "unknown"

  /** What separates two chunks inside the context. */
  const ChunkSeparator: string := "\n\n"

  /** The prompt template, around the context and the query. */
  const PromptHead: string :=
    "Use the following context to answer the question. Be concise and accurate. "
    + "If you cannot answer based on the context provided, say so clearly.\n\nContext:\n"
  const QuestionCue: string := "\n\nQuestion: "
  const AnswerCue: string := "\n\nAnswer:"

  /** `doc.metadata.get('source_file', 'unknown')`. */
  function SourceOf(d: Doc): string {
    if SourceKey in d.metadata then d.metadata[SourceKey] else UnknownSource
  }

  /** One chunk as it appears in the context: its source line, then its text. */
  function Tag(d: Doc): string {
    "[Source: " + SourceOf(d) + "]\n" + d.content
  }

  function Tags(docs: seq<Doc>): (r: seq<string>)
    ensures |r| == |docs|
    ensures forall i :: 0 <= i < |docs| ==> r[i] == Tag(docs[i])
  {
    seq(|docs|, i requires 0 <= i < |docs| => Tag(docs[i]))
  }

  /** The context block: the tagged chunks in retrieval order, separated by a
      blank line. It opens with the first chunk's tag and closes with the
      last one's; without chunks it is empty. */
  function Context(docs: seq<Doc>): (r: string)
    ensures |docs| == 0 ==> r == []
    ensures |docs| > 0 ==>
              var first, last := Tag(docs[0]), Tag(docs[|docs| - 1]);
              && |first| <= |r| && r[..|first|] == first
              && |last| <= |r| && r[|r| - |last|..] == last
  {
    var tags := Tags(docs);
    if |docs| == 0 then Join(tags, ChunkSeparator)
    else
      JoinEnds(tags, ChunkSeparator);
      Join(tags, ChunkSeparator)
  }

  /** Where the tag of chunk `i` starts inside the context. */
  function TagOffset(docs: seq<Doc>, i: nat): nat
    requires i <= |docs|
  {
    JoinOffset(Tags(docs), ChunkSeparator, i)
  }

  /** The context holds every retrieved chunk's tag verbatim, in retrieval
      order, the first at the start and the last at the end. */
  lemma ContextTags(docs: seq<Doc>)
    requires |docs| > 0
    ensures TagOffset(docs, 0) == 0
    ensures |Context(docs)| == TagOffset(docs, |docs| - 1) + |Tag(docs[|docs| - 1])|
    ensures forall i :: 0 <= i < |docs| ==>
              && TagOffset(docs, i) + |Tag(docs[i])| <= |Context(docs)|
              && Context(docs)[TagOffset(docs, i) .. TagOffset(docs, i) + |Tag(docs[i])|] == Tag(docs[i])
  {
    JoinLength(Tags(docs), ChunkSeparator);
    forall i | 0 <= i < |docs|
      ensures TagOffset(docs, i) + |Tag(docs[i])| <= |Context(docs)|
      ensures Context(docs)[TagOffset(docs, i) .. TagOffset(docs, i) + |Tag(docs[i])|] == Tag(docs[i])
    {
      TagInContext(docs, i);
    }
  }

  lemma TagInContext(docs: seq<Doc>, i: nat)
    requires i < |docs|
    ensures TagOffset(docs, i) + |Tag(docs[i])| <= |Context(docs)|
    ensures Context(docs)[TagOffset(docs, i) .. TagOffset(docs, i) + |Tag(docs[i])|] == Tag(docs[i])
  {
    var tags := Tags(docs);
    JoinPart(tags, ChunkSeparator, i);
    assert tags[i] == Tag(docs[i]);
  }

  /** Tag `i` of the context is followed by one blank line and then by tag `i + 1`. */
  predicate SeparatedAfter(docs: seq<Doc>, i: nat)
    requires i + 1 < |docs|
  {
    && TagOffset(docs, i + 1) == TagOffset(docs, i) + |Tag(docs[i])| + |ChunkSeparator|
    && TagOffset(docs, i + 1) <= |Context(docs)|
    && Context(docs)[TagOffset(docs, i) + |Tag(docs[i])| .. TagOffset(docs, i + 1)] == ChunkSeparator
  }

  /** Between neighbouring tags of the context stands exactly one blank
      line, and nothing else. */
  lemma ContextSeparators(docs: seq<Doc>)
    ensures forall i :: 0 <= i < |docs| - 1 ==> SeparatedAfter(docs, i)
  {
    var tags := Tags(docs);
    forall i | 0 <= i < |docs| - 1
      ensures SeparatedAfter(docs, i)
    {
      JoinSeparator(tags, ChunkSeparator, i);
    }
  }

  /** The prompt sent to the model for `context` and `query`. */
  function BuildPrompt(context: string, query: string): (r: string)
    ensures |r| == |PromptHead| + |context| + |QuestionCue| + |query| + |AnswerCue|
  {
    PromptHead + context + QuestionCue + query + AnswerCue
  }

  /** The context inside a prompt, given its length. */
  function ContextIn(prompt: string, contextLength: nat): string
    requires |PromptHead| + contextLength <= |prompt|
  {
    prompt[|PromptHead| .. |PromptHead| + contextLength]
  }

  /** The query inside a prompt, given the context's length. */
  function QueryIn(prompt: string, contextLength: nat): string
    requires |PromptHead| + contextLength + |QuestionCue| + |AnswerCue| <= |prompt|
  {
    prompt[|PromptHead| + contextLength + |QuestionCue| .. |prompt| - |AnswerCue|]
  }

  /** The prompt carries the context and the query verbatim, in template
      order, so both are recovered from it; the template text sits before,
      between and after them. */
  lemma PromptRoundTrip(context: string, query: string)
    ensures var p := BuildPrompt(context, query);
            && p[..|PromptHead|] == PromptHead
            && ContextIn(p, |context|) == context
            && p[|PromptHead| + |context| .. |PromptHead| + |context| + |QuestionCue|] == QuestionCue
            && QueryIn(p, |context|) == query
            && p[|p| - |AnswerCue|..] == AnswerCue
  {
    var p := BuildPrompt(context, query);
    var a := |PromptHead|;
    var b := a + |context|;
    var c := b + |QuestionCue|;
    var d := c + |query|;
    assert p[..a] == PromptHead;
    assert p[a..b] == context;
    assert p[b..c] == QuestionCue;
    assert p[c..d] == query;
    assert p[d..] == AnswerCue;
  }

  /** Two different queries over the same context give different prompts. */
  lemma PromptDeterminesQuery(context: string, q1: string, q2: string)
    requires BuildPrompt(context, q1) == BuildPrompt(context, q2)
    ensures q1 == q2
  {
    PromptRoundTrip(context, q1);
    PromptRoundTrip(context, q2);
  }

  /** `names` lists the sources of `docs`: each once, all of them, and nothing else. */
  ghost predicate ListsSources(names: seq<string>, docs: seq<Doc>) {
    && NoDuplicates(names)
    && (forall i :: 0 <= i < |docs| ==> SourceOf(docs[i]) in names)
    && (forall k :: 0 <= k < |names| ==> exists i :: 0 <= i < |docs| && names[k] == SourceOf(docs[i]))
  }

  /** `list(set(...))` of the chunks' sources (first-occurrence order is this
      model's choice; the source leaves the order open). */
  function Sources(docs: seq<Doc>): (r: seq<string>)
    ensures ListsSources(r, docs)
    ensures |r| <= |docs|
  {
    var names := seq(|docs|, i requires 0 <= i < |docs| => SourceOf(docs[i]));
    var r := Dedup(names);
    assert forall i :: 0 <= i < |docs| ==> names[i] == SourceOf(docs[i]);
    assert forall k :: 0 <= k < |r| ==> exists i :: 0 <= i < |docs| && r[k] == names[i];
    r
  }

  lemma ContextOfOne(d: Doc)
    ensures Context([d]) == Tag(d)
  {
    assert Tags([d]) == [Tag(d)];
  }

  lemma SourcesOfOne(d: Doc)
    ensures Sources([d]) == [SourceOf(d)]
  {
    var names := seq(1, i requires 0 <= i < 1 => SourceOf([d][i]));
    assert names == [SourceOf(d)];
    assert names[..0] == [];
  }

  /** The dictionary `{"answer": ..., "sources": ...}`, plus the prompt the
      model was given (`None` when it was not called). */
  datatype Reply = Reply(answer: string, sources: seq<string>, prompt: Option<string>)

  /** `retrieve_and_generate(query)` with the vector search and the model as parameters. */
  function RetrieveAndGenerate(search: (string, nat) -> seq<Doc>, llm: string -> string, query: string): (r: Reply)
    // no retrieved chunk: the fixed answer, no sources, and the model is not called
    ensures |search(query, TopKResults)| == 0 <==> r.prompt == None
    ensures |search(query, TopKResults)| == 0 ==> r.answer == NoDocsAnswer && r.sources == []
    // otherwise the model answers the prompt built from the chunks retrieved with k = TOP_K_RESULTS
    ensures |search(query, TopKResults)| > 0 ==>
              var docs := search(query, TopKResults);
              && r.prompt == Some(BuildPrompt(Context(docs), query))
              && r.answer == Strip(llm(r.prompt.value))
              && ListsSources(r.sources, docs)
  {
    var docs := search(query, TopKResults);
    if |docs| == 0 then Reply(NoDocsAnswer, [], None)
    else
      var prompt := BuildPrompt(Context(docs), query);
      Reply(Strip(llm(prompt)), Sources(docs), Some(prompt))
  }

  /** With a search that honours `k`, a reply cites at most one source and
      its context is the single retrieved chunk's tag. */
  lemma SingleChunkReply(search: (string, nat) -> seq<Doc>, llm: string -> string, query: string)
    requires forall q, k :: |search(q, k)| <= k
    ensures var r := RetrieveAndGenerate(search, llm, query);
            && |r.sources| <= 1
            && (r.prompt.Some? ==>
                  var d := search(query, TopKResults)[0];
                  && r.prompt == Some(BuildPrompt(Tag(d), query))
                  && r.sources == [SourceOf(d)])
  {
    var docs := search(query, TopKResults);
    var r := RetrieveAndGenerate(search, llm, query);
    if |docs| > 0 {
      var d := docs[0];
      assert docs == [d];
      ContextOfOne(d);
      SourcesOfOne(d);
      assert r == Reply(Strip(llm(BuildPrompt(Tag(d), query))), [SourceOf(d)], Some(BuildPrompt(Tag(d), query)));
    }
  }

  /** One chunk of `report.pdf` retrieved: the prompt carries its tag, the
      source list names the PDF once, and the model's padded reply comes
      back trimmed. */
  lemma OneChunkScenario(query: string)
    ensures var d := Doc("Revenue grew 12%", map[SourceKey := "report.pdf"]);
            var r := RetrieveAndGenerate((q, k) => [d], p => "  Revenue grew 12%.\n", query);
            && r.answer == "Revenue grew 12%."
            && r.sources == ["report.pdf"]
            && r.prompt == Some(BuildPrompt(Tag(d), query))
  {
    var d := Doc("Revenue grew 12%", map[SourceKey := "report.pdf"]);
    assert SourceOf(d) == "report.pdf";
    ContextOfOne(d);
    SourcesOfOne(d);
    PaddedReply();
  }

  /** Whatever the context and the query, stripping the whole prompt keeps
      the context: the prompt's text up to `Context:` and from `Answer:` on
      shields it from the whitespace `strip()` removes. */
  lemma StrippedPromptKeepsContext(context: string, query: string)
    ensures Occurs(context, Strip(BuildPrompt(context, query)))
  {
    var p := BuildPrompt(context, query);
    PromptRoundTrip(context, query);
    // the colon of `Context:` and the one closing `Answer:`
    var lo := |PromptHead| - 2;
    assert PromptHead[lo] == ':' && AnswerCue[|AnswerCue| - 1] == ':';
    assert p[lo] == PromptHead[lo];
    assert p[|p| - 1] == AnswerCue[|AnswerCue| - 1];
    var a, b := |PromptHead|, |PromptHead| + |context|;
    assert p[a..b] == ContextIn(p, |context|) == context;
    StripKeepsBetween(p, lo, |p|, a, b);
  }

  /** A model that echoes its prompt over one retrieved chunk: the answer is
      the stripped prompt, and it still carries the chunk's `[Source: ...]`
      line and text verbatim. */
  lemma EchoKeepsTag(d: Doc, query: string)
    ensures var r := RetrieveAndGenerate((q, k) => [d], p => p, query);
            && r.prompt == Some(BuildPrompt(Tag(d), query))
            && r.answer == Strip(r.prompt.value)
            && Occurs(Tag(d), r.answer)
            && r.sources == [SourceOf(d)]
  {
    ContextOfOne(d);
    SourcesOfOne(d);
    StrippedPromptKeepsContext(Tag(d), query);
  }

  /** The chunk of `report.pdf` used in the scenarios below. */
  const ReportChunk: Doc := Doc("Revenue grew 12%", map[SourceKey := "report.pdf"])

  /** The echo model over one chunk of `report.pdf`. */
  lemma EchoScenario(query: string)
    ensures Tag(ReportChunk) == "[Source: report.pdf]\n" + ReportChunk.content
    ensures Occurs(Tag(ReportChunk), RetrieveAndGenerate((q, k) => [ReportChunk], p => p, query).answer)
    ensures RetrieveAndGenerate((q, k) => [ReportChunk], p => p, query).sources == ["report.pdf"]
  {
    var d := ReportChunk;
    assert SourceOf(d) == "report.pdf";
    assert "[Source: " + SourceOf(d) + "]\n" == "[Source: report.pdf]\n";
    EchoKeepsTag(d, query);
  }

  /** The padded reply of `OneChunkScenario`, trimmed. */
  lemma PaddedReply()
    ensures Strip("  Revenue grew 12%.\n") == "Revenue grew 12%."
  {
    var core: string := "Revenue grew 12%.";
    var reply: string := "  " + core + "\n";
    assert reply == "  Revenue grew 12%.\n";
    assert reply[2..19] == core;
    StripUnique(reply, 2, 19);
  }

}
