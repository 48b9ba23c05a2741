/** Splitting a PDF's text into chunks of bounded token count (app/tools/rag/pdf_chunker.py). */
module PdfChunker {
  import opened Errors
  import opened PyText

  const DefaultMaxPages := 15
  const DefaultMaxTokensPerChunk := 650

  /** `page.extract_text() or ""` */
  function PageText(page: Option<string>): string
  {
    if page.Some? then page.value else ""
  }

  /** The text of the first `maxPages` pages, one page per line. `pages` holds what the PDF reader extracts. */
  function FullText(pages: seq<Option<string>>, maxPages: int): string
  {
    var read := PyPrefix(pages, maxPages);
    JoinWith("\n", seq(|read|, i requires 0 <= i < |read| => PageText(read[i])))
  }

  /** The token count of a sequence of words, `tokens` standing for the tokenizer's encoding length. */
  function Total(ws: seq<string>, tokens: string -> nat): nat
  {
    if ws == [] then 0 else Total(ws[..|ws| - 1], tokens) + tokens(ws[|ws| - 1])
  }

  /** The loop's variables: the chunks emitted so far (as word lists), the open `chunk` and its `token_count`. */
  datatype ChunkState = ChunkState(closed: seq<seq<string>>, open: seq<string>, count: int)

  /** One iteration: close the open chunk when the word would push it over the limit, then add the word. */
  function StepWord(s: ChunkState, w: string, tokens: string -> nat, maxTokens: int): ChunkState
  {
    var n := tokens(w);
    if s.count + n > maxTokens then ChunkState(s.closed + [s.open], [w], n)
    else ChunkState(s.closed, s.open + [w], s.count + n)
  }

  /** The state after the loop has consumed `words`. */
  function Run(words: seq<string>, tokens: string -> nat, maxTokens: int): ChunkState
  {
    if words == [] then ChunkState([], [], 0)
    else StepWord(Run(words[..|words| - 1], tokens, maxTokens), words[|words| - 1], tokens, maxTokens)
  }

  /** The chunks as word lists: the closed ones, then the open one unless it is empty. */
  function Groups(words: seq<string>, tokens: string -> nat, maxTokens: int): seq<seq<string>>
  {
    var s := Run(words, tokens, maxTokens);
    s.closed + (if s.open != [] then [s.open] else [])
  }

  function Texts(groups: seq<seq<string>>): (r: seq<string>)
    ensures |r| == |groups|
  {
    seq(|groups|, i requires 0 <= i < |groups| => JoinWith(" ", groups[i]))
  }

  /** The list `pdf_to_chunks` returns for the words of the text. */
  function Chunks(words: seq<string>, tokens: string -> nat, maxTokens: int): seq<string>
  {
    Texts(Groups(words, tokens, maxTokens))
  }

  function Flatten(groups: seq<seq<string>>): seq<string>
  {
    if groups == [] then [] else Flatten(groups[..|groups| - 1]) + groups[|groups| - 1]
  }

  /** A chunk within the limit, or a single word that alone exceeds it. */
  predicate Fits(g: seq<string>, tokens: string -> nat, maxTokens: int)
  {
    Total(g, tokens) <= maxTokens || |g| == 1
  }

  /** Every chunk but the last is followed by a non-empty one whose first word would not have fitted. */
  predicate ClosesGreedily(gs: seq<seq<string>>, tokens: string -> nat, maxTokens: int)
  {
    forall i :: 0 <= i < |gs| - 1 ==> Closed(gs[i], gs[i + 1], tokens, maxTokens)
  }

  predicate Closed(g: seq<string>, next: seq<string>, tokens: string -> nat, maxTokens: int)
  {
    next != [] && Total(g, tokens) + tokens(next[0]) > maxTokens
  }

  /** `pdf_to_chunks`: the greedy loop over the words of the first `maxPages` pages. */
  method PdfToChunks(pages: seq<Option<string>>, maxPages: int := DefaultMaxPages,
                     maxTokensPerChunk: int := DefaultMaxTokensPerChunk, tokens: string -> nat)
    returns (chunks: seq<string>)
    ensures chunks == Chunks(SplitWords(FullText(pages, maxPages)), tokens, maxTokensPerChunk)
  {
    var fullText := FullText(pages, maxPages);
    var words := SplitWords(fullText);
    chunks := [];
    var chunk: seq<string> := [];
    var tokenCount := 0;
    ghost var closed: seq<seq<string>> := [];
    for i := 0 to |words|
      invariant Run(words[..i], tokens, maxTokensPerChunk) == ChunkState(closed, chunk, tokenCount)
      invariant chunks == Texts(closed)
    {
      var word := words[i];
      var wordTokens := tokens(word);
      assert words[..i + 1][..i] == words[..i];
      if tokenCount + wordTokens > maxTokensPerChunk {
        chunks := chunks + [JoinWith(" ", chunk)];
        closed := closed + [chunk];
        chunk := [];
        tokenCount := 0;
      }
      chunk := chunk + [word];
      tokenCount := tokenCount + wordTokens;
    }
    assert words[..|words|] == words;
    if chunk != [] {
      chunks := chunks + [JoinWith(" ", chunk)];
      assert chunks == Texts(closed + [chunk]);
    }
  }

  // ---------------------------------------------------------------- lemmas

  lemma {:induction false} FlattenAppend(groups: seq<seq<string>>, g: seq<string>)
    ensures Flatten(groups + [g]) == Flatten(groups) + g
  {
    assert (groups + [g])[..|groups|] == groups;
  }

  /** The open chunk is empty only before the first word, and its count is its token total. */
  lemma {:induction false} RunOpen(words: seq<string>, tokens: string -> nat, maxTokens: int)
    ensures var s := Run(words, tokens, maxTokens);
            && (s.open == [] <==> words == [])
            && (words == [] ==> s.closed == [])
            && s.count == Total(s.open, tokens)
  {
    if words != [] {
      var front := words[..|words| - 1];
      RunOpen(front, tokens, maxTokens);
      var s := Run(front, tokens, maxTokens);
      var w := words[|words| - 1];
      assert (s.open + [w])[..|s.open|] == s.open;
      assert [w][..0] == [];
    }
  }

  /** The closed chunks followed by the open one are exactly the words read so far. */
  lemma {:induction false} RunFlatten(words: seq<string>, tokens: string -> nat, maxTokens: int)
    ensures var s := Run(words, tokens, maxTokens);
            Flatten(s.closed) + s.open == words
  {
    if words != [] {
      var front := words[..|words| - 1];
      var w := words[|words| - 1];
      RunFlatten(front, tokens, maxTokens);
      var s := Run(front, tokens, maxTokens);
      StepFlatten(s, w, tokens, maxTokens);
      SplitLast(words);
    }
  }

  /** One step of the loop appends its word to the closed chunks followed by the open one. */
  lemma StepFlatten(s: ChunkState, w: string, tokens: string -> nat, maxTokens: int)
    ensures var next := StepWord(s, w, tokens, maxTokens);
            Flatten(next.closed) + next.open == (Flatten(s.closed) + s.open) + [w]
  {
    if s.count + tokens(w) > maxTokens {
      FlattenAppend(s.closed, s.open);
    }
  }

  /** Concatenating the chunks' words in order gives back the words of the text. */
  lemma GroupsFlatten(words: seq<string>, tokens: string -> nat, maxTokens: int)
    ensures Flatten(Groups(words, tokens, maxTokens)) == words
  {
    var s := Run(words, tokens, maxTokens);
    RunFlatten(words, tokens, maxTokens);
    if s.open != [] {
      FlattenAppend(s.closed, s.open);
    } else {
      assert s.closed + [] == s.closed;
    }
  }

  /** Every chunk but an empty first one fits the limit or is a single word over it. */
  lemma {:induction false} RunBound(words: seq<string>, tokens: string -> nat, maxTokens: int)
    ensures var s := Run(words, tokens, maxTokens);
            && (forall i :: 0 <= i < |s.closed| ==>
                  Fits(s.closed[i], tokens, maxTokens) || (i == 0 && s.closed[i] == []))
            && (s.open == [] || Fits(s.open, tokens, maxTokens))
  {
    if words != [] {
      var front := words[..|words| - 1];
      var w := words[|words| - 1];
      RunBound(front, tokens, maxTokens);
      RunOpen(front, tokens, maxTokens);
      var s := Run(front, tokens, maxTokens);
      assert (s.open + [w])[..|s.open|] == s.open;
      assert [w][..0] == [];
    }
  }

  /** Each chunk closes only because the next word would have pushed it over the limit. */
  lemma {:induction false} RunGreedy(words: seq<string>, tokens: string -> nat, maxTokens: int)
    ensures var s := Run(words, tokens, maxTokens);
            ClosesGreedily(s.closed + [s.open], tokens, maxTokens)
  {
    if words != [] {
      var front := words[..|words| - 1];
      var w := words[|words| - 1];
      RunGreedy(front, tokens, maxTokens);
      RunOpen(front, tokens, maxTokens);
      var s := Run(front, tokens, maxTokens);
      var n := Run(words, tokens, maxTokens);
      var gs := s.closed + [s.open];
      var ns := n.closed + [n.open];
      forall i | 0 <= i < |ns| - 1
        ensures Closed(ns[i], ns[i + 1], tokens, maxTokens)
      {
        if i < |s.closed| {
          assert ns[i] == gs[i];
          assert Closed(gs[i], gs[i + 1], tokens, maxTokens);
          if i + 1 < |s.closed| || n.closed == s.closed {
            assert ns[i + 1][0] == gs[i + 1][0];
          }
        }
      }
    }
  }

  /** The first chunk is empty exactly when the first word alone exceeds the limit. */
  lemma {:induction false} RunLeadingEmpty(words: seq<string>, tokens: string -> nat, maxTokens: int)
    requires words != []
    ensures var s := Run(words, tokens, maxTokens);
            (|s.closed| > 0 && s.closed[0] == []) <==> tokens(words[0]) > maxTokens
  {
    var front := words[..|words| - 1];
    RunOpen(front, tokens, maxTokens);
    if front != [] {
      RunLeadingEmpty(front, tokens, maxTokens);
      assert front[0] == words[0];
    }
  }

  /** The properties of the chunking: the words come back in order, each chunk respects the limit unless it is
      one overlong word or an empty first chunk, every chunk but the last closed because the next word would
      not fit, an empty string leads exactly when the first word alone is over the limit, and there are no
      chunks exactly when there are no words. */
  lemma ChunkingSpec(words: seq<string>, tokens: string -> nat, maxTokens: int)
    ensures var gs := Groups(words, tokens, maxTokens);
            && Flatten(gs) == words
            && (gs == [] <==> words == [])
            && (forall i :: 0 <= i < |gs| ==> Fits(gs[i], tokens, maxTokens) || (i == 0 && gs[i] == []))
            && ClosesGreedily(gs, tokens, maxTokens)
            && (words != [] ==> (gs[0] == [] <==> tokens(words[0]) > maxTokens))
            && (words != [] ==> gs[|gs| - 1] != [])
            && Chunks(words, tokens, maxTokens) == Texts(gs)
  {
    var s := Run(words, tokens, maxTokens);
    GroupsFlatten(words, tokens, maxTokens);
    RunOpen(words, tokens, maxTokens);
    RunBound(words, tokens, maxTokens);
    RunGreedy(words, tokens, maxTokens);
    var gs := Groups(words, tokens, maxTokens);
    var all := s.closed + [s.open];
    forall i | 0 <= i < |gs| - 1 ensures Closed(gs[i], gs[i + 1], tokens, maxTokens) {
      assert gs[i] == all[i] && gs[i + 1] == all[i + 1];
    }
    if words != [] {
      RunLeadingEmpty(words, tokens, maxTokens);
    }
  }

  /** With words from `str.split()`, splitting a chunk's text again gives back that chunk's words. */
  lemma ChunkResplits(words: seq<string>, tokens: string -> nat, maxTokens: int, i: nat)
    requires forall k :: 0 <= k < |words| ==> IsWord(words[k])
    requires i < |Groups(words, tokens, maxTokens)|
    ensures SplitWords(Chunks(words, tokens, maxTokens)[i]) == Groups(words, tokens, maxTokens)[i]
  {
    var gs := Groups(words, tokens, maxTokens);
    GroupsFlatten(words, tokens, maxTokens);
    FlattenHas(gs, i);
    forall k | 0 <= k < |gs[i]| ensures IsWord(gs[i][k]) {
      assert gs[i][k] in gs[i];
      var j :| 0 <= j < |words| && words[j] == gs[i][k];
    }
    SplitJoinSpace(gs[i]);
  }

  /** Every word of a group occurs in the flattened sequence. */
  lemma {:induction false} FlattenHas(groups: seq<seq<string>>, i: nat)
    requires i < |groups|
    ensures forall w :: w in groups[i] ==> w in Flatten(groups)
  {
    var front := groups[..|groups| - 1];
    if i < |front| {
      FlattenHas(front, i);
      assert groups[i] == front[i];
    }
  }
}
