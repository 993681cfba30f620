/**
 * Text chunking of the Kokoro command-line tool (backend/kokoro-tts.py):
 * `chunk_text`, which packs sentences into chunks of bounded size, and the
 * word split that `process_chunk_sequential` falls back to when the model
 * rejects a chunk as too long. Both splitters pack words greedily with the
 * same rule; it is modelled once, as `Pack`.
 */
module Chunking {
  import opened Strings

  // ---------------------------------------------------------------- greedy word packing

  /** The size both word splitters charge for a group of words: Σ (len(word) + 1). */
  function PieceSize(ws: seq<string>): nat {
    SumLengths(ws) + |ws|
  }

  /** Concatenation of a sequence of word lists. */
  function Flatten(gs: seq<seq<string>>): seq<string> {
    if gs == [] then [] else Flatten(gs[..|gs| - 1]) + gs[|gs| - 1]
  }

  lemma {:induction false} FlattenAppend(a: seq<seq<string>>, b: seq<seq<string>>)
    ensures Flatten(a + b) == Flatten(a) + Flatten(b)
    decreases |b|
  {
    if b == [] {
      assert a + b == a;
    } else {
      assert (a + b)[..|a + b| - 1] == a + b[..|b| - 1];
      FlattenAppend(a, b[..|b| - 1]);
    }
  }

  lemma FlattenSingle(g: seq<string>)
    ensures Flatten([g]) == g
  {
    assert [g][..0] == [];
  }

  /**
   * The greedy packing loop from the state (pieces still open: `current`, its
   * charged size `size`): a word that would push the size over `limit` closes
   * the open piece (if any) and opens a new one holding just that word.
   */
  function PackFrom(words: seq<string>, limit: nat, current: seq<string>, size: nat): seq<seq<string>>
    decreases |words|
  {
    if words == [] then (if current != [] then [current] else [])
    else
      var w := words[0];
      var wordSize := |w| + 1;
      if size + wordSize > limit then
        (if current != [] then [current] else []) + PackFrom(words[1..], limit, [w], wordSize)
      else
        PackFrom(words[1..], limit, current + [w], size + wordSize)
  }

  /** The groups of words the greedy packing produces from an empty start. */
  function Pack(words: seq<string>, limit: nat): seq<seq<string>> {
    PackFrom(words, limit, [], 0)
  }

  /** No group is empty, and a group over the limit holds a single word. */
  predicate PackedWell(gs: seq<seq<string>>, limit: nat) {
    forall k :: 0 <= k < |gs| ==> gs[k] != [] && (|gs[k]| == 1 || PieceSize(gs[k]) <= limit)
  }

  /** A group was closed only because the next word did not fit. */
  predicate PackedMaximal(gs: seq<seq<string>>, limit: nat) {
    forall k :: 0 <= k < |gs| - 1 && gs[k + 1] != [] ==> PieceSize(gs[k]) + |gs[k + 1][0]| + 1 > limit
  }

  lemma {:induction false} PackFromFlatten(words: seq<string>, limit: nat, current: seq<string>, size: nat)
    ensures Flatten(PackFrom(words, limit, current, size)) == current + words
    decreases |words|
  {
    if words == [] {
      if current != [] {
        FlattenSingle(current);
      }
    } else {
      var w := words[0];
      var wordSize := |w| + 1;
      assert words == [w] + words[1..];
      if size + wordSize > limit {
        PackFromFlatten(words[1..], limit, [w], wordSize);
        var head := if current != [] then [current] else [];
        FlattenAppend(head, PackFrom(words[1..], limit, [w], wordSize));
        if current != [] {
          FlattenSingle(current);
        }
      } else {
        assert (current + [w]) + words[1..] == current + words;
        PackFromFlatten(words[1..], limit, current + [w], size + wordSize);
      }
    }
  }

  lemma {:induction false} PackFromWell(words: seq<string>, limit: nat, current: seq<string>, size: nat)
    requires size == PieceSize(current)
    requires current != [] ==> |current| == 1 || size <= limit
    ensures PackedWell(PackFrom(words, limit, current, size), limit)
    decreases |words|
  {
    if words != [] {
      var w := words[0];
      var wordSize := |w| + 1;
      if size + wordSize > limit {
        assert SumLengths([w]) == |w| by {
          assert [w][1..] == [];
        }
        PackFromWell(words[1..], limit, [w], wordSize);
      } else {
        SumLengthsAppend(current, [w]);
        PackFromWell(words[1..], limit, current + [w], size + wordSize);
      }
    }
  }

  lemma {:induction false} PackFromFirst(words: seq<string>, limit: nat, current: seq<string>, size: nat)
    requires current + words != []
    ensures var r := PackFrom(words, limit, current, size);
      r != [] && r[0] != [] && r[0][0] == (current + words)[0]
    decreases |words|
  {
    if words != [] {
      var w := words[0];
      var wordSize := |w| + 1;
      if size + wordSize > limit {
        PackFromFirst(words[1..], limit, [w], wordSize);
      } else {
        PackFromFirst(words[1..], limit, current + [w], size + wordSize);
      }
    }
  }

  lemma {:induction false} PackFromMaximal(words: seq<string>, limit: nat, current: seq<string>, size: nat)
    requires size == PieceSize(current)
    ensures PackedMaximal(PackFrom(words, limit, current, size), limit)
    decreases |words|
  {
    if words != [] {
      var w := words[0];
      var wordSize := |w| + 1;
      if size + wordSize > limit {
        assert SumLengths([w]) == |w| by {
          assert [w][1..] == [];
        }
        PackFromMaximal(words[1..], limit, [w], wordSize);
        var rest := PackFrom(words[1..], limit, [w], wordSize);
        if current != [] {
          PackFromFirst(words[1..], limit, [w], wordSize);
          var r := [current] + rest;
          forall k | 0 <= k < |r| - 1 && r[k + 1] != []
            ensures PieceSize(r[k]) + |r[k + 1][0]| + 1 > limit
          {
            if k > 0 {
              assert r[k] == rest[k - 1] && r[k + 1] == rest[k];
            }
          }
        }
      } else {
        SumLengthsAppend(current, [w]);
        PackFromMaximal(words[1..], limit, current + [w], size + wordSize);
      }
    }
  }

  /**
   * The greedy packing keeps every word, in order; it never produces an empty
   * group; a group exceeds the limit only when it is a single word; and a group
   * ends only where its next word would have overflowed it.
   */
  lemma PackProperties(words: seq<string>, limit: nat)
    ensures Flatten(Pack(words, limit)) == words
    ensures PackedWell(Pack(words, limit), limit)
    ensures PackedMaximal(Pack(words, limit), limit)
    ensures words == [] <==> Pack(words, limit) == []
  {
    PackFromFlatten(words, limit, [], 0);
    PackFromWell(words, limit, [], 0);
    PackFromMaximal(words, limit, [], 0);
    assert [] + words == words;
    if words != [] {
      PackFromFirst(words, limit, [], 0);
    }
  }

  lemma {:induction false} FlattenMember(gs: seq<seq<string>>, k: nat, j: nat)
    requires k < |gs| && j < |gs[k]|
    ensures gs[k][j] in Flatten(gs)
    decreases |gs|
  {
    if k < |gs| - 1 {
      FlattenMember(gs[..|gs| - 1], k, j);
    }
  }

  /** A group of a packing of words consists of words. */
  lemma PackedWords(words: seq<string>, limit: nat, k: nat)
    requires AllWords(words)
    requires k < |Pack(words, limit)|
    ensures AllWords(Pack(words, limit)[k])
  {
    var gs := Pack(words, limit);
    PackProperties(words, limit);
    forall j | 0 <= j < |gs[k]| ensures |gs[k][j]| > 0 && NoSpace(gs[k][j]) {
      FlattenMember(gs, k, j);
    }
  }

  /** `' '.join(piece).strip()`: how the retry split renders a piece. */
  function RetryPiece(g: seq<string>): string {
    Strip(Join(g, " "))
  }

  /** `' '.join(piece).strip() + '.'`: how `chunk_text` renders a piece of an oversized sentence. */
  function SentencePiece(g: seq<string>): string {
    Strip(Join(g, " ")) + "."
  }

  /** The rendered pieces, in order. */
  function RenderAll(gs: seq<seq<string>>, render: seq<string> -> string): (r: seq<string>)
    ensures |r| == |gs|
  {
    if gs == [] then [] else RenderAll(gs[..|gs| - 1], render) + [render(gs[|gs| - 1])]
  }

  lemma {:induction false} RenderAllIndex(gs: seq<seq<string>>, render: seq<string> -> string, k: nat)
    requires k < |gs|
    ensures |RenderAll(gs, render)| == |gs| && RenderAll(gs, render)[k] == render(gs[k])
    decreases |gs|
  {
    RenderAllLength(gs, render);
    if k < |gs| - 1 {
      RenderAllIndex(gs[..|gs| - 1], render, k);
    }
  }

  lemma {:induction false} RenderAllLength(gs: seq<seq<string>>, render: seq<string> -> string)
    ensures |RenderAll(gs, render)| == |gs|
    decreases |gs|
  {
    if gs != [] {
      RenderAllLength(gs[..|gs| - 1], render);
    }
  }

  lemma RenderAllSnoc(gs: seq<seq<string>>, g: seq<string>, render: seq<string> -> string)
    ensures RenderAll(gs + [g], render) == RenderAll(gs, render) + [render(g)]
  {
    assert (gs + [g])[..|gs|] == gs;
  }

  /** One word of the packing loop, as an equation between packings. */
  lemma PackFromStep(words: seq<string>, i: nat, limit: nat, current: seq<string>, size: nat)
    requires i < |words|
    ensures PackFrom(words[i..], limit, current, size) ==
      if size + |words[i]| + 1 > limit
      then (if current != [] then [current] else []) + PackFrom(words[i + 1..], limit, [words[i]], |words[i]| + 1)
      else PackFrom(words[i + 1..], limit, current + [words[i]], size + |words[i]| + 1)
  {
    assert words[i..][0] == words[i] && words[i..][1..] == words[i + 1..];
  }

  /** A word that overflows the open piece closes it and opens a new one. */
  lemma PackFromClose(groups: seq<seq<string>>, words: seq<string>, i: nat, limit: nat, current: seq<string>, size: nat)
    requires i < |words| && size + |words[i]| + 1 > limit && current != []
    ensures groups + PackFrom(words[i..], limit, current, size) ==
      (groups + [current]) + PackFrom(words[i + 1..], limit, [words[i]], |words[i]| + 1)
  {
    PackFromStep(words, i, limit, current, size);
  }

  /** A word that overflows when nothing is open starts the first piece. */
  lemma PackFromOpen(groups: seq<seq<string>>, words: seq<string>, i: nat, limit: nat, size: nat)
    requires i < |words| && size + |words[i]| + 1 > limit
    ensures groups + PackFrom(words[i..], limit, [], size) ==
      groups + PackFrom(words[i + 1..], limit, [words[i]], |words[i]| + 1)
  {
    PackFromStep(words, i, limit, [], size);
  }

  /** A word that fits joins the open piece. */
  lemma PackFromAdd(groups: seq<seq<string>>, words: seq<string>, i: nat, limit: nat, current: seq<string>, size: nat)
    requires i < |words| && size + |words[i]| + 1 <= limit
    ensures groups + PackFrom(words[i..], limit, current, size) ==
      groups + PackFrom(words[i + 1..], limit, current + [words[i]], size + |words[i]| + 1)
  {
    PackFromStep(words, i, limit, current, size);
  }

  /** After the last word, the open piece (if any) is the last group. */
  lemma PackFromEnd(groups: seq<seq<string>>, words: seq<string>, limit: nat, current: seq<string>, size: nat)
    ensures groups + PackFrom(words[|words|..], limit, current, size) ==
            groups + (if current != [] then [current] else [])
  {
    assert words[|words|..] == [];
  }

  /**
   * The packing loop shared by both splitters; each closed piece is rendered
   * with `render` as soon as it is closed.
   */
  method SplitWords(words: seq<string>, limit: nat, render: seq<string> -> string) returns (pieces: seq<string>)
    ensures pieces == RenderAll(Pack(words, limit), render)
  {
    pieces := [];
    ghost var groups: seq<seq<string>> := [];
    var current: seq<string> := [];
    var size: nat := 0;
    var i := 0;
    while i < |words|
      invariant 0 <= i <= |words|
      invariant groups + PackFrom(words[i..], limit, current, size) == Pack(words, limit)
      invariant pieces == RenderAll(groups, render)
    {
      var w := words[i];
      var wordSize := |w| + 1;
      if size + wordSize > limit {
        if current != [] {
          PackFromClose(groups, words, i, limit, current, size);
          RenderAllSnoc(groups, current, render);
          pieces := pieces + [render(current)];
          groups := groups + [current];
        } else {
          PackFromOpen(groups, words, i, limit, size);
        }
        current := [w];
        size := wordSize;
      } else {
        PackFromAdd(groups, words, i, limit, current, size);
        current := current + [w];
        size := size + wordSize;
      }
      i := i + 1;
    }
    PackFromEnd(groups, words, limit, current, size);
    if current != [] {
      RenderAllSnoc(groups, current, render);
      pieces := pieces + [render(current)];
      groups := groups + [current];
    } else {
      assert groups + [] == groups;
    }
  }

  // ---------------------------------------------------------------- retry split

  /**
   * The reduced size `int(len(chunk) * 0.6)`, computed exactly on integers as
   * ⌊3·len/5⌋.
   */
  function RetrySize(chunkLength: nat): nat {
    chunkLength * 3 / 5
  }

  /** The pieces `process_chunk_sequential` retries after a phoneme-length error. */
  function RetryPieces(chunk: string): seq<string> {
    RenderAll(Pack(Words(chunk), RetrySize(|chunk|)), RetryPiece)
  }

  method SplitForRetry(chunk: string) returns (pieces: seq<string>)
    ensures pieces == RetryPieces(chunk)
  {
    pieces := SplitWords(Words(chunk), RetrySize(|chunk|), RetryPiece);
  }

  /** A piece of words joined by spaces is as long as its charged size less one. */
  lemma RenderedWordsLength(g: seq<string>)
    requires AllWords(g) && g != []
    ensures Strip(Join(g, " ")) == Join(g, " ")
    ensures |Join(g, " ")| == PieceSize(g) - 1
    ensures Words(Join(g, " ")) == g
  {
    JoinWordsStripped(g);
    JoinLength(g, " ");
    WordsOfJoin(g);
  }

  /**
   * The retry pieces are non-empty; their words, read in order, are exactly
   * `chunk.split()`; and each piece is shorter than the reduced size unless it
   * is a single word.
   */
  lemma RetryPieceAt(words: seq<string>, limit: nat, k: nat)
    requires AllWords(words) && k < |Pack(words, limit)|
    ensures var piece := RenderAll(Pack(words, limit), RetryPiece)[k];
      Words(piece) == Pack(words, limit)[k]
      && |piece| > 0 && (|Pack(words, limit)[k]| == 1 || |piece| < limit)
  {
    var gs := Pack(words, limit);
    RenderAllIndex(gs, RetryPiece, k);
    PackProperties(words, limit);
    PackedWords(words, limit, k);
    RenderedWordsLength(gs[k]);
  }

  lemma RetryPiecesProperties(chunk: string)
    ensures var pieces := RetryPieces(chunk);
      var pieceWords := seq(|pieces|, k requires 0 <= k < |pieces| => Words(pieces[k]));
      && Flatten(pieceWords) == Words(chunk)
      && forall k :: 0 <= k < |pieces| ==>
           |pieces[k]| > 0 && (|pieceWords[k]| == 1 || |pieces[k]| < RetrySize(|chunk|))
  {
    var words, limit := Words(chunk), RetrySize(|chunk|);
    var gs := Pack(words, limit);
    var pieces := RetryPieces(chunk);
    var pieceWords := seq(|pieces|, k requires 0 <= k < |pieces| => Words(pieces[k]));
    forall k | 0 <= k < |pieces|
      ensures pieceWords[k] == gs[k]
      ensures |pieces[k]| > 0 && (|pieceWords[k]| == 1 || |pieces[k]| < limit)
    {
      RetryPieceAt(words, limit, k);
    }
    assert pieceWords == gs;
    PackProperties(words, limit);
  }

  // ---------------------------------------------------------------- chunk_text

  /** One emitted chunk: whole sentences joined by spaces, or a piece of an oversized sentence. */
  datatype Chunk = Sentences(sentences: seq<string>) | Piece(words: seq<string>)

  function Render(c: Chunk): string {
    match c
    case Sentences(ss) => Join(ss, " ")
    case Piece(ws) => SentencePiece(ws)
  }

  function RenderChunks(plan: seq<Chunk>): (r: seq<string>)
    ensures |r| == |plan|
  {
    if plan == [] then [] else RenderChunks(plan[..|plan| - 1]) + [Render(plan[|plan| - 1])]
  }

  lemma {:induction false} RenderChunksIndex(plan: seq<Chunk>, k: nat)
    requires k < |plan|
    ensures |RenderChunks(plan)| == |plan| && RenderChunks(plan)[k] == Render(plan[k])
    decreases |plan|
  {
    if k < |plan| - 1 {
      RenderChunksIndex(plan[..|plan| - 1], k);
    } else if k > 0 {
      RenderChunksIndex(plan[..|plan| - 1], k - 1);
    }
  }

  function PiecesOf(gs: seq<seq<string>>): (r: seq<Chunk>)
    ensures |r| == |gs| && forall k :: 0 <= k < |gs| ==> r[k] == Piece(gs[k])
  {
    seq(|gs|, k requires 0 <= k < |gs| => Piece(gs[k]))
  }

  /** The loop state of `chunk_text`: chunks emitted so far, the pending sentences and their size. */
  datatype ChunkState = ChunkState(plan: seq<Chunk>, current: seq<string>, currentSize: nat)

  /** `text.replace('\n', ' ').split('.')` */
  function RawSentences(text: string): seq<string> {
    SplitOn(ReplaceChar(text, '\n', ' '), '.')
  }

  /**
   * One iteration of the sentence loop. A blank sentence is skipped; a kept one
   * is stripped and re-terminated with '.'. One longer than the chunk size is
   * split into word pieces that are emitted at once; otherwise the pending
   * chunk is closed first if the sentence would overflow it.
   */
  function Step(st: ChunkState, raw: string, chunkSize: nat): ChunkState {
    if Strip(raw) == [] then st
    else
      var sentence := Strip(raw) + ".";
      if |sentence| > chunkSize then
        ChunkState(st.plan + PiecesOf(Pack(Words(sentence), chunkSize)), st.current, st.currentSize)
      else if st.currentSize + |sentence| > chunkSize && st.current != [] then
        ChunkState(st.plan + [Sentences(st.current)], [sentence], |sentence|)
      else
        ChunkState(st.plan, st.current + [sentence], st.currentSize + |sentence|)
  }

  function Fold(raws: seq<string>, chunkSize: nat): ChunkState {
    if raws == [] then ChunkState([], [], 0)
    else Step(Fold(raws[..|raws| - 1], chunkSize), raws[|raws| - 1], chunkSize)
  }

  /** After the loop, a non-empty pending chunk is emitted last. */
  function Finish(st: ChunkState): seq<Chunk> {
    if st.current != [] then st.plan + [Sentences(st.current)] else st.plan
  }

  function ChunkPlan(text: string, chunkSize: nat): seq<Chunk> {
    Finish(Fold(RawSentences(text), chunkSize))
  }

  /** The list `chunk_text(text, chunkSize)` returns. */
  function Chunks(text: string, chunkSize: nat): seq<string> {
    RenderChunks(ChunkPlan(text, chunkSize))
  }

  lemma {:induction false} RenderChunksAppend(a: seq<Chunk>, b: seq<Chunk>)
    ensures RenderChunks(a + b) == RenderChunks(a) + RenderChunks(b)
    decreases |b|
  {
    if b == [] {
      assert a + b == a;
    } else {
      assert (a + b)[..|a + b| - 1] == a + b[..|b| - 1];
      assert (a + b)[|a + b| - 1] == b[|b| - 1];
      RenderChunksAppend(a, b[..|b| - 1]);
    }
  }

  lemma RenderChunksSnoc(plan: seq<Chunk>, c: Chunk)
    ensures RenderChunks(plan + [c]) == RenderChunks(plan) + [Render(c)]
  {
    assert (plan + [c])[..|plan|] == plan;
  }

  lemma {:induction false} RenderPieces(gs: seq<seq<string>>)
    ensures RenderChunks(PiecesOf(gs)) == RenderAll(gs, SentencePiece)
    decreases |gs|
  {
    if gs != [] {
      var init, last := gs[..|gs| - 1], gs[|gs| - 1];
      var ps := PiecesOf(gs);
      assert ps[..|gs| - 1] == PiecesOf(init);
      RenderPieces(init);
      RenderChunksLast(ps);
      RenderAllLast(gs, SentencePiece);
      assert Render(ps[|gs| - 1]) == SentencePiece(last) by { assert ps[|gs| - 1] == Piece(last); }
    }
  }

  lemma RenderChunksLast(plan: seq<Chunk>)
    requires plan != []
    ensures RenderChunks(plan) == RenderChunks(plan[..|plan| - 1]) + [Render(plan[|plan| - 1])]
  {
  }

  lemma RenderAllLast(gs: seq<seq<string>>, render: seq<string> -> string)
    requires gs != []
    ensures RenderAll(gs, render) == RenderAll(gs[..|gs| - 1], render) + [render(gs[|gs| - 1])]
  {
  }

  lemma FoldSnoc(raws: seq<string>, i: nat, chunkSize: nat)
    requires i < |raws|
    ensures Fold(raws[..i + 1], chunkSize) == Step(Fold(raws[..i], chunkSize), raws[i], chunkSize)
  {
    assert raws[..i + 1][..i] == raws[..i];
  }

  /**
   * The body of the sentence loop: skip a blank sentence, emit the pieces of an
   * oversized one at once, or add the sentence to the pending chunk after
   * closing that chunk if the sentence would overflow it.
   */
  method AddSentence(raw: string, chunkSize: nat, chunks: seq<string>, current: seq<string>, currentSize: nat,
                     ghost plan: seq<Chunk>)
    returns (chunks': seq<string>, current': seq<string>, currentSize': nat, ghost plan': seq<Chunk>)
    requires chunks == RenderChunks(plan)
    ensures ChunkState(plan', current', currentSize') == Step(ChunkState(plan, current, currentSize), raw, chunkSize)
    ensures chunks' == RenderChunks(plan')
  {
    chunks', current', currentSize', plan' := chunks, current, currentSize, plan;
    var stripped := Strip(raw);
    if stripped == [] {
      return;
    }
    var sentence := stripped + ".";
    if |sentence| > chunkSize {
      var pieces := SplitWords(Words(sentence), chunkSize, SentencePiece);
      ghost var gs := Pack(Words(sentence), chunkSize);
      RenderChunksAppend(plan, PiecesOf(gs));
      RenderPieces(gs);
      chunks' := chunks + pieces;
      plan' := plan + PiecesOf(gs);
      return;
    }
    if currentSize + |sentence| > chunkSize && current != [] {
      RenderChunksSnoc(plan, Sentences(current));
      chunks' := chunks + [Join(current, " ")];
      plan' := plan + [Sentences(current)];
      current' := [];
      currentSize' := 0;
    }
    current' := current' + [sentence];
    currentSize' := currentSize' + |sentence|;
  }

  method ChunkText(text: string, chunkSize: nat) returns (chunks: seq<string>)
    ensures chunks == Chunks(text, chunkSize)
  {
    var sentences := RawSentences(text);
    chunks := [];
    ghost var plan: seq<Chunk> := [];
    var current: seq<string> := [];
    var currentSize: nat := 0;
    for i := 0 to |sentences|
      invariant Fold(sentences[..i], chunkSize) == ChunkState(plan, current, currentSize)
      invariant chunks == RenderChunks(plan)
    {
      FoldSnoc(sentences, i, chunkSize);
      chunks, current, currentSize, plan := AddSentence(sentences[i], chunkSize, chunks, current, currentSize, plan);
    }
    assert sentences[..|sentences|] == sentences;
    if current != [] {
      RenderChunksSnoc(plan, Sentences(current));
      chunks := chunks + [Join(current, " ")];
    }
  }

  // ---------------------------------------------------------------- what chunk_text promises

  /** The kept sentences that fit the chunk size, normalised, in input order. */
  function Fitting(raws: seq<string>, chunkSize: nat): seq<string> {
    if raws == [] then []
    else
      var raw := raws[|raws| - 1];
      var sentence := Strip(raw) + ".";
      Fitting(raws[..|raws| - 1], chunkSize)
        + (if Strip(raw) != [] && |sentence| <= chunkSize then [sentence] else [])
  }

  /** The words of the kept sentences longer than the chunk size, in input order. */
  function OversizedWords(raws: seq<string>, chunkSize: nat): seq<string> {
    if raws == [] then []
    else
      var raw := raws[|raws| - 1];
      var sentence := Strip(raw) + ".";
      OversizedWords(raws[..|raws| - 1], chunkSize)
        + (if Strip(raw) != [] && |sentence| > chunkSize then Words(sentence) else [])
  }

  /** The sentence lists of the sentence chunks, in order. */
  function Groups(plan: seq<Chunk>): seq<seq<string>> {
    if plan == [] then []
    else Groups(plan[..|plan| - 1]) + (match plan[|plan| - 1] case Sentences(ss) => [ss] case Piece(_) => [])
  }

  /** The words of the piece chunks, in order. */
  function PieceWords(plan: seq<Chunk>): seq<string> {
    if plan == [] then []
    else PieceWords(plan[..|plan| - 1]) + (match plan[|plan| - 1] case Sentences(_) => [] case Piece(ws) => ws)
  }

  lemma {:induction false} GroupsAppend(a: seq<Chunk>, b: seq<Chunk>)
    ensures Groups(a + b) == Groups(a) + Groups(b)
    ensures PieceWords(a + b) == PieceWords(a) + PieceWords(b)
    decreases |b|
  {
    if b == [] {
      assert a + b == a;
    } else {
      assert (a + b)[..|a + b| - 1] == a + b[..|b| - 1];
      assert (a + b)[|a + b| - 1] == b[|b| - 1];
      GroupsAppend(a, b[..|b| - 1]);
    }
  }

  lemma {:induction false} GroupsOfPieces(gs: seq<seq<string>>)
    ensures Groups(PiecesOf(gs)) == []
    ensures PieceWords(PiecesOf(gs)) == Flatten(gs)
    decreases |gs|
  {
    if gs != [] {
      assert PiecesOf(gs)[..|gs| - 1] == PiecesOf(gs[..|gs| - 1]);
      GroupsOfPieces(gs[..|gs| - 1]);
    }
  }

  /** A kept sentence: at least one character before its final '.', within the chunk size. */
  predicate SentenceOk(s: string, chunkSize: nat) {
    2 <= |s| <= chunkSize && s[|s| - 1] == '.'
  }

  predicate ChunkOk(c: Chunk, chunkSize: nat) {
    match c
    case Sentences(ss) =>
      ss != [] && SumLengths(ss) <= chunkSize && forall j :: 0 <= j < |ss| ==> SentenceOk(ss[j], chunkSize)
    case Piece(ws) =>
      ws != [] && AllWords(ws) && (|ws| == 1 || PieceSize(ws) <= chunkSize)
  }

  /** A sentence chunk was closed only because the next sentence would not fit. */
  predicate GroupsMaximal(gs: seq<seq<string>>, chunkSize: nat) {
    forall k :: 0 <= k < |gs| - 1 && gs[k + 1] != [] ==> SumLengths(gs[k]) + |gs[k + 1][0]| > chunkSize
  }

  lemma GroupsSnocSentences(plan: seq<Chunk>, ss: seq<string>)
    ensures Groups(plan + [Sentences(ss)]) == Groups(plan) + [ss]
    ensures PieceWords(plan + [Sentences(ss)]) == PieceWords(plan)
  {
    assert (plan + [Sentences(ss)])[..|plan|] == plan;
  }

  lemma GroupsAppendPieces(plan: seq<Chunk>, gs: seq<seq<string>>)
    ensures Groups(plan + PiecesOf(gs)) == Groups(plan)
    ensures PieceWords(plan + PiecesOf(gs)) == PieceWords(plan) + Flatten(gs)
  {
    GroupsAppend(plan, PiecesOf(gs));
    GroupsOfPieces(gs);
  }

  lemma MaximalSnoc(gs: seq<seq<string>>, g: seq<string>, chunkSize: nat)
    requires GroupsMaximal(gs, chunkSize)
    requires gs != [] ==> g != [] && SumLengths(gs[|gs| - 1]) + |g[0]| > chunkSize
    ensures GroupsMaximal(gs + [g], chunkSize)
  {
    var gs' := gs + [g];
    forall k | 0 <= k < |gs'| - 1 && gs'[k + 1] != []
      ensures SumLengths(gs'[k]) + |gs'[k + 1][0]| > chunkSize
    {
      assert gs'[k] == gs[k];
      if k < |gs| - 1 {
        assert gs'[k + 1] == gs[k + 1];
      }
    }
  }

  /** The pending sentences are kept sentences whose size is tracked and within the chunk size. */
  predicate PendingOk(st: ChunkState, chunkSize: nat) {
    && st.currentSize == SumLengths(st.current)
    && SumLengths(st.current) <= chunkSize
    && forall j :: 0 <= j < |st.current| ==> SentenceOk(st.current[j], chunkSize)
  }

  predicate PlanOk(plan: seq<Chunk>, chunkSize: nat) {
    forall k :: 0 <= k < |plan| ==> ChunkOk(plan[k], chunkSize)
  }

  /** Emitted and pending sentences are the fitting ones seen so far; pieces hold the oversized ones' words. */
  predicate ContentOk(st: ChunkState, raws: seq<string>, chunkSize: nat) {
    && Flatten(Groups(st.plan)) + st.current == Fitting(raws, chunkSize)
    && PieceWords(st.plan) == OversizedWords(raws, chunkSize)
  }

  /** Sentence chunks, and the pending one after the last of them, were closed only on overflow. */
  predicate LinkOk(st: ChunkState, chunkSize: nat) {
    && GroupsMaximal(Groups(st.plan), chunkSize)
    && (Groups(st.plan) != [] ==>
          st.current != [] && SumLengths(Groups(st.plan)[|Groups(st.plan)| - 1]) + |st.current[0]| > chunkSize)
  }

  predicate Inv(st: ChunkState, raws: seq<string>, chunkSize: nat) {
    PendingOk(st, chunkSize) && PlanOk(st.plan, chunkSize) && ContentOk(st, raws, chunkSize) && LinkOk(st, chunkSize)
  }

  lemma StepPending(st: ChunkState, raw: string, chunkSize: nat)
    requires PendingOk(st, chunkSize)
    ensures PendingOk(Step(st, raw, chunkSize), chunkSize)
  {
    var sentence := Strip(raw) + ".";
    if Strip(raw) != [] && |sentence| <= chunkSize {
      assert SumLengths([sentence]) == |sentence|;
      SumLengthsAppend(st.current, [sentence]);
    }
  }

  lemma StepPlan(st: ChunkState, raw: string, chunkSize: nat)
    requires PendingOk(st, chunkSize) && PlanOk(st.plan, chunkSize)
    ensures PlanOk(Step(st, raw, chunkSize).plan, chunkSize)
  {
    var sentence := Strip(raw) + ".";
    if Strip(raw) != [] && |sentence| > chunkSize {
      PlanAppendPieces(st.plan, Words(sentence), chunkSize);
    } else if Strip(raw) != [] && st.currentSize + |sentence| > chunkSize && st.current != [] {
      PlanSnocSentences(st, chunkSize);
    }
  }

  /** Appending the pieces of a packed word list keeps every chunk well formed. */
  lemma PlanAppendPieces(plan: seq<Chunk>, words: seq<string>, chunkSize: nat)
    requires PlanOk(plan, chunkSize) && AllWords(words)
    ensures PlanOk(plan + PiecesOf(Pack(words, chunkSize)), chunkSize)
  {
    var gs := Pack(words, chunkSize);
    var plan' := plan + PiecesOf(gs);
    PackProperties(words, chunkSize);
    forall k | 0 <= k < |plan'| ensures ChunkOk(plan'[k], chunkSize) {
      if k >= |plan| {
        PackedWords(words, chunkSize, k - |plan|);
        assert plan'[k] == Piece(gs[k - |plan|]);
      } else {
        assert plan'[k] == plan[k];
      }
    }
  }

  /** Closing a non-empty, well-formed pending chunk keeps every chunk well formed. */
  lemma PlanSnocSentences(st: ChunkState, chunkSize: nat)
    requires PendingOk(st, chunkSize) && PlanOk(st.plan, chunkSize) && st.current != []
    ensures PlanOk(st.plan + [Sentences(st.current)], chunkSize)
  {
    var plan' := st.plan + [Sentences(st.current)];
    forall k | 0 <= k < |plan'| ensures ChunkOk(plan'[k], chunkSize) {
      if k < |st.plan| {
        assert plan'[k] == st.plan[k];
      }
    }
  }

  lemma StepContent(st: ChunkState, raws: seq<string>, raw: string, chunkSize: nat)
    requires ContentOk(st, raws, chunkSize)
    ensures ContentOk(Step(st, raw, chunkSize), raws + [raw], chunkSize)
  {
    assert (raws + [raw])[..|raws|] == raws;
    StepFitting(st, raws, raw, chunkSize);
    StepOversized(st, raws, raw, chunkSize);
  }

  lemma StepFitting(st: ChunkState, raws: seq<string>, raw: string, chunkSize: nat)
    requires Flatten(Groups(st.plan)) + st.current == Fitting(raws, chunkSize)
    ensures var st' := Step(st, raw, chunkSize);
      Flatten(Groups(st'.plan)) + st'.current == Fitting(raws + [raw], chunkSize)
  {
    var sentence := Strip(raw) + ".";
    assert (raws + [raw])[..|raws|] == raws;
    var gs := Groups(st.plan);
    if Strip(raw) != [] {
      if |sentence| > chunkSize {
        GroupsAppendPieces(st.plan, Pack(Words(sentence), chunkSize));
      } else if st.currentSize + |sentence| > chunkSize && st.current != [] {
        GroupsSnocSentences(st.plan, st.current);
        FlattenAppend(gs, [st.current]);
        FlattenSingle(st.current);
      } else {
        assert Flatten(gs) + (st.current + [sentence]) == (Flatten(gs) + st.current) + [sentence];
      }
    }
  }

  lemma OversizedSnoc(raws: seq<string>, raw: string, chunkSize: nat)
    ensures OversizedWords(raws + [raw], chunkSize) == OversizedWords(raws, chunkSize)
      + (if Strip(raw) != [] && |Strip(raw) + "."| > chunkSize then Words(Strip(raw) + ".") else [])
  {
    assert (raws + [raw])[..|raws|] == raws;
  }

  lemma StepOversized(st: ChunkState, raws: seq<string>, raw: string, chunkSize: nat)
    requires PieceWords(st.plan) == OversizedWords(raws, chunkSize)
    ensures PieceWords(Step(st, raw, chunkSize).plan) == OversizedWords(raws + [raw], chunkSize)
  {
    OversizedSnoc(raws, raw, chunkSize);
    var sentence := Strip(raw) + ".";
    if Strip(raw) != [] {
      if |sentence| > chunkSize {
        PackProperties(Words(sentence), chunkSize);
        GroupsAppendPieces(st.plan, Pack(Words(sentence), chunkSize));
      } else if st.currentSize + |sentence| > chunkSize && st.current != [] {
        GroupsSnocSentences(st.plan, st.current);
      }
    }
  }

  lemma StepLink(st: ChunkState, raw: string, chunkSize: nat)
    requires PendingOk(st, chunkSize) && LinkOk(st, chunkSize)
    ensures LinkOk(Step(st, raw, chunkSize), chunkSize)
  {
    var sentence := Strip(raw) + ".";
    if Strip(raw) != [] {
      if |sentence| > chunkSize {
        GroupsAppendPieces(st.plan, Pack(Words(sentence), chunkSize));
      } else if st.currentSize + |sentence| > chunkSize && st.current != [] {
        GroupsSnocSentences(st.plan, st.current);
        MaximalSnoc(Groups(st.plan), st.current, chunkSize);
      } else if st.current == [] {
        assert Groups(st.plan) == [];
      }
    }
  }

  lemma StepInv(st: ChunkState, raws: seq<string>, raw: string, chunkSize: nat)
    requires Inv(st, raws, chunkSize)
    ensures Inv(Step(st, raw, chunkSize), raws + [raw], chunkSize)
  {
    StepPending(st, raw, chunkSize);
    StepPlan(st, raw, chunkSize);
    StepContent(st, raws, raw, chunkSize);
    StepLink(st, raw, chunkSize);
  }

  lemma {:induction false} FoldInv(raws: seq<string>, chunkSize: nat)
    ensures Inv(Fold(raws, chunkSize), raws, chunkSize)
    decreases |raws|
  {
    if raws != [] {
      var init := raws[..|raws| - 1];
      FoldInv(init, chunkSize);
      assert init + [raws[|raws| - 1]] == raws;
      StepInv(Fold(init, chunkSize), init, raws[|raws| - 1], chunkSize);
    }
  }

  /**
   * The chunk plan of `chunk_text`:
   * every sentence chunk holds kept sentences whose lengths, without the
   * joining spaces, sum to at most the chunk size, and every piece chunk holds
   * words and is within the size unless it is a single word;
   * the sentence chunks hold exactly the kept sentences that fit, in order,
   * and the piece chunks exactly the words of the oversized ones, in order;
   * a sentence chunk is closed only when its next sentence would overflow it.
   */
  lemma ChunkPlanProperties(text: string, chunkSize: nat)
    ensures var plan := ChunkPlan(text, chunkSize);
      && PlanOk(plan, chunkSize)
      && Flatten(Groups(plan)) == Fitting(RawSentences(text), chunkSize)
      && PieceWords(plan) == OversizedWords(RawSentences(text), chunkSize)
      && GroupsMaximal(Groups(plan), chunkSize)
  {
    var raws := RawSentences(text);
    var st := Fold(raws, chunkSize);
    FoldInv(raws, chunkSize);
    ChunkPlanOk(text, chunkSize);
    var gs := Groups(st.plan);
    if st.current != [] {
      GroupsSnocSentences(st.plan, st.current);
      FlattenAppend(gs, [st.current]);
      FlattenSingle(st.current);
      MaximalSnoc(gs, st.current, chunkSize);
    } else {
      assert Flatten(gs) + [] == Flatten(gs);
    }
  }

  /** Every chunk of the plan is well formed. */
  lemma ChunkPlanOk(text: string, chunkSize: nat)
    ensures PlanOk(ChunkPlan(text, chunkSize), chunkSize)
  {
    var st := Fold(RawSentences(text), chunkSize);
    FoldInv(RawSentences(text), chunkSize);
    assert PendingOk(st, chunkSize) && PlanOk(st.plan, chunkSize);
  }

  lemma {:induction false} JoinEndsWithLast(parts: seq<string>, sep: string)
    requires |parts| > 0
    ensures EndsWith(Join(parts, sep), parts[|parts| - 1])
    decreases |parts|
  {
    if |parts| > 1 {
      JoinEndsWithLast(parts[1..], sep);
    }
  }

  /**
   * Every chunk is non-empty and ends with '.'; a sentence chunk is as long as
   * its sentences plus one space between each two.
   */
  lemma ChunkShape(text: string, chunkSize: nat, k: nat)
    requires k < |Chunks(text, chunkSize)|
    ensures var c := Chunks(text, chunkSize)[k];
      |c| > 0 && c[|c| - 1] == '.'
    ensures match ChunkPlan(text, chunkSize)[k]
      case Sentences(ss) => |Chunks(text, chunkSize)[k]| == SumLengths(ss) + |ss| - 1
      case Piece(ws) => |Chunks(text, chunkSize)[k]| == PieceSize(ws)
  {
    ChunkPlanOk(text, chunkSize);
    RenderedChunkShape(ChunkPlan(text, chunkSize), chunkSize, k);
  }

  lemma RenderedChunkShape(plan: seq<Chunk>, chunkSize: nat, k: nat)
    requires PlanOk(plan, chunkSize) && k < |plan|
    ensures var c := RenderChunks(plan)[k];
      |c| > 0 && c[|c| - 1] == '.'
    ensures match plan[k]
      case Sentences(ss) => |RenderChunks(plan)[k]| == SumLengths(ss) + |ss| - 1
      case Piece(ws) => |RenderChunks(plan)[k]| == PieceSize(ws)
  {
    RenderChunksIndex(plan, k);
    RenderShape(plan[k], chunkSize);
  }

  lemma RenderShape(c: Chunk, chunkSize: nat)
    requires ChunkOk(c, chunkSize)
    ensures |Render(c)| > 0 && Render(c)[|Render(c)| - 1] == '.'
    ensures match c
      case Sentences(ss) => |Render(c)| == SumLengths(ss) + |ss| - 1
      case Piece(ws) => |Render(c)| == PieceSize(ws)
  {
    match c
    case Sentences(ss) =>
      SentencesShape(ss, chunkSize);
    case Piece(ws) =>
      PieceShape(ws);
  }

  lemma SentencesShape(ss: seq<string>, chunkSize: nat)
    requires ss != [] && SentenceOk(ss[|ss| - 1], chunkSize)
    ensures var j := Join(ss, " "); |j| > 0 && j[|j| - 1] == '.' && |j| == SumLengths(ss) + |ss| - 1
  {
    JoinEndsWithLast(ss, " ");
    JoinLength(ss, " ");
  }

  lemma PieceShape(ws: seq<string>)
    requires AllWords(ws) && ws != []
    ensures var p := SentencePiece(ws); |p| == PieceSize(ws) && p[|p| - 1] == '.'
  {
    RenderedWordsLength(ws);
  }

  /**
   * Pieces of an oversized sentence are emitted at once, so they come before
   * the sentences that were pending when it was read.
   */
  lemma PiecesBeforePending(raws: seq<string>, raw: string, chunkSize: nat)
    requires Strip(raw) != [] && |Strip(raw) + "."| > chunkSize
    requires Fold(raws, chunkSize).current != []
    ensures Finish(Fold(raws + [raw], chunkSize)) ==
      Fold(raws, chunkSize).plan + PiecesOf(Pack(Words(Strip(raw) + "."), chunkSize))
      + [Sentences(Fold(raws, chunkSize).current)]
  {
    assert (raws + [raw])[..|raws|] == raws;
  }

  /** The last of the words is non-empty and ends with `c`. */
  predicate LastWordEndsWith(ws: seq<string>, c: char) {
    |ws| > 0 && |ws[|ws| - 1]| > 0 && ws[|ws| - 1][|ws[|ws| - 1]| - 1] == c
  }

  lemma {:induction false} WordsLastChar(s: string)
    requires |s| > 0 && !IsSpace(s[|s| - 1])
    ensures LastWordEndsWith(Words(s), s[|s| - 1])
    decreases |s|
  {
    var c := s[|s| - 1];
    if IsSpace(s[0]) {
      var t := s[1..];
      assert t[|t| - 1] == c;
      WordsLastChar(t);
      WordsSkipSpace(s);
    } else {
      var n := RunLength(s);
      WordsRun(s);
      if n == |s| {
        assert s[n..] == [];
        assert s[..n] == s;
      } else {
        var t := s[n..];
        assert t[|t| - 1] == c;
        WordsLastChar(t);
        LastWordAppend([s[..n]], Words(t), c);
      }
    }
  }

  lemma WordsSkipSpace(s: string)
    requires |s| > 0 && IsSpace(s[0])
    ensures Words(s) == Words(s[1..])
  {
  }

  lemma WordsRun(s: string)
    requires |s| > 0 && !IsSpace(s[0])
    ensures Words(s) == [s[..RunLength(s)]] + Words(s[RunLength(s)..])
  {
  }

  lemma LastWordAppend(a: seq<string>, b: seq<string>, c: char)
    requires LastWordEndsWith(b, c)
    ensures LastWordEndsWith(a + b, c)
  {
    assert (a + b)[|a + b| - 1] == b[|b| - 1];
  }

  lemma FlattenLast(gs: seq<seq<string>>)
    requires gs != [] && gs[|gs| - 1] != []
    ensures var f := Flatten(gs); f != [] && f[|f| - 1] == gs[|gs| - 1][|gs[|gs| - 1]| - 1]
  {
  }

  /**
   * The last piece of an oversized sentence ends in "..": the sentence's own
   * '.' plus the one appended to every piece.
   */
  lemma LastPieceDoubleDot(raw: string, chunkSize: nat)
    requires Strip(raw) != [] && |Strip(raw) + "."| > chunkSize
    ensures var gs := Pack(Words(Strip(raw) + "."), chunkSize);
      gs != [] && EndsWith(SentencePiece(gs[|gs| - 1]), "..")
  {
    var sentence := Strip(raw) + ".";
    WordsLastChar(sentence);
    PackedEndsWithPeriod(Words(sentence), chunkSize);
  }

  lemma PackedEndsWithPeriod(words: seq<string>, limit: nat)
    requires AllWords(words) && words != []
    requires var w := words[|words| - 1]; w[|w| - 1] == '.'
    ensures var gs := Pack(words, limit);
      gs != [] && EndsWith(SentencePiece(gs[|gs| - 1]), "..")
  {
    var gs := Pack(words, limit);
    PackProperties(words, limit);
    FlattenLast(gs);
    PackedWords(words, limit, |gs| - 1);
    SentencePieceEnds(gs[|gs| - 1]);
  }

  lemma SentencePieceEnds(g: seq<string>)
    requires AllWords(g) && g != []
    requires var w := g[|g| - 1]; w[|w| - 1] == '.'
    ensures EndsWith(SentencePiece(g), "..")
  {
    RenderedWordsLength(g);
    JoinFirstLast(g);
    var p := SentencePiece(g);
    assert p == Join(g, " ") + ".";
    assert p[|p| - 2..] == "..";
  }
}
