/**
 * The streaming decode loop of `transcribe`: read the audio in chunks of at
 * most 4000 frames until a read comes back empty, feed each chunk to the
 * recognizer, keep a result only when the recognizer accepts the chunk, and
 * append the recognizer's final result at the end.
 */
module Recognition {
  import opened Transcript

  /** Frames requested per read. */
  const ChunkSize: nat := 4000

  /** A 16-bit signed sample, the dtype the audio is read with. */
  type Int16 = x: int | -0x8000 <= x < 0x8000

  /** One sample per channel. */
  type Frame = seq<Int16>

  type Chunk = seq<Frame>

  /**
   * The speech recognizer as an oracle. It is stateful: each answer is a
   * function of every chunk fed to it so far, the last one included.
   * `accepts` is what AcceptWaveform returns, `result` what Result returns
   * after an accepted chunk, `final` what FinalResult returns at the end.
   */
  datatype Recognizer = Recognizer(
    accepts: seq<Chunk> -> bool,
    result: seq<Chunk> -> Record,
    final: seq<Chunk> -> Record)

  /** `read(n)` on an audio file whose cursor is at `pos`: the next `n` frames, fewer at the end. */
  function Read(audio: seq<Frame>, pos: nat, n: nat): (data: Chunk)
    requires pos <= |audio|
    ensures |data| == if pos + n <= |audio| then n else |audio| - pos
    ensures data == audio[pos..pos + |data|]
  {
    audio[pos..if pos + n <= |audio| then pos + n else |audio|]
  }

  /** The chunks, concatenated. */
  function Flatten(chunks: seq<Chunk>): seq<Frame>
    decreases |chunks|
  {
    if chunks == [] then [] else chunks[0] + Flatten(chunks[1..])
  }

  /** The chunks successive reads deliver from cursor `pos` on, before the first empty one. */
  function ChunksFrom(audio: seq<Frame>, pos: nat): seq<Chunk>
    requires pos <= |audio|
    decreases |audio| - pos
  {
    if pos == |audio| then []
    else
      var data := Read(audio, pos, ChunkSize);
      var rest := ChunksFrom(audio, pos + |data|);
      [data] + rest
  }

  /** The chunks of the whole audio. */
  function Chunks(audio: seq<Frame>): seq<Chunk> {
    ChunksFrom(audio, 0)
  }

  /** Every chunk holds between 1 and ChunkSize frames, and all but the last exactly ChunkSize. */
  lemma {:induction false} ChunkSizes(audio: seq<Frame>, pos: nat)
    requires pos <= |audio|
    ensures forall i :: 0 <= i < |ChunksFrom(audio, pos)| ==> 0 < |ChunksFrom(audio, pos)[i]| <= ChunkSize
    ensures forall i :: 0 <= i < |ChunksFrom(audio, pos)| - 1 ==> |ChunksFrom(audio, pos)[i]| == ChunkSize
    decreases |audio| - pos
  {
    if pos < |audio| {
      var data := Read(audio, pos, ChunkSize);
      ChunkSizes(audio, pos + |data|);
      assert ChunksFrom(audio, pos) == [data] + ChunksFrom(audio, pos + |data|);
    }
  }

  /** The chunks read from `pos` on are the rest of the audio, in order, with nothing lost or repeated. */
  lemma {:induction false} ChunksCoverAudio(audio: seq<Frame>, pos: nat)
    requires pos <= |audio|
    ensures Flatten(ChunksFrom(audio, pos)) == audio[pos..]
    decreases |audio| - pos
  {
    if pos < |audio| {
      var data := Read(audio, pos, ChunkSize);
      ChunksCoverAudio(audio, pos + |data|);
      assert ChunksFrom(audio, pos)[1..] == ChunksFrom(audio, pos + |data|);
      assert audio[pos..] == data + audio[pos + |data|..];
    }
  }

  /** There are ceil(n / ChunkSize) chunks for n frames. */
  lemma {:induction false} ChunkCount(audio: seq<Frame>, pos: nat)
    requires pos <= |audio|
    ensures |ChunksFrom(audio, pos)| == (|audio| - pos + ChunkSize - 1) / ChunkSize
    decreases |audio| - pos
  {
    if pos < |audio| {
      var data := Read(audio, pos, ChunkSize);
      ChunkCount(audio, pos + |data|);
    }
  }

  /** The results kept while `fed` was fed chunk by chunk: one per accepted chunk, in order. */
  function Kept(rec: Recognizer, fed: seq<Chunk>): seq<Record>
    decreases |fed|
  {
    if fed == [] then []
    else
      var before := Kept(rec, fed[..|fed| - 1]);
      if rec.accepts(fed) then before + [rec.result(fed)] else before
  }

  /** The results list at the end of the loop: the kept results and then the final one. */
  function Results(rec: Recognizer, audio: seq<Frame>): seq<Record> {
    var chunks := Chunks(audio);
    Kept(rec, chunks) + [rec.final(chunks)]
  }

  /**
   * The lengths of the prefixes of `fed` after which the recognizer
   * accepted, in increasing order: every such length occurs, and no other.
   */
  function AcceptedPrefixes(rec: Recognizer, fed: seq<Chunk>): (lens: seq<nat>)
    ensures forall j :: 0 <= j < |lens| ==> 1 <= lens[j] <= |fed| && rec.accepts(fed[..lens[j]])
    ensures forall j, k :: 0 <= j < k < |lens| ==> lens[j] < lens[k]
    ensures forall n :: 1 <= n <= |fed| && rec.accepts(fed[..n]) ==> n in lens
    decreases |fed|
  {
    if fed == [] then []
    else
      var init := fed[..|fed| - 1];
      var before := AcceptedPrefixes(rec, init);
      assert forall n :: 1 <= n < |fed| ==> fed[..n] == init[..n];
      assert fed[..|fed|] == fed;
      if rec.accepts(fed) then before + [|fed|] else before
  }

  /**
   * Kept is an ordered filter: it holds exactly one result per accepted
   * prefix, the one Result gave at that point, in chunk order.
   */
  lemma {:induction false} KeptIsOrderedFilter(rec: Recognizer, fed: seq<Chunk>)
    ensures |Kept(rec, fed)| == |AcceptedPrefixes(rec, fed)|
    ensures forall j :: 0 <= j < |Kept(rec, fed)| ==>
      Kept(rec, fed)[j] == rec.result(fed[..AcceptedPrefixes(rec, fed)[j]])
    decreases |fed|
  {
    if fed != [] {
      var init := fed[..|fed| - 1];
      KeptIsOrderedFilter(rec, init);
      assert forall n :: 1 <= n < |fed| ==> fed[..n] == init[..n];
      assert fed[..|fed|] == fed;
    }
  }

  /**
   * The results list holds one entry per accepted chunk, in chunk order,
   * followed by exactly one final result.
   */
  lemma ResultsShape(rec: Recognizer, audio: seq<Frame>)
    ensures |Results(rec, audio)| == |AcceptedPrefixes(rec, Chunks(audio))| + 1
    ensures Results(rec, audio)[|Results(rec, audio)| - 1] == rec.final(Chunks(audio))
    ensures forall j :: 0 <= j < |Results(rec, audio)| - 1 ==>
      Results(rec, audio)[j] == rec.result(Chunks(audio)[..AcceptedPrefixes(rec, Chunks(audio))[j]])
  {
    KeptIsOrderedFilter(rec, Chunks(audio));
  }

  /** When the recognizer accepts after no prefix of the chunks, nothing is kept. */
  lemma {:induction false} NothingAccepted(rec: Recognizer, fed: seq<Chunk>)
    requires forall n :: 1 <= n <= |fed| ==> !rec.accepts(fed[..n])
    ensures Kept(rec, fed) == []
    decreases |fed|
  {
    if fed != [] {
      var init := fed[..|fed| - 1];
      assert forall n :: 1 <= n <= |init| ==> init[..n] == fed[..n];
      NothingAccepted(rec, init);
      assert fed[..|fed|] == fed;
    }
  }

  /** Feeding one more chunk keeps one more result exactly when the recognizer accepts. */
  lemma KeptAfterFeed(rec: Recognizer, fed: seq<Chunk>, data: Chunk)
    ensures Kept(rec, fed + [data]) ==
      if rec.accepts(fed + [data]) then Kept(rec, fed) + [rec.result(fed + [data])] else Kept(rec, fed)
  {
    assert (fed + [data])[..|fed|] == fed;
  }

  /**
   * The loop of transcribe_audio. `pos` is the audio file's cursor and
   * `fed` what the recognizer has consumed. Returns the results list and
   * the chunks fed, which are the Chunks of the audio.
   */
  method CollectResults(audio: seq<Frame>, rec: Recognizer) returns (results: seq<Record>, fed: seq<Chunk>)
    ensures fed == Chunks(audio)
    ensures results == Kept(rec, fed) + [rec.final(fed)]
  {
    results, fed := [], [];
    var pos := 0;
    while true
      invariant pos <= |audio|
      invariant fed + ChunksFrom(audio, pos) == Chunks(audio)
      invariant results == Kept(rec, fed)
      decreases |audio| - pos
    {
      var data := Read(audio, pos, ChunkSize);
      if |data| == 0 {
        assert pos == |audio|;
        break;
      }
      KeptAfterFeed(rec, fed, data);
      assert (fed + [data]) + ChunksFrom(audio, pos + |data|) == fed + ChunksFrom(audio, pos);
      fed := fed + [data];
      if rec.accepts(fed) {
        results := results + [rec.result(fed)];
      }
      pos := pos + |data|;
    }
    assert fed + [] == fed;
    results := results + [rec.final(fed)];
  }
}
