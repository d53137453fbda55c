/**
 * Streaming generation (model/generation.py). A prompt is encoded and
 * appended to the session's token sequence, a job over the whole sequence is
 * handed to the engine, and the engine's result batches are turned into
 * server-sent events: text pieces are buffered and flushed every
 * `CHUNK_SIZE` pieces or at end of stream, and end of stream is followed by
 * a `[DONE]` event.
 */
module Generation {
  import opened Wrappers
  import opened Text
  import opened Init

  /** What the generator returns from decoding: a string or a list of strings. */
  datatype Decoded = Whole(text: string) | Pieces(parts: seq<string>)

  /** `normalize_decoded`: a list is joined with the empty separator, a string is kept. */
  function NormalizeDecoded(d: Decoded): (r: string)
    ensures d.Whole? ==> r == d.text
    ensures d.Pieces? && d.parts == [] ==> r == ""
    ensures d.Pieces? && |d.parts| == 1 ==> r == d.parts[0]
  {
    match d
    case Whole(text) => text
    case Pieces(parts) =>
      assert |parts| == 1 ==> Concat(parts) == Concat([]) + parts[0] == parts[0];
      Concat(parts)
  }

  /** Normalizing is idempotent: a normalized result is already a plain string. */
  lemma NormalizeIdempotent(d: Decoded)
    ensures NormalizeDecoded(Whole(NormalizeDecoded(d))) == NormalizeDecoded(d)
  {
  }

  /** Joining pieces commutes with splitting the list anywhere. */
  lemma NormalizeSplit(xs: seq<string>, ys: seq<string>)
    ensures NormalizeDecoded(Pieces(xs + ys)) == NormalizeDecoded(Pieces(xs)) + NormalizeDecoded(Pieces(ys))
  {
    ConcatAppend(xs, ys);
  }

  /** One result dictionary from `generator.iterate()`; `text` may be missing. */
  datatype EngineResult = EngineResult(stage: string, text: Option<string>, eos: bool)

  /** What the server streams: a content chunk made of buffered pieces, or `[DONE]`. */
  datatype Event = Content(pieces: seq<string>) | Done

  /** The job handed to the engine. */
  datatype Job = Job(inputIds: seq<int>, maxNewTokens: int, stopToken: int)

  datatype GenerationError = ModelNotLoaded

  const STREAMING: string := "streaming"

  /** `r.get("text", "")` */
  function TextOf(r: EngineResult): string
  {
    if r.text.Some? then r.text.value else ""
  }

  /** Only the last result of each non-empty batch is looked at. */
  function Examined(batches: seq<seq<EngineResult>>): (rs: seq<EngineResult>)
    ensures |rs| <= |batches|
  {
    if batches == [] then []
    else
      var b := batches[0];
      (if |b| >= 1 then [b[|b| - 1]] else []) + Examined(batches[1..])
  }

  /**
   * One examined result: a streaming result appends its text; the buffer is
   * flushed when the result is the end of stream or the buffer has reached
   * the chunk size; any end-of-stream result is then followed by `[DONE]`.
   */
  function Step(buffer: seq<string>, r: EngineResult, chunkSize: int): (out: (seq<string>, seq<Event>))
    ensures r.eos <==> out.1 != [] && out.1[|out.1| - 1] == Done
    ensures forall e :: e in out.1 && e.Content? ==> e.pieces == buffer + [TextOf(r)]
  {
    if r.stage != STREAMING then (buffer, if r.eos then [Done] else [])
    else
      var appended := buffer + [TextOf(r)];
      if r.eos then ([], [Content(appended), Done])
      else if |appended| >= chunkSize then ([], [Content(appended)])
      else (appended, [])
  }

  /** The remaining buffer and the events produced by a sequence of examined results. */
  function Run(buffer: seq<string>, rs: seq<EngineResult>, chunkSize: int): (seq<string>, seq<Event>)
    decreases |rs|
  {
    if rs == [] then (buffer, [])
    else
      var (b, e) := Step(buffer, rs[0], chunkSize);
      var (b', e') := Run(b, rs[1..], chunkSize);
      (b', e + e')
  }

  lemma RunCons(buffer: seq<string>, r: EngineResult, rs: seq<EngineResult>, chunkSize: int)
    ensures Run(buffer, [r] + rs, chunkSize)
         == (Run(Step(buffer, r, chunkSize).0, rs, chunkSize).0,
             Step(buffer, r, chunkSize).1 + Run(Step(buffer, r, chunkSize).0, rs, chunkSize).1)
  {
    assert ([r] + rs)[0] == r && ([r] + rs)[1..] == rs;
  }

  lemma ExaminedCons(batches: seq<seq<EngineResult>>, i: nat)
    requires i < |batches|
    ensures Examined(batches[i..])
         == (if |batches[i]| >= 1 then [batches[i][|batches[i]| - 1]] else []) + Examined(batches[i + 1..])
  {
    assert batches[i..][0] == batches[i] && batches[i..][1..] == batches[i + 1..];
  }

  /** The texts of the streaming results, in order. */
  function StreamedTexts(rs: seq<EngineResult>): seq<string>
  {
    if rs == [] then []
    else (if rs[0].stage == STREAMING then [TextOf(rs[0])] else []) + StreamedTexts(rs[1..])
  }

  /** The pieces of all content events, in order. */
  function ContentPieces(events: seq<Event>): seq<string>
  {
    if events == [] then []
    else (if events[0].Content? then events[0].pieces else []) + ContentPieces(events[1..])
  }

  lemma {:induction false} ContentPiecesAppend(xs: seq<Event>, ys: seq<Event>)
    ensures ContentPieces(xs + ys) == ContentPieces(xs) + ContentPieces(ys)
  {
    if xs == [] {
      assert xs + ys == ys;
    } else {
      assert (xs + ys)[0] == xs[0] && (xs + ys)[1..] == xs[1..] + ys;
      ContentPiecesAppend(xs[1..], ys);
    }
  }

  lemma StepPreservesText(buffer: seq<string>, r: EngineResult, chunkSize: int)
    ensures ContentPieces(Step(buffer, r, chunkSize).1) + Step(buffer, r, chunkSize).0
         == buffer + (if r.stage == STREAMING then [TextOf(r)] else [])
  {
    var appended := buffer + [TextOf(r)];
    assert ContentPieces([]) == [];
    assert ContentPieces([Done]) == [];
    assert ContentPieces([Content(appended)]) == appended;
    assert [Content(appended), Done][1..] == [Done];
    assert ContentPieces([Content(appended), Done]) == appended;
  }

  lemma AppendAssoc<T>(a: seq<T>, b: seq<T>, c: seq<T>)
    ensures (a + b) + c == a + (b + c)
  {
  }

  lemma Reassociate<T>(front: seq<T>, back: seq<T>, mid: seq<T>, last: seq<T>,
                      start: seq<T>, added: seq<T>, later: seq<T>)
    requires front + mid == start + added
    requires back + last == mid + later
    ensures (front + back) + last == start + added + later
  {
    calc {
      (front + back) + last;
      front + (back + last);
      front + (mid + later);
      (front + mid) + later;
    }
  }

  /**
   * Nothing is lost or reordered: the pieces of the content events followed
   * by what is left in the buffer are the starting buffer followed by the
   * texts of every examined streaming result.
   */
  lemma {:induction false} RunPreservesText(buffer: seq<string>, rs: seq<EngineResult>, chunkSize: int)
    ensures ContentPieces(Run(buffer, rs, chunkSize).1) + Run(buffer, rs, chunkSize).0
         == buffer + StreamedTexts(rs)
    decreases |rs|
  {
    if rs != [] {
      var (b, e) := Step(buffer, rs[0], chunkSize);
      RunPreservesText(b, rs[1..], chunkSize);
      ContentPiecesAppend(e, Run(b, rs[1..], chunkSize).1);
      StepPreservesText(buffer, rs[0], chunkSize);
      var (b', e') := Run(b, rs[1..], chunkSize);
      var t := if rs[0].stage == STREAMING then [TextOf(rs[0])] else [];
      assert StreamedTexts(rs) == t + StreamedTexts(rs[1..]);
      Reassociate(ContentPieces(e), ContentPieces(e'), b, b', buffer, t, StreamedTexts(rs[1..]));
    }
  }

  /** The flush threshold in effect: a chunk size below one flushes every piece. */
  function Threshold(chunkSize: int): (t: nat)
    ensures t >= 1 && (chunkSize >= 1 ==> t == chunkSize)
  {
    if chunkSize < 1 then 1 else chunkSize
  }

  /**
   * The buffer stays below the threshold, and every content event holds
   * between one piece and the threshold's worth of pieces.
   */
  lemma {:induction false} RunChunkBounds(buffer: seq<string>, rs: seq<EngineResult>, chunkSize: int)
    requires |buffer| < Threshold(chunkSize)
    ensures |Run(buffer, rs, chunkSize).0| < Threshold(chunkSize)
    ensures forall e :: e in Run(buffer, rs, chunkSize).1 && e.Content? ==>
      1 <= |e.pieces| <= Threshold(chunkSize)
    decreases |rs|
  {
    if rs != [] {
      RunChunkBounds(Step(buffer, rs[0], chunkSize).0, rs[1..], chunkSize);
    }
  }

  /** The number of end-of-stream results among the examined ones. */
  function EosCount(rs: seq<EngineResult>): nat
  {
    if rs == [] then 0 else (if rs[0].eos then 1 else 0) + EosCount(rs[1..])
  }

  function DoneCount(events: seq<Event>): nat
  {
    if events == [] then 0 else (if events[0].Done? then 1 else 0) + DoneCount(events[1..])
  }

  lemma {:induction false} DoneCountAppend(xs: seq<Event>, ys: seq<Event>)
    ensures DoneCount(xs + ys) == DoneCount(xs) + DoneCount(ys)
  {
    if xs == [] {
      assert xs + ys == ys;
    } else {
      assert (xs + ys)[0] == xs[0] && (xs + ys)[1..] == xs[1..] + ys;
      DoneCountAppend(xs[1..], ys);
    }
  }

  /** One `[DONE]` per end-of-stream result. */
  lemma {:induction false} DonePerEos(buffer: seq<string>, rs: seq<EngineResult>, chunkSize: int)
    ensures DoneCount(Run(buffer, rs, chunkSize).1) == EosCount(rs)
    decreases |rs|
  {
    if rs != [] {
      var (b, e) := Step(buffer, rs[0], chunkSize);
      DonePerEos(b, rs[1..], chunkSize);
      DoneCountAppend(e, Run(b, rs[1..], chunkSize).1);
      assert DoneCount([Done]) == 1;
      assert DoneCount([Content(buffer + [TextOf(rs[0])]), Done]) == 1;
      assert DoneCount([Content(buffer + [TextOf(rs[0])])]) == 0;
    }
  }

  /**
   * A well-formed stream, whose only end-of-stream result is its last one,
   * produces exactly one `[DONE]`, as the last event, right after the final
   * content flush when that result is a streaming one.
   */
  lemma {:induction false} DoneIsLast(buffer: seq<string>, rs: seq<EngineResult>, chunkSize: int)
    requires rs != [] && rs[|rs| - 1].eos
    requires forall i :: 0 <= i < |rs| - 1 ==> !rs[i].eos
    ensures var events := Run(buffer, rs, chunkSize).1;
      && events != [] && events[|events| - 1] == Done
      && DoneCount(events) == 1
      && (rs[|rs| - 1].stage == STREAMING ==> |events| >= 2 && events[|events| - 2].Content?)
  {
    DonePerEos(buffer, rs, chunkSize);
    assert EosCount(rs) == 1 by { EosCountLastOnly(rs); }
    DoneIsLastAux(buffer, rs, chunkSize);
  }

  lemma {:induction false} EosCountLastOnly(rs: seq<EngineResult>)
    requires rs != [] && rs[|rs| - 1].eos
    requires forall i :: 0 <= i < |rs| - 1 ==> !rs[i].eos
    ensures EosCount(rs) == 1
  {
    if |rs| > 1 {
      assert !rs[0].eos;
      EosCountLastOnly(rs[1..]);
    }
  }

  lemma {:induction false} DoneIsLastAux(buffer: seq<string>, rs: seq<EngineResult>, chunkSize: int)
    requires rs != [] && rs[|rs| - 1].eos
    ensures var events := Run(buffer, rs, chunkSize).1;
      && events != [] && events[|events| - 1] == Done
      && (rs[|rs| - 1].stage == STREAMING ==> |events| >= 2 && events[|events| - 2].Content?)
    decreases |rs|
  {
    var (b, e) := Step(buffer, rs[0], chunkSize);
    if |rs| > 1 {
      DoneIsLastAux(b, rs[1..], chunkSize);
    }
  }

  /** A streaming end-of-stream result flushes the buffer: nothing is left over. */
  lemma {:induction false} RunEndsFlushed(buffer: seq<string>, rs: seq<EngineResult>, chunkSize: int)
    requires rs != [] && rs[|rs| - 1].eos && rs[|rs| - 1].stage == STREAMING
    ensures Run(buffer, rs, chunkSize).0 == []
    decreases |rs|
  {
    if |rs| > 1 {
      RunEndsFlushed(Step(buffer, rs[0], chunkSize).0, rs[1..], chunkSize);
    }
  }

  /**
   * A stream that ends with a streaming end-of-stream result loses no text:
   * its content events carry every streamed piece, in order.
   */
  lemma CompletedStreamKeepsText(rs: seq<EngineResult>, chunkSize: int)
    requires rs != [] && rs[|rs| - 1].eos && rs[|rs| - 1].stage == STREAMING
    ensures ContentPieces(Run([], rs, chunkSize).1) == StreamedTexts(rs)
  {
    RunPreservesText([], rs, chunkSize);
    RunEndsFlushed([], rs, chunkSize);
    assert ContentPieces(Run([], rs, chunkSize).1) + [] == ContentPieces(Run([], rs, chunkSize).1);
    assert [] + StreamedTexts(rs) == StreamedTexts(rs);
  }

  /** One examined result: append, flush on end of stream or a full buffer, then `[DONE]`. */
  method Examine(buffer: seq<string>, events: seq<Event>, res: EngineResult, chunkSize: int)
    returns (buffer': seq<string>, events': seq<Event>)
    ensures buffer' == Step(buffer, res, chunkSize).0
    ensures events' == events + Step(buffer, res, chunkSize).1
  {
    buffer', events' := buffer, events;
    if res.stage == STREAMING {
      buffer' := buffer' + [TextOf(res)];
      if res.eos || |buffer'| >= chunkSize {
        events' := events' + [Content(buffer')];
        buffer' := [];
      }
    }
    if res.eos {
      events' := events' + [Done];
    }
  }

  /**
   * The event loop of `generate_stream`: the last result of each non-empty
   * batch is examined, starting from an empty buffer.
   */
  method StreamEvents(batches: seq<seq<EngineResult>>, chunkSize: int) returns (events: seq<Event>)
    ensures events == Run([], Examined(batches), chunkSize).1
  {
    var buffer: seq<string> := [];
    events := [];
    ghost var finalEvents := Run([], Examined(batches), chunkSize).1;
    ghost var todo := Examined(batches);
    var i := 0;
    assert batches[i..] == batches;
    assert events + Run(buffer, todo, chunkSize).1 == finalEvents;
    while i < |batches|
      invariant 0 <= i <= |batches|
      invariant todo == Examined(batches[i..])
      invariant events + Run(buffer, todo, chunkSize).1 == finalEvents
    {
      var results := batches[i];
      ghost var rest := Examined(batches[i + 1..]);
      ExaminedCons(batches, i);
      if |results| >= 1 {
        var res := results[|results| - 1];
        ghost var step := Step(buffer, res, chunkSize);
        ghost var events0 := events;
        assert todo == [res] + rest;
        RunCons(buffer, res, rest, chunkSize);
        buffer, events := Examine(buffer, events, res, chunkSize);
        AppendAssoc(events0, step.1, Run(buffer, rest, chunkSize).1);
      } else {
        assert todo == rest;
      }
      todo := rest;
      i := i + 1;
    }
    assert events + Run(buffer, [], chunkSize).1 == events + [];
  }

  /**
   * `generate_stream`, run to completion over the engine's batches: a model
   * that is not ready fails before any change; otherwise the prompt is
   * encoded (BOS only when no session is active yet, EOS always), appended to
   * the session's token sequence, the job is built over the whole sequence,
   * the session becomes active, and the events are those of the examined
   * results starting from an empty buffer.
   */
  method GenerateStream(st: ModelState, prompt: string, encode: (string, bool, bool) -> seq<int>,
                        batches: seq<seq<EngineResult>>, chunkSize: int,
                        responseLimit: int, eosTokenId: int)
    returns (r: Result<(Job, seq<Event>), GenerationError>)
    modifies st
    ensures !old(st.modelReady) ==> r == Err(ModelNotLoaded) && unchanged(st)
    ensures old(st.modelReady) ==>
      && st.sessionIds == old(st.sessionIds) + encode(prompt, !old(st.sessionActive), true)
      && st.sessionActive
      && r == Ok((Job(st.sessionIds, responseLimit, eosTokenId),
                  Run([], Examined(batches), chunkSize).1))
      && st.modelReady == old(st.modelReady) && st.sessionDir == old(st.sessionDir)
      && st.saveInteractions == old(st.saveInteractions) && st.engineConfig == old(st.engineConfig)
      && st.eosTokenId == old(st.eosTokenId) && st.responseLength == old(st.responseLength)
  {
    if !st.modelReady {
      return Err(ModelNotLoaded);
    }
    var inputIds := encode(prompt, !st.sessionActive, true);
    st.sessionIds := st.sessionIds + inputIds;
    var job := Job(st.sessionIds, responseLimit, eosTokenId);
    st.sessionActive := true;

    var events := StreamEvents(batches, chunkSize);
    return Ok((job, events));
  }

  /** Four plain pieces from an empty buffer are flushed as one chunk of four. */
  lemma FourPiecesFlush(rest: seq<EngineResult>)
    ensures var piece := EngineResult(STREAMING, Some("t"), false);
      Run([], [piece, piece, piece, piece] + rest, 4)
        == (Run([], rest, 4).0, [Content(["t", "t", "t", "t"])] + Run([], rest, 4).1)
  {
    var piece := EngineResult(STREAMING, Some("t"), false);
    var r3 := [piece] + rest;
    var r2 := [piece] + r3;
    var r1 := [piece] + r2;
    assert [piece, piece, piece, piece] + rest == [piece] + r1;
    assert TextOf(piece) == "t";
    assert [] + ["t"] == ["t"] && ["t"] + ["t"] == ["t", "t"] && ["t", "t"] + ["t"] == ["t", "t", "t"];
    assert ["t", "t", "t"] + ["t"] == ["t", "t", "t", "t"];
    var four := Content(["t", "t", "t", "t"]);
    var after := Run([], rest, 4);
    assert Step([], piece, 4) == (["t"], []);
    assert Step(["t"], piece, 4) == (["t", "t"], []);
    assert Step(["t", "t"], piece, 4) == (["t", "t", "t"], []);
    assert Step(["t", "t", "t"], piece, 4) == ([], [four]);
    RunCons(["t", "t", "t"], piece, rest, 4);
    assert Run(["t", "t", "t"], r3, 4) == (after.0, [four] + after.1);
    assert [] + ([four] + after.1) == [four] + after.1;
    RunCons(["t", "t"], piece, r3, 4);
    assert Run(["t", "t"], r2, 4) == (after.0, [four] + after.1);
    RunCons(["t"], piece, r2, 4);
    assert Run(["t"], r1, 4) == (after.0, [four] + after.1);
    RunCons([], piece, r1, 4);
  }

  /** Ten streamed pieces with chunk size 4 arrive as chunks of 4, 4 and 2, then `[DONE]`. */
  lemma TenPiecesInChunksOfFour()
    ensures var piece := EngineResult(STREAMING, Some("t"), false);
      var last := EngineResult(STREAMING, Some("t"), true);
      var rs := [piece, piece, piece, piece, piece, piece, piece, piece, piece, last];
      Run([], rs, 4) == ([], [Content(["t", "t", "t", "t"]), Content(["t", "t", "t", "t"]),
                              Content(["t", "t"]), Done])
  {
    var piece := EngineResult(STREAMING, Some("t"), false);
    var last := EngineResult(STREAMING, Some("t"), true);
    var four := Content(["t", "t", "t", "t"]);
    var two := Content(["t", "t"]);
    var tail := [piece, last];
    assert TextOf(piece) == "t" && TextOf(last) == "t";
    assert [] + ["t"] == ["t"] && ["t"] + ["t"] == ["t", "t"];
    assert Step([], piece, 4) == (["t"], []);
    assert Step(["t"], last, 4) == ([], [two, Done]);
    RunCons(["t"], last, [], 4);
    assert [last] == [last] + [];
    assert Run([], [], 4) == ([], []);
    assert Run(["t"], [last], 4) == ([], [two, Done] + []);
    assert [two, Done] + [] == [two, Done];
    RunCons([], piece, [last], 4);
    assert tail == [piece] + [last];
    assert [] + [two, Done] == [two, Done];
    assert Run([], tail, 4) == ([], [two, Done]);
    var eight := [piece, piece, piece, piece] + tail;
    FourPiecesFlush(tail);
    assert [four] + [two, Done] == [four, two, Done];
    assert Run([], eight, 4) == ([], [four, two, Done]);
    FourPiecesFlush(eight);
    assert [four] + [four, two, Done] == [four, four, two, Done];
    assert [piece, piece, piece, piece] + eight == [piece, piece, piece, piece, piece, piece, piece, piece, piece, last];
  }
}
