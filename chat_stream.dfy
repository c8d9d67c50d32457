/**
 * One chat exchange as the client runs it: append the user's message, raise
 * the streaming flag, post the request, decode the streamed body line by
 * line, then settle with one assistant message, and always lower the flag.
 *
 * The collaborators the client cannot see are parameters:
 *  - `fetch` is the network: the request it is given decides the outcome;
 *  - `parse` is `JSON.parse(payload).text` turned into a string by `+=`;
 *    `None` means that `JSON.parse` or the field read threw.
 */
module ChatStream {
  import opened Wrappers
  import opened Strings
  import opened Seqs
  import opened Types
  import opened AppStore

  /** The prefix of a line that carries an event payload. */
  const DataPrefix: string := "data: "

  /** The assistant message shown when the exchange fails; the error's text follows it. */
  const ConnectionErrorTemplate: string :=
    "\U{26A0}\U{FE0F} **Connection Error**\n\nCouldn't connect to the medical AI service.\n\n"
    + "**Please ensure:**\n1. Python backend is running on http://localhost:8000\n"
    + "2. Start backend: `cd backend && python api_server.py`\n3. Check terminal for errors\n\n"
    + "**Error details:** "

  /** The number of sample doctors recommended after every successful exchange. */
  const RecommendationCount: nat := 3

  // ---------------------------------------------------------------- decoding

  /** The payload of an event line: what follows its first six characters `data: `. */
  function LinePayload(line: string): (p: Option<string>)
    ensures p.Some? <==> StartsWith(line, DataPrefix)
    ensures p.Some? ==> line == DataPrefix + p.value
  {
    if StartsWith(line, DataPrefix) then Some(line[|DataPrefix|..]) else None
  }

  /** The text one line adds to the response: none for a non-event line or a payload that does not parse. */
  function LineFragment(line: string, parse: string -> Option<string>): Option<string>
  {
    match LinePayload(line)
    case None => None
    case Some(payload) => parse(payload)
  }

  /** The fragments of `lines`, in order. */
  function LineFragments(lines: seq<string>, parse: string -> Option<string>): seq<string>
    decreases |lines|
  {
    if lines == [] then []
    else
      LineFragments(lines[..|lines| - 1], parse)
      + match LineFragment(lines[|lines| - 1], parse) case Some(t) => [t] case None => []
  }

  /** One chunk is split on `\n` on its own: nothing carries over to the next chunk. */
  function ChunkFragments(chunk: string, parse: string -> Option<string>): seq<string>
  {
    LineFragments(Split(chunk, '\n'), parse)
  }

  /** The fragments of a whole body, chunk after chunk. */
  function BodyFragments(chunks: seq<string>, parse: string -> Option<string>): seq<string>
    decreases |chunks|
  {
    if chunks == [] then []
    else BodyFragments(chunks[..|chunks| - 1], parse) + ChunkFragments(chunks[|chunks| - 1], parse)
  }

  /** The response text a body decodes to. */
  function DecodedText(chunks: seq<string>, parse: string -> Option<string>): string
  {
    Concat(BodyFragments(chunks, parse))
  }

  lemma {:induction false} LineFragmentsAppend(a: seq<string>, b: seq<string>, parse: string -> Option<string>)
    ensures LineFragments(a + b, parse) == LineFragments(a, parse) + LineFragments(b, parse)
    decreases |b|
  {
    if b == [] {
      assert a + b == a;
    } else {
      var front, last := b[..|b| - 1], b[|b| - 1];
      var tail := match LineFragment(last, parse) case Some(t) => [t] case None => [];
      assert (a + b)[..|a + b| - 1] == a + front;
      assert LineFragments(a + b, parse) == LineFragments(a + front, parse) + tail;
      LineFragmentsAppend(a, front, parse);
      assert LineFragments(b, parse) == LineFragments(front, parse) + tail;
      AppendAssoc(LineFragments(a, parse), LineFragments(front, parse), tail);
    }
  }

  lemma LineFragmentsSingle(line: string, parse: string -> Option<string>)
    ensures LineFragments([line], parse)
         == match LineFragment(line, parse) case Some(t) => [t] case None => []
  {
    assert [line][..0] == [];
  }

  lemma {:induction false} BodyFragmentsAppend(a: seq<string>, b: seq<string>, parse: string -> Option<string>)
    ensures BodyFragments(a + b, parse) == BodyFragments(a, parse) + BodyFragments(b, parse)
    decreases |b|
  {
    if b == [] {
      assert a + b == a;
    } else {
      var front, last := b[..|b| - 1], b[|b| - 1];
      assert (a + b)[..|a + b| - 1] == a + front;
      assert BodyFragments(a + b, parse) == BodyFragments(a + front, parse) + ChunkFragments(last, parse);
      BodyFragmentsAppend(a, front, parse);
      assert BodyFragments(b, parse) == BodyFragments(front, parse) + ChunkFragments(last, parse);
      AppendAssoc(BodyFragments(a, parse), BodyFragments(front, parse), ChunkFragments(last, parse));
    }
  }

  /** Only lines starting with `data: ` count: a chunk without one adds nothing. */
  lemma {:induction false} LinesWithoutPrefixIgnored(lines: seq<string>, parse: string -> Option<string>)
    requires forall k :: 0 <= k < |lines| ==> !StartsWith(lines[k], DataPrefix)
    ensures LineFragments(lines, parse) == []
    decreases |lines|
  {
    if lines != [] {
      LinesWithoutPrefixIgnored(lines[..|lines| - 1], parse);
    }
  }

  /** A `data: ` line whose payload does not parse is skipped and the lines around it still count. */
  lemma MalformedLineSkipped(before: seq<string>, line: string, after: seq<string>, parse: string -> Option<string>)
    requires StartsWith(line, DataPrefix) && parse(line[6..]) == None
    ensures LineFragments(before + [line] + after, parse)
         == LineFragments(before, parse) + LineFragments(after, parse)
  {
    LineFragmentsAppend(before + [line], after, parse);
    LineFragmentsAppend(before, [line], parse);
    LineFragmentsSingle(line, parse);
  }

  /** Two one-line chunks `data: P1\n` and `data: P2\n` decode to the two texts, in order. */
  lemma TwoChunks(p1: string, p2: string, t1: string, t2: string, parse: string -> Option<string>)
    requires '\n' !in p1 && '\n' !in p2
    requires parse(p1) == Some(t1) && parse(p2) == Some(t2)
    ensures DecodedText([DataPrefix + p1 + "\n", DataPrefix + p2 + "\n"], parse) == t1 + t2
  {
    OneLineChunk(p1, t1, parse);
    OneLineChunk(p2, t2, parse);
    var c1, c2 := DataPrefix + p1 + "\n", DataPrefix + p2 + "\n";
    assert [c1, c2][..1] == [c1];
    assert [c1][..0] == [];
    assert BodyFragments([c1], parse) == [t1];
    assert BodyFragments([c1, c2], parse) == BodyFragments([c1], parse) + ChunkFragments(c2, parse);
    assert [t1, t2][..1] == [t1];
    ConcatSingle(t1);
  }

  lemma OneLineChunk(p: string, t: string, parse: string -> Option<string>)
    requires '\n' !in p && parse(p) == Some(t)
    ensures ChunkFragments(DataPrefix + p + "\n", parse) == [t]
  {
    var line := DataPrefix + p;
    assert '\n' !in line by {
      assert forall k :: 0 <= k < |line| ==> line[k] == (if k < 6 then DataPrefix[k] else p[k - 6]);
    }
    SplitAfterPiece(line, "", '\n');
    assert line + ['\n'] + "" == DataPrefix + p + "\n";
    assert Split(DataPrefix + p + "\n", '\n') == [line, ""];
    assert line[..|DataPrefix|] == DataPrefix && line[6..] == p;
    assert [line, ""][..1] == [line];
    LineFragmentsSingle(line, parse);
  }

  /**
   * A line cut across two chunks is never put back together: with the cut
   * inside the payload `p`, the first chunk offers only the head of `p` to
   * `parse` and the second chunk's line, lacking the prefix, is dropped.
   */
  lemma SplitEventNotReassembled(p: string, cut: nat, parse: string -> Option<string>)
    requires cut <= |p| && '\n' !in p
    requires !StartsWith(p[cut..], DataPrefix)
    ensures BodyFragments([DataPrefix + p[..cut], p[cut..] + "\n\n"], parse)
         == (match parse(p[..cut]) case Some(t) => [t] case None => [])
  {
    var head, tail := p[..cut], p[cut..];
    NoNewlineInSlices(p, cut);
    var c1, c2 := DataPrefix + head, tail + "\n\n";
    EventLineAlone(head, parse);
    RestOfCutLineIgnored(tail, parse);
    BodyPair(c1, c2, parse);
  }

  /** A body of two chunks decodes each on its own. */
  lemma BodyPair(c1: string, c2: string, parse: string -> Option<string>)
    ensures BodyFragments([c1, c2], parse) == ChunkFragments(c1, parse) + ChunkFragments(c2, parse)
  {
    assert [c1, c2][..1] == [c1];
    assert [c1][..0] == [];
    assert BodyFragments([c1], parse) == ChunkFragments(c1, parse);
  }

  /** The second half of a cut line, with no `data: ` of its own, adds nothing. */
  lemma RestOfCutLineIgnored(tail: string, parse: string -> Option<string>)
    requires '\n' !in tail && !StartsWith(tail, DataPrefix)
    ensures ChunkFragments(tail + "\n\n", parse) == []
    ensures BodyFragments([tail + "\n\n"], parse) == []
  {
    SplitTwoNewlines(tail);
    LinesWithoutPrefixIgnored([tail, "", ""], parse);
    assert [tail + "\n\n"][..0] == [];
  }

  lemma NoNewlineInSlices(p: string, cut: nat)
    requires cut <= |p| && '\n' !in p
    ensures '\n' !in p[..cut] && '\n' !in p[cut..]
  {
    assert forall k :: 0 <= k < |p[cut..]| ==> p[cut..][k] == p[cut + k];
    assert forall k :: 0 <= k < cut ==> p[..cut][k] == p[k];
  }

  /** A chunk holding one event line and no line break yields that line's fragment. */
  lemma EventLineAlone(p: string, parse: string -> Option<string>)
    requires '\n' !in p
    ensures ChunkFragments(DataPrefix + p, parse) == (match parse(p) case Some(t) => [t] case None => [])
  {
    var line := DataPrefix + p;
    assert '\n' !in line by {
      assert forall k :: 0 <= k < |line| ==> line[k] == (if k < 6 then DataPrefix[k] else p[k - 6]);
    }
    assert Split(line, '\n') == [line];
    assert line[..|DataPrefix|] == DataPrefix && line[6..] == p;
    LineFragmentsSingle(line, parse);
  }

  lemma SplitTwoNewlines(q: string)
    requires '\n' !in q
    ensures Split(q + "\n\n", '\n') == [q, "", ""]
  {
    SplitAfterPiece("", "", '\n');
    assert "" + ['\n'] + "" == "\n";
    SplitAfterPiece(q, "\n", '\n');
    assert q + ['\n'] + "\n" == q + "\n\n";
  }

  lemma LineStep(lines: seq<string>, j: nat, parse: string -> Option<string>)
    requires j < |lines|
    ensures LineFragments(lines[..j + 1], parse) == LineFragments(lines[..j], parse)
      + match LineFragment(lines[j], parse) case Some(t) => [t] case None => []
  {
    assert lines[..j + 1][..j] == lines[..j];
  }

  /** The live buffer after every published fragment is the concatenation of the fragments so far. */
  ghost predicate LiveBufferHistory(published: seq<string>, fragments: seq<string>) {
    |published| == |fragments|
    && forall k :: 0 <= k < |published| ==> published[k] == Concat(fragments[..k + 1])
  }

  lemma LiveBufferExtend(published: seq<string>, fragments: seq<string>, t: string)
    requires LiveBufferHistory(published, fragments)
    ensures LiveBufferHistory(published + [Concat(fragments) + t], fragments + [t])
  {
    var f := fragments + [t];
    forall k | 0 <= k < |f| ensures (published + [Concat(fragments) + t])[k] == Concat(f[..k + 1]) {
      if k < |fragments| {
        assert f[..k + 1] == fragments[..k + 1];
      } else {
        assert f[..k + 1] == f && f[..|f| - 1] == fragments;
      }
    }
  }

  // ---------------------------------------------------------------- the exchange

  /** What reading the body gives: the chunks read, then possibly a read that throws. */
  datatype Body = Body(chunks: seq<string>, readFailure: Option<string>)

  /** What `fetch` gives: a rejection with its message, or a status and a body (`null` when absent). */
  datatype FetchOutcome = Rejected(message: string) | Response(status: nat, body: Option<Body>)

  /** The `{role, content}` pairs of the history sent along with a message. */
  datatype HistoryEntry = HistoryEntry(role: Role, content: string)

  /** The request body: the new message, the history before it, and an ISO-8601 time stamp. */
  datatype ChatRequest = ChatRequest(message: string, conversationHistory: seq<HistoryEntry>, timestamp: string)

  /** The opaque values the exchange reads from the clock: ids, `new Date()` values, the request's time stamp. */
  datatype Clock = Clock(userId: string, replyId: string, userTime: Timestamp, requestTime: string, replyTime: Timestamp)

  function HistoryOf(messages: seq<Message>): (h: seq<HistoryEntry>)
    ensures |h| == |messages|
    ensures forall k :: 0 <= k < |h| ==> h[k] == HistoryEntry(messages[k].role, messages[k].content)
  {
    seq(|messages|, k requires 0 <= k < |messages| => HistoryEntry(messages[k].role, messages[k].content))
  }

  /** How an exchange ends: the full response text, or the text of the error it threw. */
  datatype Settlement = Answered(content: string) | Failed(errorText: string)

  predicate IsOk(status: nat) { 200 <= status <= 299 }

  /** The settlement `sendMessage` reaches for a given transport outcome. */
  function Settle(outcome: FetchOutcome, parse: string -> Option<string>): (r: Settlement)
    ensures r.Answered? <==> outcome.Response? && IsOk(outcome.status)
                             && (outcome.body.None? || outcome.body.value.readFailure.None?)
    ensures r.Answered? ==> r.content == Concat(FragmentsRead(outcome, parse))
  {
    match outcome
    case Rejected(message) => Failed(message)
    case Response(status, body) =>
      if !IsOk(status) then Failed("HTTP error! status: " + NatToString(status))
      else match body
        case None => Answered("")
        case Some(b) =>
          match b.readFailure
          case Some(message) => Failed(message)
          case None => Answered(DecodedText(b.chunks, parse))
  }

  /** The fragments published to the live buffer: those of every chunk read from an ok response. */
  function FragmentsRead(outcome: FetchOutcome, parse: string -> Option<string>): seq<string>
  {
    match outcome
    case Response(status, Some(b)) => if IsOk(status) then BodyFragments(b.chunks, parse) else []
    case _ => []
  }

  /** The content of the one assistant message an exchange appends. */
  function ReplyContent(s: Settlement): string
  {
    match s
    case Answered(content) => content
    case Failed(errorText) => ConnectionErrorTemplate + errorText
  }

  /** The doctors an exchange adds to the recommendations: the first three samples on success only. */
  function Recommended(s: Settlement): (r: seq<Doctor>)
    ensures |r| == if s.Answered? then RecommendationCount else 0
    ensures r == MockDoctors[..|r|]
  {
    if s.Answered? then MockDoctors[..RecommendationCount] else []
  }

  /** A non-ok status settles as a failure naming the status, and no doctors are recommended. */
  lemma NotOkFails(status: nat, body: Option<Body>, parse: string -> Option<string>)
    requires !IsOk(status)
    ensures Settle(Response(status, body), parse).Failed?
    ensures StartsWith(ReplyContent(Settle(Response(status, body), parse)), ConnectionErrorTemplate)
    ensures Recommended(Settle(Response(status, body), parse)) == []
    ensures ReplyContent(Settle(Response(status, body), parse))
         == ConnectionErrorTemplate + "HTTP error! status: " + NatToString(status)
  {
    var r := ReplyContent(Settle(Response(status, body), parse));
    assert r[..|ConnectionErrorTemplate|] == ConnectionErrorTemplate;
  }

  /** A rejected request settles as a failure whose reply ends in the rejection's message. */
  lemma RejectedFails(message: string, parse: string -> Option<string>)
    ensures Settle(Rejected(message), parse).Failed?
    ensures ReplyContent(Settle(Rejected(message), parse)) == ConnectionErrorTemplate + message
    ensures Recommended(Settle(Rejected(message), parse)) == []
  {
  }

  /** A body whose read fails settles as a failure whose reply ends in the read error. */
  lemma ReadFailureFails(status: nat, chunks: seq<string>, message: string, parse: string -> Option<string>)
    requires IsOk(status)
    ensures ReplyContent(Settle(Response(status, Some(Body(chunks, Some(message)))), parse))
         == ConnectionErrorTemplate + message
    ensures Recommended(Settle(Response(status, Some(Body(chunks, Some(message)))), parse)) == []
  {
  }

  /** An ok body read to its end settles with exactly the concatenated fragments. */
  lemma OkBodyAnswers(status: nat, chunks: seq<string>, parse: string -> Option<string>)
    requires IsOk(status)
    ensures Settle(Response(status, Some(Body(chunks, None))), parse)
         == Answered(Concat(FragmentsRead(Response(status, Some(Body(chunks, None))), parse)))
    ensures |Recommended(Settle(Response(status, Some(Body(chunks, None))), parse))| == RecommendationCount
  {
  }

  /** The hook's own state (`streamingMessage`) and the store it writes to. */
  class ChatHook {
    const store: Store
    var streamingMessage: string

    constructor (store: Store)
      ensures this.store == store && streamingMessage == ""
    {
      this.store := store;
      streamingMessage := "";
    }

    /**
     * The read loop over an ok body: every parsed fragment is appended to the
     * running response and published to the live buffer at once.
     */
    method ReadBody(chunks: seq<string>, parse: string -> Option<string>)
      returns (fullResponse: string, ghost published: seq<string>)
      requires streamingMessage == ""
      modifies this`streamingMessage
      ensures fullResponse == DecodedText(chunks, parse)
      ensures streamingMessage == fullResponse
      ensures LiveBufferHistory(published, BodyFragments(chunks, parse))
    {
      fullResponse := "";
      published := [];
      var i := 0;
      assert chunks[..0] == [];
      while i < |chunks|
        invariant 0 <= i <= |chunks|
        invariant fullResponse == Concat(BodyFragments(chunks[..i], parse))
        invariant streamingMessage == fullResponse
        invariant LiveBufferHistory(published, BodyFragments(chunks[..i], parse))
      {
        fullResponse, published := ReadChunk(chunks[i], parse, BodyFragments(chunks[..i], parse), fullResponse, published);
        assert chunks[..i + 1][..i] == chunks[..i];
        i := i + 1;
      }
      assert chunks[..|chunks|] == chunks;
    }

    /** The `for` over the lines of one chunk, continuing from the fragments `before` already read. */
    method ReadChunk(chunk: string, parse: string -> Option<string>, ghost before: seq<string>,
                     fullBefore: string, ghost publishedBefore: seq<string>)
      returns (fullResponse: string, ghost published: seq<string>)
      requires fullBefore == Concat(before) && streamingMessage == fullBefore
      requires LiveBufferHistory(publishedBefore, before)
      modifies this`streamingMessage
      ensures fullResponse == Concat(before + ChunkFragments(chunk, parse))
      ensures streamingMessage == fullResponse
      ensures LiveBufferHistory(published, before + ChunkFragments(chunk, parse))
    {
      var lines := Split(chunk, '\n');
      fullResponse, published := fullBefore, publishedBefore;
      ghost var frags := before;
      var j := 0;
      assert lines[..0] == [];
      while j < |lines|
        invariant 0 <= j <= |lines|
        invariant frags == before + LineFragments(lines[..j], parse)
        invariant fullResponse == Concat(frags)
        invariant streamingMessage == fullResponse
        invariant LiveBufferHistory(published, frags)
      {
        var line := lines[j];
        LineStep(lines, j, parse);
        if StartsWith(line, DataPrefix) {
          var parsed := parse(line[6..]);
          match parsed {
            case Some(t) =>
              LiveBufferExtend(published, frags, t);
              ConcatAppend(frags, [t]);
              ConcatSingle(t);
              frags := frags + [t];
              fullResponse := fullResponse + t;
              streamingMessage := fullResponse;
              published := published + [fullResponse];
            case None =>
              // the parse error is logged and the loop goes on
          }
        }
        j := j + 1;
      }
      assert lines[..|lines|] == lines;
    }

    /**
     * The `try` block up to the final message: the outcome is checked and an
     * ok body read; `failure` is the message of the error thrown, if any.
     */
    method Transfer(outcome: FetchOutcome, parse: string -> Option<string>)
      returns (failure: Option<string>, fullResponse: string, ghost published: seq<string>)
      requires streamingMessage == ""
      modifies this`streamingMessage
      ensures failure.None? ==> Settle(outcome, parse) == Answered(fullResponse)
      ensures failure.Some? ==> Settle(outcome, parse) == Failed(failure.value)
      ensures LiveBufferHistory(published, FragmentsRead(outcome, parse))
    {
      failure, fullResponse, published := None, "", [];
      match outcome {
        case Rejected(message) =>
          failure := Some(message);
        case Response(status, body) =>
          if !IsOk(status) {
            failure := Some("HTTP error! status: " + NatToString(status));
          } else if body.Some? {
            fullResponse, published := ReadBody(body.value.chunks, parse);
            if body.value.readFailure.Some? {
              failure := body.value.readFailure;
            }
          }
      }
    }

    /**
     * What `sendMessage` does before the request: the user's message is
     * appended, the streaming flag raised and the live buffer emptied.
     */
    method Begin(userMsg: Message)
      modifies this`streamingMessage, store
      ensures store.State() == old(store.State()).(messages := old(store.messages) + [userMsg], isStreaming := true)
      ensures streamingMessage == ""
    {
      store.AddMessage(userMsg);
      store.SetIsStreaming(true);
      streamingMessage := "";
    }

    /**
     * The end of the `try` block, or the `catch`: one assistant message
     * carrying the answer or the connection error, and on success the sample
     * recommendations.
     */
    method Conclude(failure: Option<string>, fullResponse: string, clock: Clock, ghost settlement: Settlement)
      requires failure.None? ==> settlement == Answered(fullResponse)
      requires failure.Some? ==> settlement == Failed(failure.value)
      modifies this`streamingMessage, store
      ensures store.State() == old(store.State()).(
                messages := old(store.messages)
                  + [Message(clock.replyId, Assistant, ReplyContent(settlement), clock.replyTime)],
                recommendedDoctors := old(store.recommendedDoctors) + Recommended(settlement))
      ensures streamingMessage == ""
    {
      match failure {
        case None =>
          store.AddMessage(Message(clock.replyId, Assistant, fullResponse, clock.replyTime));
          streamingMessage := "";
          store.AddRecommendedDoctors(MockDoctors[..RecommendationCount]);
        case Some(errorText) =>
          store.AddMessage(Message(clock.replyId, Assistant, ConnectionErrorTemplate + errorText, clock.replyTime));
          streamingMessage := "";
      }
    }

    /**
     * `sendMessage`: the user's message and the streaming flag go first, then
     * the request, the read loop and one settling assistant message; the flag
     * is lowered on every path.
     */
    method SendMessage(userMessage: string, clock: Clock,
                       fetch: ChatRequest -> FetchOutcome, parse: string -> Option<string>)
      returns (request: ChatRequest, ghost atFetch: StoreState, ghost bufferAtFetch: string, ghost published: seq<string>)
      modifies this, store
      ensures request == ChatRequest(userMessage, HistoryOf(old(store.messages)), clock.requestTime)
      ensures atFetch == old(store.State()).(
                messages := old(store.messages) + [Message(clock.userId, User, userMessage, clock.userTime)],
                isStreaming := true)
      ensures bufferAtFetch == ""
      ensures var settlement := Settle(fetch(request), parse);
        && store.State() == old(store.State()).(
             messages := old(store.messages)
               + [Message(clock.userId, User, userMessage, clock.userTime),
                  Message(clock.replyId, Assistant, ReplyContent(settlement), clock.replyTime)],
             recommendedDoctors := old(store.recommendedDoctors) + Recommended(settlement),
             isStreaming := false)
      ensures streamingMessage == ""
      ensures LiveBufferHistory(published, FragmentsRead(fetch(request), parse))
    {
      // the closure's `messages` is the history before this turn
      request := ChatRequest(userMessage, HistoryOf(store.messages), clock.requestTime);
      Begin(Message(clock.userId, User, userMessage, clock.userTime));
      atFetch, bufferAtFetch := store.State(), streamingMessage;

      var failure, fullResponse;
      failure, fullResponse, published := Transfer(fetch(request), parse);
      Conclude(failure, fullResponse, clock, Settle(fetch(request), parse));
      // `finally`
      store.SetIsStreaming(false);
    }
  }
}
