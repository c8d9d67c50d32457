/**
 * The backend's event stream read by the client's decoder.
 *
 * The encoder writes one `data: <json>\n\n` event per character. The
 * decoder splits each chunk it reads on `\n` and parses every `data: ` line.
 * The two agree whenever the JSON encoding is read back by the client's
 * parse and holds no line break (JSON escapes it), and the transport cuts
 * the stream only between events.
 */
module StreamRoundTrip {
  import opened Wrappers
  import opened Strings
  import ChatStream
  import ApiServer

  /** What the client's parse and the backend's encoding must satisfy for the stream to survive. */
  ghost predicate Compatible(encode: string -> string, parse: string -> Option<string>) {
    forall s :: parse(encode(s)) == Some(s) && '\n' !in encode(s)
  }

  /** Each character of `text` as a one-character string, in order. */
  function Chars(text: string): (r: seq<string>)
    ensures |r| == |text|
    ensures forall k :: 0 <= k < |text| ==> r[k] == [text[k]]
  {
    seq(|text|, k requires 0 <= k < |text| => [text[k]])
  }

  lemma CharsCons(text: string)
    requires text != []
    ensures Chars(text) == [[text[0]]] + Chars(text[1..])
  {
  }

  lemma {:induction false} ConcatChars(text: string)
    ensures Concat(Chars(text)) == text
    decreases |text|
  {
    if text != [] {
      var n := |text|;
      ConcatChars(text[..n - 1]);
      assert Chars(text)[..n - 1] == Chars(text[..n - 1]);
      assert text == text[..n - 1] + [text[n - 1]];
    }
  }

  /** The encoder's event is a `data: ` line followed by an empty line. */
  lemma EventIsDataLine(payload: string)
    ensures ApiServer.Event(payload) == ChatStream.DataPrefix + payload + "\n" + "\n"
  {
  }

  /** One event followed by `rest` splits into its data line, an empty line, and the lines of `rest`. */
  lemma SplitEvent(payload: string, rest: string)
    requires '\n' !in payload
    ensures Split(ApiServer.Event(payload) + rest, '\n')
         == [ChatStream.DataPrefix + payload, ""] + Split(rest, '\n')
  {
    var line := ChatStream.DataPrefix + payload;
    assert '\n' !in line by {
      assert forall k :: 0 <= k < |line| ==> line[k] == (if k < 6 then ChatStream.DataPrefix[k] else payload[k - 6]);
    }
    assert ApiServer.Event(payload) + rest == line + ['\n'] + (['\n'] + rest);
    SplitAfterPiece(line, ['\n'] + rest, '\n');
    assert ['\n'] + rest == "" + ['\n'] + rest;
    SplitAfterPiece("", rest, '\n');
  }

  /** A single event's two lines yield its payload's parse. */
  lemma EventLines(payload: string, parse: string -> Option<string>)
    ensures ChatStream.LineFragments([ChatStream.DataPrefix + payload, ""], parse)
         == match parse(payload) case Some(t) => [t] case None => []
  {
    var line := ChatStream.DataPrefix + payload;
    assert line[..6] == ChatStream.DataPrefix && line[6..] == payload;
    assert [line, ""][..1] == [line];
    ChatStream.LineFragmentsSingle(line, parse);
    assert !StartsWith("", ChatStream.DataPrefix);
  }

  /** One event in front of `rest` contributes its payload's parse, then `rest` is decoded as before. */
  lemma EventChunk(payload: string, rest: string, parse: string -> Option<string>)
    requires '\n' !in payload
    ensures ChatStream.ChunkFragments(ApiServer.Event(payload) + rest, parse)
         == (match parse(payload) case Some(t) => [t] case None => []) + ChatStream.ChunkFragments(rest, parse)
  {
    SplitEvent(payload, rest);
    ChatStream.LineFragmentsAppend([ChatStream.DataPrefix + payload, ""], Split(rest, '\n'), parse);
    EventLines(payload, parse);
  }

  /** The events of a non-empty text: the first character's event, then the rest's. */
  lemma EventsCons(text: string, encode: string -> string)
    requires text != []
    ensures Concat(ApiServer.EncodeStream(text, encode))
         == ApiServer.Event(encode([text[0]])) + Concat(ApiServer.EncodeStream(text[1..], encode))
  {
    var first, tail := ApiServer.Event(encode([text[0]])), ApiServer.EncodeStream(text[1..], encode);
    assert ApiServer.EncodeStream(text, encode) == [first] + tail;
    ConcatAppend([first], tail);
    ConcatSingle(first);
  }

  /** No characters, no events, nothing decoded. */
  lemma EmptyStream(encode: string -> string, parse: string -> Option<string>)
    ensures ChatStream.ChunkFragments(Concat(ApiServer.EncodeStream("", encode)), parse) == []
  {
    assert ApiServer.EncodeStream("", encode) == [];
    assert Split("", '\n') == [""];
    ChatStream.LineFragmentsSingle("", parse);
  }

  /** The first character's event decodes to that character. */
  lemma StreamStep(text: string, encode: string -> string, parse: string -> Option<string>)
    requires Compatible(encode, parse) && text != []
    ensures ChatStream.ChunkFragments(Concat(ApiServer.EncodeStream(text, encode)), parse)
         == [[text[0]]] + ChatStream.ChunkFragments(Concat(ApiServer.EncodeStream(text[1..], encode)), parse)
  {
    var payload := encode([text[0]]);
    assert parse(payload) == Some([text[0]]) && '\n' !in payload;
    EventsCons(text, encode);
    EventChunk(payload, Concat(ApiServer.EncodeStream(text[1..], encode)), parse);
  }

  /** The events of `text`, all in one chunk, decode to its characters. */
  lemma {:induction false} StreamChunkFragments(text: string, encode: string -> string, parse: string -> Option<string>)
    requires Compatible(encode, parse)
    ensures ChatStream.ChunkFragments(Concat(ApiServer.EncodeStream(text, encode)), parse) == Chars(text)
    decreases |text|
  {
    if text == [] {
      EmptyStream(encode, parse);
    } else {
      StreamStep(text, encode, parse);
      StreamChunkFragments(text[1..], encode, parse);
      CharsCons(text);
    }
  }

  /**
   * The round trip: the answer cut into pieces, each piece's events read as
   * one chunk, decodes to the whole answer.
   */
  lemma {:induction false} StreamRoundTrip(pieces: seq<string>, chunks: seq<string>,
                                           encode: string -> string, parse: string -> Option<string>)
    requires Compatible(encode, parse)
    requires |chunks| == |pieces|
    requires forall k :: 0 <= k < |pieces| ==> chunks[k] == Concat(ApiServer.EncodeStream(pieces[k], encode))
    ensures ChatStream.DecodedText(chunks, parse) == Concat(pieces)
    decreases |pieces|
  {
    if pieces != [] {
      var n := |pieces|;
      StreamRoundTrip(pieces[..n - 1], chunks[..n - 1], encode, parse);
      StreamChunkFragments(pieces[n - 1], encode, parse);
      ConcatAppend(ChatStream.BodyFragments(chunks[..n - 1], parse), Chars(pieces[n - 1]));
      ConcatChars(pieces[n - 1]);
    }
  }

  /** The whole answer read as a single chunk comes back unchanged. */
  lemma WholeStreamRoundTrip(text: string, encode: string -> string, parse: string -> Option<string>)
    requires Compatible(encode, parse)
    ensures ChatStream.DecodedText([Concat(ApiServer.EncodeStream(text, encode))], parse) == text
  {
    StreamRoundTrip([text], [Concat(ApiServer.EncodeStream(text, encode))], encode, parse);
    ConcatSingle(text);
  }

  /** A body of one chunk holding one event decodes to the event's payload parse. */
  lemma SingleEventBody(payload: string, parse: string -> Option<string>)
    requires '\n' !in payload
    ensures ChatStream.BodyFragments([ApiServer.Event(payload)], parse)
         == match parse(payload) case Some(t) => [t] case None => []
  {
    var chunk := ApiServer.Event(payload);
    EventChunk(payload, "", parse);
    assert chunk + "" == chunk;
    assert Split("", '\n') == [""];
    ChatStream.LineFragmentsSingle("", parse);
    assert [chunk][..0] == [];
  }

  /**
   * A failure of the retrieval chain reaches the client as an ordinary
   * answer: a 200 response whose one event decodes to `Error: <message>`,
   * so the client shows it as the assistant's reply and still recommends
   * doctors.
   */
  lemma BackendErrorIsAnswered(error: string, status: nat, encode: string -> string, parse: string -> Option<string>)
    requires Compatible(encode, parse)
    requires ChatStream.IsOk(status)
    ensures var body := ChatStream.Body([ApiServer.ErrorEvent(error, encode)], None);
      ChatStream.Settle(ChatStream.Response(status, Some(body)), parse) == ChatStream.Answered("Error: " + error)
      && |ChatStream.Recommended(ChatStream.Answered("Error: " + error))| == ChatStream.RecommendationCount
  {
    var payload := encode("Error: " + error);
    assert parse(payload) == Some("Error: " + error) && '\n' !in payload;
    SingleEventBody(payload, parse);
    ConcatSingle("Error: " + error);
  }
}
