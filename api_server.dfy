/**
 * The backend's conversation memory and its event stream.
 *
 * Memory maps a session id to its most recent messages, at most twenty of
 * them, oldest first. A chat request reads the session's recent history,
 * asks the retrieval chain for an answer, stores the question and the
 * answer, and streams the answer back one character per event.
 *
 * The collaborators the backend cannot see are parameters:
 *  - `rag` is the retrieval chain: given the question and the history text
 *    it answers `Ok(Some(text))`, `Ok(None)` when the model's reply carries
 *    no text (`response.text` is `None`), or `Err(e)` with `e` the text of
 *    the exception;
 *  - `encode` is `json.dumps({'text': s})`.
 */
module ApiServer {
  import opened Wrappers
  import opened Strings

  /** The most messages a session keeps. */
  const MemoryLimit: nat := 20

  /** The number of recent messages a chat request reads. */
  const DefaultHistoryLimit: int := 5

  const NoPreviousConversation: string := "No previous conversation"

  datatype Entry = Entry(role: string, content: string)

  /** What a chat request carries; a client that sends no session id uses `"default"`. */
  datatype ChatRequest = ChatRequest(message: string, sessionId: string)

  const DefaultSession: string := "default"

  /** The last `MemoryLimit` entries of `history`, in order. */
  function Truncate(history: seq<Entry>): (r: seq<Entry>)
    ensures |r| == if |history| > MemoryLimit then MemoryLimit else |history|
  {
    if |history| > MemoryLimit then history[|history| - MemoryLimit..] else history
  }

  /**
   * Python's `history[-limit:]` for every integer `limit`: the last `limit`
   * entries when `limit` is positive, all of them when it is zero (`-0` is
   * `0`), and all but the first `-limit` when it is negative.
   */
  function PythonTail(history: seq<Entry>, limit: int): (r: seq<Entry>)
    ensures |r| <= |history| && r == history[|history| - |r|..]
    ensures limit > 0 ==> |r| == if limit < |history| then limit else |history|
    ensures limit == 0 ==> r == history
    ensures limit < 0 ==> |r| == if -limit < |history| then |history| + limit else 0
  {
    var start := -limit;
    if start < 0 then
      (if -start < |history| then history[|history| + start..] else history)
    else if start < |history| then history[start..]
    else []
  }

  /** One line of the history text: the role title-cased, a colon, and the content. */
  function HistoryLine(e: Entry): string {
    Title(e.role) + ": " + e.content
  }

  /** The history entries as lines separated by a blank line. */
  function FormatHistory(history: seq<Entry>): (text: string)
    ensures history == [] ==> text == ""
    ensures |history| == 1 ==> text == HistoryLine(history[0])
    decreases |history|
  {
    if history == [] then ""
    else if |history| == 1 then HistoryLine(history[0])
    else HistoryLine(history[0]) + "\n\n" + FormatHistory(history[1..])
  }

  /** The text `get_conversation_history(session_id, limit)` returns over `sessions`. */
  function ConversationHistory(sessions: map<string, seq<Entry>>, sessionId: string, limit: int): (text: string)
    ensures sessionId !in sessions ==> text == NoPreviousConversation
    ensures sessionId in sessions ==> text == FormatHistory(PythonTail(sessions[sessionId], limit))
  {
    if sessionId !in sessions then NoPreviousConversation
    else FormatHistory(PythonTail(sessions[sessionId], limit))
  }

  /** The memory after `add_to_memory`: the session, created empty if unseen, gains the entry and is truncated. */
  function Added(sessions: map<string, seq<Entry>>, sessionId: string, role: string, content: string)
    : map<string, seq<Entry>>
  {
    var before := if sessionId in sessions then sessions[sessionId] else [];
    sessions[sessionId := Truncate(before + [Entry(role, content)])]
  }

  /** Every session holds between one and `MemoryLimit` entries. */
  predicate Bounded(sessions: map<string, seq<Entry>>) {
    forall id | id in sessions :: 1 <= |sessions[id]| <= MemoryLimit
  }

  /** The message `clear_memory` answers with. */
  function ClearedMessage(sessionId: string, existed: bool): string {
    if existed then "Memory cleared for session " + sessionId
    else "No memory found for session " + sessionId
  }

  /** One server-sent event carrying `payload`. */
  function Event(payload: string): string {
    "data: " + payload + "\n\n"
  }

  /** The events of a successful reply: one per character of `text`, in order. */
  function EncodeStream(text: string, encode: string -> string): (events: seq<string>)
    ensures |events| == |text|
    ensures forall k :: 0 <= k < |text| ==> events[k] == Event(encode([text[k]]))
  {
    seq(|text|, k requires 0 <= k < |text| => Event(encode([text[k]])))
  }

  /** How an f-string renders a `None` content in the history text. */
  const NoneText: string := "None"

  /** The message of the `TypeError` raised by `for char in None`. */
  const NoneNotIterable: string := "'NoneType' object is not iterable"

  /** The single event sent when the retrieval chain fails with `error`. */
  function ErrorEvent(error: string, encode: string -> string): string {
    Event(encode("Error: " + error))
  }

  class ConversationMemory {
    var sessions: map<string, seq<Entry>>

    /** Memory starts empty. */
    constructor ()
      ensures sessions == map[]
    {
      sessions := map[];
    }

    /** `get_conversation_history`: reads memory and changes nothing. */
    function GetConversationHistory(sessionId: string, limit: int): (text: string)
      reads this
      ensures sessionId !in sessions ==> text == NoPreviousConversation
      ensures sessionId in sessions ==> text == FormatHistory(PythonTail(sessions[sessionId], limit))
    {
      ConversationHistory(sessions, sessionId, limit)
    }

    /** `add_to_memory`: appends to the session, creating it if unseen, and keeps its last twenty entries. */
    method AddToMemory(sessionId: string, role: string, content: string)
      modifies this
      ensures sessions == Added(old(sessions), sessionId, role, content)
      ensures Bounded(old(sessions)) ==> Bounded(sessions)
    {
      ghost var before := if sessionId in sessions then sessions[sessionId] else [];
      if sessionId !in sessions {
        sessions := sessions[sessionId := []];
      }
      assert sessions == old(sessions)[sessionId := before];
      var history := sessions[sessionId] + [Entry(role, content)];
      sessions := sessions[sessionId := history];
      assert sessions == old(sessions)[sessionId := history];
      if |sessions[sessionId]| > MemoryLimit {
        sessions := sessions[sessionId := sessions[sessionId][|sessions[sessionId]| - MemoryLimit..]];
      }
      assert sessions[sessionId] == Truncate(history);
      if Bounded(old(sessions)) {
        AddedBounded(old(sessions), sessionId, role, content);
      }
    }

    /** `clear_memory`: removes exactly the named session and says whether it was there. */
    method ClearMemory(sessionId: string) returns (message: string)
      modifies this
      ensures sessions == old(sessions) - {sessionId}
      ensures message == ClearedMessage(sessionId, sessionId in old(sessions))
    {
      if sessionId in sessions {
        sessions := sessions - {sessionId};
        message := ClearedMessage(sessionId, true);
      } else {
        message := ClearedMessage(sessionId, false);
      }
    }

    /**
     * One `/api/chat` request: history is read before anything is stored; on
     * success the question and then the answer are stored and the answer is
     * streamed character by character; when the chain fails memory is
     * untouched and one error event is sent. A reply without text is still
     * stored, as `None`, before iterating over it raises and one error
     * event is sent.
     */
    method ChatStream(request: ChatRequest, rag: (string, string) -> Result<Option<string>>, encode: string -> string)
      returns (events: seq<string>)
      modifies this
      ensures var history := ConversationHistory(old(sessions), request.sessionId, DefaultHistoryLimit);
        var asked := Added(old(sessions), request.sessionId, "user", request.message);
        match rag(request.message, history)
        case Ok(Some(text)) =>
          sessions == Added(asked, request.sessionId, "assistant", text)
          && events == EncodeStream(text, encode)
        case Ok(None) =>
          sessions == Added(asked, request.sessionId, "assistant", NoneText)
          && events == [ErrorEvent(NoneNotIterable, encode)]
        case Err(e) => sessions == old(sessions) && events == [ErrorEvent(e, encode)]
    {
      var history := GetConversationHistory(request.sessionId, DefaultHistoryLimit);
      var answer := rag(request.message, history);
      match answer {
        case Err(e) =>
          events := [ErrorEvent(e, encode)];
        case Ok(reply) =>
          AddToMemory(request.sessionId, "user", request.message);
          match reply {
            case Some(text) =>
              AddToMemory(request.sessionId, "assistant", text);
              events := Generate(text, encode);
            case None =>
              AddToMemory(request.sessionId, "assistant", NoneText);
              events := [ErrorEvent(NoneNotIterable, encode)];
          }
      }
    }
  }

  /** The `for char in response_text` loop of `generate`: one event per character, in order. */
  method Generate(text: string, encode: string -> string) returns (events: seq<string>)
    ensures events == EncodeStream(text, encode)
  {
    events := [];
    var i := 0;
    while i < |text|
      invariant 0 <= i <= |text|
      invariant events == EncodeStream(text[..i], encode)
    {
      events := events + [Event(encode([text[i]]))];
      i := i + 1;
    }
    assert text[..|text|] == text;
  }

  /** `add_to_memory` touches only its own session, which afterwards exists. */
  lemma AddedFrame(sessions: map<string, seq<Entry>>, sessionId: string, role: string, content: string)
    ensures var r := Added(sessions, sessionId, role, content);
      sessionId in r
      && (forall id :: id in r <==> id in sessions || id == sessionId)
      && (forall id | id in sessions && id != sessionId :: r[id] == sessions[id])
  {
  }

  lemma AddedBounded(sessions: map<string, seq<Entry>>, sessionId: string, role: string, content: string)
    requires Bounded(sessions)
    ensures Bounded(Added(sessions, sessionId, role, content))
  {
    var r := Added(sessions, sessionId, role, content);
    AddedLast(sessions, sessionId, role, content);
    forall id | id in r ensures 1 <= |r[id]| <= MemoryLimit {
      if id != sessionId {
        assert r[id] == sessions[id];
      }
    }
  }

  /** After `add_to_memory` the session's last entry is the one just added. */
  lemma AddedLast(sessions: map<string, seq<Entry>>, sessionId: string, role: string, content: string)
    ensures var h := Added(sessions, sessionId, role, content)[sessionId];
      1 <= |h| <= MemoryLimit && h[|h| - 1] == Entry(role, content)
  {
    var before := if sessionId in sessions then sessions[sessionId] else [];
    var all := before + [Entry(role, content)];
    var h := Truncate(all);
    assert Added(sessions, sessionId, role, content)[sessionId] == h;
    assert h == all[|all| - |h|..];
    assert h[|h| - 1] == all[|all| - 1];
  }

  /**
   * The session keeps the most recent entries in order: what it held before
   * plus the new entry, less as many of the oldest as exceed the limit.
   */
  lemma AddedKeepsMostRecent(sessions: map<string, seq<Entry>>, sessionId: string, role: string, content: string)
    requires sessionId in sessions
    ensures var old_ := sessions[sessionId] + [Entry(role, content)];
      var h := Added(sessions, sessionId, role, content)[sessionId];
      |h| == (if |old_| > MemoryLimit then MemoryLimit else |old_|)
      && h == old_[|old_| - |h|..]
  {
  }

  /** Clearing a session that was just stored to reports it cleared, and reading it afterwards finds nothing. */
  lemma ClearAfterAdd(sessions: map<string, seq<Entry>>, sessionId: string, role: string, content: string)
    ensures sessionId in Added(sessions, sessionId, role, content)
    ensures ConversationHistory(Added(sessions, sessionId, role, content) - {sessionId}, sessionId, DefaultHistoryLimit)
         == NoPreviousConversation
  {
  }

  /** The history text with lines split by a blank line: `k` entries give `k` lines joined by `"\n\n"`. */
  lemma {:induction false} FormatHistoryIsJoin(history: seq<Entry>)
    ensures FormatHistory(history) == Join(seq(|history|, k requires 0 <= k < |history| => HistoryLine(history[k])), "\n\n")
    decreases |history|
  {
    var lines := seq(|history|, k requires 0 <= k < |history| => HistoryLine(history[k]));
    if |history| > 1 {
      FormatHistoryIsJoin(history[1..]);
      assert lines[1..] == seq(|history[1..]|, k requires 0 <= k < |history[1..]| => HistoryLine(history[1..][k]));
    }
  }

  /**
   * After one successful exchange on a fresh session, the next request's
   * history reads `User: <question>` then `Assistant: <answer>`.
   */
  lemma HistoryAfterExchange(sessions: map<string, seq<Entry>>, sessionId: string, question: string, answer: string)
    requires sessionId !in sessions
    ensures ConversationHistory(
              Added(Added(sessions, sessionId, "user", question), sessionId, "assistant", answer),
              sessionId, DefaultHistoryLimit)
         == HistoryLine(Entry("user", question)) + "\n\n" + HistoryLine(Entry("assistant", answer))
  {
    var u, a := Entry("user", question), Entry("assistant", answer);
    var s1 := Added(sessions, sessionId, "user", question);
    AddedToShort(sessions, sessionId, "user", question);
    AddedToShort(s1, sessionId, "assistant", answer);
    var h := [u] + [a];
    assert PythonTail(h, DefaultHistoryLimit) == h;
    assert h[1..] == [a];
  }

  /** A session below the limit simply gains the entry at its end; an unseen one starts with it. */
  lemma AddedToShort(sessions: map<string, seq<Entry>>, sessionId: string, role: string, content: string)
    requires sessionId in sessions ==> |sessions[sessionId]| < MemoryLimit
    ensures Added(sessions, sessionId, role, content)[sessionId]
         == (if sessionId in sessions then sessions[sessionId] else []) + [Entry(role, content)]
  {
  }

  lemma HistoryLinesOfRoles(question: string, answer: string)
    ensures HistoryLine(Entry("user", question)) == "User" + ": " + question
    ensures HistoryLine(Entry("assistant", answer)) == "Assistant" + ": " + answer
  {
    TitleOfUser();
    TitleOfAssistant();
  }

  /** A limit of zero reads the whole stored history, not none of it. */
  lemma ZeroLimitReadsAll(sessions: map<string, seq<Entry>>, sessionId: string)
    requires sessionId in sessions
    ensures ConversationHistory(sessions, sessionId, 0) == FormatHistory(sessions[sessionId])
  {
  }
}
