/** Newline framing of JSON-RPC messages over a WebSocket: the two write adapters, the two
    read adapters that cut messages into byte chunks, and the line reassembly that the
    receive loop performs. Encoded text is modelled as `string`. */
module Framing {
  import opened Lists
  import opened Text
  import opened Options

  const NEWLINE := '\n'

  predicate IsNewline(c: char) { c == NEWLINE }

  // ---- Writing -------------------------------------------------------------

  /** `_WebSocketWriteStream.send`: what reaches the WebSocket for one written item. */
  function WebSocketSend(item: string): Option<string> {
    var message := Strip(item, IsSpace);
    if message != "" then Some(message) else None
  }

  /** `_StarletteWebSocketWriteStream.send`: only trailing newlines are removed. */
  function StarletteSend(item: string): Option<string> {
    var message := StripRight(item, IsNewline);
    if message != "" then Some(message) else None
  }

  /** `MessageSender` writes one encoded payload and a newline per message; these are the
      WebSocket messages that one payload becomes. */
  function WebSocketMessages(payload: string): seq<string> {
    match WebSocketSend(payload + [NEWLINE])
    case Some(m) => [m]
    case None => []
  }

  function StarletteMessages(payload: string): seq<string> {
    match StarletteSend(payload + [NEWLINE])
    case Some(m) => [m]
    case None => []
  }

  // ---- Reading -------------------------------------------------------------

  /** A read adapter: the carry-over buffer and the messages the WebSocket still delivers. */
  datatype ReadState = ReadState(buffer: string, incoming: seq<string>)

  function Terminated(message: string): (r: string)
    ensures r != "" && Last(r) == NEWLINE
  {
    if message != "" && Last(message) == NEWLINE then message else message + [NEWLINE]
  }

  function Take(s: string, n: nat): string { if |s| <= n then s else s[..n] }

  function Drop(s: string, n: nat): string { if |s| <= n then "" else s[n..] }

  /** The text a reader has not handed out yet. */
  function Pending(st: ReadState): string
    decreases |st.incoming|
  {
    st.buffer +
    (if st.incoming == [] then "" else Pending(ReadState(Terminated(st.incoming[0]), st.incoming[1..])))
  }

  /** One `receive(max_bytes)`; `None` stands for the `EndOfStream` exception. */
  function ReceiveStep(st: ReadState, maxBytes: nat): (Option<string>, ReadState) {
    if st.buffer != "" then
      (Some(Take(st.buffer, maxBytes)), st.(buffer := Drop(st.buffer, maxBytes)))
    else if st.incoming == [] then (None, st)
    else
      var data := Terminated(st.incoming[0]);
      (Some(Take(data, maxBytes)), ReadState(Drop(data, maxBytes), st.incoming[1..]))
  }

  lemma PendingIsBufferFirst(st: ReadState)
    ensures Pending(st) == st.buffer + Pending(ReadState("", st.incoming))
    ensures st.buffer == "" && st.incoming != [] ==>
              Pending(st) == Pending(ReadState(Terminated(st.incoming[0]), st.incoming[1..]))
  {
  }

  lemma TakeDropPending(data: string, incoming: seq<string>, n: nat)
    requires data != ""
    ensures Take(data, n) + Pending(ReadState(Drop(data, n), incoming)) == Pending(ReadState(data, incoming))
    ensures Pending(ReadState(data, incoming)) != ""
  {
    hide Pending, Take, Drop;
    PendingIsBufferFirst(ReadState(data, incoming));
    PendingIsBufferFirst(ReadState(Drop(data, n), incoming));
    TakeDrop(data, n, Pending(ReadState("", incoming)));
  }

  lemma TakeDrop(data: string, n: nat, rest: string)
    ensures Take(data, n) + (Drop(data, n) + rest) == data + rest
  {
  }

  /** A receive hands out the next piece of the pending text, of at most `maxBytes`
      characters and non-empty when it may be; it ends exactly when nothing is pending. */
  lemma ReceiveConserves(st: ReadState, maxBytes: nat)
    ensures var (data, st') := ReceiveStep(st, maxBytes);
            && (data == None <==> Pending(st) == "")
            && (data == None ==> st' == st)
            && (data.Some? ==> && data.value + Pending(st') == Pending(st)
                               && |data.value| <= maxBytes
                               && (maxBytes > 0 ==> data.value != ""))
  {
    if st.buffer != "" {
      TakeDropPending(st.buffer, st.incoming, maxBytes);
    } else if st.incoming != [] {
      PendingIsBufferFirst(st);
      TakeDropPending(Terminated(st.incoming[0]), st.incoming[1..], maxBytes);
    }
  }

  /** `_WebSocketReadStream`: the buffer is always refilled with what exceeds `max_bytes`. */
  class WebSocketReadStream {
    var buffer: string
    var incoming: seq<string>

    function State(): ReadState
      reads this
    {
      ReadState(buffer, incoming)
    }

    constructor (messages: seq<string>)
      ensures State() == ReadState("", messages)
    {
      buffer := "";
      incoming := messages;
    }

    method Receive(maxBytes: nat) returns (data: Option<string>)
      modifies this
      ensures (data, State()) == ReceiveStep(old(State()), maxBytes)
    {
      if buffer != "" {
        data := Some(Take(buffer, maxBytes));
        buffer := Drop(buffer, maxBytes);
        return;
      }
      if incoming == [] {
        return None;
      }
      var message := incoming[0];
      incoming := incoming[1..];
      if !(message != "" && Last(message) == NEWLINE) {
        message := message + [NEWLINE];
      }
      buffer := Drop(message, maxBytes);
      data := Some(Take(message, maxBytes));
    }
  }

  /** `_StarletteWebSocketReadStream`: the buffer is written only when a message is too long. */
  class StarletteReadStream {
    var buffer: string
    var incoming: seq<string>

    function State(): ReadState
      reads this
    {
      ReadState(buffer, incoming)
    }

    constructor (messages: seq<string>)
      ensures State() == ReadState("", messages)
    {
      buffer := "";
      incoming := messages;
    }

    method Receive(maxBytes: nat) returns (data: Option<string>)
      modifies this
      ensures (data, State()) == ReceiveStep(old(State()), maxBytes)
    {
      if buffer != "" {
        data := Some(Take(buffer, maxBytes));
        buffer := Drop(buffer, maxBytes);
        return;
      }
      if incoming == [] {
        return None;
      }
      var message := incoming[0];
      incoming := incoming[1..];
      if !(message != "" && Last(message) == NEWLINE) {
        message := message + [NEWLINE];
      }
      if |message| > maxBytes {
        buffer := message[maxBytes..];
        return Some(message[..maxBytes]);
      }
      return Some(message);
    }
  }

  /** The chunks that successive receives with the given limits return. */
  function Drain(st: ReadState, limits: seq<nat>): (seq<string>, ReadState)
    decreases |limits|
  {
    if limits == [] then ([], st)
    else
      var (data, st') := ReceiveStep(st, limits[0]);
      if data == None then ([], st')
      else
        var (chunks, last) := Drain(st', limits[1..]);
        ([data.value] + chunks, last)
  }

  lemma {:induction false} DrainConserves(st: ReadState, limits: seq<nat>)
    ensures Concat(Drain(st, limits).0) + Pending(Drain(st, limits).1) == Pending(st)
    ensures (forall i | 0 <= i < |limits| :: limits[i] >= 1) && |limits| >= |Pending(st)|
            ==> Pending(Drain(st, limits).1) == ""
    decreases |limits|
  {
    if limits != [] {
      ReceiveConserves(st, limits[0]);
      var (data, st') := ReceiveStep(st, limits[0]);
      if data.Some? {
        DrainConserves(st', limits[1..]);
        var (chunks, last) := Drain(st', limits[1..]);
        assert ([data.value] + chunks)[1..] == chunks;
        assert Concat([data.value] + chunks) == data.value + Concat(chunks);
        assert forall i | 0 <= i < |limits[1..]| :: limits[1..][i] == limits[i + 1];
      }
    }
  }

  // ---- The receive loop ----------------------------------------------------

  /** A complete line is dropped when it is empty or the text `null`. */
  predicate Skipped(line: string) { line == "" || line == "null" }

  function KeptFor(line: string): seq<string> {
    if Skipped(line) then [] else [line]
  }

  function Kept(lines: seq<string>): seq<string> {
    FlatMap(KeptFor, lines)
  }

  /** The lines one chunk completes, and the unfinished rest. */
  function Feed(buffer: string, chunk: string): (seq<string>, string) {
    var pieces := Split(buffer + chunk, NEWLINE);
    (Kept(Init(pieces)), Last(pieces))
  }

  /** All lines a sequence of chunks completes, starting from a buffer. */
  function Lines(buffer: string, chunks: seq<string>): (seq<string>, string)
    decreases |chunks|
  {
    if chunks == [] then ([], buffer)
    else
      var (first, rest) := Feed(buffer, chunks[0]);
      var (more, last) := Lines(rest, chunks[1..]);
      (first + more, last)
  }

  /** Two chunks in a row complete the same lines as the two joined. */
  lemma FeedTwice(buffer: string, a: string, b: string)
    ensures var (first, mid) := Feed(buffer, a);
            var (more, last) := Feed(mid, b);
            Feed(buffer, a + b) == (first + more, last)
  {
    var pieces := Split(buffer + a, NEWLINE);
    var rest := Split(Last(pieces) + b, NEWLINE);
    SplitOfAppend(buffer + a, b, NEWLINE);
    assert buffer + (a + b) == (buffer + a) + b;
    hide Split;
    assert Init(Init(pieces) + rest) == Init(pieces) + Init(rest);
    FlatMapAppend(KeptFor, Init(pieces), Init(rest));
  }

  /** The receive loop does not depend on how the stream is cut into chunks: it processes the
      newline split of the whole text minus its last piece, and buffers that last piece. */
  lemma {:induction false} LinesIgnoreChunking(buffer: string, chunks: seq<string>)
    requires NEWLINE !in buffer
    ensures Lines(buffer, chunks) == Feed(buffer, Concat(chunks))
    decreases |chunks|
  {
    if chunks == [] {
      assert buffer + "" == buffer;
      SplitFree(buffer, NEWLINE);
    } else {
      var rest := Feed(buffer, chunks[0]).1;
      JoinOfSplit(buffer + chunks[0], NEWLINE);
      LinesIgnoreChunking(rest, chunks[1..]);
      assert Concat(chunks) == chunks[0] + Concat(chunks[1..]);
      hide Feed, Concat;
      FeedTwice(buffer, chunks[0], Concat(chunks[1..]));
    }
  }

  // ---- End to end ----------------------------------------------------------

  /** Everything from the sender's payloads to the receiver's lines: `messages` is what the
      write adapter makes of one payload, `limits` are the read sizes. */
  function Transported(payloads: seq<string>, messages: string -> seq<string>, limits: seq<nat>)
    : (seq<string>, string)
  {
    Lines("", Drain(ReadState("", FlatMap(messages, payloads)), limits).0)
  }

  /** Enough receives, each allowed at least one byte, to read the whole stream. */
  ghost predicate ReadsEverything(messages: seq<string>, limits: seq<nat>) {
    && (forall i | 0 <= i < |limits| :: limits[i] >= 1)
    && |limits| >= |Pending(ReadState("", messages))|
  }

  ghost predicate NewlineFree(texts: seq<string>) {
    forall t | t in texts :: NEWLINE !in t
  }

  /** What a WebSocket carries for newline-free messages is one line per message. */
  lemma {:induction false} PendingIsLines(messages: seq<string>)
    requires NewlineFree(messages)
    ensures Split(Pending(ReadState("", messages)), NEWLINE) == messages + [""]
  {
    hide Split;
    if messages == [] {
      SplitFree("", NEWLINE);
    } else {
      var m, rest := messages[0], messages[1..];
      assert m in messages;
      assert m != "" ==> Last(m) in m;
      PendingIsLines(rest);
      var tail := Pending(ReadState("", rest));
      PendingIsBufferFirst(ReadState("", messages));
      PendingIsBufferFirst(ReadState(Terminated(m), rest));
      assert Pending(ReadState("", messages)) == m + [NEWLINE] + tail;
      hide Pending;
      SplitHead(m, tail, NEWLINE);
      assert messages + [""] == [m] + (rest + [""]);
    }
  }

  /** A reader that reads everything gets one line per message, less the skipped lines. */
  lemma ReadBack(messages: seq<string>, limits: seq<nat>)
    requires NewlineFree(messages) && ReadsEverything(messages, limits)
    ensures Lines("", Drain(ReadState("", messages), limits).0) == (Kept(messages), "")
  {
    hide Pending, Drain, Lines, Feed, Concat;
    var st := ReadState("", messages);
    var (chunks, last) := Drain(st, limits);
    DrainConserves(st, limits);
    LinesIgnoreChunking("", chunks);
    assert Concat(chunks) + "" == Concat(chunks);
    WholeFeed(messages);
  }

  /** At any moment, after any receives, the lines so far are the first ones sent. */
  lemma ReadBackPrefix(messages: seq<string>, limits: seq<nat>)
    requires NewlineFree(messages)
    ensures Lines("", Drain(ReadState("", messages), limits).0).0 <= Kept(messages)
  {
    hide Pending, Drain, Lines, Feed, Concat;
    var st := ReadState("", messages);
    var (chunks, last) := Drain(st, limits);
    DrainConserves(st, limits);
    LinesIgnoreChunking("", chunks);
    FeedTwice("", Concat(chunks), Pending(last));
    WholeFeed(messages);
  }

  lemma WholeFeed(messages: seq<string>)
    requires NewlineFree(messages)
    ensures Feed("", Pending(ReadState("", messages))) == (Kept(messages), "")
  {
    var text := Pending(ReadState("", messages));
    PendingIsLines(messages);
    assert "" + text == text;
    assert Init(messages + [""]) == messages;
  }

  /** What the plain WebSocket adapters deliver for one payload. */
  function Trimming(payload: string): seq<string> {
    KeptFor(Strip(payload, IsSpace))
  }

  lemma WebSocketDelivers(payload: string)
    requires NEWLINE !in payload
    ensures Kept(WebSocketMessages(payload)) == Trimming(payload)
    ensures NewlineFree(WebSocketMessages(payload))
    ensures Trimming(payload) == [payload] <==> !Skipped(payload) && Trimmed(payload, IsSpace)
  {
    var s := Strip(payload, IsSpace);
    StripFacts(payload, IsSpace);
    StripOfPadded("", payload, [NEWLINE], IsSpace);
    assert "" + payload + [NEWLINE] == payload + [NEWLINE];
    hide Strip, Trimmed;
    FlatMapOne(KeptFor, s);
    hide FlatMap;
  }

  lemma StarletteDelivers(payload: string)
    requires NEWLINE !in payload
    ensures Kept(StarletteMessages(payload)) == KeptFor(payload)
    ensures NewlineFree(StarletteMessages(payload))
  {
    var item := payload + [NEWLINE];
    assert Last(item) == NEWLINE && Init(item) == payload;
    assert payload != "" ==> Last(payload) in payload;
    assert StripRight(item, IsNewline) == payload;
    FlatMapOne(KeptFor, payload);
  }

  lemma NewlineFreeAll(payloads: seq<string>, messages: string -> seq<string>)
    requires forall p | p in payloads :: NewlineFree(messages(p))
    ensures NewlineFree(FlatMap(messages, payloads))
  {
    forall t | t in FlatMap(messages, payloads) ensures NEWLINE !in t {
      FlatMapMember(messages, payloads, t);
    }
  }

  lemma WebSocketKeeps(payloads: seq<string>)
    requires NewlineFree(payloads)
    ensures NewlineFree(FlatMap(WebSocketMessages, payloads))
    ensures Kept(FlatMap(WebSocketMessages, payloads)) == FlatMap(Trimming, payloads)
    ensures FlatMap(Trimming, payloads) == payloads <==> forall p | p in payloads :: !Skipped(p) && Trimmed(p, IsSpace)
  {
    forall p | p in payloads
      ensures Kept(WebSocketMessages(p)) == Trimming(p) && NewlineFree(WebSocketMessages(p))
      ensures Trimming(p) == [p] <==> !Skipped(p) && Trimmed(p, IsSpace)
    {
      WebSocketDelivers(p);
    }
    hide FlatMap, WebSocketMessages, Trimming, Trimmed, Skipped;
    NewlineFreeAll(payloads, WebSocketMessages);
    FlatMapTwice(WebSocketMessages, KeptFor, Trimming, payloads);
    TrimmingBound(payloads);
    FlatMapIdentity(Trimming, payloads);
  }

  lemma TrimmingBound(payloads: seq<string>)
    ensures forall p | p in payloads :: |Trimming(p)| <= 1
  {
  }

  lemma StarletteKeeps(payloads: seq<string>)
    requires NewlineFree(payloads)
    ensures NewlineFree(FlatMap(StarletteMessages, payloads))
    ensures Kept(FlatMap(StarletteMessages, payloads)) == Kept(payloads)
    ensures Kept(payloads) == payloads <==> forall p | p in payloads :: !Skipped(p)
  {
    forall p | p in payloads
      ensures Kept(StarletteMessages(p)) == KeptFor(p) && NewlineFree(StarletteMessages(p))
    {
      StarletteDelivers(p);
    }
    NewlineFreeAll(payloads, StarletteMessages);
    FlatMapTwice(StarletteMessages, KeptFor, KeptFor, payloads);
    FlatMapIdentity(KeptFor, payloads);
  }

  /** Whatever has been read at any moment, the receiver's lines are the first of the payloads
      sent, trimmed by the plain adapters, less the skipped ones. */
  lemma LinesArriveInOrder(payloads: seq<string>, limits: seq<nat>)
    requires NewlineFree(payloads)
    ensures Transported(payloads, WebSocketMessages, limits).0 <= FlatMap(Trimming, payloads)
    ensures Transported(payloads, StarletteMessages, limits).0 <= Kept(payloads)
  {
    hide FlatMap, Drain, Lines;
    WebSocketKeeps(payloads);
    StarletteKeeps(payloads);
    ReadBackPrefix(FlatMap(WebSocketMessages, payloads), limits);
    ReadBackPrefix(FlatMap(StarletteMessages, payloads), limits);
  }

  /** End-to-end framing over the plain WebSocket adapters: whatever the read limits, the
      receiver's lines are exactly the payloads sent, in order, without loss, merge or
      duplicate, if and only if every payload is trimmed and neither empty nor `null`. */
  lemma WebSocketEndToEnd(payloads: seq<string>, limits: seq<nat>)
    requires NewlineFree(payloads) && ReadsEverything(FlatMap(WebSocketMessages, payloads), limits)
    ensures Transported(payloads, WebSocketMessages, limits) == (FlatMap(Trimming, payloads), "")
    ensures Transported(payloads, WebSocketMessages, limits) == (payloads, "")
            <==> forall p | p in payloads :: p != "" && p != "null" && !IsSpace(p[0]) && !IsSpace(p[|p| - 1])
  {
    hide FlatMap, Drain, Lines, ReadsEverything;
    WebSocketKeeps(payloads);
    ReadBack(FlatMap(WebSocketMessages, payloads), limits);
  }

  /** The Starlette adapters do not trim, so they carry every payload that is neither empty
      nor `null`, and only those. */
  lemma StarletteEndToEnd(payloads: seq<string>, limits: seq<nat>)
    requires NewlineFree(payloads) && ReadsEverything(FlatMap(StarletteMessages, payloads), limits)
    ensures Transported(payloads, StarletteMessages, limits) == (Kept(payloads), "")
    ensures Transported(payloads, StarletteMessages, limits) == (payloads, "")
            <==> forall p | p in payloads :: p != "" && p != "null"
  {
    hide FlatMap, Drain, Lines, ReadsEverything;
    StarletteKeeps(payloads);
    ReadBack(FlatMap(StarletteMessages, payloads), limits);
  }

  /** For instance, the plain adapters lose a leading space. */
  lemma LeadingSpaceIsLost(limits: seq<nat>)
    requires ReadsEverything(FlatMap(WebSocketMessages, [" x"]), limits)
    ensures Transported([" x"], WebSocketMessages, limits) != ([" x"], "")
  {
    WebSocketEndToEnd([" x"], limits);
    assert " x" in [" x"] && !Trimmed(" x", IsSpace);
  }
}
