/** The event stream of the assistant: one `data:` line and a blank line per event, which the client cuts out of whatever
    chunks of bytes it reads. The framing is a subset of the WHATWG HTML Standard, section 9.2.5. */
module SseStream {
  import opened Common
  import opened Utf8

  datatype Payload =
    | Started
    | Delta(text: string)
    | ToolStarted(tool: string, call: string)
    | ToolCompleted(tool: string, call: string, status: string)
    | Failed(code: string, message: string)
    | Completed(message: string, token: string)

  datatype Envelope = Envelope(runId: string, sequence: nat, payload: Payload)

  /** The JSON encoding, as a parameter. */
  datatype Codec = Codec(encode: Envelope -> string, decode: string -> Option<Envelope>)

  /** What the framing needs of it: it can be read back, it is one line that starts and ends with a visible character,
      and no proper beginning of an object is an object. */
  ghost predicate Lawful(c: Codec) {
    forall e: Envelope :: EncodesWell(c, e)
  }

  ghost predicate EncodesWell(c: Codec, e: Envelope) {
    var text := c.encode(e);
    && c.decode(text) == Some(e) && text != "" && !IsSpace(text[0]) && !IsSpace(text[|text| - 1])
    && (forall i :: 0 <= i < |text| ==> text[i] != '\n')
    && (forall n :: 0 < n < |text| ==> c.decode(text[..n]) == None)
  }

  /** An error or the completed answer ends the stream. */
  predicate Terminal(e: Envelope) {
    e.payload.Failed? || e.payload.Completed?
  }

  const PREFIX := "data: "

  function Frame(c: Codec, e: Envelope): string {
    PREFIX + c.encode(e) + "\n\n"
  }

  function Stream(c: Codec, events: seq<Envelope>): string {
    if events == [] then "" else Frame(c, events[0]) + Stream(c, events[1..])
  }

  lemma {:induction false} StreamJoins(c: Codec, a: seq<Envelope>, b: seq<Envelope>)
    ensures Stream(c, a + b) == Stream(c, a) + Stream(c, b)
    decreases |a|
  {
    hide Frame;
    if a == [] {
      assert a + b == b;
    } else {
      StreamJoins(c, a[1..], b);
      assert (a + b)[1..] == a[1..] + b;
    }
  }

  // ---------------------------------------------------------------- reading

  /** The position of the first blank line at or after a position. */
  function Separator(text: string, from: nat): (k: Option<nat>)
    ensures k.Some? ==> from <= k.value && k.value + 2 <= |text| && text[k.value] == '\n' && text[k.value + 1] == '\n'
    ensures k.Some? ==> forall i :: from <= i < k.value ==> !(text[i] == '\n' && text[i + 1] == '\n')
    ensures k.None? ==> forall i :: from <= i && i + 2 <= |text| ==> !(text[i] == '\n' && text[i + 1] == '\n')
    decreases |text| - from
  {
    if from + 2 > |text| then None
    else if text[from] == '\n' && text[from + 1] == '\n' then Some(from)
    else Separator(text, from + 1)
  }

  function LineEnd(text: string): (k: nat)
    ensures k <= |text| && (k < |text| ==> text[k] == '\n') && forall i :: 0 <= i < k ==> text[i] != '\n'
  {
    if text == "" || text[0] == '\n' then 0 else 1 + LineEnd(text[1..])
  }

  /** The event of one line, if it carries one. */
  function EventOf(c: Codec, line: string): Option<Envelope> {
    var trimmed := Trim(line);
    if |trimmed| < |PREFIX| || trimmed[..|PREFIX|] != PREFIX then None else c.decode(trimmed[|PREFIX|..])
  }

  /** All events of a frame, line by line. */
  function EventsOf(c: Codec, frame: string): seq<Envelope>
    decreases |frame|
  {
    var k := LineEnd(frame);
    var first := EventOf(c, frame[..k]);
    (if first.Some? then [first.value] else []) + (if k < |frame| then EventsOf(c, frame[k + 1..]) else [])
  }

  predicate HasTerminal(events: seq<Envelope>) {
    exists i :: 0 <= i < |events| && Terminal(events[i])
  }

  /** What the client made of some text: the events dispatched, what is left in the buffer, and whether it is done. */
  datatype Reading = Reading(events: seq<Envelope>, rest: string, done: bool)

  /** Cut complete frames off a buffer until one is terminal or none is complete. */
  function Drain(c: Codec, buffer: string): Reading
    decreases |buffer|
  {
    var k := Separator(buffer, 0);
    if k.None? then Reading([], buffer, false)
    else
      var events, rest := EventsOf(c, buffer[..k.value]), buffer[k.value + 2..];
      if HasTerminal(events) then Reading(events, rest, true)
      else
        var more := Drain(c, rest);
        Reading(events + more.events, more.rest, more.done)
  }

  /** At the end of the input a partial frame is flushed. */
  function Finish(c: Codec, r: Reading): (seq<Envelope>, bool) {
    if r.done then (r.events, true)
    else if IsBlank(r.rest) then (r.events, false)
    else (r.events + EventsOf(c, r.rest), HasTerminal(EventsOf(c, r.rest)))
  }

  /** The bytes of all the chunks. */
  function Flat(chunks: seq<seq<Byte>>): seq<Byte> {
    if chunks == [] then [] else Flat(chunks[..|chunks| - 1]) + chunks[|chunks| - 1]
  }

  /** What the client makes of all the bytes it got: the events dispatched, and whether the answer is complete. */
  function Received(c: Codec, bytes: seq<Byte>): (seq<Envelope>, bool) {
    Finish(c, Drain(c, Decoded(bytes)))
  }

  lemma SeparatorIs(text: string, from: nat, k: nat)
    requires from <= k && k + 2 <= |text| && text[k] == '\n' && text[k + 1] == '\n'
    requires forall i :: from <= i < k ==> !(text[i] == '\n' && text[i + 1] == '\n')
    ensures Separator(text, from) == Some(k)
  {
  }

  lemma DrainOnce(c: Codec, buffer: string)
    ensures var k := Separator(buffer, 0);
            if k.None? then Drain(c, buffer) == Reading([], buffer, false)
            else
              var events, rest := EventsOf(c, buffer[..k.value]), buffer[k.value + 2..];
              Drain(c, buffer) == if HasTerminal(events) then Reading(events, rest, true)
                                  else var more := Drain(c, rest); Reading(events + more.events, more.rest, more.done)
  {
    hide EventsOf, HasTerminal;
  }

  lemma SeparatorStays(a: string, b: string)
    requires Separator(a, 0).Some?
    ensures Separator(a + b, 0) == Separator(a, 0)
  {
    SeparatorIs(a + b, 0, Separator(a, 0).value);
  }

  /** Cutting frames off a longer text starts by cutting those of its beginning. */
  lemma {:induction false} DrainContinues(c: Codec, a: string, b: string)
    ensures var r := Drain(c, a);
            if r.done then Drain(c, a + b).done && Drain(c, a + b).events == r.events
            else Drain(c, a + b) == var more := Drain(c, r.rest + b); Reading(r.events + more.events, more.rest, more.done)
    decreases |a|
  {
    hide EventsOf, HasTerminal, Drain, Separator;
    DrainOnce(c, a);
    var k := Separator(a, 0);
    if k.None? {
      assert [] + Drain(c, a + b).events == Drain(c, a + b).events;
    } else {
      SeparatorFits(a);
      var rest := a[k.value + 2..];
      SeparatorStays(a, b);
      DrainOnce(c, a + b);
      assert (a + b)[..k.value] == a[..k.value] && (a + b)[k.value + 2..] == rest + b;
      var events := EventsOf(c, a[..k.value]);
      if !HasTerminal(events) {
        DrainContinues(c, rest, b);
        var r := Drain(c, rest);
        if !r.done {
          assert events + (r.events + Drain(c, r.rest + b).events) == (events + r.events) + Drain(c, r.rest + b).events;
        }
      }
    }
  }

  /** The read loop: however the bytes are cut into chunks, even inside a character, the events dispatched are those
      of all the bytes. */
  method StreamAgentChat(c: Codec, chunks: seq<seq<Byte>>) returns (dispatched: seq<Envelope>, completed: bool)
    ensures (dispatched, completed) == Received(c, Flat(chunks))
  {
    hide Separator, EventsOf, HasTerminal, Drain, Flat, Decode;
    dispatched := [];
    var buffer, decoder := "", NewDecoder();
    NothingRead(c);
    for i := 0 to |chunks|
      invariant decoder == Decode(NewDecoder(), Flat(chunks[..i])).0
      invariant Drain(c, Decoded(Flat(chunks[..i]))) == Reading(dispatched, buffer, false)
    {
      var (after, text) := Decode(decoder, chunks[i]);
      BytesMore(chunks, i);
      DrainContinues(c, Decoded(Flat(chunks[..i])), text);
      ghost var before := dispatched;
      decoder, buffer := after, buffer + text;
      ghost var whole := Drain(c, buffer);
      ghost var added: seq<Envelope> := [];
      assert [] + whole.events == whole.events;
      var k := Separator(buffer, 0);
      while k.Some?
        invariant dispatched == before + added && k == Separator(buffer, 0)
        invariant var more := Drain(c, buffer); whole == Reading(added + more.events, more.rest, more.done)
        decreases |buffer|
      {
        DrainStep(c, buffer, added);
        var events := EventsOf(c, buffer[..k.value]);
        SeparatorFits(buffer);
        buffer := buffer[k.value + 2..];
        assert (before + added) + events == before + (added + events);
        dispatched := dispatched + events;
        added := added + events;
        if HasTerminal(events) {
          WholeIsDone(c, chunks, i);
          completed := true;
          return;
        }
        k := Separator(buffer, 0);
      }
      DrainEnds(c, buffer, added);
    }
    assert chunks[..|chunks|] == chunks;
    completed := false;
    if !IsBlank(buffer) {
      var events := EventsOf(c, buffer);
      dispatched := dispatched + events;
      completed := HasTerminal(events);
    }
  }

  lemma NothingRead(c: Codec)
    ensures Flat([]) == [] && Decode(NewDecoder(), []) == (NewDecoder(), "") && Drain(c, "") == Reading([], "", false)
  {
  }

  /** One more chunk adds what it decodes to. */
  lemma BytesMore(chunks: seq<seq<Byte>>, i: nat)
    requires i < |chunks|
    ensures var (after, text) := Decode(Decode(NewDecoder(), Flat(chunks[..i])).0, chunks[i]);
            && Decode(NewDecoder(), Flat(chunks[..i + 1])).0 == after
            && Decoded(Flat(chunks[..i + 1])) == Decoded(Flat(chunks[..i])) + text
  {
    hide Decode;
    assert chunks[..i + 1][..i] == chunks[..i];
    DecodeContinues(NewDecoder(), Flat(chunks[..i]), chunks[i]);
  }

  lemma SeparatorFits(buffer: string)
    ensures Separator(buffer, 0).Some? ==> Separator(buffer, 0).value + 2 <= |buffer|
  {
  }

  lemma DrainStep(c: Codec, buffer: string, added: seq<Envelope>)
    requires Separator(buffer, 0).Some?
    ensures Separator(buffer, 0).value + 2 <= |buffer|
    ensures var k := Separator(buffer, 0).value;
            var events, rest := EventsOf(c, buffer[..k]), buffer[k + 2..];
            var r := Drain(c, buffer);
            if HasTerminal(events) then r.done && added + r.events == added + events
            else var more := Drain(c, rest); r.rest == more.rest && r.done == more.done && added + r.events == (added + events) + more.events
  {
    hide EventsOf, HasTerminal;
  }

  lemma DrainEnds(c: Codec, buffer: string, added: seq<Envelope>)
    requires Separator(buffer, 0).None?
    ensures Drain(c, buffer) == Reading([], buffer, false) && added + [] == added
  {
  }

  /** Once the text of the first chunks is done, so is the text of all, with the same events. */
  lemma WholeIsDone(c: Codec, chunks: seq<seq<Byte>>, i: nat)
    requires i < |chunks| && Drain(c, Decoded(Flat(chunks[..i + 1]))).done
    ensures Drain(c, Decoded(Flat(chunks))).done
    ensures Drain(c, Decoded(Flat(chunks))).events == Drain(c, Decoded(Flat(chunks[..i + 1]))).events
  {
    hide Drain, Flat, Decode;
    var first, rest := Flat(chunks[..i + 1]), Flat(chunks[i + 1..]);
    ChunksSplit(chunks, i + 1);
    DecodeContinues(NewDecoder(), first, rest);
    DrainContinues(c, Decoded(first), Decode(Decode(NewDecoder(), first).0, rest).1);
  }

  lemma {:induction false} ChunksSplit(chunks: seq<seq<Byte>>, n: nat)
    requires n <= |chunks|
    ensures Flat(chunks) == Flat(chunks[..n]) + Flat(chunks[n..])
    decreases |chunks|
  {
    if n == |chunks| {
      assert chunks[..n] == chunks && chunks[n..] == [];
    } else {
      var init := chunks[..|chunks| - 1];
      ChunksSplit(init, n);
      assert init[..n] == chunks[..n];
      assert chunks[n..][..|chunks[n..]| - 1] == init[n..];
    }
  }

  // ---------------------------------------------------------------- the client undoes the server

  /** The events up to and including the first terminal one. */
  function UpToTerminal(events: seq<Envelope>): seq<Envelope> {
    if events == [] then []
    else if Terminal(events[0]) then [events[0]]
    else [events[0]] + UpToTerminal(events[1..])
  }

  lemma TrimKeeps(text: string)
    requires text != "" && !IsSpace(text[0]) && !IsSpace(text[|text| - 1])
    ensures Trim(text) == text
  {
  }

  lemma NoLineEnd(text: string)
    requires forall i :: 0 <= i < |text| ==> text[i] != '\n'
    ensures LineEnd(text) == |text|
  {
  }

  /** A data line gives its event back. */
  lemma DataLine(c: Codec, e: Envelope)
    requires Lawful(c)
    ensures EventsOf(c, PREFIX + c.encode(e)) == [e]
  {
    assert EncodesWell(c, e);
    var text := c.encode(e);
    var line := PREFIX + text;
    assert line[|line| - 1] == text[|text| - 1];
    NoLineEnd(line);
    TrimKeeps(line);
    assert line[..|line|] == line && line[|PREFIX|..] == text && line[..|PREFIX|] == PREFIX;
  }

  lemma OneEvent(e: Envelope)
    ensures HasTerminal([e]) <==> Terminal(e)
  {
    assert [e][0] == e;
  }

  /** A frame followed by anything is read as its event, then the rest. */
  lemma FrameIsRead(c: Codec, e: Envelope, more: string)
    requires Lawful(c)
    ensures var r := Drain(c, Frame(c, e) + more);
            if Terminal(e) then r.done && r.events == [e]
            else var rest := Drain(c, more); r == Reading([e] + rest.events, rest.rest, rest.done)
  {
    hide EventsOf, HasTerminal, Separator;
    assert EncodesWell(c, e);
    var line := PREFIX + c.encode(e);
    var text := Frame(c, e) + more;
    assert text == line + "\n\n" + more;
    SeparatorIs(text, 0, |line|);
    assert text[..|line|] == line && text[|line| + 2..] == more;
    DataLine(c, e);
    OneEvent(e);
  }

  /** The whole stream, followed by anything the events leave undone. */
  lemma {:induction false} StreamIsRead(c: Codec, events: seq<Envelope>, more: string)
    requires Lawful(c)
    ensures var r := Drain(c, Stream(c, events) + more);
            if HasTerminal(events) then r.done && r.events == UpToTerminal(events)
            else var rest := Drain(c, more); r == Reading(events + rest.events, rest.rest, rest.done) && UpToTerminal(events) == events
    decreases |events|
  {
    hide Drain, Frame, Lawful;
    if events == [] {
      assert "" + more == more && [] + Drain(c, more).events == Drain(c, more).events;
    } else {
      var e, rest := events[0], events[1..];
      assert Stream(c, events) + more == Frame(c, e) + (Stream(c, rest) + more);
      FrameIsRead(c, e, Stream(c, rest) + more);
      StreamIsRead(c, rest, more);
      TerminalOfRest(events);
      assert [e] + rest == events;
      if !HasTerminal(rest) {
        assert [e] + (rest + Drain(c, more).events) == events + Drain(c, more).events;
      }
    }
  }

  lemma TerminalOfRest(events: seq<Envelope>)
    requires events != []
    ensures HasTerminal(events) <==> Terminal(events[0]) || HasTerminal(events[1..])
  {
    if HasTerminal(events[1..]) {
      var i :| 0 <= i < |events[1..]| && Terminal(events[1..][i]);
      assert Terminal(events[i + 1]);
    }
  }

  /** A stream does not start with a byte order mark, so its bytes decode to it. */
  lemma StreamDecodes(c: Codec, events: seq<Envelope>)
    ensures Stream(c, events) == "" || Stream(c, events)[0] == 'd'
    ensures Decoded(Encode(Stream(c, events))) == Stream(c, events)
  {
    DecodesEncoded(Stream(c, events));
  }

  lemma WholeStreamIsRead(c: Codec, events: seq<Envelope>)
    requires Lawful(c)
    ensures Finish(c, Drain(c, Stream(c, events))) == (UpToTerminal(events), HasTerminal(events))
  {
    hide Drain, Stream, Lawful;
    StreamIsRead(c, events, "");
    assert Stream(c, events) + "" == Stream(c, events);
    NothingRead(c);
    assert events + [] == events;
  }

  /** For any chunking of the bytes the server wrote, the client dispatches exactly the events written, up to and
      including the first terminal one, and ends well exactly when there is one. */
  lemma ClientUndoesServer(c: Codec, events: seq<Envelope>, chunks: seq<seq<Byte>>)
    requires Lawful(c) && Flat(chunks) == Encode(Stream(c, events))
    ensures Received(c, Flat(chunks)) == (UpToTerminal(events), HasTerminal(events))
  {
    hide Drain, Stream, Flat, Lawful, Encode, Decoded, Finish;
    StreamDecodes(c, events);
    WholeStreamIsRead(c, events);
  }

  // ---------------------------------------------------------------- cut connections

  /** A beginning of a frame holds no complete frame. */
  lemma CutHasNoFrame(c: Codec, e: Envelope, n: nat)
    requires Lawful(c) && n < |Frame(c, e)|
    ensures Drain(c, Frame(c, e)[..n]) == Reading([], Frame(c, e)[..n], false)
  {
    hide EventsOf, HasTerminal;
    assert EncodesWell(c, e);
    var cut := Frame(c, e)[..n];
    assert forall i :: 0 <= i && i + 2 <= |cut| ==> cut[i] != '\n';
  }

  lemma {:induction false} TrimEnds(text: string)
    ensures Trim(text) != "" ==> !IsSpace(Trim(text)[0]) && !IsSpace(Trim(text)[|Trim(text)| - 1])
    decreases |text|
  {
    if text != [] && IsSpace(text[0]) {
      TrimEnds(text[1..]);
    } else if text != [] && IsSpace(text[|text| - 1]) {
      TrimEnds(text[..|text| - 1]);
    }
  }

  /** Trimming a text with a visible start only shortens it. */
  lemma {:induction false} TrimShortens(text: string)
    requires text != "" && !IsSpace(text[0])
    ensures Trim(text) != "" && Trim(text) <= text
    decreases |text|
  {
    if IsSpace(text[|text| - 1]) {
      TrimShortens(text[..|text| - 1]);
    }
  }

  /** A cut payload is not an event. */
  lemma CutPayload(c: Codec, e: Envelope, n: nat)
    requires Lawful(c) && 0 < n < |PREFIX + c.encode(e)|
    ensures EventsOf(c, (PREFIX + c.encode(e))[..n]) == []
  {
    assert EncodesWell(c, e);
    var text := c.encode(e);
    var line := (PREFIX + text)[..n];
    assert line[0] == 'd';
    assert forall i :: 0 <= i < |line| ==> line[i] != '\n';
    NoLineEnd(line);
    TrimShortens(line);
    var trimmed := Trim(line);
    assert line[..|line|] == line;
    if |trimmed| > |PREFIX| {
      assert trimmed[|PREFIX|..] == text[..|trimmed| - |PREFIX|];
    } else if |trimmed| == |PREFIX| {
      assert trimmed == PREFIX[..|PREFIX|];
      TrimEnds(line);
    }
  }

  /** Flushing the beginning of a frame dispatches its event exactly when the whole payload arrived. */
  lemma CutIsFlushed(c: Codec, e: Envelope, n: nat)
    requires Lawful(c) && n < |Frame(c, e)|
    ensures var cut := Frame(c, e)[..n];
            (if IsBlank(cut) then [] else EventsOf(c, cut)) == if n >= |PREFIX + c.encode(e)| then [e] else []
  {
    hide EventsOf;
    assert EncodesWell(c, e);
    var line := PREFIX + c.encode(e);
    var cut := Frame(c, e)[..n];
    if n > 0 {
      assert cut[0] == 'd';
      assert 'd' in cut;
    }
    if n == |line| {
      assert cut == line;
      DataLine(c, e);
    } else if n == |line| + 1 {
      assert cut == line + "\n";
      DataLineAndBreak(c, e);
    } else if 0 < n < |line| {
      assert cut == line[..n];
      CutPayload(c, e, n);
    }
  }

  lemma DataLineAndBreak(c: Codec, e: Envelope)
    requires Lawful(c)
    ensures EventsOf(c, PREFIX + c.encode(e) + "\n") == [e]
  {
    assert EncodesWell(c, e);
    var line := PREFIX + c.encode(e);
    var text := line + "\n";
    EndsAt(text, |line|);
    assert text[..|line|] == line && text[|line| + 1..] == "";
    DataLine(c, e);
    NoLineEnd(line);
    assert line[..|line|] == line;
    assert EventsOf(c, "") == [];
  }

  lemma EndsAt(text: string, k: nat)
    requires k < |text| && text[k] == '\n' && forall i :: 0 <= i < k ==> text[i] != '\n'
    ensures LineEnd(text) == k
  {
  }

  /** The client reads a text cut inside a frame: the events before it, and its own when the whole payload is there. */
  lemma CutTextIsRead(c: Codec, events: seq<Envelope>, last: Envelope, n: nat)
    requires Lawful(c) && n < |Frame(c, last)|
    ensures var there := if n >= |PREFIX + c.encode(last)| then events + [last] else events;
            Finish(c, Drain(c, Stream(c, events) + Frame(c, last)[..n])) == (UpToTerminal(there), HasTerminal(there))
  {
    hide Drain, Stream, Lawful, EventsOf, IsBlank, Frame;
    var cut := Frame(c, last)[..n];
    StreamIsRead(c, events, cut);
    CutHasNoFrame(c, last, n);
    CutIsFlushed(c, last, n);
    assert events + [] == events;
    OneEvent(last);
    UpToTerminalMore(events, last);
    NoTerminal();
  }

  /** How many payloads arrived completely in the first n bytes. */
  function Arrived(c: Codec, events: seq<Envelope>, n: int): (k: nat)
    ensures k <= |events|
  {
    if events == [] || n < |Encode(PREFIX + c.encode(events[0]))| then 0
    else 1 + Arrived(c, events[1..], n - |Encode(Frame(c, events[0]))|)
  }

  /** A cut after n bytes falls inside the first frame, or it is a cut of the rest. */
  lemma CutOfFirst(c: Codec, events: seq<Envelope>, n: nat)
    requires events != []
    ensures var line, first, rest := PREFIX + c.encode(events[0]), Frame(c, events[0]), Stream(c, events[1..]);
            var m := Whole(first + rest, n);
            if n >= |Encode(first)| then
              && n >= |Encode(line)| && (first + rest)[..m] == first + rest[..Whole(rest, n - |Encode(first)|)]
            else
              m < |first| && (first + rest)[..m] == first[..m] && (n >= |Encode(line)| <==> m >= |line|)
  {
    hide Encode, Whole;
    var line, first, rest := PREFIX + c.encode(events[0]), Frame(c, events[0]), Stream(c, events[1..]);
    assert first == line + "\n\n";
    assert first + rest == line + ("\n\n" + rest);
    EncodeJoins(line, "\n\n");
    WholeReaches(first, rest, n);
    WholeReaches(line, "\n\n" + rest, n);
  }

  /** Where a cut after n bytes falls: after j whole frames and r characters of the next one. */
  lemma {:induction false} CutPlace(c: Codec, events: seq<Envelope>, n: nat) returns (j: nat, r: nat)
    ensures j <= |events|
    ensures var there := Stream(c, events)[..Whole(Stream(c, events), n)];
            if j == |events| then there == Stream(c, events) && Arrived(c, events, n) == j
            else
              && r < |Frame(c, events[j])| && there == Stream(c, events[..j]) + Frame(c, events[j])[..r]
              && Arrived(c, events, n) == j + if r >= |PREFIX + c.encode(events[j])| then 1 else 0
    decreases |events|
  {
    hide Encode, Whole, Frame;
    j, r := 0, 0;
    if events != [] {
      var first, rest := Frame(c, events[0]), Stream(c, events[1..]);
      CutOfFirst(c, events, n);
      if n >= |Encode(first)| {
        j, r := CutPlace(c, events[1..], n - |Encode(first)|);
        j := j + 1;
        CutPlaceMoves(c, events, j);
      } else {
        r := Whole(first + rest, n);
        assert events[..0] == [] && "" + first[..r] == first[..r];
      }
    }
  }

  /** Frames counted from the second event on. */
  lemma CutPlaceMoves(c: Codec, events: seq<Envelope>, j: nat)
    requires 0 < j <= |events|
    ensures Stream(c, events[..j]) == Frame(c, events[0]) + Stream(c, events[1..][..j - 1])
    ensures j < |events| ==> events[1..][j - 1] == events[j]
  {
    assert events[..j][1..] == events[1..][..j - 1];
  }

  /** Wherever the connection is cut, even inside a character, and however the bytes that arrive are cut into chunks,
      the client dispatches exactly the events whose payload arrived completely, up to and including the first terminal
      one, and ends well exactly when there is one among them. */
  lemma CutStreamIsRead(c: Codec, events: seq<Envelope>, n: nat, chunks: seq<seq<Byte>>)
    requires Lawful(c) && n <= |Encode(Stream(c, events))| && Flat(chunks) == Encode(Stream(c, events))[..n]
    ensures var there := events[..Arrived(c, events, n)];
            Received(c, Flat(chunks)) == (UpToTerminal(there), HasTerminal(there))
  {
    hide Drain, Stream, Flat, Lawful, Encode, Frame, Arrived, Decode, Finish;
    var text := Stream(c, events);
    StreamDecodes(c, events);
    CutDecodes(false, text, n);
    var j, r := CutPlace(c, events, n);
    assert events[..|events|] == events;
    if j == |events| {
      WholeStreamIsRead(c, events);
    } else {
      CutTextIsRead(c, events[..j], events[j], r);
      assert events[..j] + [events[j]] == events[..j + 1];
    }
  }

  lemma NoTerminal()
    ensures !HasTerminal([])
  {
  }

  lemma {:induction false} UpToTerminalMore(events: seq<Envelope>, e: Envelope)
    ensures UpToTerminal(events + [e]) == if HasTerminal(events) then UpToTerminal(events) else events + [e]
    ensures HasTerminal(events + [e]) <==> HasTerminal(events) || Terminal(e)
    decreases |events|
  {
    hide HasTerminal;
    if events == [] {
      assert [] + [e] == [e] && [e][1..] == [];
      OneEvent(e);
      NoTerminal();
    } else {
      UpToTerminalMore(events[1..], e);
      assert (events + [e])[1..] == events[1..] + [e];
      TerminalOfRest(events);
      TerminalOfRest(events + [e]);
      assert [events[0]] + (events[1..] + [e]) == events + [e];
    }
  }
}
