/** The server's side of the event stream: it numbers the events of a run and writes their frames to a connection that
    may break. What any client receives of an answer is the message, or a beginning of it. */
module SseWriter {
  import opened SseStream
  import opened Utf8

  // ---------------------------------------------------------------- deltas

  function Deltas(message: string, size: nat): (deltas: seq<string>)
    decreases |message|
  {
    if message == "" || size == 0 then []
    else if |message| <= size then [message]
    else [message[..size]] + Deltas(message[size..], size)
  }

  function Joined(parts: seq<string>): string {
    if parts == [] then "" else parts[0] + Joined(parts[1..])
  }

  /** The deltas are short, not empty, and spell the message. */
  lemma {:induction false} DeltasSpellMessage(message: string, size: nat)
    requires size > 0
    ensures Joined(Deltas(message, size)) == message
    ensures forall i :: 0 <= i < |Deltas(message, size)| ==> 0 < |Deltas(message, size)[i]| <= size
    decreases |message|
  {
    if |message| > size {
      DeltasSpellMessage(message[size..], size);
      assert message[..size] + message[size..] == message;
    } else if message != "" {
      assert Joined([message]) == message + Joined([]);
    }
  }

  method MessageDeltas(message: string, maxRunes: int) returns (deltas: seq<string>)
    ensures deltas == if maxRunes <= 0 then [] else Deltas(message, maxRunes)
  {
    deltas := [];
    if message == "" || maxRunes <= 0 {
      return;
    }
    var start := 0;
    assert message[0..] == message;
    while start < |message|
      invariant 0 <= start
      invariant start <= |message| ==> deltas + Deltas(message[start..], maxRunes) == Deltas(message, maxRunes)
      invariant start > |message| ==> deltas == Deltas(message, maxRunes)
    {
      var end := if start + maxRunes < |message| then start + maxRunes else |message|;
      var rest := message[start..];
      if |rest| > maxRunes {
        assert rest[..maxRunes] == message[start..end] && rest[maxRunes..] == message[end..];
      } else {
        assert rest == message[start..end];
        assert |rest| == maxRunes ==> message[end..] == "";
      }
      deltas := deltas + [message[start..end]];
      start := start + maxRunes;
    }
  }

  // ---------------------------------------------------------------- what is written

  /** The events of a run, numbered from 1. */
  function Numbered(runId: string, payloads: seq<Payload>): (events: seq<Envelope>)
    ensures |events| == |payloads|
    ensures forall i :: 0 <= i < |events| ==> events[i] == Envelope(runId, i + 1, payloads[i])
  {
    seq(|payloads|, i requires 0 <= i < |payloads| => Envelope(runId, i + 1, payloads[i]))
  }

  function Sent(c: Codec, runId: string, payloads: seq<Payload>): seq<Byte> {
    Encode(Stream(c, Numbered(runId, payloads)))
  }

  /** What a connection takes that breaks after some bytes. */
  function Cut(bytes: seq<Byte>, capacity: nat): seq<Byte> {
    if |bytes| <= capacity then bytes else bytes[..capacity]
  }

  function DeltaPayloads(deltas: seq<string>): (payloads: seq<Payload>)
    ensures |payloads| == |deltas| && forall i :: 0 <= i < |payloads| ==> payloads[i] == Delta(deltas[i])
  {
    seq(|deltas|, i requires 0 <= i < |deltas| => Delta(deltas[i]))
  }

  /** A completed answer: its deltas, then the whole. */
  function Answer(message: string, token: string): seq<Payload> {
    DeltaPayloads(Deltas(message, 24)) + [Completed(message, token)]
  }

  /** Writing more leaves what was written. */
  lemma SentGrows(c: Codec, runId: string, payloads: seq<Payload>, more: seq<Payload>)
    ensures Sent(c, runId, payloads) <= Sent(c, runId, payloads + more)
  {
    hide Encode, Stream;
    var first, all := Numbered(runId, payloads), Numbered(runId, payloads + more);
    assert all == first + all[|first|..];
    StreamJoins(c, first, all[|first|..]);
    EncodeJoins(Stream(c, first), Stream(c, all[|first|..]));
  }

  lemma SentMore(c: Codec, runId: string, payloads: seq<Payload>, p: Payload)
    ensures Sent(c, runId, payloads + [p]) == Sent(c, runId, payloads) + Encode(Frame(c, Envelope(runId, |payloads| + 1, p)))
  {
    hide Encode, Frame, Stream;
    var first, last := Numbered(runId, payloads), Envelope(runId, |payloads| + 1, p);
    assert Numbered(runId, payloads + [p]) == first + [last];
    StreamJoins(c, first, [last]);
    OneFrame(c, [last]);
    EncodeJoins(Stream(c, first), Frame(c, last));
  }

  lemma OneFrame(c: Codec, events: seq<Envelope>)
    requires |events| == 1
    ensures Stream(c, events) == Frame(c, events[0])
  {
    assert events[1..] == [];
    assert Frame(c, events[0]) + "" == Frame(c, events[0]);
  }

  lemma FrameHasBytes(c: Codec, e: Envelope)
    ensures |Encode(Frame(c, e))| > 0
  {
  }

  // ---------------------------------------------------------------- what is received

  function Payloads(events: seq<Envelope>): (payloads: seq<Payload>)
    ensures |payloads| == |events| && forall i :: 0 <= i < |events| ==> payloads[i] == events[i].payload
  {
    seq(|events|, i requires 0 <= i < |events| => events[i].payload)
  }

  /** The text the deltas add up to. */
  function ReceivedText(payloads: seq<Payload>): string {
    if payloads == [] then "" else (if payloads[0].Delta? then payloads[0].text else "") + ReceivedText(payloads[1..])
  }

  /** Nothing of an answer yet, and no end. */
  predicate Quiet(payloads: seq<Payload>) {
    forall p <- payloads :: !p.Delta? && !p.Failed? && !p.Completed?
  }

  lemma {:induction false} ReceivedJoins(a: seq<Payload>, b: seq<Payload>)
    ensures ReceivedText(a + b) == ReceivedText(a) + ReceivedText(b)
    decreases |a|
  {
    if a == [] {
      assert a + b == b;
    } else {
      ReceivedJoins(a[1..], b);
      assert (a + b)[1..] == a[1..] + b;
    }
  }

  lemma {:induction false} QuietSaysNothing(before: seq<Payload>)
    requires Quiet(before)
    ensures ReceivedText(before) == ""
  {
    if before != [] {
      QuietSaysNothing(before[1..]);
    }
  }

  lemma {:induction false} DeltasAreReceived(deltas: seq<string>)
    ensures ReceivedText(DeltaPayloads(deltas)) == Joined(deltas)
    decreases |deltas|
  {
    if deltas != [] {
      DeltasAreReceived(deltas[1..]);
      assert DeltaPayloads(deltas)[1..] == DeltaPayloads(deltas[1..]);
    }
  }

  /** An answer after anything quiet spells its message, and a beginning of it a beginning. */
  lemma AnswerSpellsMessage(before: seq<Payload>, message: string, token: string, k: nat)
    requires Quiet(before) && k <= |before + Answer(message, token)|
    ensures ReceivedText(before + Answer(message, token)) == message
    ensures ReceivedText((before + Answer(message, token))[..k]) <= message
  {
    hide Deltas, DeltaPayloads;
    var deltas, last := Deltas(message, 24), [Completed(message, token)];
    var all := before + Answer(message, token);
    QuietSaysNothing(before);
    ReceivedJoins(before, Answer(message, token));
    ReceivedJoins(DeltaPayloads(deltas), last);
    DeltasAreReceived(deltas);
    DeltasSpellMessage(message, 24);
    assert last[1..] == [];
    ReceivedJoins(all[..k], all[k..]);
    assert all[..k] + all[k..] == all;
  }

  /** Only the last event of an answer ends the stream. */
  lemma AnswerEndsLast(runId: string, before: seq<Payload>, message: string, token: string, k: nat)
    requires Quiet(before) && k <= |before + Answer(message, token)|
    ensures var events := Numbered(runId, before + Answer(message, token));
            HasTerminal(events[..k]) <==> k == |events|
  {
    hide Deltas;
    var payloads := before + Answer(message, token);
    var events := Numbered(runId, payloads);
    forall i | 0 <= i < |events| - 1 ensures !Terminal(events[i]) {
      if i < |before| {
        assert payloads[i] == before[i];
        assert before[i] in before;
      } else {
        assert payloads[i] == Answer(message, token)[i - |before|];
      }
    }
    if k == |events| {
      assert Terminal(events[..k][k - 1]);
    }
  }

  lemma {:induction false} LastEndsAll(events: seq<Envelope>)
    requires forall i :: 0 <= i < |events| - 1 ==> !Terminal(events[i])
    ensures UpToTerminal(events) == events
  {
    if |events| > 1 {
      LastEndsAll(events[1..]);
    } else if |events| == 1 {
      assert UpToTerminal(events[1..]) == [];
    }
  }

  /** All events arrived exactly when all bytes did, the last blank line aside. */
  lemma {:induction false} AllArrived(c: Codec, events: seq<Envelope>, n: int)
    requires events != []
    ensures Arrived(c, events, n) == |events| <==> n + 2 >= |Encode(Stream(c, events))|
    decreases |events|
  {
    hide Encode;
    var line, first, rest := PREFIX + c.encode(events[0]), Frame(c, events[0]), Stream(c, events[1..]);
    assert first == line + "\n\n";
    EncodeJoins(line, "\n\n");
    EncodeJoins(first, rest);
    BlankLine();
    if |events| == 1 {
      OneFrame(c, events);
    } else {
      AllArrived(c, events[1..], n - |Encode(first)|);
      StreamHasFrame(c, events[1..]);
    }
  }

  lemma BlankLine()
    ensures |Encode("\n\n")| == 2
  {
    assert "\n\n"[1..] == "\n" && "\n"[1..] == "";
  }

  lemma StreamHasFrame(c: Codec, events: seq<Envelope>)
    requires events != []
    ensures |Encode(Stream(c, events))| > 2
  {
    hide Encode;
    EncodeIsLonger(Stream(c, events));
  }

  /** Whatever beginning of the bytes of an answer arrives, and however it is cut into chunks, the deltas received are a
      beginning of the message. The answer completes exactly when all bytes arrived, the last blank line aside, and then
      they are the message and the events are those sent. */
  lemma AnswerArrives(c: Codec, runId: string, before: seq<Payload>, message: string, token: string, chunks: seq<seq<Byte>>)
    requires Lawful(c) && Quiet(before) && Flat(chunks) <= Sent(c, runId, before + Answer(message, token))
    ensures var sent := before + Answer(message, token);
            var (events, completed) := Received(c, Flat(chunks));
            && ReceivedText(Payloads(events)) <= message
            && (completed <==> |Flat(chunks)| + 2 >= |Sent(c, runId, sent)|)
            && (completed ==> events == Numbered(runId, sent) && ReceivedText(Payloads(events)) == message)
  {
    hide Received, Flat, Lawful, Stream, Encode, ReceivedText, Answer;
    var sent := before + Answer(message, token);
    var events := Numbered(runId, sent);
    var n := |Flat(chunks)|;
    CutStreamIsRead(c, events, n, chunks);
    AnswerIsNotEmpty(message, token);
    AllArrived(c, events, n);
    var k := Arrived(c, events, n);
    AnswerEndsLast(runId, before, message, token, k);
    AnswerSpellsMessage(before, message, token, k);
    CutAnswerEnds(runId, before, message, token, k);
    assert Payloads(events[..k]) == sent[..k];
    assert events[..|events|] == events && sent[..|sent|] == sent;
  }

  lemma AnswerIsNotEmpty(message: string, token: string)
    ensures Answer(message, token) != []
  {
  }

  lemma CutAnswerEnds(runId: string, before: seq<Payload>, message: string, token: string, k: nat)
    requires Quiet(before) && k <= |before + Answer(message, token)|
    ensures var events := Numbered(runId, before + Answer(message, token));
            UpToTerminal(events[..k]) == events[..k]
  {
    hide Deltas, Answer, Terminal;
    var events := Numbered(runId, before + Answer(message, token));
    forall i | 0 <= i < k - 1 ensures !Terminal(events[..k][i]) {
      AnswerEndsLast(runId, before, message, token, k - 1);
      assert events[..k][i] == events[..k - 1][i];
    }
    LastEndsAll(events[..k]);
  }

  // ---------------------------------------------------------------- the writer

  /** What a client makes of some bytes of the answer is a beginning of the message, and all of it if it completes. */
  ghost predicate Delivers(c: Codec, bytes: seq<Byte>, message: string) {
    var (events, completed) := Received(c, bytes);
    && ReceivedText(Payloads(events)) <= message
    && (completed ==> ReceivedText(Payloads(events)) == message)
  }

  /** The writer numbers its events and writes their frames. The connection takes `capacity` bytes and then breaks;
      `attempted` remembers what the handler asked to write. */
  class Writer {
    const codec: Codec
    const runId: string
    const capacity: nat
    var sequence: nat
    var response: seq<Byte>
    ghost var attempted: seq<Payload>

    ghost predicate Valid()
      reads this
    {
      response == Cut(Sent(codec, runId, attempted), capacity) && sequence == |attempted|
    }

    constructor (codec: Codec, runId: string, capacity: nat)
      ensures Valid() && this.codec == codec && this.runId == runId && this.capacity == capacity && attempted == []
    {
      this.codec, this.runId, this.capacity := codec, runId, capacity;
      sequence, response, attempted := 0, [], [];
    }

    /** Writes one frame and says whether the connection took all of it. */
    method Write(payload: Payload) returns (ok: bool)
      requires Valid()
      modifies this
      ensures Valid() && attempted == old(attempted) + [payload]
      ensures ok <==> |Sent(codec, runId, attempted)| <= capacity
    {
      hide Sent, Encode, Frame;
      sequence := sequence + 1;
      var frame := Encode(Frame(codec, Envelope(runId, sequence, payload)));
      SentMore(codec, runId, attempted, payload);
      FrameHasBytes(codec, Envelope(runId, sequence, payload));
      var room := capacity - |response|;
      response := response + Cut(frame, room);
      attempted := attempted + [payload];
      ok := |frame| <= room;
    }

    /** The deltas of the message, then the completed answer, up to the first that fails: the response is what the
        connection takes of all of them, and every client that gets some beginning of it receives that of the message. */
    method WriteCompleted(message: string, token: string)
      requires Valid()
      modifies this
      ensures Valid()
      ensures var planned := old(attempted) + Answer(message, token);
              && attempted <= planned && response == Cut(Sent(codec, runId, planned), capacity)
              && (|Sent(codec, runId, planned)| <= capacity ==> attempted == planned)
      ensures Lawful(codec) && Quiet(old(attempted)) ==>
                forall chunks :: Flat(chunks) <= response ==> Delivers(codec, Flat(chunks), message)
      ensures Lawful(codec) && Quiet(old(attempted)) && |Sent(codec, runId, old(attempted) + Answer(message, token))| <= capacity ==>
                forall chunks :: Flat(chunks) == response ==> Received(codec, Flat(chunks)).1
    {
      hide Sent, Deltas, Delivers, Received, Lawful, Quiet, Flat;
      ghost var before := attempted;
      ghost var planned := before + Answer(message, token);
      if Lawful(codec) && Quiet(before) {
        forall chunks | Flat(chunks) <= Sent(codec, runId, planned)
          ensures Delivers(codec, Flat(chunks), message) && (Flat(chunks) == Sent(codec, runId, planned) ==> Received(codec, Flat(chunks)).1)
        {
          AnswerIsDelivered(codec, runId, before, message, token, chunks);
        }
      }
      var deltas := MessageDeltas(message, 24);
      assert before + DeltaPayloads(deltas[..0]) == before;
      for i := 0 to |deltas|
        invariant Valid() && attempted == before + DeltaPayloads(deltas[..i])
      {
        var ok := Write(Delta(deltas[i]));
        assert attempted == before + DeltaPayloads(deltas[..i + 1]);
        if !ok {
          assert planned == attempted + planned[|attempted|..];
          SentGrows(codec, runId, attempted, planned[|attempted|..]);
          return;
        }
      }
      assert deltas[..|deltas|] == deltas;
      var _ := Write(Completed(message, token));
      assert attempted == planned;
    }
  }

  lemma AnswerIsDelivered(c: Codec, runId: string, before: seq<Payload>, message: string, token: string, chunks: seq<seq<Byte>>)
    requires Lawful(c) && Quiet(before) && Flat(chunks) <= Sent(c, runId, before + Answer(message, token))
    ensures Delivers(c, Flat(chunks), message)
    ensures Flat(chunks) == Sent(c, runId, before + Answer(message, token)) ==> Received(c, Flat(chunks)).1
  {
    hide Received, Flat, Lawful, Sent, ReceivedText, Answer, Quiet;
    AnswerArrives(c, runId, before, message, token, chunks);
  }
}
