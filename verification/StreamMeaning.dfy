/** What travels on the event stream and where the client stops, event by event. */
module StreamMeaning {
  import opened Common
  import opened SseStream
  import opened SseWriter
  import opened Utf8

  /** An event travels as one line, `data: ` and its encoding, and a blank line. */
  lemma FrameMeans(c: Codec, e: Envelope)
    requires Lawful(c)
    ensures var text := Frame(c, e);
            && |text| == 6 + |c.encode(e)| + 2
            && text[..6] == "data: " && text[6..|text| - 2] == c.encode(e) && text[|text| - 2..] == "\n\n"
            && forall i :: 0 <= i < |text| - 2 ==> text[i] != '\n'
  {
    assert EncodesWell(c, e);
  }

  lemma {:induction false} StopsAtTerminal(events: seq<Envelope>)
    ensures var read := UpToTerminal(events);
            && read <= events
            && (forall i :: 0 <= i < |read| - 1 ==> !read[i].payload.Failed? && !read[i].payload.Completed?)
            && (HasTerminal(events) <==> read != [] && (read[|read| - 1].payload.Failed? || read[|read| - 1].payload.Completed?))
            && (!HasTerminal(events) ==> read == events)
  {
    if events != [] {
      StopsAtTerminal(events[1..]);
      assert events == [events[0]] + events[1..];
      assert HasTerminal(events) <==> Terminal(events[0]) || HasTerminal(events[1..]) by {
        if HasTerminal(events[1..]) {
          var i :| 0 <= i < |events[1..]| && Terminal(events[1..][i]);
          assert Terminal(events[i + 1]);
        }
      }
    }
  }

  /** However the bytes are cut, the client dispatches the events of the server from the first on, in order, and none after an
      error or a completed answer; it is done exactly if it dispatched one, and otherwise dispatches them all. */
  lemma ClientStops(c: Codec, events: seq<Envelope>, chunks: seq<seq<Byte>>)
    requires Lawful(c) && Flat(chunks) == Encode(Stream(c, events))
    ensures var (read, done) := Received(c, Flat(chunks));
            && read <= events
            && (forall i :: 0 <= i < |read| - 1 ==> !read[i].payload.Failed? && !read[i].payload.Completed?)
            && (done <==> read != [] && (read[|read| - 1].payload.Failed? || read[|read| - 1].payload.Completed?))
            && (!done ==> read == events)
  {
    hide Received, Stream, Encode, Flat;
    ClientUndoesServer(c, events, chunks);
    StopsAtTerminal(events);
  }

  /** An answer is its message in pieces of 1 to 24 characters, in order, and then the whole with its token. */
  lemma AnswerMeans(message: string, token: string)
    ensures var sent := SseWriter.Answer(message, token);
            && sent != [] && sent[|sent| - 1] == Completed(message, token)
            && exists deltas: seq<string> ::
                 && Joined(deltas) == message && |deltas| == |sent| - 1
                 && forall i :: 0 <= i < |deltas| ==> sent[i] == Delta(deltas[i]) && 1 <= |deltas[i]| <= 24
  {
    DeltasSpellMessage(message, 24);
    assert Joined(Deltas(message, 24)) == message;
  }

  // ---------------------------------------------------------------- what a client takes from any frame

  lemma FirstLineEnd(a: string, b: string)
    ensures LineEnd(a + "\n" + b) == LineEnd(a)
  {
    var text := a + "\n" + b;
    assert text[|a|] == '\n' && forall i :: 0 <= i < |a| ==> text[i] == a[i];
  }

  lemma FirstLine(c: Codec, frame: string)
    ensures var k := LineEnd(frame);
            var first := EventOf(c, frame[..k]);
            EventsOf(c, frame) == (if first.Some? then [first.value] else []) + (if k < |frame| then EventsOf(c, frame[k + 1..]) else [])
  {
  }

  /** Every line of a frame is read, in order. */
  lemma {:induction false} LinesAreRead(c: Codec, a: string, b: string)
    ensures EventsOf(c, a + "\n" + b) == EventsOf(c, a) + EventsOf(c, b)
    decreases |a|
  {
    hide EventOf, EventsOf, LineEnd;
    var text, k := a + "\n" + b, LineEnd(a);
    FirstLineEnd(a, b);
    FirstLine(c, a);
    FirstLine(c, text);
    assert text[..k] == a[..k];
    var first := EventOf(c, a[..k]);
    var head := if first.Some? then [first.value] else [];
    if k < |a| {
      LinesAreRead(c, a[k + 1..], b);
      assert text[k + 1..] == a[k + 1..] + "\n" + b;
      assert head + (EventsOf(c, a[k + 1..]) + EventsOf(c, b)) == (head + EventsOf(c, a[k + 1..])) + EventsOf(c, b);
    } else {
      assert text[k + 1..] == b;
      assert head + [] == head;
    }
  }

  lemma {:induction false} PaddingIsTrimmed(before: string, text: string, after: string)
    requires (forall c <- before :: IsSpace(c)) && (forall c <- after :: IsSpace(c))
    requires text != "" && !IsSpace(text[0]) && !IsSpace(text[|text| - 1])
    ensures Trim(before + text + after) == text
    decreases |before| + |after|
  {
    var all := before + text + after;
    if before != "" {
      assert all[0] == before[0] && before[0] in before && all[1..] == before[1..] + text + after;
      assert forall c <- before[1..] :: c in before;
      PaddingIsTrimmed(before[1..], text, after);
    } else if after != "" {
      var init := after[..|after| - 1];
      assert all[|all| - 1] == after[|after| - 1] && after[|after| - 1] in after && all[..|all| - 1] == before + text + init;
      assert forall c <- init :: c in after;
      assert all[0] == text[0];
      PaddingIsTrimmed(before, text, init);
    } else {
      assert all == text;
    }
  }

  /** A line is an event where, blanks around it aside, it is `data: ` and the encoding of one; a line that does not begin so
      is passed over. */
  lemma LineMeans(c: Codec, e: Envelope, before: string, after: string)
    requires Lawful(c) && (forall x <- before :: IsSpace(x)) && (forall x <- after :: IsSpace(x))
    ensures EventOf(c, before + "data: " + c.encode(e) + after) == Some(e)
  {
    assert EncodesWell(c, e);
    var text := "data: " + c.encode(e);
    assert text[|text| - 1] == c.encode(e)[|c.encode(e)| - 1];
    assert before + "data: " + c.encode(e) + after == before + text + after;
    PaddingIsTrimmed(before, text, after);
    assert text[..6] == "data: " && text[6..] == c.encode(e);
  }

  lemma OtherLinesArePassed(c: Codec, before: string, text: string, after: string)
    requires (forall x <- before :: IsSpace(x)) && (forall x <- after :: IsSpace(x))
    requires text != "" && !IsSpace(text[0]) && !IsSpace(text[|text| - 1]) && !("data: " <= text)
    ensures EventOf(c, before + text + after).None?
  {
    PaddingIsTrimmed(before, text, after);
    assert |text| >= 6 ==> (text[..6] == "data: " <==> "data: " <= text);
  }
}
