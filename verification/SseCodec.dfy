/** A codec with the properties the framing needs exists: a bracketed list of escaped fields. */
module SseCodec {
  import opened Common
  import opened SseStream

  function EscapeChar(c: char): string {
    if c == '\\' then "\\b" else if c == ',' then "\\c" else if c == '}' then "\\d" else if c == '\n' then "\\n" else [c]
  }

  function Escape(text: string): string {
    if text == "" then "" else EscapeChar(text[0]) + Escape(text[1..])
  }

  function Body(fields: seq<string>): string {
    if fields == [] then "" else Escape(fields[0]) + "," + Body(fields[1..])
  }

  function Unary(n: nat): string {
    seq(n, i => '1')
  }

  /** Run, sequence number, kind and contents of an event. */
  function Flatten(e: Envelope): seq<string> {
    [e.runId, Unary(e.sequence)] +
    match e.payload
    case Started => ["s", "", "", ""]
    case Delta(text) => ["d", text, "", ""]
    case ToolStarted(tool, call) => ["t", tool, call, ""]
    case ToolCompleted(tool, call, status) => ["u", tool, call, status]
    case Failed(code, message) => ["f", code, message, ""]
    case Completed(message, token) => ["c", message, token, ""]
  }

  function Encode(e: Envelope): string {
    "{" + Body(Flatten(e)) + "}"
  }

  lemma EscapedChars(a: char, b: char, x: string, y: string)
    requires EscapeChar(a) + x == EscapeChar(b) + y
    ensures a == b && x == y
  {
    var left, right := EscapeChar(a) + x, EscapeChar(b) + y;
    assert left[0] == right[0];
    if left[0] == '\\' {
      assert left[1] == right[1];
      assert left[2..] == x && right[2..] == y;
    } else {
      assert left[1..] == x && right[1..] == y;
    }
  }

  lemma EscapedStart(s: string, x: string)
    ensures s == "" ==> Escape(s) + "," + x == "," + x
    ensures s != "" ==> Escape(s) + "," + x == EscapeChar(s[0]) + (Escape(s[1..]) + "," + x)
    ensures s != "" ==> (Escape(s) + "," + x)[0] != ','
  {
    if s == "" {
      assert Escape(s) + "," == ",";
    } else {
      var first, rest := EscapeChar(s[0]), Escape(s[1..]);
      assert Escape(s) == first + rest && |first| > 0 && first[0] != ',';
      hide Escape, EscapeChar;
      assert Escape(s) + "," + x == first + (rest + "," + x);
    }
  }

  lemma {:induction false} EscapedFields(s: string, t: string, x: string, y: string)
    requires Escape(s) + "," + x == Escape(t) + "," + y
    ensures s == t && x == y
    decreases |s|
  {
    EscapedStart(s, x);
    EscapedStart(t, y);
    hide Escape, EscapeChar;
    var left, right := Escape(s) + "," + x, Escape(t) + "," + y;
    if s == "" || t == "" {
      assert left[0] == right[0];
      assert s == "" && t == "";
      assert left[1..] == x && right[1..] == y;
    } else {
      EscapedChars(s[0], t[0], Escape(s[1..]) + "," + x, Escape(t[1..]) + "," + y);
      EscapedFields(s[1..], t[1..], x, y);
    }
  }

  lemma {:induction false} BodyIsInjective(a: seq<string>, b: seq<string>)
    requires |a| == |b| && Body(a) == Body(b)
    ensures a == b
    decreases |a|
  {
    if a != [] {
      EscapedFields(a[0], b[0], Body(a[1..]), Body(b[1..]));
      BodyIsInjective(a[1..], b[1..]);
    }
  }

  lemma EncodeIsInjective(d: Envelope, e: Envelope)
    requires Encode(d) == Encode(e)
    ensures d == e
  {
    hide Escape, Body;
    var x, y := Flatten(d), Flatten(e);
    assert Encode(d)[1..|Encode(d)| - 1] == Body(x) && Encode(e)[1..|Encode(e)| - 1] == Body(y);
    BodyIsInjective(x, y);
    assert x[0] == y[0] && x[2] == y[2] && x[3] == y[3] && x[4] == y[4] && x[5] == y[5];
    assert |x[1]| == |y[1]|;
  }

  predicate Plain(text: string) {
    forall i :: 0 <= i < |text| ==> text[i] != '\n' && text[i] != '}'
  }

  lemma {:induction false} EscapeIsPlain(text: string)
    ensures Plain(Escape(text))
  {
    if text != "" {
      EscapeIsPlain(text[1..]);
    }
  }

  lemma {:induction false} BodyIsPlain(fields: seq<string>)
    ensures Plain(Body(fields))
  {
    hide Escape;
    if fields != [] {
      EscapeIsPlain(fields[0]);
      BodyIsPlain(fields[1..]);
    }
  }

  ghost function Decode(text: string): Option<Envelope> {
    if e: Envelope :| Encode(e) == text then Some(e) else None
  }

  lemma DecodesItself(e: Envelope)
    ensures Decode(Encode(e)) == Some(e)
  {
    hide Encode;
    var d := Decode(Encode(e)).value;
    EncodeIsInjective(d, e);
  }

  /** No proper beginning of an encoding is one: they end in a bracket that occurs nowhere else. */
  lemma NoBeginningDecodes(e: Envelope, n: nat)
    requires n < |Encode(e)|
    ensures Decode(Encode(e)[..n]) == None
  {
    OneBracket(e);
    hide Encode;
    var cut := Encode(e)[..n];
    if d: Envelope :| Encode(d) == cut {
      OneBracket(d);
    }
  }

  lemma OneBracket(e: Envelope)
    ensures |Encode(e)| > 0 && Encode(e)[|Encode(e)| - 1] == '}'
    ensures forall i :: 0 <= i < |Encode(e)| - 1 ==> Encode(e)[i] != '}'
  {
    hide Body, Flatten;
    BodyIsPlain(Flatten(e));
  }

  /** The laws of the codec can be met. */
  lemma LawfulCodecExists()
    ensures exists c: Codec :: Lawful(c)
  {
    var c := Codec(Encode, Decode);
    forall e: Envelope ensures EncodesWell(c, e) {
      DecodesItself(e);
      BodyIsPlain(Flatten(e));
      forall n | 0 < n < |Encode(e)| ensures Decode(Encode(e)[..n]) == None {
        NoBeginningDecodes(e, n);
      }
    }
    assert Lawful(c);
  }
}
