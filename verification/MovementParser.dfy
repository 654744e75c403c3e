/** The movements table of a card statement (`parseBanamexMovements`, backend/internal/statements/banamex.go):
    rows of two dates, one to six description fragments and a signed amount, found in a stream of text
    fragments. */
module MovementParser {
  import opened Calendar
  import opened Common
  import opened StatementText

  datatype Direction = Charge | Credit

  datatype Movement = Movement(
    line: nat,
    operation: Date,
    posting: Date,
    description: string,
    cents: nat,
    direction: Direction,
    installment: Option<Installment>)

  // ---------------------------------------------------------------- what a row is

  /** The fragments of one row. The amount is one fragment with its sign, or a sign and an amount. */
  datatype Entry = Entry(operation: string, posting: string, words: seq<string>, figure: seq<string>)

  datatype Figure = Figure(direction: Direction, cents: nat)

  function SignDirection(sign: Sign): Direction {
    if sign == Minus then Credit else Charge
  }

  predicate IsDate(token: string) {
    ParseStatementDate(token).Some?
  }

  predicate IsSignedMoney(token: string) {
    var money := ParseMoney(token);
    money.Some? && money.value.sign != Unsigned
  }

  /** A fragment that can only be part of a description. */
  predicate IsWord(token: string) {
    !IsSignToken(token) && !IsSignedMoney(token) && !IsDate(token)
  }

  predicate AllWords(tokens: seq<string>) {
    forall k :: 0 <= k < |tokens| ==> IsWord(tokens[k])
  }

  function FigureOf(tokens: seq<string>): Option<Figure> {
    if |tokens| == 1 && !IsSignToken(tokens[0]) && IsSignedMoney(tokens[0]) then
      var money := ParseMoney(tokens[0]).value;
      Some(Figure(SignDirection(money.sign), money.cents))
    else if |tokens| == 2 && IsSignToken(tokens[0]) then
      var money := ParseMoney(tokens[1]);
      if money.Some? && money.value.sign == Unsigned
      then Some(Figure(SignDirection(SignRead(tokens[0])), money.value.cents))
      else None
    else None
  }

  /** The shape of a row, stated without the parser. */
  predicate IsRow(e: Entry) {
    && IsDate(e.operation) && IsDate(e.posting)
    && 1 <= |e.words| <= 6 && AllWords(e.words)
    && FigureOf(e.figure).Some? && FigureOf(e.figure).value.cents > 0
  }

  function Tokens(e: Entry): seq<string> {
    [e.operation, e.posting] + e.words + e.figure
  }

  function Spaced(words: seq<string>): string {
    if words == [] then "" else if |words| == 1 then words[0] else words[0] + " " + Spaced(words[1..])
  }

  /** What a row says. */
  function Reading(e: Entry, line: nat): Movement
    requires IsRow(e)
  {
    var figure := FigureOf(e.figure).value;
    var (name, installment) := SplitInstallment(Spaced(e.words));
    Movement(line, ParseStatementDate(e.operation).value, ParseStatementDate(e.posting).value,
             name, figure.cents, figure.direction, installment)
  }

  // ---------------------------------------------------------------- reading one row

  datatype Tail = Tail(words: seq<string>, figure: seq<string>)

  /** The description and the amount from position j on, `taken` fragments already being part of the description. */
  function TailAt(tokens: seq<string>, j: nat, taken: nat): (tail: Option<Tail>)
    requires j <= |tokens|
    decreases |tokens| - j
  {
    if j == |tokens| || taken > 6 then None
    else if IsSignToken(tokens[j]) then
      if j + 1 < |tokens| && FigureOf(tokens[j..j + 2]).Some? then Some(Tail([], tokens[j..j + 2])) else None
    else if IsSignedMoney(tokens[j]) then Some(Tail([], tokens[j..j + 1]))
    else if IsDate(tokens[j]) then None
    else
      var rest := TailAt(tokens, j + 1, taken + 1);
      if rest.None? then None else Some(Tail([tokens[j]] + rest.value.words, rest.value.figure))
  }

  function EntryAt(tokens: seq<string>, i: nat): (entry: Option<Entry>)
    requires i <= |tokens|
  {
    if i + 3 >= |tokens| || !IsDate(tokens[i]) || !IsDate(tokens[i + 1]) then None else
      var tail := TailAt(tokens, i + 2, 0);
      if tail.None? || tail.value.words == [] || FigureOf(tail.value.figure).None?
         || FigureOf(tail.value.figure).value.cents == 0
      then None
      else Some(Entry(tokens[i], tokens[i + 1], tail.value.words, tail.value.figure))
  }

  predicate Occurs(part: seq<string>, tokens: seq<string>, i: nat) {
    i + |part| <= |tokens| && tokens[i..i + |part|] == part
  }

  lemma SignEnds(tokens: seq<string>, j: nat, taken: nat)
    requires j < |tokens| && taken <= 6 && IsSignToken(tokens[j])
    ensures j + 1 < |tokens| ==> tokens[j..j + 2] == [tokens[j], tokens[j + 1]]
    ensures TailAt(tokens, j, taken)
         == if j + 1 < |tokens| && FigureOf([tokens[j], tokens[j + 1]]).Some? then Some(Tail([], tokens[j..j + 2])) else None
  {
    hide FigureOf;
  }

  lemma MoneyEnds(tokens: seq<string>, j: nat, taken: nat)
    requires j < |tokens| && taken <= 6 && !IsSignToken(tokens[j]) && IsSignedMoney(tokens[j])
    ensures tokens[j..j + 1] == [tokens[j]] && FigureOf([tokens[j]]).Some?
    ensures TailAt(tokens, j, taken) == Some(Tail([], [tokens[j]]))
  {
    hide ParseMoney;
  }

  lemma WordContinues(tokens: seq<string>, j: nat, taken: nat)
    requires j < |tokens| && taken <= 6 && IsWord(tokens[j])
    ensures TailAt(tokens, j, taken) == After([tokens[j]], TailAt(tokens, j + 1, taken + 1))
  {
    hide IsDate, IsSignedMoney, FigureOf;
  }

  function After(words: seq<string>, tail: Option<Tail>): Option<Tail> {
    if tail.None? then None else Some(Tail(words + tail.value.words, tail.value.figure))
  }

  predicate Stands(tail: Tail, tokens: seq<string>, j: nat, taken: nat) {
    && taken + |tail.words| <= 6 && AllWords(tail.words)
    && FigureOf(tail.figure).Some? && Occurs(tail.words + tail.figure, tokens, j)
  }

  lemma {:induction false} TailIsFound(tokens: seq<string>, j: nat, taken: nat)
    requires j <= |tokens| && TailAt(tokens, j, taken).Some?
    ensures Stands(TailAt(tokens, j, taken).value, tokens, j, taken)
    decreases |tokens| - j
  {
    hide ParseMoney, ParseStatementDate;
    if IsSignToken(tokens[j]) {
      SignEnds(tokens, j, taken);
      FigureStands(tokens, j, taken, tokens[j..j + 2]);
    } else if IsSignedMoney(tokens[j]) {
      MoneyEnds(tokens, j, taken);
      FigureStands(tokens, j, taken, [tokens[j]]);
    } else {
      WordContinues(tokens, j, taken);
      assert TailAt(tokens, j + 1, taken + 1).Some?;
      TailIsFound(tokens, j + 1, taken + 1);
      WordStands(tokens, j, taken, TailAt(tokens, j + 1, taken + 1).value);
    }
  }

  lemma FigureStands(tokens: seq<string>, j: nat, taken: nat, figure: seq<string>)
    requires taken <= 6 && FigureOf(figure).Some? && Occurs(figure, tokens, j)
    ensures Stands(Tail([], figure), tokens, j, taken)
  {
    hide FigureOf, IsWord;
    assert [] + figure == figure;
  }

  lemma WordStands(tokens: seq<string>, j: nat, taken: nat, rest: Tail)
    requires j < |tokens| && IsWord(tokens[j]) && Stands(rest, tokens, j + 1, taken + 1)
    ensures Stands(Tail([tokens[j]] + rest.words, rest.figure), tokens, j, taken)
  {
    hide FigureOf, IsWord;
    OccursAfter(tokens, j, rest.words + rest.figure);
    assert [tokens[j]] + (rest.words + rest.figure) == ([tokens[j]] + rest.words) + rest.figure;
  }

  lemma OccursAfter(tokens: seq<string>, j: nat, part: seq<string>)
    requires j < |tokens| && Occurs(part, tokens, j + 1)
    ensures Occurs([tokens[j]] + part, tokens, j)
  {
    assert tokens[j..j + 1 + |part|] == [tokens[j]] + tokens[j + 1..j + 1 + |part|];
  }

  lemma {:induction false} TailIsTaken(tokens: seq<string>, j: nat, taken: nat, tail: Tail)
    requires j <= |tokens| && Stands(tail, tokens, j, taken)
    ensures TailAt(tokens, j, taken) == Some(tail)
    decreases |tail.words|
  {
    hide ParseMoney, ParseStatementDate, TailAt;
    if tail.words == [] {
      FigureIsTaken(tokens, j, taken, tail.figure);
    } else {
      WordIsTaken(tokens, j, taken, tail);
      var rest := Tail(tail.words[1..], tail.figure);
      TailIsTaken(tokens, j + 1, taken + 1, rest);
      WordContinues(tokens, j, taken);
      assert [tail.words[0]] + rest.words == tail.words;
    }
  }

  lemma FigureIsTaken(tokens: seq<string>, j: nat, taken: nat, figure: seq<string>)
    requires j <= |tokens| && Stands(Tail([], figure), tokens, j, taken)
    ensures TailAt(tokens, j, taken) == Some(Tail([], figure))
  {
    hide ParseMoney, TailAt;
    assert [] + figure == figure;
    assert tokens[j..j + |figure|] == figure;
    assert tokens[j] == figure[0];
    if |figure| == 1 {
      MoneyEnds(tokens, j, taken);
    } else {
      assert tokens[j + 1] == figure[1];
      SignEnds(tokens, j, taken);
    }
  }

  lemma WordIsTaken(tokens: seq<string>, j: nat, taken: nat, tail: Tail)
    requires Stands(tail, tokens, j, taken) && tail.words != []
    ensures j < |tokens| && tokens[j] == tail.words[0] && IsWord(tokens[j])
    ensures Stands(Tail(tail.words[1..], tail.figure), tokens, j + 1, taken + 1)
  {
    hide IsWord, FigureOf;
    var part := tail.words + tail.figure;
    assert part[0] == tail.words[0] && part[1..] == tail.words[1..] + tail.figure;
    assert tokens[j..j + |part|][0] == tokens[j];
    assert tokens[j + 1..j + |part|] == tokens[j..j + |part|][1..];
  }

  /** A row is read at a position exactly when one stands there, and there is only one way to read it. */
  lemma RowsAreRecognized(tokens: seq<string>, i: nat, e: Entry)
    requires i <= |tokens|
    ensures EntryAt(tokens, i) == Some(e) <==> IsRow(e) && Occurs(Tokens(e), tokens, i)
  {
    hide IsDate, IsWord, FigureOf;
    if EntryAt(tokens, i) == Some(e) {
      TailIsFound(tokens, i + 2, 0);
      EntryOccurs(tokens, i, e);
    }
    if IsRow(e) && Occurs(Tokens(e), tokens, i) {
      EntryParts(tokens, i, e);
      TailIsTaken(tokens, i + 2, 0, Tail(e.words, e.figure));
      FigureHasFragments(e.figure);
    }
  }

  lemma FigureHasFragments(figure: seq<string>)
    ensures FigureOf(figure).Some? ==> 1 <= |figure| <= 2
  {
  }

  lemma EntryOccurs(tokens: seq<string>, i: nat, e: Entry)
    requires i + 2 <= |tokens| && tokens[i] == e.operation && tokens[i + 1] == e.posting
    requires Occurs(e.words + e.figure, tokens, i + 2)
    ensures Occurs(Tokens(e), tokens, i)
  {
    var part := e.words + e.figure;
    assert Tokens(e) == [e.operation, e.posting] + part;
    assert tokens[i..i + 2 + |part|] == [tokens[i], tokens[i + 1]] + tokens[i + 2..i + 2 + |part|];
  }

  lemma EntryParts(tokens: seq<string>, i: nat, e: Entry)
    requires Occurs(Tokens(e), tokens, i)
    ensures i + 2 <= |tokens| && tokens[i] == e.operation && tokens[i + 1] == e.posting
    ensures Occurs(e.words + e.figure, tokens, i + 2)
  {
    var all, part := Tokens(e), e.words + e.figure;
    assert all[0] == e.operation && all[1] == e.posting && all[2..] == part;
    assert tokens[i..i + |all|][0] == tokens[i] && tokens[i..i + |all|][1] == tokens[i + 1];
    assert tokens[i + 2..i + |all|] == tokens[i..i + |all|][2..];
  }

  // ---------------------------------------------------------------- the whole stream

  datatype Located = Located(at: nat, entry: Entry)

  predicate AllRows(found: seq<Located>) {
    forall k :: 0 <= k < |found| ==> IsRow(found[k].entry)
  }

  predicate AllOccur(found: seq<Located>, tokens: seq<string>) {
    forall k :: 0 <= k < |found| ==> Occurs(Tokens(found[k].entry), tokens, found[k].at)
  }

  /** The rows found from position i on: the leftmost one, then what follows it. */
  function Found(tokens: seq<string>, i: nat): (found: seq<Located>)
    requires i <= |tokens|
    ensures AllRows(found) && AllOccur(found, tokens)
    decreases |tokens| - i
  {
    if i + 3 >= |tokens| then [] else
      var entry := EntryAt(tokens, i);
      if entry.None? then Found(tokens, i + 1) else
        RowsAreRecognized(tokens, i, entry.value);
        [Located(i, entry.value)] + Found(tokens, i + |Tokens(entry.value)|)
  }

  lemma RowHasFragments(tokens: seq<string>, i: nat, e: Entry)
    requires IsRow(e) && Occurs(Tokens(e), tokens, i)
    ensures |Tokens(e)| >= 4 && i + |Tokens(e)| <= |tokens|
  {
    FigureHasFragments(e.figure);
  }

  lemma FoundMore(tokens: seq<string>, i: nat, e: Entry)
    requires i <= |tokens| && EntryAt(tokens, i) == Some(e)
    ensures IsRow(e) && Occurs(Tokens(e), tokens, i)
    ensures |Tokens(e)| >= 4 && i + |Tokens(e)| <= |tokens|
    ensures Found(tokens, i) == [Located(i, e)] + Found(tokens, i + |Tokens(e)|)
  {
    hide *;
    RowsAreRecognized(tokens, i, e);
    RowHasFragments(tokens, i, e);
    FoundUnfolds(tokens, i);
  }

  lemma FoundUnfolds(tokens: seq<string>, i: nat)
    requires i + 3 < |tokens| && EntryAt(tokens, i).Some?
    ensures i + |Tokens(EntryAt(tokens, i).value)| <= |tokens|
    ensures Found(tokens, i) == [Located(i, EntryAt(tokens, i).value)]
                                + Found(tokens, i + |Tokens(EntryAt(tokens, i).value)|)
  {
    RowsAreRecognized(tokens, i, EntryAt(tokens, i).value);
    RowHasFragments(tokens, i, EntryAt(tokens, i).value);
    hide EntryAt, IsRow, Occurs, Tokens, AllRows, AllOccur;
  }

  lemma FoundSkips(tokens: seq<string>, i: nat)
    requires i < |tokens| && EntryAt(tokens, i).None?
    ensures Found(tokens, i) == Found(tokens, i + 1)
  {
    hide EntryAt, IsRow, Occurs, Tokens, AllRows, AllOccur;
  }

  function Readings(found: seq<Located>): (movements: seq<Movement>)
    requires AllRows(found)
    ensures |movements| == |found|
  {
    seq(|found|, k requires 0 <= k < |found| => Reading(found[k].entry, k + 1))
  }

  function End(l: Located): nat {
    l.at + |Tokens(l.entry)|
  }

  /** The rows found do not overlap, come in order, and start no earlier than asked. */
  lemma {:induction false} FoundInOrder(tokens: seq<string>, i: nat)
    requires i <= |tokens|
    ensures var found := Found(tokens, i);
            && (forall k :: 0 <= k < |found| ==> i <= found[k].at)
            && (forall j, k :: 0 <= j < k < |found| ==> End(found[j]) <= found[k].at)
    decreases |tokens| - i
  {
    hide IsRow, Occurs, Tokens, EntryAt;
    if i < |tokens| {
      var entry := EntryAt(tokens, i);
      if entry.None? {
        FoundSkips(tokens, i);
        FoundInOrder(tokens, i + 1);
        hide Found;
      } else {
        FoundMore(tokens, i, entry.value);
        FoundInOrder(tokens, i + |Tokens(entry.value)|);
        hide Found;
      }
    }
  }

  ghost predicate Covered(p: nat, found: seq<Located>) {
    exists k :: 0 <= k < |found| && found[k].at <= p < End(found[k])
  }

  /** No row is missed: wherever one stands, it is reported, or it starts inside one that is. */
  lemma {:induction false} NothingIsMissed(tokens: seq<string>, i: nat, p: nat, e: Entry)
    requires i <= p <= |tokens| && IsRow(e) && Occurs(Tokens(e), tokens, p)
    ensures Covered(p, Found(tokens, i))
    decreases |tokens| - i
  {
    hide IsRow, Occurs, Tokens, EntryAt, Found;
    RowHasFragments(tokens, p, e);
    RowsAreRecognized(tokens, p, e);
    var found := Found(tokens, i);
    var entry := EntryAt(tokens, i);
    if entry.None? {
      FoundSkips(tokens, i);
      NothingIsMissed(tokens, i + 1, p, e);
    } else {
      FoundMore(tokens, i, entry.value);
      var next := i + |Tokens(entry.value)|;
      assert found[0] == Located(i, entry.value);
      if p >= next {
        NothingIsMissed(tokens, next, p, e);
        var rest := Found(tokens, next);
        var k :| 0 <= k < |rest| && rest[k].at <= p < End(rest[k]);
        assert found[k + 1] == rest[k];
      } else {
        assert found[0].at <= p < End(found[0]);
      }
    }
  }

  // ---------------------------------------------------------------- the parser

  method ParseBanamexMovements(tokens: seq<string>) returns (movements: seq<Movement>)
    ensures movements == Readings(Found(tokens, 0))
  {
    hide IsRow, IsSignedMoney, FigureOf, Reading, Readings, Found, Occurs, Tokens, TailAt, EntryAt, Spaced,
      SplitInstallment, AllRows, AllOccur, ParseStatementDate;
    NothingRead(tokens);
    movements := [];
    ghost var done: seq<Located> := [];
    var i := 0;
    while i + 3 < |tokens|
      invariant i <= |tokens|
      invariant AllRows(done)
      invariant movements == Readings(done)
      invariant Found(tokens, 0) == done + Found(tokens, i)
    {
      var operation := ParseStatementDate(tokens[i]);
      var posting := ParseStatementDate(tokens[i + 1]);
      if operation.None? || posting.None? {
        NoDates(tokens, i);
        FoundSkips(tokens, i);
        i := i + 1;
      } else {
        var description, figure, j := ReadTail(tokens, i + 2);
        if figure.None? || |description| == 0 || figure.value.cents == 0 {
          NoTail(tokens, i, description, figure);
          FoundSkips(tokens, i);
          i := i + 1;
        } else {
          ghost var e := Entry(tokens[i], tokens[i + 1], description, tokens[i + 2 + |description|..j + 1]);
          EntryRead(tokens, i, j, e, figure.value);
          var (name, installment) := SplitInstallment(Spaced(description));
          var movement := Movement(|movements| + 1, operation.value, posting.value, name, figure.value.cents,
                                   figure.value.direction, installment);
          ReadingIs(e, movement, figure.value);
          ReadingsMore(done, Located(i, e));
          movements := movements + [movement];
          FoundMore(tokens, i, e);
          assert done + ([Located(i, e)] + Found(tokens, j + 1)) == (done + [Located(i, e)]) + Found(tokens, j + 1);
          done := done + [Located(i, e)];
          i := j + 1;
        }
      }
    }
    FoundEnds(tokens, i);
    assert done + [] == done;
  }

  lemma NothingRead(tokens: seq<string>)
    ensures AllRows([]) && Readings([]) == []
    ensures Found(tokens, 0) == [] + Found(tokens, 0)
  {
    hide Found;
    assert [] + Found(tokens, 0) == Found(tokens, 0);
  }

  lemma FoundEnds(tokens: seq<string>, i: nat)
    requires i <= |tokens| && i + 3 >= |tokens|
    ensures Found(tokens, i) == []
  {
  }

  /** The inner loop of the source: fragments up to a sign, a signed amount, a date or the window's end. */
  method ReadTail(tokens: seq<string>, start: nat) returns (description: seq<string>, figure: Option<Figure>, j: nat)
    requires start <= |tokens|
    ensures figure.None? <==> TailAt(tokens, start, 0).None?
    ensures figure.Some? ==> start + |description| <= j < |tokens|
    ensures figure.Some? ==> var amount := tokens[start + |description|..j + 1];
                             TailAt(tokens, start, 0) == Some(Tail(description, amount)) && FigureOf(amount) == figure
  {
    hide ParseStatementDate, ParseMoney, After;
    description, figure, j := [], None, start;
    AfterNothing(TailAt(tokens, start, 0));
    while j < |tokens| && j <= start + 6
      invariant start <= j <= |tokens| && j <= start + 7
      invariant description == tokens[start..j] && figure == None
      invariant TailAt(tokens, start, 0) == After(description, TailAt(tokens, j, j - start))
    {
      var token := tokens[j];
      if IsSignToken(token) {
        SignEnds(tokens, j, j - start);
        if j + 1 < |tokens| {
          figure := FigureOf([token, tokens[j + 1]]);
          if figure.Some? {
            AfterWords(description, tokens[j..j + 2]);
            j := j + 1;
          }
        }
        AfterNone(description);
        return;
      }
      if IsSignedMoney(token) {
        MoneyEnds(tokens, j, j - start);
        figure := FigureOf([token]);
        AfterWords(description, [token]);
        return;
      }
      if ParseStatementDate(token).Some? {
        AfterNone(description);
        return;
      }
      AfterMore(tokens, start, j);
      description := description + [token];
      j := j + 1;
    }
    AfterNone(description);
  }

  lemma AfterWords(words: seq<string>, figure: seq<string>)
    ensures After(words, Some(Tail([], figure))) == Some(Tail(words, figure))
  {
    assert words + [] == words;
  }

  lemma AfterNone(words: seq<string>)
    ensures After(words, None) == None
  {
  }

  lemma AfterNothing(tail: Option<Tail>)
    ensures After([], tail) == tail
  {
    if tail.Some? {
      assert [] + tail.value.words == tail.value.words;
    }
  }

  lemma AfterMore(tokens: seq<string>, start: nat, j: nat)
    requires start <= j < |tokens| && j <= start + 6 && IsWord(tokens[j])
    ensures tokens[start..j + 1] == tokens[start..j] + [tokens[j]]
    ensures After(tokens[start..j], TailAt(tokens, j, j - start))
         == After(tokens[start..j] + [tokens[j]], TailAt(tokens, j + 1, j + 1 - start))
  {
    WordContinues(tokens, j, j - start);
    AfterAfter(tokens[start..j], tokens[j], TailAt(tokens, j + 1, j + 1 - start));
    hide TailAt, IsWord, After;
  }

  lemma AfterAfter(words: seq<string>, word: string, tail: Option<Tail>)
    ensures After(words, After([word], tail)) == After(words + [word], tail)
  {
    if tail.Some? {
      assert words + ([word] + tail.value.words) == (words + [word]) + tail.value.words;
    }
  }

  lemma NoDates(tokens: seq<string>, i: nat)
    requires i + 3 < |tokens| && (ParseStatementDate(tokens[i]).None? || ParseStatementDate(tokens[i + 1]).None?)
    ensures EntryAt(tokens, i).None?
  {
    hide ParseStatementDate;
  }

  lemma NoTail(tokens: seq<string>, i: nat, description: seq<string>, figure: Option<Figure>)
    requires i + 3 < |tokens| && (figure.None? <==> TailAt(tokens, i + 2, 0).None?)
    requires figure.Some? ==> && TailAt(tokens, i + 2, 0).value.words == description
                              && FigureOf(TailAt(tokens, i + 2, 0).value.figure) == figure
    requires figure.None? || |description| == 0 || figure.value.cents == 0
    ensures EntryAt(tokens, i).None?
  {
    hide TailAt, FigureOf, IsDate;
  }

  lemma EntryRead(tokens: seq<string>, i: nat, j: nat, e: Entry, figure: Figure)
    requires i + 3 < |tokens| && IsDate(tokens[i]) && IsDate(tokens[i + 1])
    requires i + 2 + |e.words| <= j < |tokens| && e.figure == tokens[i + 2 + |e.words|..j + 1]
    requires TailAt(tokens, i + 2, 0) == Some(Tail(e.words, e.figure)) && FigureOf(e.figure) == Some(figure)
    requires e.operation == tokens[i] && e.posting == tokens[i + 1] && |e.words| > 0 && figure.cents > 0
    ensures EntryAt(tokens, i) == Some(e) && IsRow(e) && i + |Tokens(e)| == j + 1
  {
    hide TailAt, FigureOf, IsDate;
    assert EntryAt(tokens, i) == Some(e);
    RowsAreRecognized(tokens, i, e);
  }

  lemma ReadingIs(e: Entry, movement: Movement, figure: Figure)
    requires IsRow(e) && FigureOf(e.figure) == Some(figure) && movement.line > 0
    requires movement.operation == ParseStatementDate(e.operation).value
    requires movement.posting == ParseStatementDate(e.posting).value
    requires (movement.description, movement.installment) == SplitInstallment(Spaced(e.words))
    requires movement.cents == figure.cents && movement.direction == figure.direction
    ensures movement == Reading(e, movement.line)
  {
    hide FigureOf, SplitInstallment, Spaced, ParseStatementDate, ParseMoney, IsWord;
  }

  lemma ReadingsMore(done: seq<Located>, l: Located)
    requires AllRows(done) && IsRow(l.entry)
    ensures AllRows(done + [l])
    ensures Readings(done + [l]) == Readings(done) + [Reading(l.entry, |done| + 1)]
  {
    hide IsRow, Reading;
  }

  /** Every movement has a positive amount, a name if no fragment is blank, and an installment from 1 to its total. */
  lemma MovementsAreWellFormed(tokens: seq<string>, k: nat)
    requires k < |Found(tokens, 0)|
    ensures var m := Readings(Found(tokens, 0))[k];
            && m.line == k + 1 && m.cents > 0
            && (m.installment.Some? ==> 1 <= m.installment.value.number <= m.installment.value.total)
            && ((forall t :: 0 <= t < |tokens| ==> tokens[t] != "") ==> m.description != "")
  {
    hide IsDate, FigureOf, MatchInstallment, ParseStatementDate, IsWord;
    var l := Found(tokens, 0)[k];
    if forall t :: 0 <= t < |tokens| ==> tokens[t] != "" {
      EntryParts(tokens, l.at, l.entry);
      var part := l.entry.words + l.entry.figure;
      assert part[0] == tokens[l.at + 2] by { assert tokens[l.at + 2..l.at + 2 + |part|][0] == tokens[l.at + 2]; }
      assert Spaced(l.entry.words) != "";
    }
  }
}
