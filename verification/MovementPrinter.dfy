/** The statement as a bank prints it, and the proof that the movement parser reads it back. */
module MovementPrinter {
  import opened Calendar
  import opened Common
  import opened StatementText
  import opened MovementParser

  // ---------------------------------------------------------------- rows among other fragments

  /** Fragments that are no row, then a row. */
  datatype Block = Block(noise: seq<string>, entry: Entry)

  function Layout(blocks: seq<Block>, rest: seq<string>): seq<string> {
    if blocks == [] then rest else blocks[0].noise + (Tokens(blocks[0].entry) + Layout(blocks[1..], rest))
  }

  /** No two dates in a row: a table with a single date per row is quiet. */
  predicate Quiet(noise: seq<string>) {
    forall k :: 0 <= k < |noise| - 1 ==> !IsDate(noise[k]) || !IsDate(noise[k + 1])
  }

  predicate AllPrinted(blocks: seq<Block>) {
    forall k :: 0 <= k < |blocks| ==> IsRow(blocks[k].entry) && Quiet(blocks[k].noise)
  }

  function Entries(found: seq<Located>): (entries: seq<Entry>)
    ensures |entries| == |found|
  {
    seq(|found|, k requires 0 <= k < |found| => found[k].entry)
  }

  function Printed(blocks: seq<Block>): (entries: seq<Entry>)
    ensures |entries| == |blocks|
  {
    seq(|blocks|, k requires 0 <= k < |blocks| => blocks[k].entry)
  }

  lemma RowStartsWithDates(tokens: seq<string>, i: nat)
    requires i <= |tokens| && EntryAt(tokens, i).Some?
    ensures i + 3 < |tokens| && IsDate(tokens[i]) && IsDate(tokens[i + 1]) && !IsDate(tokens[i + 2])
  {
    var e := EntryAt(tokens, i).value;
    RowsAreRecognized(tokens, i, e);
    EntryParts(tokens, i, e);
    hide TailAt, FigureOf, Occurs, ParseMoney, ParseStatementDate;
    assert IsWord(e.words[0]);
    FirstWord(tokens, i, e);
  }

  lemma FirstWord(tokens: seq<string>, i: nat, e: Entry)
    requires i + 2 <= |tokens| && e.words != [] && Occurs(e.words + e.figure, tokens, i + 2)
    ensures i + 2 < |tokens| && tokens[i + 2] == e.words[0]
  {
    var part := e.words + e.figure;
    assert tokens[i + 2..i + 2 + |part|][0] == tokens[i + 2];
  }

  /** No row starts among fragments without two dates in a row, whatever follows them. */
  lemma {:induction false} NoiseIsSkipped(tokens: seq<string>, i: nat, n: nat)
    requires i + n <= |tokens| && Quiet(tokens[i..i + n])
    requires i + n == |tokens| || EntryAt(tokens, i + n).Some?
    ensures Found(tokens, i) == Found(tokens, i + n)
    decreases n
  {
    hide EntryAt, IsDate, Found;
    if n > 0 {
      var noise := tokens[i..i + n];
      assert noise[0] == tokens[i] && noise[1..] == tokens[i + 1..i + n];
      if n > 1 {
        assert noise[1] == tokens[i + 1];
        assert !IsDate(tokens[i]) || !IsDate(tokens[i + 1]);
      }
      if EntryAt(tokens, i).Some? {
        RowStartsWithDates(tokens, i);
        if n == 1 {
          RowStartsWithDates(tokens, i + 1);
        }
      }
      FoundSkips(tokens, i);
      assert Quiet(noise[1..]) by {
        forall k | 0 <= k < |noise[1..]| - 1 ensures !IsDate(noise[1..][k]) || !IsDate(noise[1..][k + 1]) {
          assert !IsDate(noise[k + 1]) || !IsDate(noise[k + 2]);
        }
      }
      NoiseIsSkipped(tokens, i + 1, n - 1);
    }
  }

  lemma PartsOfLayout(tokens: seq<string>, i: nat, noise: seq<string>, row: seq<string>, rest: seq<string>)
    requires i <= |tokens| && tokens[i..] == noise + (row + rest)
    ensures tokens[i..i + |noise|] == noise && Occurs(row, tokens, i + |noise|)
    ensures tokens[i + |noise| + |row|..] == rest
  {
    var all := tokens[i..];
    assert all[..|noise|] == noise && all[|noise|..] == row + rest;
    assert (row + rest)[..|row|] == row && (row + rest)[|row|..] == rest;
    assert tokens[i + |noise|..] == all[|noise|..];
    assert tokens[i + |noise|..][..|row|] == tokens[i + |noise|..i + |noise| + |row|];
    assert tokens[i + |noise|..][|row|..] == tokens[i + |noise| + |row|..];
  }

  /** The rows found in a layout are exactly the rows laid out, in order. */
  lemma {:induction false} LayoutIsFound(tokens: seq<string>, i: nat, blocks: seq<Block>, rest: seq<string>)
    requires i <= |tokens| && tokens[i..] == Layout(blocks, rest) && AllPrinted(blocks) && Quiet(rest)
    ensures Entries(Found(tokens, i)) == Printed(blocks)
    decreases |blocks|
  {
    hide IsRow, Quiet, Tokens, Occurs, EntryAt, Found;
    if blocks == [] {
      assert tokens[i..|tokens|] == rest;
      NoiseIsSkipped(tokens, i, |tokens| - i);
      FoundEnds(tokens, |tokens|);
    } else {
      var noise, entry := blocks[0].noise, blocks[0].entry;
      PartsOfLayout(tokens, i, noise, Tokens(entry), Layout(blocks[1..], rest));
      var at := i + |noise|;
      RowsAreRecognized(tokens, at, entry);
      NoiseIsSkipped(tokens, i, |noise|);
      FoundMore(tokens, at, entry);
      LayoutIsFound(tokens, at + |Tokens(entry)|, blocks[1..], rest);
      EntriesMore(Located(at, entry), Found(tokens, at + |Tokens(entry)|), blocks);
    }
  }

  lemma EntriesMore(l: Located, found: seq<Located>, blocks: seq<Block>)
    requires blocks != [] && blocks[0].entry == l.entry && Entries(found) == Printed(blocks[1..])
    ensures Entries([l] + found) == Printed(blocks)
  {
    assert Entries([l] + found) == [l.entry] + Entries(found);
    assert Printed(blocks) == [blocks[0].entry] + Printed(blocks[1..]);
  }

  // ---------------------------------------------------------------- printing a row

  /** A movement and the choices the bank makes when printing it. */
  datatype Row = Row(
    operation: Date,
    posting: Date,
    padded: bool,
    words: seq<string>,
    installment: Option<Installment>,
    glyph: string,
    cents: nat,
    joined: bool)

  predicate HasName(words: seq<string>, installment: Option<Installment>) {
    var name := Spaced(words);
    match installment
    case None => |words| <= 6 && SplitInstallment(name).1.None?
    case Some(i) =>
      |words| <= 5 && 1 <= i.number <= i.total < 1000 && name != "" && Trim(name) == name && '\n' !in name
  }

  predicate Printable(r: Row) {
    && 1900 <= r.operation.year <= 2999 && 1900 <= r.posting.year <= 2999
    && |r.words| >= 1 && AllWords(r.words) && HasName(r.words, r.installment)
    && IsSignToken(r.glyph) && 0 < r.cents < (LARGEST_WHOLE + 1) * 100
  }

  function EntryOf(r: Row): Entry
    requires Printable(r)
  {
    Entry(DateText(r.operation, r.padded), DateText(r.posting, r.padded),
          r.words + (if r.installment.None? then [] else [InstallmentText(r.installment.value, r.padded)]),
          if r.joined then [r.glyph + FigureText(r.cents)] else [r.glyph, FigureText(r.cents)])
  }

  function MovementOf(r: Row, line: nat): Movement
    requires Printable(r)
  {
    Movement(line, r.operation, r.posting, Spaced(r.words), r.cents,
             if r.glyph == "+" then Charge else Credit, r.installment)
  }

  lemma {:induction false} SpacedMore(words: seq<string>, word: string)
    requires |words| >= 1
    ensures Spaced(words + [word]) == Spaced(words) + " " + word
  {
    if |words| == 1 {
      assert (words + [word])[1..] == [word];
    } else {
      SpacedMore(words[1..], word);
      assert (words + [word])[1..] == words[1..] + [word];
      hide Spaced;
      assert words[0] + " " + (Spaced(words[1..]) + " " + word) == (words[0] + " " + Spaced(words[1..])) + " " + word;
    }
  }

  /** `N de M` is neither a date nor an amount, so it stays in the description. */
  lemma InstallmentIsWord(number: string, total: string)
    requires AllDigits(number) && 1 <= |number| <= 3 && AllDigits(total) && 1 <= |total| <= 3
    ensures IsWord(number + " de " + total)
  {
    var text := number + " de " + total;
    var n := |text|;
    assert text[0] == number[0] && text[n - 1] == total[|total| - 1];
    assert MINUS_SIGN !in text;
    assert text[n - 3] != '.' && !IsDigit(text[n - 4]);
    NoMoney(text);
    NoDate(text);
    hide ParseMoney, ParseStatementDate;
  }

  lemma NoMoney(text: string)
    requires |text| >= 4 && IsDigit(text[0]) && IsDigit(text[|text| - 1]) && MINUS_SIGN !in text
    requires text[|text| - 3] != '.'
    ensures ParseMoney(text).None?
  {
    assert Trim(text) == text;
    NothingToReplace(text, MINUS_SIGN, '-');
    NoFigure(text);
    hide ReplaceFirst, Trim, ParseFigure;
  }

  lemma NoFigure(text: string)
    requires |text| >= 4 && IsDigit(text[0]) && text[|text| - 3] != '.'
    ensures ParseFigure(text).None?
  {
    hide WholePart, Value;
    assert SkipGaps(text) == text;
  }

  lemma NoDate(text: string)
    requires |text| >= 4 && IsDigit(text[0]) && IsDigit(text[|text| - 1]) && !IsDigit(text[|text| - 4])
    ensures ParseStatementDate(text).None?
  {
    hide BuildDate;
    assert Trim(text) == text;
    assert text[|text| - 4..][0] == text[|text| - 4];
  }

  lemma FigureIsRead(r: Row)
    requires Printable(r)
    ensures FigureOf(EntryOf(r).figure) == Some(Figure(if r.glyph == "+" then Charge else Credit, r.cents))
  {
    MoneyRoundTrip(r.cents);
    SignedMoneyRoundTrip(r.glyph, r.cents);
    FigureTextShape(r.cents);
    hide *;
    FigureFragments(r.glyph, FigureText(r.cents), r.cents);
  }

  lemma FigureFragments(glyph: string, amount: string, cents: nat)
    requires IsSignToken(glyph) && |amount| >= 5 && ParseMoney(amount) == Some(Money(cents, Unsigned))
    requires ParseMoney(glyph + amount) == Some(Money(cents, SignRead(glyph)))
    ensures var figure := Figure(if glyph == "+" then Charge else Credit, cents);
            FigureOf([glyph + amount]) == Some(figure) && FigureOf([glyph, amount]) == Some(figure)
  {
    hide ParseMoney;
    assert |glyph + amount| >= 5;
    assert !IsSignToken(glyph + amount);
  }

  lemma NameIsRead(r: Row)
    requires Printable(r)
    ensures var words := EntryOf(r).words;
            && 1 <= |words| <= 6 && AllWords(words)
            && SplitInstallment(Spaced(words)) == (Spaced(r.words), r.installment)
  {
    hide IsWord, Spaced, MatchInstallment, DateText, FigureText;
    match r.installment {
      case None =>
        assert r.words + [] == r.words;
      case Some(i) =>
        InstallmentNumber(i.number, r.padded);
        InstallmentNumber(i.total, r.padded);
        InstallmentIsWord(if r.padded then Padded(i.number, 3) else Number(i.number),
                          if r.padded then Padded(i.total, 3) else Number(i.total));
        SpacedMore(r.words, InstallmentText(i, r.padded));
        InstallmentRoundTrip(Spaced(r.words), i, r.padded);
    }
  }

  /** A printed row has the shape of a row and says what was printed. */
  lemma RowRoundTrip(r: Row, line: nat)
    requires Printable(r)
    ensures IsRow(EntryOf(r)) && Reading(EntryOf(r), line) == MovementOf(r, line)
  {
    DateRoundTrip(r.operation, r.padded);
    DateRoundTrip(r.posting, r.padded);
    FigureIsRead(r);
    NameIsRead(r);
    hide FigureOf, SplitInstallment, ParseStatementDate, AllWords, DateText, Spaced;
  }

  // ---------------------------------------------------------------- printing a statement

  datatype Line = Line(noise: seq<string>, row: Row)

  predicate AllPrintable(lines: seq<Line>) {
    forall k :: 0 <= k < |lines| ==> Printable(lines[k].row) && Quiet(lines[k].noise)
  }

  function BlocksOf(lines: seq<Line>): seq<Block>
    requires AllPrintable(lines)
  {
    seq(|lines|, k requires 0 <= k < |lines| => Block(lines[k].noise, EntryOf(lines[k].row)))
  }

  function Print(lines: seq<Line>, rest: seq<string>): seq<string>
    requires AllPrintable(lines)
  {
    Layout(BlocksOf(lines), rest)
  }

  function MovementsOf(lines: seq<Line>): seq<Movement>
    requires AllPrintable(lines)
  {
    seq(|lines|, k requires 0 <= k < |lines| => MovementOf(lines[k].row, k + 1))
  }

  /** Whatever rows are printed, among fragments without two dates in a row, the parser returns exactly those
      movements, numbered from 1. */
  lemma ParserUndoesPrinter(lines: seq<Line>, rest: seq<string>)
    requires AllPrintable(lines) && Quiet(rest)
    ensures Readings(Found(Print(lines, rest), 0)) == MovementsOf(lines)
  {
    hide Printable, Quiet, IsRow, Layout, Found, EntryOf, Reading, MovementOf;
    forall k | 0 <= k < |lines|
      ensures IsRow(EntryOf(lines[k].row))
      ensures Reading(EntryOf(lines[k].row), k + 1) == MovementOf(lines[k].row, k + 1)
    {
      RowRoundTrip(lines[k].row, k + 1);
    }
    var tokens := Print(lines, rest);
    assert tokens[0..] == tokens;
    LayoutIsFound(tokens, 0, BlocksOf(lines), rest);
    var found := Found(tokens, 0);
    forall k | 0 <= k < |found| ensures found[k].entry == EntryOf(lines[k].row) {
      assert Entries(found)[k] == Printed(BlocksOf(lines))[k];
    }
    assert |found| == |lines|;
  }
}
