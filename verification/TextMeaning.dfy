/** Which texts are dates, amounts and installments: each reader accepts exactly the texts made of the parts its pattern
    names, and reads their value. */
module TextMeaning {
  import opened Calendar
  import opened Common
  import opened StatementText

  // ---------------------------------------------------------------- white space

  lemma SpaceMeans(c: char)
    ensures IsSpace(c) <==> c in {' ', '\t', '\n', '\U{000B}', '\U{000C}', '\r'}
  {
  }

  /** Trimming drops the blanks at both ends and nothing else. */
  lemma {:induction false} TrimMeans(text: string) returns (before: string, after: string)
    ensures text == before + Trim(text) + after
    ensures (forall c <- before :: IsSpace(c)) && (forall c <- after :: IsSpace(c))
    ensures Trim(text) != "" ==> !IsSpace(Trim(text)[0]) && !IsSpace(Trim(text)[|Trim(text)| - 1])
    decreases |text|
  {
    if text != "" && IsSpace(text[0]) {
      var b, a := TrimMeans(text[1..]);
      before, after := [text[0]] + b, a;
      assert text == [text[0]] + text[1..];
    } else if text != "" && IsSpace(text[|text| - 1]) {
      var b, a := TrimMeans(text[..|text| - 1]);
      before, after := b, a + [text[|text| - 1]];
      assert text == text[..|text| - 1] + [text[|text| - 1]];
    } else {
      before, after := "", "";
      assert text == before + text + after;
    }
  }

  // ---------------------------------------------------------------- dates

  function Spellings(month: int): seq<string>
    requires 1 <= month <= 12
  {
    [["ene"], ["feb"], ["mar"], ["abr"], ["may"], ["jun"], ["jul"], ["ago"], ["sep", "sept", "set"], ["oct"], ["nov"], ["dic"]][month - 1]
  }

  /** The same letters, in either case. */
  predicate SameLetters(text: string, lower: string) {
    && |text| == |lower|
    && forall k :: 0 <= k < |text| ==> text[k] == lower[k] || text[k] as int + 32 == lower[k] as int
  }

  predicate Spells(text: string, month: int)
    requires 1 <= month <= 12
  {
    exists name <- Spellings(month) :: SameLetters(text, name)
  }

  lemma LowerIs(text: string, name: string)
    requires forall k :: 0 <= k < |name| ==> 'a' <= name[k] <= 'z'
    ensures Lower(text) == name <==> SameLetters(text, name)
    ensures SameLetters(text, name) ==> forall k :: 0 <= k < |text| ==> IsLetter(text[k])
  {
    if |text| == |name| {
      assert forall k :: 0 <= k < |text| ==> (Lower(text)[k] == name[k] <==> text[k] == name[k] || text[k] as int + 32 == name[k] as int);
    }
  }

  lemma SpellsMonth(text: string, month: int)
    requires 1 <= month <= 12
    ensures MonthNamed(Lower(text)) == Some(month) <==> Spells(text, month)
    ensures Spells(text, month) ==> 3 <= |text| <= 4 && forall k :: 0 <= k < |text| ==> IsLetter(text[k])
  {
    hide Lower, SameLetters, IsLetter;
    var names := Spellings(month);
    forall name | name in names
      ensures Lower(text) == name <==> SameLetters(text, name)
      ensures SameLetters(text, name) ==> 3 <= |text| <= 4 && forall k :: 0 <= k < |text| ==> IsLetter(text[k])
    {
      LowerIs(text, name);
      SameLength(text, name);
    }
    assert MonthNamed(Lower(text)) == Some(month) <==> Lower(text) in names;
  }

  lemma SameLength(text: string, name: string)
    ensures SameLetters(text, name) ==> |text| == |name|
  {
  }

  /** The parts of a written date. */
  predicate DateIsWritten(token: string, day: string, month: string, year: string, date: Date) {
    && Trim(token) == day + "-" + month + "-" + year
    && 1 <= |day| <= 2 && AllDigits(day) && |year| == 4 && AllDigits(year) && Spells(month, date.month)
    && Value(day) == date.day && Value(year) == date.year && 1900 <= date.year <= 2999
  }

  lemma WrittenDateIsRead(token: string, day: string, month: string, year: string, date: Date)
    requires DateIsWritten(token, day, month, year, date)
    ensures ParseStatementDate(token) == Some(date)
  {
    hide Value, MonthNamed, Lower, Spells, Trim;
    SpellsMonth(month, date.month);
    var text := Trim(token);
    var n := |text|;
    assert text[..|day|] == day;
    assert text[|day| + 1..n - 5] == month;
    assert text[n - 4..] == year;
    assert text[|day|] == '-' && text[n - 5] == '-';
    if |day| == 2 {
      assert text[1] == day[1];
    }
    assert text[1] == '-' <==> |day| == 1;
    assert CivilDate(date.year, date.month, date.day) == date;
  }

  lemma ReadDateIsWritten(token: string, date: Date) returns (day: string, month: string, year: string)
    requires ParseStatementDate(token) == Some(date)
    ensures DateIsWritten(token, day, month, year, date)
  {
    hide Value, MonthNamed, Lower, Spells, Trim;
    var text := Trim(token);
    var n := |text|;
    var dash := if text[1] == '-' then 1 else 2;
    day, month, year := text[..dash], text[dash + 1..n - 5], text[n - 4..];
    assert text == day + "-" + month + "-" + year;
    SpellsMonth(month, date.month);
    assert BuildDate(day, month, year) == Some(date);
    assert MonthNamed(Lower(month)) == Some(date.month);
  }

  /** A text is read as a date exactly if it is one or two digits, a month's name in any case and four digits, separated by
      dashes, and names that valid date between 1900 and 2999. */
  lemma DateMeans(token: string, date: Date)
    ensures ParseStatementDate(token) == Some(date)
            <==> exists day: string, month: string, year: string :: DateIsWritten(token, day, month, year, date)
  {
    hide ParseStatementDate, DateIsWritten;
    if ParseStatementDate(token) == Some(date) {
      var day, month, year := ReadDateIsWritten(token, date);
    }
    if day: string, month: string, year: string :| DateIsWritten(token, day, month, year, date) {
      WrittenDateIsRead(token, day, month, year, date);
    }
  }

  // ---------------------------------------------------------------- amounts

  predicate AllGaps(text: string) {
    forall k :: 0 <= k < |text| ==> IsGap(text[k])
  }

  lemma {:induction false} GapsAreSkipped(gap: string, text: string)
    requires AllGaps(gap)
    ensures SkipGaps(gap + text) == SkipGaps(text)
  {
    if gap == "" {
      assert gap + text == text;
    } else {
      assert (gap + text)[1..] == gap[1..] + text;
      GapsAreSkipped(gap[1..], text);
    }
  }

  lemma {:induction false} GapsInFront(text: string) returns (gap: string)
    ensures AllGaps(gap) && text == gap + SkipGaps(text)
    ensures SkipGaps(text) == "" || !IsGap(SkipGaps(text)[0])
  {
    if text != "" && IsGap(text[0]) {
      var rest := GapsInFront(text[1..]);
      gap := [text[0]] + rest;
      assert text == [text[0]] + text[1..];
    } else {
      gap := "";
      assert text == gap + text;
    }
  }

  /** The whole part: digits, or up to three digits and groups of a comma and three more. */
  predicate IsWhole(whole: string) {
    (whole != "" && AllDigits(whole)) || Grouped(whole)
  }

  lemma WholeMeans(text: string)
    ensures IsWhole(text) ==> AllDigits(WithoutCommas(text))
    ensures WholePart(text) == if IsWhole(text) then Some(Value(WithoutCommas(text))) else None
  {
    if text != "" && AllDigits(text) {
      DigitsHaveNoCommas(text);
    } else if Grouped(text) {
      GroupedIsDigits(text);
    }
  }

  lemma {:induction false} WholeChars(text: string)
    requires IsWhole(text)
    ensures text != "" && IsDigit(text[0]) && forall k :: 0 <= k < |text| ==> IsDigit(text[k]) || text[k] == ','
  {
    if !AllDigits(text) {
      var n := |text|;
      WholeChars(text[..n - 4]);
      assert forall k :: 0 <= k < |text| ==> if k < n - 4 then text[k] == text[..n - 4][k] else if k == n - 4 then text[k] == ',' else text[k] == text[n - 3..][k - (n - 3)];
    }
  }

  /** The parts of a written figure. */
  predicate FigureIsWritten(text: string, gap: string, peso: string, blank: string, whole: string, decimals: string, cents: nat) {
    && text == gap + peso + blank + whole + "." + decimals
    && AllGaps(gap) && (peso == "" || peso == "$") && AllGaps(blank) && IsWhole(whole) && |decimals| == 2 && AllDigits(decimals)
    && AllDigits(WithoutCommas(whole)) && Value(WithoutCommas(whole)) <= 1_000_000_000
    && cents == 100 * Value(WithoutCommas(whole)) + Value(decimals)
  }

  lemma WrittenFigureIsRead(text: string, gap: string, peso: string, blank: string, whole: string, decimals: string, cents: nat)
    requires FigureIsWritten(text, gap, peso, blank, whole, decimals, cents)
    ensures ParseFigure(text) == Some(cents)
  {
    hide Value, WithoutCommas, Grouped, SkipGaps, IsWhole, WholePart;
    var figure := whole + "." + decimals;
    WholeChars(whole);
    WholeMeans(whole);
    NothingSkipped(figure);
    GapsAreSkipped(blank, figure);
    if peso == "$" {
      NothingSkipped("$" + (blank + figure));
      GapsAreSkipped(gap, "$" + (blank + figure));
      assert text == gap + ("$" + (blank + figure));
      assert ("$" + (blank + figure))[1..] == blank + figure;
    } else {
      GapsAreSkipped(gap, blank + figure);
      assert text == gap + (blank + figure);
    }
    assert figure[..|figure| - 3] == whole && figure[|figure| - 2..] == decimals && figure[|figure| - 3] == '.';
  }

  lemma NothingSkipped(text: string)
    requires text != "" && !IsGap(text[0])
    ensures SkipGaps(text) == text
  {
  }

  lemma ReadFigureIsWritten(text: string)
    returns (gap: string, peso: string, blank: string, whole: string, decimals: string)
    requires ParseFigure(text).Some?
    ensures FigureIsWritten(text, gap, peso, blank, whole, decimals, ParseFigure(text).value)
  {
    hide Value, WithoutCommas, Grouped, SkipGaps, IsWhole, WholePart;
    gap := GapsInFront(text);
    var bare := SkipGaps(text);
    var rest := if bare != [] && bare[0] == '$' then bare[1..] else bare;
    peso := if bare != [] && bare[0] == '$' then "$" else "";
    blank := GapsInFront(rest);
    var figure := SkipGaps(rest);
    var n := |figure|;
    whole, decimals := figure[..n - 3], figure[n - 2..];
    WholeMeans(whole);
    assert figure == whole + "." + decimals;
    assert bare == peso + rest;
    assert text == gap + (peso + (blank + (whole + "." + decimals)));
    assert text == gap + peso + blank + whole + "." + decimals;
  }

  /** What may stand in front of a figure for each sign. */
  predicate IsGlyph(glyph: string, sign: Sign) {
    match sign
    case Unsigned => glyph == ""
    case Plus => glyph == "+"
    case Minus => glyph == "-" || glyph == "\U{2212}"
  }

  predicate MoneyIsWritten(token: string, glyph: string, figure: string, money: Money) {
    Trim(token) == glyph + figure && IsGlyph(glyph, money.sign) && ParseFigure(figure) == Some(money.cents)
  }

  lemma FigureChars(text: string)
    requires ParseFigure(text).Some?
    ensures text != "" && SignOf(text[0]) == Unsigned
    ensures forall k :: 0 <= k < |text| ==> text[k] != MINUS_SIGN && text[k] != '-'
  {
    hide ParseFigure, Value, WithoutCommas, IsWhole;
    var gap, peso, blank, whole, decimals := ReadFigureIsWritten(text);
    WholeChars(whole);
    var a, b, c := |gap|, |gap| + |peso|, |gap| + |peso| + |blank|;
    assert forall k :: 0 <= k < |text| ==>
        text[k] == (if k < a then gap[k] else if k < b then peso[k - a] else if k < c then blank[k - b]
                    else if k < c + |whole| then whole[k - c] else if k == c + |whole| then '.' else decimals[k - c - |whole| - 1]);
  }

  lemma {:induction false} ReplacedOnce(text: string)
    ensures var r := ReplaceFirst(text, MINUS_SIGN, '-');
            && (forall k :: 0 <= k < |text| ==> r[k] == text[k] || (text[k] == MINUS_SIGN && r[k] == '-'))
            && (text != "" && text[0] == MINUS_SIGN ==> r == "-" + text[1..])
            && ((forall k :: 0 <= k < |text| ==> text[k] != MINUS_SIGN) ==> r == text)
  {
    if text != "" && text[0] != MINUS_SIGN {
      ReplacedOnce(text[1..]);
      assert text == [text[0]] + text[1..];
    }
  }

  lemma WrittenMoneyIsRead(token: string, glyph: string, figure: string, money: Money)
    requires MoneyIsWritten(token, glyph, figure, money)
    ensures ParseMoney(token) == Some(money)
  {
    hide ParseFigure, ReplaceFirst, Trim;
    FigureChars(figure);
    var text := glyph + figure;
    ReplacedOnce(text);
    if glyph == "" {
      assert text == figure;
    } else {
      assert text[1..] == figure;
      assert forall k :: 1 <= k < |text| ==> text[k] == figure[k - 1];
      assert ("-" + figure)[1..] == figure;
    }
  }

  lemma ReadMoneyIsWritten(token: string) returns (glyph: string, figure: string)
    requires ParseMoney(token).Some?
    ensures MoneyIsWritten(token, glyph, figure, ParseMoney(token).value)
  {
    hide ParseFigure, ReplaceFirst, Trim;
    var raw := Trim(token);
    var text := ReplaceFirst(raw, MINUS_SIGN, '-');
    ReplacedOnce(raw);
    var sign := if text == [] then Unsigned else SignOf(text[0]);
    figure := if sign == Unsigned then text else text[1..];
    FigureChars(figure);
    glyph := if sign == Unsigned then "" else [raw[0]];
    var start := |glyph|;
    assert forall k :: start <= k < |text| ==> text[k] == figure[k - start];
    assert forall k :: start <= k < |raw| ==> raw[k] == text[k];
    assert raw == glyph + figure;
  }

  /** A text is read as an amount exactly if it is an optional sign, the typographic minus included, an optional peso sign with
      blanks around it, a whole part of at most a thousand million and two decimals, and it reads as their cents. */
  lemma MoneyMeans(token: string, money: Money)
    ensures ParseMoney(token) == Some(money) <==> exists glyph: string, figure: string :: MoneyIsWritten(token, glyph, figure, money)
  {
    hide ParseMoney, MoneyIsWritten;
    if ParseMoney(token) == Some(money) {
      var glyph, figure := ReadMoneyIsWritten(token);
    }
    if glyph: string, figure: string :| MoneyIsWritten(token, glyph, figure, money) {
      WrittenMoneyIsRead(token, glyph, figure, money);
    }
  }

  lemma FigureMeans(text: string, cents: nat)
    ensures ParseFigure(text) == Some(cents)
            <==> exists gap: string, peso: string, blank: string, whole: string, decimals: string ::
                   FigureIsWritten(text, gap, peso, blank, whole, decimals, cents)
  {
    hide ParseFigure, FigureIsWritten;
    if ParseFigure(text) == Some(cents) {
      var gap, peso, blank, whole, decimals := ReadFigureIsWritten(text);
    }
    if gap: string, peso: string, blank: string, whole: string, decimals: string :| FigureIsWritten(text, gap, peso, blank, whole, decimals, cents) {
      WrittenFigureIsRead(text, gap, peso, blank, whole, decimals, cents);
    }
  }

  // ---------------------------------------------------------------- installments

  /** The parts of a description that names an installment. */
  predicate InstallmentIsWritten(text: string, name: string, gap: string, number: string, total: string, i: Installment) {
    && text == name + gap + number + " de " + total
    && gap != "" && AllGaps(gap) && (name != "" ==> !IsGap(name[|name| - 1])) && '\n' !in name
    && 1 <= |number| <= 3 && AllDigits(number) && 1 <= |total| <= 3 && AllDigits(total)
    && Value(number) == i.number && Value(total) == i.total && 1 <= i.number <= i.total
  }

  lemma {:induction false} TrailingGapsDropped(name: string, gap: string)
    requires AllGaps(gap) && (name != "" ==> !IsGap(name[|name| - 1]))
    ensures WithoutTrailingGaps(name + gap) == name
  {
    if gap == "" {
      assert name + gap == name;
    } else {
      var init := gap[..|gap| - 1];
      assert (name + gap)[..|name + gap| - 1] == name + init && (name + gap)[|name + gap| - 1] == gap[|gap| - 1];
      TrailingGapsDropped(name, init);
    }
  }

  lemma {:induction false} TrailingGaps(text: string) returns (gap: string)
    ensures AllGaps(gap) && text == WithoutTrailingGaps(text) + gap
    ensures WithoutTrailingGaps(text) != "" ==> !IsGap(WithoutTrailingGaps(text)[|WithoutTrailingGaps(text)| - 1])
  {
    if text != "" && IsGap(text[|text| - 1]) {
      var init := TrailingGaps(text[..|text| - 1]);
      gap := init + [text[|text| - 1]];
      assert text == text[..|text| - 1] + [text[|text| - 1]];
    } else {
      gap := "";
      assert text == text + gap;
    }
  }

  lemma WrittenInstallmentIsRead(text: string, name: string, gap: string, number: string, total: string, i: Installment)
    requires InstallmentIsWritten(text, name, gap, number, total, i)
    ensures MatchInstallment(text) == Some(InstallmentParts(name, i.number, i.total))
  {
    hide Value, WithoutTrailingGaps, TrailingDigits;
    var front := name + gap;
    var numbered := front + number;
    var before := numbered + " de ";
    assert text == before + total && before[|before| - 1] == ' ';
    TrailingDigitsOf(before, total);
    assert text[..|before|] == before && text[|before|..] == total;
    assert before[|before| - 4..] == " de " && before[..|before| - 4] == numbered;
    assert front[|front| - 1] == gap[|gap| - 1];
    TrailingDigitsOf(front, number);
    assert numbered[..|front|] == front && numbered[|front|..] == number;
    TrailingGapsDropped(name, gap);
  }

  lemma ReadInstallmentIsWritten(text: string, i: Installment)
    returns (name: string, gap: string, number: string, total: string)
    requires MatchInstallment(text).Some? && 1 <= i.number <= i.total
    requires MatchInstallment(text).value.number == i.number && MatchInstallment(text).value.total == i.total
    ensures InstallmentIsWritten(text, name, gap, number, total, i) && name == MatchInstallment(text).value.name
  {
    hide Value, WithoutTrailingGaps, TrailingDigits;
    var m := TrailingDigits(text);
    var before := text[..|text| - m];
    var numbered := before[..|before| - 4];
    var n := TrailingDigits(numbered);
    var front := numbered[..|numbered| - n];
    gap := TrailingGaps(front);
    name, number, total := WithoutTrailingGaps(front), numbered[|numbered| - n..], text[|text| - m..];
    assert text == before + total && before == numbered + " de " && numbered == front + number;
    assert text == name + gap + number + " de " + total;
  }

  /** A description names an installment exactly if it is a name on one line, a gap, and `N de M` of one to three digits each with
      N from 1 to M; the name must show something. Any other description stays as it is. */
  lemma InstallmentMeans(text: string, shown: string, i: Installment)
    ensures SplitInstallment(text) == (shown, Some(i))
            <==> exists name: string, gap: string, number: string, total: string ::
                   InstallmentIsWritten(text, name, gap, number, total, i) && Trim(name) == shown && shown != ""
    ensures SplitInstallment(text).1.None? ==> SplitInstallment(text).0 == text
  {
    hide MatchInstallment, InstallmentIsWritten, Trim;
    if SplitInstallment(text) == (shown, Some(i)) {
      var name, gap, number, total := ReadInstallmentIsWritten(text, i);
      assert InstallmentIsWritten(text, name, gap, number, total, i);
    }
    if name: string, gap: string, number: string, total: string :|
        InstallmentIsWritten(text, name, gap, number, total, i) && Trim(name) == shown && shown != "" {
      WrittenInstallmentIsRead(text, name, gap, number, total, i);
      InstallmentInRange(text, name, gap, number, total, i);
    }
  }

  lemma InstallmentInRange(text: string, name: string, gap: string, number: string, total: string, i: Installment)
    requires InstallmentIsWritten(text, name, gap, number, total, i)
    ensures 1 <= i.number <= i.total
  {
  }
}
