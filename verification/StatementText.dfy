/** How a bank statement writes dates, amounts and installments, and how the parser reads them back
    (backend/internal/statements/banamex.go). The regular expressions of the source are deterministic on
    their inputs, so each is written as a reading of the text from its ends. */
module StatementText {
  import opened Calendar
  import opened Common

  // ---------------------------------------------------------------- digits

  function Value(digits: string): (n: nat)
    requires AllDigits(digits)
  {
    if digits == [] then 0 else
      10 * Value(digits[..|digits| - 1]) + (digits[|digits| - 1] - '0') as nat
  }

  /** Exactly `width` digits, the low ones of n. */
  function Padded(n: nat, width: nat): (text: string)
    ensures |text| == width && AllDigits(text)
  {
    if width == 0 then "" else Padded(n / 10, width - 1) + [Digit(n % 10)]
  }

  function Power(width: nat): (n: nat)
    ensures n >= 1
  {
    if width == 0 then 1 else 10 * Power(width - 1)
  }

  lemma {:induction false} PaddedValue(n: nat, width: nat)
    requires n < Power(width)
    ensures Value(Padded(n, width)) == n
  {
    if width > 0 {
      PaddedValue(n / 10, width - 1);
      var text := Padded(n, width);
      assert text[..|text| - 1] == Padded(n / 10, width - 1);
    }
  }

  lemma {:induction false} NumberValue(n: nat)
    ensures Value(Number(n)) == n
  {
    if n >= 10 {
      NumberValue(n / 10);
      assert Number(n)[..|Number(n)| - 1] == Number(n / 10);
    } else {
      assert Number(n)[..0] == "";
    }
  }

  lemma ValueOfJoin(a: string, b: string, c: char)
    requires AllDigits(a) && AllDigits(b) && IsDigit(c)
    ensures Value(a + (b + [c])) == 10 * Value(a + b) + (c - '0') as nat
  {
    var text := a + (b + [c]);
    assert text[..|text| - 1] == a + b;
    assert text[|text| - 1] == c;
  }

  lemma {:induction false} ValueThenPadded(a: string, n: nat, width: nat)
    requires AllDigits(a) && n < Power(width)
    ensures AllDigits(a + Padded(n, width))
    ensures Value(a + Padded(n, width)) == Value(a) * Power(width) + n
  {
    if width == 0 {
      assert a + Padded(n, width) == a;
    } else {
      ValueThenPadded(a, n / 10, width - 1);
      ValueOfJoin(a, Padded(n / 10, width - 1), Digit(n % 10));
      TenTimes(Value(a), Power(width - 1), n);
      hide Value;
    }
  }

  lemma TenTimes(value: nat, power: nat, n: nat)
    ensures value * (10 * power) + n == 10 * (value * power + n / 10) + n % 10
  {
  }

  // ---------------------------------------------------------------- dates

  function MonthName(month: int): (name: string)
    requires 1 <= month <= 12
    ensures |name| == 3 && forall k :: 0 <= k < |name| ==> 'a' <= name[k] <= 'z'
  {
    if month == 1 then "ene" else if month == 2 then "feb" else if month == 3 then "mar"
    else if month == 4 then "abr" else if month == 5 then "may" else if month == 6 then "jun"
    else if month == 7 then "jul" else if month == 8 then "ago" else if month == 9 then "sep"
    else if month == 10 then "oct" else if month == 11 then "nov" else "dic"
  }

  predicate IsLetter(c: char) {
    'a' <= c <= 'z' || 'A' <= c <= 'Z'
  }

  function Lower(text: string): (r: string)
    ensures |r| == |text|
  {
    seq(|text|, k requires 0 <= k < |text| => if 'A' <= text[k] <= 'Z' then text[k] + 32 as char else text[k])
  }

  function MonthNamed(name: string): (month: Option<int>)
    ensures month.Some? ==> 1 <= month.value <= 12
  {
    if name == "ene" then Some(1) else if name == "feb" then Some(2) else if name == "mar" then Some(3)
    else if name == "abr" then Some(4) else if name == "may" then Some(5) else if name == "jun" then Some(6)
    else if name == "jul" then Some(7) else if name == "ago" then Some(8)
    else if name == "sep" || name == "sept" || name == "set" then Some(9)
    else if name == "oct" then Some(10) else if name == "nov" then Some(11) else if name == "dic" then Some(12)
    else None
  }

  function BuildDate(dayText: string, monthText: string, yearText: string): (date: Option<Date>)
    requires AllDigits(dayText) && AllDigits(yearText)
  {
    var month := MonthNamed(Lower(monthText));
    var day, year := Value(dayText), Value(yearText);
    if month.None? || year < 1900 || year > 2999 || !CivilDate(year, month.value, day).Valid() then None
    else Some(CivilDate(year, month.value, day))
  }

  /** One or two digits, three or four letters and four digits, separated by dashes. */
  function ParseStatementDate(token: string): (date: Option<Date>) {
    var text := Trim(token);
    var n := |text|;
    if n < 10 then None else
      var dash := if text[1] == '-' then 1 else 2;
      var day, month, year := text[..dash], text[dash + 1..n - 5], text[n - 4..];
      if text[dash] == '-' && text[n - 5] == '-' && AllDigits(day) && AllDigits(year) && 3 <= |month| <= 4
         && forall k :: 0 <= k < |month| ==> IsLetter(month[k])
      then BuildDate(day, month, year)
      else None
  }

  function DateText(date: Date, padded: bool): string
    requires 1900 <= date.year <= 2999
  {
    (if padded then Padded(date.day, 2) else Number(date.day))
    + "-" + MonthName(date.month) + "-" + Padded(date.year, 4)
  }

  lemma LowerMonth(month: int)
    requires 1 <= month <= 12
    ensures Lower(MonthName(month)) == MonthName(month)
  {
    hide MonthName;
    var name := MonthName(month);
    assert forall k :: 0 <= k < |name| ==> Lower(name)[k] == name[k];
  }

  lemma NamedMonth(month: int)
    requires 1 <= month <= 12
    ensures MonthNamed(MonthName(month)) == Some(month)
  {
    var name := MonthName(month);
    assert name == [name[0], name[1], name[2]];
  }

  lemma DayDigits(day: nat)
    requires 1 <= day <= 31
    ensures 1 <= |Number(day)| <= 2
  {
    if day >= 10 {
      assert day / 10 < 10;
    }
  }

  /** Every date from 1900 to 2999 reads back as itself, written with one or two day digits. */
  lemma DateRoundTrip(date: Date, padded: bool)
    requires 1900 <= date.year <= 2999
    ensures ParseStatementDate(DateText(date, padded)) == Some(date)
  {
    var day := if padded then Padded(date.day, 2) else Number(date.day);
    var month, year := MonthName(date.month), Padded(date.year, 4);
    assert Power(2) == 100 && Power(4) == 10000 by {
      assert Power(1) == 10 && Power(3) == 1000;
    }
    DayDigits(date.day);
    assert AllDigits(day) && 1 <= |day| <= 2 && Value(day) == date.day by {
      if padded { PaddedValue(date.day, 2); } else { NumberValue(date.day); }
    }
    PaddedValue(date.year, 4);
    LowerMonth(date.month);
    NamedMonth(date.month);
    hide MonthName, MonthNamed, Padded, Number;
    DateParts(day, month, year);
  }

  /** The reader finds the three parts of a date where the printer put them. */
  lemma DateParts(day: string, month: string, year: string)
    requires AllDigits(day) && 1 <= |day| <= 2 && AllDigits(year) && |year| == 4
    requires |month| == 3 && forall k :: 0 <= k < |month| ==> IsLetter(month[k])
    ensures ParseStatementDate(day + "-" + month + "-" + year) == BuildDate(day, month, year)
  {
    hide BuildDate;
    var text := day + "-" + month + "-" + year;
    var n := |text|;
    assert IsDigit(text[0]) by { assert text[0] == day[0]; }
    assert IsDigit(text[n - 1]) by { assert text[n - 1] == year[3]; }
    assert Trim(text) == text;
    assert text[..|day|] == day;
    assert text[|day| + 1..n - 5] == month;
    assert text[n - 4..] == year;
    assert text[|day|] == '-' && text[n - 5] == '-';
    if |day| == 2 {
      assert text[1] == day[1];
    }
    assert text[1] == '-' <==> |day| == 1;
  }

  // ---------------------------------------------------------------- amounts

  datatype Sign = Unsigned | Plus | Minus

  datatype Money = Money(cents: nat, sign: Sign)

  const MINUS_SIGN: char := '\U{2212}'
  const LARGEST_WHOLE := 1_000_000_000

  function ReplaceFirst(text: string, old_: char, new_: char): (r: string)
    ensures |r| == |text|
  {
    if text == [] then [] else if text[0] == old_ then [new_] + text[1..] else [text[0]] + ReplaceFirst(text[1..], old_, new_)
  }

  /** The white space of the source's regular expressions. */
  predicate IsGap(c: char) {
    c == ' ' || c == '\t' || c == '\n' || c == '\U{000C}' || c == '\r'
  }

  function SkipGaps(text: string): (r: string)
    ensures |r| <= |text|
  {
    if text != [] && IsGap(text[0]) then SkipGaps(text[1..]) else text
  }

  /** Up to three digits followed by groups of a comma and three digits. */
  predicate Grouped(text: string) {
    var n := |text|;
    if n <= 3 then n >= 1 && AllDigits(text)
    else text[n - 4] == ',' && AllDigits(text[n - 3..]) && Grouped(text[..n - 4])
  }

  function WithoutCommas(text: string): string {
    if text == [] then [] else (if text[0] == ',' then [] else [text[0]]) + WithoutCommas(text[1..])
  }

  lemma {:induction false} WithoutCommasJoin(a: string, b: string)
    ensures WithoutCommas(a + b) == WithoutCommas(a) + WithoutCommas(b)
  {
    hide WithoutCommas;
    if a == [] {
      NoCommasInNothing();
      assert a + b == b;
      assert [] + WithoutCommas(b) == WithoutCommas(b);
    } else {
      WithoutCommasJoin(a[1..], b);
      assert (a + b)[1..] == a[1..] + b;
      CommaStep(a);
      CommaStep(a + b);
      var first := if a[0] == ',' then [] else [a[0]];
      assert first + (WithoutCommas(a[1..]) + WithoutCommas(b)) == (first + WithoutCommas(a[1..])) + WithoutCommas(b);
    }
  }

  lemma NoCommasInNothing()
    ensures WithoutCommas("") == ""
  {
  }

  lemma CommaStep(text: string)
    requires text != []
    ensures WithoutCommas(text) == (if text[0] == ',' then [] else [text[0]]) + WithoutCommas(text[1..])
  {
  }

  lemma {:induction false} DigitsHaveNoCommas(text: string)
    requires AllDigits(text)
    ensures WithoutCommas(text) == text
  {
    if text != [] {
      DigitsHaveNoCommas(text[1..]);
    }
  }

  lemma {:induction false} GroupedIsDigits(text: string)
    requires Grouped(text)
    ensures AllDigits(WithoutCommas(text))
  {
    var n := |text|;
    if n <= 3 {
      DigitsHaveNoCommas(text);
    } else {
      var high, low := text[..n - 4], text[n - 4..];
      GroupedIsDigits(high);
      assert low[0] == ',' && low[1..] == text[n - 3..];
      assert text == high + low;
      hide Grouped, WithoutCommas;
      CommaStep(low);
      DigitsHaveNoCommas(low[1..]);
      WithoutCommasJoin(high, low);
    }
  }

  /** The whole part of an amount: plain digits, or digits grouped by commas. */
  function WholePart(text: string): (whole: Option<nat>) {
    if text != [] && AllDigits(text) then Some(Value(text))
    else if Grouped(text) then
      GroupedIsDigits(text);
      Some(Value(WithoutCommas(text)))
    else None
  }

  function SignOf(c: char): Sign {
    if c == '+' then Plus else if c == '-' then Minus else Unsigned
  }

  /** What follows the sign: an optional peso sign with blanks around it, the whole part and two decimals. */
  function ParseFigure(text: string): (cents: Option<nat>) {
    var bare := SkipGaps(text);
    var figure := SkipGaps(if bare != [] && bare[0] == '$' then bare[1..] else bare);
    var n := |figure|;
    if n < 4 || figure[n - 3] != '.' || !AllDigits(figure[n - 2..]) then None else
      var whole := WholePart(figure[..n - 3]);
      if whole.None? || whole.value > LARGEST_WHOLE then None
      else Some(whole.value * 100 + Value(figure[n - 2..]))
  }

  function ParseMoney(token: string): (money: Option<Money>) {
    var text := ReplaceFirst(Trim(token), MINUS_SIGN, '-');
    var sign := if text == [] then Unsigned else SignOf(text[0]);
    var cents := ParseFigure(if sign == Unsigned then text else text[1..]);
    if cents.None? then None else Some(Money(cents.value, sign))
  }

  /** Commas between the groups of three digits. */
  function GroupedText(n: nat): (text: string)
    ensures |text| >= 1 && IsDigit(text[0])
    ensures MINUS_SIGN !in text
  {
    if n < 1000 then Number(n) else GroupedText(n / 1000) + "," + Padded(n % 1000, 3)
  }

  lemma SmallNumber(n: nat)
    requires n < 1000
    ensures |Number(n)| <= 3
  {
    if n >= 100 {
      assert n / 10 / 10 < 10;
      assert |Number(n / 10 / 10)| == 1;
      assert |Number(n / 10)| == 2;
    } else if n >= 10 {
      assert |Number(n / 10)| == 1;
    }
  }

  lemma {:induction false} GroupedRoundTrip(n: nat)
    ensures Grouped(GroupedText(n))
    ensures AllDigits(WithoutCommas(GroupedText(n)))
    ensures Value(WithoutCommas(GroupedText(n))) == n
  {
    if n < 1000 {
      SmallNumber(n);
      DigitsHaveNoCommas(Number(n));
      NumberValue(n);
      hide Number, Value;
    } else {
      var high, low := GroupedText(n / 1000), Padded(n % 1000, 3);
      GroupedRoundTrip(n / 1000);
      GroupMore(high, low);
      assert Power(3) == 1000 by { assert Power(1) == 10 && Power(2) == 100; }
      ValueThenPadded(WithoutCommas(high), n % 1000, 3);
      hide Value, WithoutCommas, Grouped, Padded, Power;
    }
  }

  lemma GroupMore(high: string, low: string)
    requires Grouped(high) && AllDigits(WithoutCommas(high)) && AllDigits(low) && |low| == 3
    ensures Grouped(high + "," + low)
    ensures WithoutCommas(high + "," + low) == WithoutCommas(high) + low
  {
    var text := high + "," + low;
    assert text == high + ([','] + low);
    assert text[..|text| - 4] == high && text[|text| - 3..] == low;
    WithoutCommasJoin(high, [','] + low);
    assert ([','] + low)[1..] == low;
    DigitsHaveNoCommas(low);
    CommaStep([','] + low);
    hide WithoutCommas, AllDigits;
    assert Grouped(text);
    assert [] + low == low;
  }

  lemma GroupedWhole(n: nat)
    ensures WholePart(GroupedText(n)) == Some(n)
  {
    GroupedRoundTrip(n);
    var text := GroupedText(n);
    if AllDigits(text) {
      DigitsHaveNoCommas(text);
    }
  }

  function FigureText(cents: nat): string {
    "$" + GroupedText(cents / 100) + "." + Padded(cents % 100, 2)
  }

  lemma FigureRoundTrip(cents: nat)
    requires cents < (LARGEST_WHOLE + 1) * 100
    ensures ParseFigure(FigureText(cents)) == Some(cents)
  {
    var whole, decimals := GroupedText(cents / 100), Padded(cents % 100, 2);
    GroupedWhole(cents / 100);
    assert Power(2) == 100 by { assert Power(1) == 10; }
    PaddedValue(cents % 100, 2);
    hide GroupedText, Padded, WholePart, Value, Power;
    FigureParts(whole, decimals);
  }

  lemma FigureParts(whole: string, decimals: string)
    requires |whole| >= 1 && IsDigit(whole[0]) && AllDigits(decimals) && |decimals| == 2
    requires WholePart(whole).Some? && WholePart(whole).value <= LARGEST_WHOLE
    ensures ParseFigure("$" + whole + "." + decimals) == Some(WholePart(whole).value * 100 + Value(decimals))
  {
    hide WholePart, Value;
    var figure := whole + "." + decimals;
    var text := "$" + whole + "." + decimals;
    assert text[1..] == figure;
    assert figure[0] == whole[0];
    assert SkipGaps(text) == text;
    assert SkipGaps(figure) == figure;
    assert figure[..|figure| - 3] == whole;
    assert figure[|figure| - 2..] == decimals;
  }

  predicate IsSignToken(token: string) {
    token == "+" || token == "-" || token == [MINUS_SIGN]
  }

  function SignRead(glyph: string): Sign
    requires IsSignToken(glyph)
  {
    if glyph == "+" then Plus else Minus
  }

  lemma {:induction false} NothingToReplace(text: string, old_: char, new_: char)
    requires old_ !in text
    ensures ReplaceFirst(text, old_, new_) == text
  {
    if text != [] {
      NothingToReplace(text[1..], old_, new_);
    }
  }

  lemma FigureTextShape(cents: nat)
    ensures |FigureText(cents)| >= 5
    ensures FigureText(cents)[0] == '$' && IsDigit(FigureText(cents)[|FigureText(cents)| - 1])
    ensures MINUS_SIGN !in FigureText(cents)
  {
    var text := FigureText(cents);
    assert text[|text| - 1] == Padded(cents % 100, 2)[1];
  }

  /** An amount of at most a thousand million reads back as its cents. */
  lemma MoneyRoundTrip(cents: nat)
    requires cents < (LARGEST_WHOLE + 1) * 100
    ensures ParseMoney(FigureText(cents)) == Some(Money(cents, Unsigned))
  {
    hide GroupedText, Padded;
    FigureTextShape(cents);
    FigureRoundTrip(cents);
    NothingToReplace(FigureText(cents), MINUS_SIGN, '-');
    assert Trim(FigureText(cents)) == FigureText(cents);
  }

  /** With a sign in front, the typographic minus included, it reads back with that sign. */
  lemma SignedMoneyRoundTrip(glyph: string, cents: nat)
    requires IsSignToken(glyph) && cents < (LARGEST_WHOLE + 1) * 100
    ensures ParseMoney(glyph + FigureText(cents)) == Some(Money(cents, SignRead(glyph)))
  {
    hide FigureText, ParseFigure;
    var figure := FigureText(cents);
    var text := glyph + figure;
    FigureTextShape(cents);
    FigureRoundTrip(cents);
    assert text[|text| - 1] == figure[|figure| - 1];
    assert Trim(text) == text;
    assert text[1..] == figure;
    if glyph == [MINUS_SIGN] {
      assert ReplaceFirst(text, MINUS_SIGN, '-') == "-" + figure;
      assert ("-" + figure)[1..] == figure;
    } else {
      NothingToReplace(text, MINUS_SIGN, '-');
    }
  }

  // ---------------------------------------------------------------- installments

  datatype Installment = Installment(number: nat, total: nat)

  datatype InstallmentParts = InstallmentParts(name: string, number: nat, total: nat)

  function TrailingDigits(text: string): (k: nat)
    ensures k <= |text| && AllDigits(text[|text| - k..])
    ensures k < |text| ==> !IsDigit(text[|text| - k - 1])
  {
    if text == [] || !IsDigit(text[|text| - 1]) then 0 else 1 + TrailingDigits(text[..|text| - 1])
  }

  function WithoutTrailingGaps(text: string): string {
    if text != [] && IsGap(text[|text| - 1]) then WithoutTrailingGaps(text[..|text| - 1]) else text
  }

  /** A name, white space, and `N de M` with one to three digits each; a name holds no line break. */
  function MatchInstallment(text: string): Option<InstallmentParts> {
    var m := TrailingDigits(text);
    var before := text[..|text| - m];
    if !(1 <= m <= 3) || |before| < 4 || before[|before| - 4..] != " de " then None else
      var front := before[..|before| - 4];
      var n := TrailingDigits(front);
      var name := WithoutTrailingGaps(front[..|front| - n]);
      if !(1 <= n <= 3) || |name| == |front| - n || '\n' in name then None
      else Some(InstallmentParts(name, Value(front[|front| - n..]), Value(text[|text| - m..])))
  }

  /** The description and installment a movement ends up with. */
  function SplitInstallment(text: string): (string, Option<Installment>) {
    match MatchInstallment(text)
    case None => (text, None)
    case Some(parts) =>
      if parts.number >= 1 && parts.total >= parts.number && Trim(parts.name) != ""
      then (Trim(parts.name), Some(Installment(parts.number, parts.total)))
      else (text, None)
  }

  function InstallmentText(i: Installment, padded: bool): string {
    (if padded then Padded(i.number, 3) else Number(i.number)) + " de "
    + (if padded then Padded(i.total, 3) else Number(i.total))
  }

  lemma {:induction false} TrailingDigitsOf(front: string, digits: string)
    requires AllDigits(digits)
    requires front != [] ==> !IsDigit(front[|front| - 1])
    ensures TrailingDigits(front + digits) == |digits|
  {
    var text := front + digits;
    if digits == [] {
      assert text == front;
    } else {
      TrailingDigitsOf(front, digits[..|digits| - 1]);
      assert text[..|text| - 1] == front + digits[..|digits| - 1];
      assert text[|text| - 1] == digits[|digits| - 1];
    }
  }

  lemma InstallmentNumber(n: nat, padded: bool)
    requires n < 1000
    ensures var text := if padded then Padded(n, 3) else Number(n);
            AllDigits(text) && 1 <= |text| <= 3 && Value(text) == n
  {
    if padded {
      assert Power(3) == 1000 by { assert Power(1) == 10 && Power(2) == 100; }
      PaddedValue(n, 3);
    } else {
      SmallNumber(n);
      NumberValue(n);
    }
  }

  lemma TrimmedEnds(name: string)
    requires name != [] && Trim(name) == name
    ensures !IsSpace(name[|name| - 1])
  {
    if IsSpace(name[0]) {
      TrimShrinks(name[1..]);
    } else if IsSpace(name[|name| - 1]) {
      TrimShrinks(name[..|name| - 1]);
    }
  }

  lemma {:induction false} TrimShrinks(text: string)
    ensures |Trim(text)| <= |text|
  {
    if text != [] && IsSpace(text[0]) {
      TrimShrinks(text[1..]);
    } else if text != [] && IsSpace(text[|text| - 1]) {
      TrimShrinks(text[..|text| - 1]);
    }
  }

  /** The digits of both numbers and the name are found where the printer put them. */
  lemma InstallmentIsMatched(name: string, number: string, total: string)
    requires name != "" && !IsSpace(name[|name| - 1]) && '\n' !in name
    requires AllDigits(number) && 1 <= |number| <= 3 && AllDigits(total) && 1 <= |total| <= 3
    ensures MatchInstallment(name + " " + number + " de " + total)
         == Some(InstallmentParts(name, Value(number), Value(total)))
  {
    hide Value;
    var front := name + " " + number;
    var before := front + " de ";
    var text := name + " " + number + " de " + total;
    assert text == before + total;
    assert before[|before| - 1] == ' ';
    TrailingDigitsOf(before, total);
    assert text[..|before|] == before && text[|before|..] == total;
    assert before[|before| - 4..] == " de " && before[..|before| - 4] == front;
    var spaced := name + " ";
    assert spaced[|spaced| - 1] == ' ';
    assert front == spaced + number;
    TrailingDigitsOf(spaced, number);
    assert front[..|spaced|] == spaced && front[|spaced|..] == number;
    assert spaced[..|spaced| - 1] == name;
    assert WithoutTrailingGaps(name) == name;
    assert WithoutTrailingGaps(spaced) == name;
  }

  /** A trimmed name on one line followed by `N de M`, N from 1 to M and M below 1000, splits back. */
  lemma InstallmentRoundTrip(name: string, i: Installment, padded: bool)
    requires name != "" && Trim(name) == name && '\n' !in name
    requires 1 <= i.number <= i.total < 1000
    ensures SplitInstallment(name + " " + InstallmentText(i, padded)) == (name, Some(i))
  {
    hide MatchInstallment, Padded, Number;
    var number := if padded then Padded(i.number, 3) else Number(i.number);
    var total := if padded then Padded(i.total, 3) else Number(i.total);
    InstallmentNumber(i.number, padded);
    InstallmentNumber(i.total, padded);
    TrimmedEnds(name);
    InstallmentIsMatched(name, number, total);
    assert name + " " + InstallmentText(i, padded) == name + " " + number + " de " + total;
  }
}
