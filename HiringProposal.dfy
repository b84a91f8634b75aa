/** The salary cells of the hiring proposal: how a salary is first written
    into a cell, how an edited cell's text is normalised when the cell loses
    focus, and how it is unformatted again when the cell gains focus. */
module HiringProposal {
  import opened Common
  import opened JsText

  /** The unit written after a salary: ten thousand won. */
  const Unit: string := "만원"

  /** formatSalary: '-' for a missing or non-positive salary, otherwise the
      grouped number followed by the unit. */
  function FormatSalary(value: Option<int>): (s: string)
    ensures s == "-" <==> !(value.Some? && value.value > 0)
    ensures s != "-" ==> |s| > |Unit| && s[|s| - |Unit|..] == Unit
  {
    if value.Some? && value.value > 0 then LocaleString(value.value) + Unit else "-"
  }

  /** text.replace(/,|만원/g, ''): scanning left to right, every ',' and every
      "만원" is removed. */
  function StripSalaryMarks(s: string): (t: string)
    ensures |t| <= |s|
    ensures ',' !in t
    ensures forall c :: c in t ==> c in s
  {
    if s == [] then []
    else if s[0] == ',' then StripSalaryMarks(s[1..])
    else if StartsWith(s, Unit) then StripSalaryMarks(s[|Unit|..])
    else [s[0]] + StripSalaryMarks(s[1..])
  }

  /** The number both handlers read out of a cell's text. */
  function ParsedSalary(text: string): (num: Parsed)
    ensures num.Num? ==> exists i :: 0 <= i < |text| && IsDigit(text[i])
  {
    var num := ParseInt(StripSalaryMarks(text));
    if num.Num? then DigitKept(text); num else num
  }

  /** A digit left after the marks are stripped was a digit of the text. */
  lemma DigitKept(text: string)
    requires exists i :: 0 <= i < |StripSalaryMarks(text)| && IsDigit(StripSalaryMarks(text)[i])
    ensures exists i :: 0 <= i < |text| && IsDigit(text[i])
  {
    var t := StripSalaryMarks(text);
    var i :| 0 <= i < |t| && IsDigit(t[i]);
    assert t[i] in t;
    var j :| 0 <= j < |text| && text[j] == t[i];
  }

  /** The text handleSalaryBlur leaves in the cell. */
  function BlurText(text: string): (blurred: string)
    ensures var num := ParsedSalary(text);
      ParsedSalary(blurred) == if num.Num? && num.n > 0 then num else NaN
  {
    var num := ParsedSalary(text);
    if num.Num? && num.n > 0 then
      FormattedReadsBack(Some(num.n));
      LocaleString(num.n) + Unit
    else
      DashIsNaN();
      "-"
  }

  /** The text handleSalaryFocus leaves in the cell. */
  function FocusText(text: string): (focused: string)
    ensures text == "-" ==> focused == ""
    ensures text != "-" ==> ParsedSalary(focused) == ParsedSalary(text)
    ensures text != "-" && ParsedSalary(text).Num? ==> IsNumeral(focused)
  {
    if text == "-" then ""
    else
      var num := ParsedSalary(text);
      if num.Num? then
        StripNumberToString(num.n);
        ParseIntOfNumberToString(num.n);
        NumberToString(num.n)
      else text
  }

  /** In front of text that contains no '만', the marks removed are exactly its
      commas. */
  lemma {:induction false} StripAppend(a: string, b: string)
    requires forall i :: 0 <= i < |a| ==> a[i] != Unit[0]
    ensures StripSalaryMarks(a + b) == WithoutCommas(a) + StripSalaryMarks(b)
  {
    if a == [] {
      assert a + b == b;
    } else {
      assert (a + b)[1..] == a[1..] + b;
      if |Unit| <= |a + b| {
        assert (a + b)[..|Unit|][0] == a[0];
      }
      StripAppend(a[1..], b);
    }
  }

  /** Stripping the marks of a formatted positive salary leaves its digits. */
  lemma StripFormatted(n: nat)
    ensures StripSalaryMarks(Grouped(n) + Unit) == Digits(n)
  {
    StripAppend(Grouped(n), Unit);
    assert StartsWith(Unit, Unit) && Unit[|Unit|..] == [];
    GroupedWithoutCommas(n);
  }

  /** String(n) carries no marks to strip. */
  lemma StripNumberToString(n: int)
    ensures StripSalaryMarks(NumberToString(n)) == NumberToString(n)
  {
    var d := Digits(if n < 0 then -n else n);
    StripAppend(d, []);
    WithoutCommasOfDigits(d);
    assert d + [] == d;
    if n < 0 {
      StripAppend("-", d);
      WithoutCommasAppend("-", d);
    }
  }

  /** parseInt finds no number in '-'. */
  lemma DashIsNaN()
    ensures ParsedSalary("-") == NaN
  {
    assert StripSalaryMarks("-") == "-";
    assert TrimStart("-") == "-";
    assert "-"[1..] == [];
  }

  /** Text written by formatSalary reads back as the salary it shows, or as
      no number when it shows '-'. */
  lemma FormattedReadsBack(value: Option<int>)
    ensures ParsedSalary(FormatSalary(value)) ==
              if value.Some? && value.value > 0 then Num(value.value) else NaN
  {
    if value.Some? && value.value > 0 {
      StripFormatted(value.value);
      ParseIntOfDigits(value.value);
    } else {
      DashIsNaN();
    }
  }

  /** Blurring leaves '-' exactly when the text holds no positive number, and
      otherwise the formatted salary of the number it holds; so the cell then
      shows what formatSalary would have written. */
  lemma BlurShape(text: string)
    ensures var num := ParsedSalary(text);
      && (BlurText(text) == "-" <==> !(num.Num? && num.n > 0))
      && (num.Num? && num.n > 0 ==> BlurText(text) == FormatSalary(Some(num.n)))
  {
    var num := ParsedSalary(text);
    if num.Num? && num.n > 0 {
      assert BlurText(text)[0] == Grouped(num.n)[0];
    }
  }

  /** The blur handler keeps text written by formatSalary as it is. */
  lemma BlurKeepsFormatted(value: Option<int>)
    ensures BlurText(FormatSalary(value)) == FormatSalary(value)
  {
    FormattedReadsBack(value);
  }

  /** Blurring twice is blurring once. */
  lemma BlurIdempotent(text: string)
    ensures BlurText(BlurText(text)) == BlurText(text)
  {
    var num := ParsedSalary(text);
    if num.Num? && num.n > 0 {
      BlurKeepsFormatted(Some(num.n));
    } else {
      DashIsNaN();
    }
  }

  /** Focusing a blurred cell leaves it empty when it showed '-', and otherwise
      the plain digits of its salary. */
  lemma FocusOfBlurred(text: string)
    ensures var num := ParsedSalary(text);
      FocusText(BlurText(text)) == if num.Num? && num.n > 0 then Digits(num.n) else ""
  {
    var num := ParsedSalary(text);
    if num.Num? && num.n > 0 {
      FormattedReadsBack(Some(num.n));
      BlurShape(text);
    }
  }

  /** Focus never changes what the next blur makes of the cell. */
  lemma FocusKeepsBlur(text: string)
    ensures BlurText(FocusText(text)) == BlurText(text)
  {
    if text == "-" {
      DashIsNaN();
      assert StripSalaryMarks("") == "";
      assert ParseInt("") == NaN;
    } else if ParsedSalary(text).Num? {
      var n := ParsedSalary(text).n;
      StripNumberToString(n);
      ParseIntOfNumberToString(n);
    }
  }

  /** The round trip: blurring, focusing and blurring again shows the same
      text as blurring once. */
  lemma BlurFocusBlur(text: string)
    ensures BlurText(FocusText(BlurText(text))) == BlurText(text)
  {
    FocusKeepsBlur(BlurText(text));
    BlurIdempotent(text);
  }

  /** Focus leaves text in which no number can be read unchanged. */
  lemma FocusKeepsUnparsable(text: string)
    requires text != "-" && ParsedSalary(text) == NaN
    ensures FocusText(text) == text
  {
  }

  /** An editable salary cell of the proposal. */
  class SalaryCell {
    var text: string

    /** The cell starts with formatSalary's text. */
    constructor (value: Option<int>)
      ensures text == FormatSalary(value)
    {
      text := FormatSalary(value);
    }

    /** handleSalaryBlur. */
    method HandleSalaryBlur()
      modifies this
      ensures text == BlurText(old(text))
    {
      var current := text;
      var num := ParseInt(StripSalaryMarks(current));
      if num.Num? && num.n > 0 {
        text := LocaleString(num.n) + Unit;
      } else {
        text := "-";
      }
    }

    /** handleSalaryFocus. */
    method HandleSalaryFocus()
      modifies this
      ensures text == FocusText(old(text))
    {
      var current := text;
      if current == "-" {
        text := "";
        return;
      }
      var num := ParseInt(StripSalaryMarks(current));
      if num.Num? {
        text := NumberToString(num.n);
      }
    }
  }
}
