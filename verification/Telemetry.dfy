/**
 The telemetry service's readers: the lux field of the daemon's line, and the brightness level
 the clock publishes.
*/
module Telemetry {
  import opened Basics
  import opened Rounding
  import opened Wire

  /** ASCII white space as Python's \s and strip() see it. */
  predicate IsPySpace(c: char) {
    IsSpace(c) || '\U{1c}' <= c <= '\U{1f}'
  }

  function StripLeft(s: string): (r: string)
    ensures r == "" || !IsPySpace(r[0])
  {
    if s != "" && IsPySpace(s[0]) then StripLeft(s[1..]) else s
  }

  function StripRight(s: string): string {
    if s != "" && IsPySpace(s[|s| - 1]) then StripRight(s[..|s| - 1]) else s
  }

  const LABEL := "lux:"

  /** The rest of the pattern: white space, an optional minus, digits. */
  function AfterLabel(s: string): Option<int> {
    var t := StripLeft(s);
    var negative := t != "" && t[0] == '-';
    var body := if negative then t[1..] else t;
    var n := DigitRun(body);
    if n == 0 then None
    else
      var magnitude: int := Value(body[..n]);
      Some(if negative then -magnitude else magnitude)
  }

  /** parse_lux: the leftmost match of the pattern. */
  function ParseLux(s: string): Option<int> {
    if LABEL <= s && AfterLabel(s[4..]).Some? then AfterLabel(s[4..])
    else if s == "" then None
    else ParseLux(s[1..])
  }

  // ------------------------------------------------------------- lux field

  /** The label cannot start where there is no 'l'. */
  lemma {:induction false} SkipClean(clean: string, s: string)
    requires 'l' !in clean
    ensures ParseLux(clean + s) == ParseLux(s)
  {
    if clean == "" {
      assert clean + s == s;
    } else {
      assert (clean + s)[0] == clean[0] != LABEL[0];
      assert (clean + s)[1..] == clean[1..] + s;
      SkipClean(clean[1..], s);
    }
  }

  ghost predicate NoLabel(s: string) {
    forall i :: 0 <= i <= |s| ==> !(LABEL <= s[i..])
  }

  /** Error texts that do not contain the label are skipped too. */
  lemma {:induction false} SkipError(error: string, s: string)
    requires NoLabel(error) && s != "" && s[0] == ')'
    ensures ParseLux(error + s) == ParseLux(s)
  {
    if error == "" {
      assert error + s == s;
    } else {
      var t := error + s;
      assert error[0..] == error;
      if |error| < 4 {
        assert t[|error|] == ')';
      } else {
        assert t[..4] == error[..4];
      }
      assert t[1..] == error[1..] + s;
      forall i | 0 <= i <= |error[1..]|
        ensures !(LABEL <= error[1..][i..])
      {
        assert error[1..][i..] == error[i + 1..];
      }
      SkipError(error[1..], s);
    }
  }

  lemma PrintedClean(i: int)
    ensures 'l' !in Printed(i)
  {
  }

  lemma LabelsClean()
    ensures 'l' !in HEAD && 'l' !in BROADBAND && 'l' !in IR
  {
  }

  lemma SkipToLabel(s: string)
    ensures ParseLux(LUX + s) == ParseLux("lux: " + s)
  {
    assert LUX + s == ", " + ("lux: " + s);
    SkipClean(", ", "lux: " + s);
  }

  /** From the label on, the first digits are the lux. */
  lemma LabelledDigits(digits: string, rest: string)
    requires digits != "" && AllDigits(digits) && (rest != "" ==> !IsDigit(rest[0]))
    ensures ParseLux(LUX + (digits + rest)) == Some(Value(digits))
  {
    var s := digits + rest;
    SkipToLabel(s);
    AfterLabelDigits(digits, rest);
    var t := "lux: " + s;
    assert t[..4] == LABEL && t[4..] == " " + s;
  }

  lemma AfterLabelDigits(digits: string, rest: string)
    requires digits != "" && AllDigits(digits) && (rest != "" ==> !IsDigit(rest[0]))
    ensures AfterLabel(" " + (digits + rest)) == Some(Value(digits))
  {
    var s := digits + rest;
    assert s[0] == digits[0];
    assert (" " + s)[1..] == s;
    assert StripLeft(" " + s) == StripLeft(s) == s;
    DigitRunOf(digits, rest);
    assert s[..|digits|] == digits;
  }

  lemma NegativeAfterLabel(digits: string)
    requires digits != "" && AllDigits(digits)
    ensures var magnitude: int := Value(digits); AfterLabel(" " + ("-" + digits)) == Some(-magnitude)
  {
    hide Value;
    var s := "-" + digits;
    assert s[0] == '-' && s[1..] == digits;
    assert (" " + s)[1..] == s;
    assert StripLeft(" " + s) == StripLeft(s) == s;
    assert digits + "" == digits;
    DigitRunOf(digits, "");
    assert digits[..|digits|] == digits;
  }

  /** A signed lux is recovered as well. */
  lemma SignedLux(i: int)
    ensures ParseLux("lux: " + Printed(i)) == Some(i)
  {
    hide AfterLabel, Dec;
    if i >= 0 {
      SkipToLabel(Dec(i) + "");
      LabelledDigits(Dec(i), "");
      assert Dec(i) + "" == Dec(i);
    } else {
      NegativeAfterLabel(Dec(-i));
      var t := "lux: " + Printed(i);
      assert t[..4] == LABEL && t[4..] == " " + Printed(i);
    }
  }

  lemma SkipToLux(broadband: nat, ir: nat, tail: string)
    ensures ParseLux(Fields(broadband, ir, tail)) == ParseLux(LUX + tail)
  {
    PrintedClean(broadband);
    PrintedClean(ir);
    SkipClean(Printed(broadband), IR + (Printed(ir) + (LUX + tail)));
    SkipClean(IR, Printed(ir) + (LUX + tail));
    SkipClean(Printed(ir), LUX + tail);
  }

  /** The telemetry parser recovers the exact lux from any full line, also from one that reports an error. */
  lemma LuxRoundTrip(rc: int, error: string, broadband: nat, ir: nat, lux: nat)
    requires NoLabel(error)
    ensures ParseLux(Line(rc, error, broadband, ir, lux)) == Some(lux)
  {
    var fields := Fields(broadband, ir, Printed(lux) + "\n");
    PrintedClean(rc);
    LabelsClean();
    SkipClean("RC: ", Printed(rc) + ("(" + (error + (BROADBAND + fields))));
    SkipClean(Printed(rc), "(" + (error + (BROADBAND + fields)));
    SkipClean("(", error + (BROADBAND + fields));
    SkipError(error, BROADBAND + fields);
    SkipClean(BROADBAND, fields);
    SkipToLux(broadband, ir, Printed(lux) + "\n");
    LabelledDigits(Dec(lux), "\n");
  }

  predicate AllPySpace(s: string) {
    forall i :: 0 <= i < |s| ==> IsPySpace(s[i])
  }

  lemma {:induction false} StripSpaces(spaces: string, s: string)
    requires AllPySpace(spaces)
    ensures StripLeft(spaces + s) == StripLeft(s)
  {
    if spaces == "" {
      assert spaces + s == s;
    } else {
      assert (spaces + s)[1..] == spaces[1..] + s;
      StripSpaces(spaces[1..], s);
    }
  }

  /** The pattern takes any white space, also none, after its label, and the first labelled number wins. */
  lemma FirstLabelWins(spaces: string, digits: string, negative: bool, rest: string)
    requires AllPySpace(spaces) && digits != "" && AllDigits(digits) && (rest != "" ==> !IsDigit(rest[0]))
    ensures var magnitude: int := Value(digits);
            ParseLux("lux:" + (spaces + ((if negative then "-" else "") + (digits + rest)))) ==
            Some(if negative then -magnitude else magnitude)
  {
    hide Value;
    var number := (if negative then "-" else "") + (digits + rest);
    var t := "lux:" + (spaces + number);
    assert t[..4] == LABEL && t[4..] == spaces + number;
    StripSpaces(spaces, number);
    SignAndDigits(digits, negative, rest);
  }

  lemma SignAndDigits(digits: string, negative: bool, rest: string)
    requires digits != "" && AllDigits(digits) && (rest != "" ==> !IsDigit(rest[0]))
    ensures var number := (if negative then "-" else "") + (digits + rest);
            && StripLeft(number) == number && number != "" && (number[0] == '-' <==> negative)
            && var body := if negative then number[1..] else number;
               DigitRun(body) == |digits| && body[..|digits|] == digits
  {
    DigitRunOf(digits, rest);
    assert (digits + rest)[0] == digits[0];
    assert (digits + rest)[..|digits|] == digits;
    if negative {
      assert ("-" + (digits + rest))[1..] == digits + rest;
    } else {
      assert "" + (digits + rest) == digits + rest;
    }
  }

  lemma NoDigitHere(s: string)
    requires s != "" && s[0] == 'l'
    ensures AfterLabel(" " + s).None?
  {
    assert (" " + s)[1..] == s;
    assert StripLeft(" " + s) == StripLeft(s) == s;
  }

  /** A label without a number is passed over. */
  lemma EmptyLabelSkipped(i: int)
    ensures ParseLux("lux: " + ("lux: " + Printed(i))) == Some(i)
  {
    hide AfterLabel, Printed;
    var second := "lux: " + Printed(i);
    var t := "lux: " + second;
    assert t[4..] == " " + second && t[1..] == "ux: " + second;
    assert AfterLabel(" " + second).None? by { NoDigitHere(second); }
    assert t[0] == 'l';
    SkipClean("ux: ", second);
    SignedLux(i);
  }

  // ------------------------------------------- both readers of a cut line

  lemma {:induction false} StripExtends(s: string, x: string)
    requires StripLeft(s) != ""
    ensures StripLeft(s + x) == StripLeft(s) + x
  {
    assert (s + x)[0] == s[0];
    if IsPySpace(s[0]) {
      assert (s + x)[1..] == s[1..] + x;
      StripExtends(s[1..], x);
    }
  }

  lemma AfterLabelExtends(s: string, x: string)
    requires AfterLabel(s).Some?
    ensures AfterLabel(s + x).Some?
  {
    var t := StripLeft(s);
    StripExtends(s, x);
    assert (t + x)[0] == t[0] && (t + x)[1..] == t[1..] + x;
    DigitRunExtends(if t[0] == '-' then t[1..] else t, x);
  }

  /** A lux found in a line is found in every longer one. */
  lemma {:induction false} ParseLuxExtends(s: string, x: string)
    requires ParseLux(s).Some?
    ensures ParseLux(s + x).Some?
  {
    if LABEL <= s && AfterLabel(s[4..]).Some? {
      assert (s + x)[..4] == s[..4] && (s + x)[4..] == s[4..] + x;
      AfterLabelExtends(s[4..], x);
    } else {
      assert (s + x)[1..] == s[1..] + x;
      ParseLuxExtends(s[1..], x);
    }
  }

  lemma NoLuxUpToLux(broadband: nat, ir: nat)
    ensures ParseLux(UpToLux(broadband, ir)).None?
  {
    LabelsClean();
    SkipClean(HEAD, Fields(broadband, ir, ""));
    SkipToLux(broadband, ir, "");
    SkipToLabel("");
    BareLabel();
  }

  lemma BareLabel()
    ensures ParseLux("lux: " + "").None?
  {
    assert "lux: " + "" == "lux: ";
    assert "lux: "[4..] == " " && " "[1..] == "";
    assert StripLeft(" ") == "" && AfterLabel(" ") == None;
    assert "lux: "[1..] == "ux: ";
    SkipNoLabelStart("ux: ");
  }

  lemma {:induction false} SkipNoLabelStart(s: string)
    requires 'l' !in s
    ensures ParseLux(s).None?
  {
    SkipClean(s, "");
    assert s + "" == s;
  }

  /** However a success line is cut, the telemetry service reports the lux the clock parses, or both reject. */
  lemma ReadersAgree(broadband: nat, ir: nat, lux: nat, prefix: string)
    requires prefix <= Line(0, "Success", broadband, ir, lux)
    ensures ParseLux(prefix) ==
            match ParseLine(prefix) case None => None case Some(p) => Some(p.lux)
  {
    hide ParseLux, ParseLine, Fields, Dec;
    var front, tail := UpToLux(broadband, ir), Dec(lux) + "\n";
    SuccessLine(broadband, ir, lux);
    UpToLuxAppend(broadband, ir, tail);
    PrefixAcceptedIff(broadband, ir, lux, prefix);
    if |prefix| <= |front| {
      assert prefix <= front by { assert (front + tail)[..|prefix|] == front[..|prefix|]; }
      SplitAt(front, prefix);
      NoLuxUpToLux(broadband, ir);
      if ParseLux(prefix).Some? {
        ParseLuxExtends(prefix, front[|prefix|..]);
      }
    } else {
      var arrived := prefix[|front|..];
      assert front <= prefix by { assert (front + tail)[..|front|] == prefix[..|front|]; }
      SplitAt(prefix, front);
      assert arrived <= tail by { assert arrived == (front + tail)[|front|..|prefix|] == tail[..|arrived|]; }
      TruncatedLux(broadband, ir, lux, arrived);
      CutLux(broadband, ir, Dec(lux), arrived);
    }
  }

  lemma CutLux(broadband: nat, ir: nat, digits: string, arrived: string)
    requires digits != "" && AllDigits(digits) && arrived != "" && arrived <= digits + "\n"
    ensures var n := if |arrived| <= |digits| then |arrived| else |digits|;
            ParseLux(UpToLux(broadband, ir) + arrived) == Some(Value(digits[..n]))
  {
    UpToLuxAppend(broadband, ir, arrived);
    LabelsClean();
    SkipClean(HEAD, Fields(broadband, ir, arrived));
    SkipToLux(broadband, ir, arrived);
    CutDigits(digits, arrived);
  }

  lemma CutDigits(digits: string, arrived: string)
    requires digits != "" && AllDigits(digits) && arrived != "" && arrived <= digits + "\n"
    ensures var n := if |arrived| <= |digits| then |arrived| else |digits|;
            ParseLux(LUX + arrived) == Some(Value(digits[..n]))
  {
    if |arrived| <= |digits| {
      assert arrived == (digits + "\n")[..|arrived|] == digits[..|arrived|];
      assert arrived + "" == arrived;
      LabelledDigits(arrived, "");
    } else {
      assert arrived == digits + "\n";
      LabelledDigits(digits, "\n");
      assert digits[..|digits|] == digits;
    }
  }

  // ------------------------------------------------------ brightness file

  /** What the clock writes for a level. */
  function LevelText(level: nat): string {
    Dec(level) + "\n"
  }

  /** int() on a stripped text of ASCII digits with an optional sign. */
  function PyInt(s: string): Option<int> {
    var signed := s != "" && (s[0] == '-' || s[0] == '+');
    var body := if signed then s[1..] else s;
    if body == "" || !AllDigits(body) then None
    else
      var magnitude: int := Value(body);
      Some(if signed && s[0] == '-' then -magnitude else magnitude)
  }

  /** read_brightness_grayscale on a missing file or on the text it read. */
  function ReadLevel(file: Option<string>): Option<int> {
    match file
    case None => None
    case Some(text) => PyInt(StripRight(StripLeft(text)))
  }

  /** grayscale_to_percent; Python's round takes ties to even. */
  function Percent(level: Option<int>, max: int): Option<int> {
    if level.None? || max <= 0 then None
    else
      var pct := RoundHalfEven(level.value as real / max as real * 100.0);
      Some(if pct < 0 then 0 else if pct > 100 then 100 else pct)
  }

  /** A published level is read back exactly. */
  lemma LevelRoundTrip(level: nat)
    ensures ReadLevel(Some(LevelText(level))) == Some(level)
  {
    var digits := Dec(level);
    var text := LevelText(level);
    assert text[0] == digits[0];
    assert StripLeft(text) == text;
    assert text[|text| - 1] == '\n' && text[..|text| - 1] == digits;
    assert StripRight(digits) == digits;
  }

  lemma {:induction false} StripRightSpaces(s: string, spaces: string)
    requires AllPySpace(spaces)
    ensures StripRight(s + spaces) == StripRight(s)
  {
    if spaces == "" {
      assert s + spaces == s;
    } else {
      var init := spaces[..|spaces| - 1];
      assert (s + spaces)[..|s + spaces| - 1] == s + init;
      StripRightSpaces(s, init);
    }
  }

  /** White space around a number and a sign before it are accepted. */
  lemma PaddedLevel(before: string, i: int, after: string)
    requires AllPySpace(before) && AllPySpace(after)
    ensures ReadLevel(Some(before + (Printed(i) + after))) == Some(i)
    ensures i >= 0 ==> ReadLevel(Some(before + (("+" + Printed(i)) + after))) == Some(i)
  {
    hide PyInt, Dec;
    StripBoth(before, Printed(i), after);
    SignedInt(i);
    if i >= 0 { StripBoth(before, "+" + Printed(i), after); }
  }

  lemma SignedInt(i: int)
    ensures PyInt(Printed(i)) == Some(i)
    ensures i >= 0 ==> PyInt("+" + Printed(i)) == Some(i)
  {
    hide Dec;
    if i < 0 {
      assert Printed(i)[1..] == Dec(-i);
    } else {
      assert ("+" + Printed(i))[1..] == Dec(i);
    }
  }

  lemma StripBoth(before: string, text: string, after: string)
    requires AllPySpace(before) && AllPySpace(after)
    requires text != "" && !IsPySpace(text[0]) && !IsPySpace(text[|text| - 1])
    ensures StripRight(StripLeft(before + (text + after))) == text
  {
    StripSpaces(before, text + after);
    assert (text + after)[0] == text[0];
    assert StripLeft(text + after) == text + after;
    StripRightSpaces(text, after);
  }

  /** A file that is empty or blank is no level, and nor is a text with anything inside the digits. */
  lemma NotALevel(blank: string, left: string, c: char, right: string)
    requires AllPySpace(blank) && !IsDigit(c)
    requires left != "" && AllDigits(left) && right != "" && AllDigits(right)
    ensures ReadLevel(Some(blank)) == None && ReadLevel(Some(left + ([c] + right))) == None && ReadLevel(None) == None
  {
    assert blank + "" == blank;
    StripSpaces(blank, "");
    assert ReadLevel(Some(blank)) == PyInt("");
    var text := left + ([c] + right);
    assert text[0] == left[0] && text[|text| - 1] == right[|right| - 1] && text[|left|] == c;
    assert StripRight(StripLeft(text)) == text;
  }

  /** There is a percentage exactly for a level and a positive maximum. */
  lemma PercentSomeIff(level: Option<int>, max: int)
    ensures Percent(level, max).Some? <==> level.Some? && max > 0
  {
  }

  /** On levels within range the percentage is the nearest whole one. */
  lemma PercentNearest(level: nat, max: nat)
    requires max > 0 && level <= max
    ensures var pct := Percent(Some(level), max);
            pct.Some? && pct.value as real - 0.5 <= level as real / max as real * 100.0 <= pct.value as real + 0.5
    ensures var share, pct := level as real / max as real * 100.0, Percent(Some(level), max).value;
            share == pct as real + 0.5 || share == pct as real - 0.5 ==> pct % 2 == 0
    ensures level == 0 ==> Percent(Some(level), max) == Some(0)
    ensures level == max ==> Percent(Some(level), max) == Some(100)
  {
    ShareInRange(level as real, max as real);
  }

  lemma ShareInRange(a: real, b: real)
    requires 0.0 <= a <= b && b > 0.0
    ensures 0.0 <= a / b <= 1.0
    ensures a == 0.0 ==> a / b == 0.0
    ensures a == b ==> a / b == 1.0
  {
  }

  /** The percentage is within 0..100 and preserves order, for every level and maximum. */
  lemma PercentOrdered(a: int, b: int, max: int)
    requires max > 0 && a <= b
    ensures Percent(Some(a), max).Some? && Percent(Some(b), max).Some?
    ensures 0 <= Percent(Some(a), max).value <= Percent(Some(b), max).value <= 100
  {
    assert a as real / max as real <= b as real / max as real;
    RoundHalfEvenMonotone(a as real / max as real * 100.0, b as real / max as real * 100.0);
  }
}
