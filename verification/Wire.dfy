/**
 The text line the daemon prints, and its two readers: the clock's sscanf and the telemetry
 service's regular expression.
*/
module Wire {
  import opened Arithmetic
  import opened Basics

  // ------------------------------------------------------------ characters

  predicate IsDigit(c: char) {
    '0' <= c <= '9'
  }

  /** isspace in the C locale. */
  predicate IsSpace(c: char) {
    c == ' ' || '\t' <= c <= '\r'
  }

  function DigitChar(d: nat): (c: char)
    requires d < 10
    ensures IsDigit(c)
  {
    d as char + '0'
  }

  function DigitValue(c: char): (d: nat)
    requires IsDigit(c)
    ensures d < 10
  {
    c as int - '0' as int
  }

  /** What follows leading white space. */
  function SkipSpace(s: string): (r: string)
    ensures |r| <= |s|
    ensures r != "" ==> !IsSpace(r[0])
  {
    if s != "" && IsSpace(s[0]) then SkipSpace(s[1..]) else s
  }

  /** How many leading characters are digits. */
  function DigitRun(s: string): (n: nat)
    ensures n <= |s|
    ensures forall i :: 0 <= i < n ==> IsDigit(s[i])
    ensures n < |s| ==> !IsDigit(s[n])
  {
    if s != "" && IsDigit(s[0]) then 1 + DigitRun(s[1..]) else 0
  }

  predicate AllDigits(s: string) {
    forall i :: 0 <= i < |s| ==> IsDigit(s[i])
  }

  function Value(s: string): nat
    requires AllDigits(s)
  {
    if s == "" then 0 else Value(s[..|s| - 1]) * 10 + DigitValue(s[|s| - 1])
  }

  // -------------------------------------------------------------- printing

  /** The decimal digits of n, without leading zeros. */
  function Dec(n: nat): (s: string)
    ensures s != "" && AllDigits(s)
    ensures Value(s) == n
    ensures s[0] == '0' ==> n == 0
  {
    if n < 10 then [DigitChar(n)] else Dec(n / 10) + [DigitChar(n % 10)]
  }

  /** printf's %i. */
  function Printed(i: int): string {
    if i < 0 then "-" + Dec(-i) else Dec(i)
  }

  const BROADBAND := "), broadband: "

  /** What the format demands after "RC: ". */
  const OK_CODE := "0" + ("(" + ("Success" + BROADBAND))

  /** The first literal of the clock's format, "RC: 0(Success), broadband: ". */
  const HEAD := "RC: " + OK_CODE
  const IR := ", ir: "
  const LUX := ", lux: "

  /** The line snprintf produces for a return code, the error text and one reading. */
  function Line(rc: int, error: string, broadband: nat, ir: nat, lux: nat): string {
    "RC: " + (Printed(rc) + ("(" + (error + (BROADBAND + Fields(broadband, ir, Printed(lux) + "\n")))))
  }

  /** The numbers of a line, from broadband on, up to the lux label and what follows it. */
  function Fields(broadband: nat, ir: nat, tail: string): string {
    Printed(broadband) + (IR + (Printed(ir) + (LUX + tail)))
  }

  /** What fits in the daemon's 1025-byte buffer, terminator excluded. */
  function Cached(line: string): string {
    if |line| <= 1024 then line else line[..1024]
  }

  /** The buffer keeps the longest beginning of the line that fits 1024 characters. */
  lemma CachedIsPrefix(line: string)
    ensures Cached(line) <= line && |Cached(line)| == if |line| <= 1024 then |line| else 1024
  {
  }

  // --------------------------------------------------------------- sscanf

  /** A literal part of a scanf format: white space matches any run of it, also an empty one. */
  function MatchText(text: string, s: string): (rest: Option<string>)
    ensures rest.Some? ==> |rest.value| <= |s|
  {
    if text == "" then Some(s)
    else if IsSpace(text[0]) then MatchText(text[1..], SkipSpace(s))
    else if s != "" && s[0] == text[0] then MatchText(text[1..], s[1..])
    else None
  }

  datatype Number = NoNumber | Number(value: int, rest: string)

  /** %d: optional white space, an optional sign, one or more digits, over unbounded integers. */
  function ScanNumber(s: string): Number {
    var t := SkipSpace(s);
    var negative := t != "" && t[0] == '-';
    var body := if t != "" && (t[0] == '-' || t[0] == '+') then t[1..] else t;
    var n := DigitRun(body);
    if n == 0 then NoNumber
    else
      var magnitude: int := Value(body[..n]);
      Number(if negative then -magnitude else magnitude, body[n..])
  }

  datatype Parsed = Parsed(broadband: int, ir: int, lux: int)

  /** One literal of the format and the %d after it. */
  function Field(text: string, s: string): Number {
    match MatchText(text, s)
    case None => NoNumber
    case Some(rest) => ScanNumber(rest)
  }

  /** The clock's sscanf, which must convert all three fields, and its sign test. */
  function ParseLine(s: string): Option<Parsed> {
    var broadband := Field(HEAD, s);
    if broadband.NoNumber? then None else
    var ir := Field(IR, broadband.rest);
    if ir.NoNumber? then None else
    var lux := Field(LUX, ir.rest);
    if lux.NoNumber? || broadband.value < 0 then None
    else Some(Parsed(broadband.value, ir.value, lux.value))
  }

  // ------------------------------------------------------- reading digits back

  lemma {:induction false} DigitRunOf(digits: string, rest: string)
    requires AllDigits(digits) && (rest != "" ==> !IsDigit(rest[0]))
    ensures DigitRun(digits + rest) == |digits|
  {
    if digits == "" {
      assert digits + rest == rest;
    } else {
      assert (digits + rest)[1..] == digits[1..] + rest;
      DigitRunOf(digits[1..], rest);
    }
  }

  /** A printed number followed by a non-digit is scanned back exactly. */
  lemma ScanDigits(digits: string, rest: string)
    requires digits != "" && AllDigits(digits) && (rest != "" ==> !IsDigit(rest[0]))
    ensures ScanNumber(digits + rest) == Number(Value(digits), rest)
  {
    DigitRunOf(digits, rest);
    var s := digits + rest;
    assert s[0] == digits[0];
    assert SkipSpace(s) == s;
    assert s[..|digits|] == digits && s[|digits|..] == rest;
  }

  lemma ScanNegative(digits: string, rest: string)
    requires digits != "" && AllDigits(digits) && (rest != "" ==> !IsDigit(rest[0]))
    ensures var magnitude: int := Value(digits); ScanNumber("-" + (digits + rest)) == Number(-magnitude, rest)
  {
    hide Value;
    var s := "-" + (digits + rest);
    assert s[0] == '-' && s[1..] == digits + rest;
    assert SkipSpace(s) == s;
    DigitRunOf(digits, rest);
    assert (digits + rest)[..|digits|] == digits && (digits + rest)[|digits|..] == rest;
  }

  /** Negative numbers are scanned back too. */
  lemma ScanPrinted(i: int, rest: string)
    requires rest == "" || !IsDigit(rest[0])
    ensures ScanNumber(Printed(i) + rest) == Number(i, rest)
  {
    hide ScanNumber, Dec;
    if i >= 0 {
      ScanDigits(Dec(i), rest);
    } else {
      Associate("-", Dec(-i), rest);
      ScanNegative(Dec(-i), rest);
    }
  }

  predicate AllSpace(s: string) {
    forall i :: 0 <= i < |s| ==> IsSpace(s[i])
  }

  /** The six characters of C's white space. */
  lemma SpaceCharacters(c: char)
    ensures IsSpace(c) <==> c in [' ', '\t', '\n', '\U{0b}', '\U{0c}', '\r']
  {
  }

  lemma {:induction false} SkipSpaces(spaces: string, s: string)
    requires AllSpace(spaces)
    ensures SkipSpace(spaces + s) == SkipSpace(s)
  {
    if spaces == "" {
      assert spaces + s == s;
    } else {
      assert (spaces + s)[1..] == spaces[1..] + s;
      SkipSpaces(spaces[1..], s);
    }
  }

  /** White space before a number, or where the format has some, may be of any length. */
  lemma SpacesDoNotMatter(format: string, spaces: string, s: string)
    requires AllSpace(spaces)
    ensures ScanNumber(spaces + s) == ScanNumber(s)
    ensures MatchText(" " + format, spaces + s) == MatchText(" " + format, s)
  {
    SkipSpaces(spaces, s);
  }

  /** A plus sign is accepted and changes nothing. */
  lemma PlusDoesNotMatter(digits: string, rest: string)
    requires digits != "" && AllDigits(digits) && (rest != "" ==> !IsDigit(rest[0]))
    ensures ScanNumber("+" + (digits + rest)) == Number(Value(digits), rest)
  {
    hide Value;
    var s := "+" + (digits + rest);
    assert s[0] == '+' && s[1..] == digits + rest;
    assert SkipSpace(s) == s;
    DigitRunOf(digits, rest);
    assert (digits + rest)[..|digits|] == digits && (digits + rest)[|digits|..] == rest;
  }

  /** A space at i is followed, in text or at the seam with next, by something else. */
  predicate SpacedAt(text: string, next: string, i: nat)
    requires i < |text|
  {
    IsSpace(text[i]) ==> if i + 1 < |text| then !IsSpace(text[i + 1]) else next == "" || !IsSpace(next[0])
  }

  predicate SingleSpaced(text: string, next: string) {
    forall i: nat :: i < |text| ==> SpacedAt(text, next, i)
  }

  /** A literal matches itself, and matching goes on with what follows it on both sides. */
  lemma {:induction false} MatchCommon(text: string, format: string, s: string)
    requires SingleSpaced(text, s)
    ensures MatchText(text + format, text + s) == MatchText(format, s)
  {
    if text == "" {
      assert text + format == format && text + s == s;
    } else {
      var f, t := text + format, text + s;
      assert f[0] == text[0] && t[0] == text[0];
      assert f[1..] == text[1..] + format && t[1..] == text[1..] + s;
      SingleSpacedTail(text, s);
      MatchCommon(text[1..], format, s);
      if IsSpace(text[0]) {
        assert SpacedAt(text, s, 0);
        assert t[1..] != "" ==> t[1] == if |text| > 1 then text[1] else s[0];
        SkipOneSpace(t);
      }
    }
  }

  lemma SingleSpacedTail(text: string, next: string)
    requires text != "" && SingleSpaced(text, next)
    ensures SingleSpaced(text[1..], next)
  {
    var tail := text[1..];
    forall i: nat | i < |tail|
      ensures SpacedAt(tail, next, i)
    {
      assert SpacedAt(text, next, i + 1);
    }
  }

  lemma SkipOneSpace(t: string)
    requires t != "" && IsSpace(t[0]) && (|t| > 1 ==> !IsSpace(t[1]))
    ensures SkipSpace(t) == t[1..]
  {
  }

  lemma MatchWhole(text: string, s: string)
    requires SingleSpaced(text, s)
    ensures MatchText(text, text + s) == Some(s)
  {
    MatchCommon(text, "", s);
    assert text + "" == text;
  }

  // ------------------------------------------------------------ round trip

  /** A success line up to the lux digits. */
  function UpToLux(broadband: nat, ir: nat): string {
    HEAD + Fields(broadband, ir, "")
  }

  lemma Associate(a: string, b: string, c: string)
    ensures a + b + c == a + (b + c)
  {
  }

  lemma SuccessLine(broadband: nat, ir: nat, lux: nat)
    ensures Line(0, "Success", broadband, ir, lux) == HEAD + Fields(broadband, ir, Dec(lux) + "\n")
  {
    var rest := Fields(broadband, ir, Printed(lux) + "\n");
    Associate("Success", BROADBAND, rest);
    Associate("(", "Success" + BROADBAND, rest);
    Associate("0", "(" + ("Success" + BROADBAND), rest);
    Associate("RC: ", OK_CODE, rest);
    assert Printed(0) == "0";
  }

  lemma FieldsAppend(broadband: nat, ir: nat, tail: string, more: string)
    ensures Fields(broadband, ir, tail) + more == Fields(broadband, ir, tail + more)
  {
    Associate(LUX, tail, more);
    Associate(Printed(ir), LUX + tail, more);
    Associate(IR, Printed(ir) + (LUX + tail), more);
    Associate(Printed(broadband), IR + (Printed(ir) + (LUX + tail)), more);
  }

  lemma UpToLuxAppend(broadband: nat, ir: nat, tail: string)
    ensures UpToLux(broadband, ir) + tail == HEAD + Fields(broadband, ir, tail)
  {
    Associate(HEAD, Fields(broadband, ir, ""), tail);
    FieldsAppend(broadband, ir, "", tail);
    assert "" + tail == tail;
  }

  /** The numbers of a line, with the labels between them. */
  function Numbers(broadband: nat, ir: nat, lux: nat): string {
    Printed(broadband) + (", ir: " + (Printed(ir) + (", lux: " + (Printed(lux) + "\n"))))
  }

  /** The format in full: what the daemon prints, and what the clock's scan and the service's pattern look for. */
  lemma LineLayout(rc: int, error: string, broadband: nat, ir: nat, lux: nat)
    ensures Line(rc, error, broadband, ir, lux) ==
            "RC: " + (Printed(rc) + ("(" + (error + ("), broadband: " + Numbers(broadband, ir, lux)))))
    ensures Line(0, "Success", broadband, ir, lux) == "RC: 0(Success), broadband: " + Numbers(broadband, ir, lux)
  {
    hide Dec;
    SuccessLine(broadband, ir, lux);
    assert HEAD == "RC: 0(Success), broadband: " by { HeadText(); }
    assert Numbers(broadband, ir, lux) == Fields(broadband, ir, Dec(lux) + "\n");
  }

  lemma HeadText()
    ensures HEAD == "RC: 0(Success), broadband: "
  {
    assert OK_CODE == "0(Success), broadband: " by { CodeText(); }
    assert "RC: " + "0(Success), broadband: " == "RC: 0(Success), broadband: ";
  }

  lemma CodeText()
    ensures OK_CODE == "0(Success), broadband: "
  {
    assert "Success" + "), broadband: " == "Success), broadband: ";
    assert "(" + "Success), broadband: " == "(Success), broadband: ";
  }

  /** The three labels of a line are single-spaced before anything but a space. */
  lemma LabelsSpaced(next: string)
    requires next == "" || !IsSpace(next[0])
    ensures SingleSpaced(HEAD, next) && SingleSpaced(IR, next) && SingleSpaced(LUX, next)
  {
  }

  /** One labelled number of a line is matched and scanned back, leaving what follows it. */
  lemma ScanField(text: string, n: nat, rest: string)
    requires text in {HEAD, IR}
    requires rest == "" || !IsDigit(rest[0])
    ensures Field(text, text + (Printed(n) + rest)) == Number(n, rest)
  {
    LabelsSpaced(Printed(n) + rest);
    MatchWhole(text, Printed(n) + rest);
    ScanDigits(Dec(n), rest);
  }

  /** Whatever follows the lux text decides only whether and how the lux converts. */
  lemma ParseFields(broadband: nat, ir: nat, tail: string)
    requires tail == "" || !IsSpace(tail[0])
    ensures ParseLine(HEAD + Fields(broadband, ir, tail)) ==
            match ScanNumber(tail) case NoNumber => None case Number(lux, _) => Some(Parsed(broadband, ir, lux))
  {
    var r2 := Printed(ir) + (LUX + tail);
    ScanField(HEAD, broadband, IR + r2);
    ScanField(IR, ir, LUX + tail);
    LabelsSpaced(tail);
    MatchWhole(LUX, tail);
  }

  /** A full success line, with anything after it, parses back to its exact reading. */
  lemma WireRoundTrip(broadband: nat, ir: nat, lux: nat, suffix: string)
    ensures ParseLine(Line(0, "Success", broadband, ir, lux) + suffix) == Some(Parsed(broadband, ir, lux))
  {
    var tail := Dec(lux) + "\n";
    SuccessLine(broadband, ir, lux);
    Associate(HEAD, Fields(broadband, ir, tail), suffix);
    FieldsAppend(broadband, ir, tail, suffix);
    Associate(Dec(lux), "\n", suffix);
    ParseFields(broadband, ir, Dec(lux) + ("\n" + suffix));
    ScanDigits(Dec(lux), "\n" + suffix);
  }

  // -------------------------------------------------------------- rejection

  /** The text of a line that carries any three integers. */
  function SignedLine(broadband: int, ir: int, lux: int, rest: string): string {
    HEAD + (Printed(broadband) + (IR + (Printed(ir) + (LUX + (Printed(lux) + rest)))))
  }

  /** The sign test is on broadband alone: signed numbers scan back, and only a negative broadband is rejected. */
  lemma SignedFieldsIff(broadband: int, ir: int, lux: int, rest: string)
    requires rest == "" || !IsDigit(rest[0])
    ensures ParseLine(SignedLine(broadband, ir, lux, rest)) ==
            if broadband < 0 then None else Some(Parsed(broadband, ir, lux))
  {
    hide MatchText, ScanNumber, Printed;
    SignedField(HEAD, broadband, IR + (Printed(ir) + (LUX + (Printed(lux) + rest))));
    SignedField(IR, ir, LUX + (Printed(lux) + rest));
    SignedField(LUX, lux, rest);
  }

  lemma SignedField(text: string, n: int, rest: string)
    requires text in {HEAD, IR, LUX}
    requires rest == "" || !IsDigit(rest[0])
    ensures Field(text, text + (Printed(n) + rest)) == Number(n, rest)
  {
    hide MatchText, ScanNumber, Printed;
    PrintedStart(n);
    LabelsSpaced(Printed(n) + rest);
    MatchWhole(text, Printed(n) + rest);
    ScanPrinted(n, rest);
  }

  lemma PrintedStart(n: int)
    ensures Printed(n) != "" && !IsSpace(Printed(n)[0])
  {
  }

  /** A success line with a negative broadband is not accepted, whatever follows the number. */
  lemma NegativeBroadbandRejected(broadband: int, rest: string)
    requires broadband < 0 && (rest == "" || !IsDigit(rest[0]))
    ensures ParseLine(HEAD + (Printed(broadband) + rest)).None?
  {
    hide MatchText, ScanNumber, Printed;
    SignedField(HEAD, broadband, rest);
  }

  /** strerror says "Success" for 0 and starts with that word for no other error. */
  ghost predicate ErrorTable(strerror: int -> string) {
    strerror(0) == "Success" && forall e :: e != 0 ==> !("Success" <= strerror(e))
  }

  lemma {:induction false} MatchNeedsPrefix(text: string, word: string, s: string)
    requires word <= text && MatchText(text, s).Some?
    requires forall i :: 0 <= i < |word| ==> !IsSpace(word[i])
    ensures word <= s
  {
    if word != "" {
      assert word[0] == text[0];
      assert word[1..] <= text[1..];
      MatchNeedsPrefix(text[1..], word[1..], s[1..]);
      assert word == [word[0]] + word[1..];
    }
  }

  /** A line with a nonzero return code or another error text is not accepted, whatever follows it. */
  lemma ErrorLineRejected(rc: int, error: string, broadband: nat, ir: nat, lux: nat, suffix: string)
    requires rc != 0 || !("Success" <= error)
    ensures ParseLine(Line(rc, error, broadband, ir, lux) + suffix).None?
  {
    var rest := BROADBAND + Fields(broadband, ir, Printed(lux) + "\n");
    var body := Printed(rc) + ("(" + (error + (rest + suffix)));
    Associate(error, rest, suffix);
    Associate("(", error + rest, suffix);
    Associate(Printed(rc), "(" + (error + rest), suffix);
    Associate("RC: ", Printed(rc) + ("(" + (error + rest)), suffix);
    MatchCommon("RC: ", OK_CODE, body);
    BodyRejected(rc, error, rest + suffix);
  }

  lemma BodyRejected(rc: int, error: string, tail: string)
    requires rc != 0 || !("Success" <= error)
    requires tail != "" && tail[0] == ')'
    ensures MatchText(OK_CODE, Printed(rc) + ("(" + (error + tail))).None?
  {
    var body := Printed(rc) + ("(" + (error + tail));
    var word := "0" + ("(" + "Success");
    Associate("Success", "", BROADBAND);
    assert OK_CODE == word + BROADBAND by {
      Associate("(", "Success", BROADBAND);
      Associate("0", "(" + "Success", BROADBAND);
    }
    if rc == 0 {
      assert Printed(rc) == "0";
      NoSuccessAcrossSeam(error, tail);
      assert body[2..] == error + tail && word[2..] == "Success";
      NotPrefixByTail(word, body, 2);
    } else {
      assert body[0] == Printed(rc)[0] != '0';
    }
    if MatchText(OK_CODE, body).Some? {
      MatchNeedsPrefix(OK_CODE, word, body);
    }
  }

  lemma NotPrefixByTail(word: string, s: string, k: nat)
    requires k <= |word| && k <= |s| && !(word[k..] <= s[k..])
    ensures !(word <= s)
  {
  }

  lemma NoSuccessAcrossSeam(error: string, tail: string)
    requires tail != "" && tail[0] == ')' && !("Success" <= error)
    ensures !("Success" <= error + tail)
  {
    if |error| < 7 {
      assert (error + tail)[|error|] == ')';
    } else {
      assert (error + tail)[..7] == error[..7];
    }
  }

  // --------------------------------------------- truncated and coalesced reads

  lemma {:induction false} SkipSpaceExtends(s: string, x: string)
    requires SkipSpace(s) != ""
    ensures SkipSpace(s + x) == SkipSpace(s) + x
  {
    assert (s + x)[0] == s[0];
    if IsSpace(s[0]) {
      assert (s + x)[1..] == s[1..] + x;
      SkipSpaceExtends(s[1..], x);
    }
  }

  /** A literal that matched with something left over matches the same way in a longer input. */
  lemma {:induction false} MatchExtends(text: string, s: string, x: string)
    requires MatchText(text, s).Some? && MatchText(text, s).value != ""
    ensures MatchText(text, s + x) == Some(MatchText(text, s).value + x)
  {
    if text != "" {
      if IsSpace(text[0]) {
        SkipSpaceExtends(s, x);
        MatchExtends(text[1..], SkipSpace(s), x);
      } else {
        assert (s + x)[0] == s[0] && (s + x)[1..] == s[1..] + x;
        MatchExtends(text[1..], s[1..], x);
      }
    }
  }

  lemma {:induction false} DigitRunExtends(s: string, x: string)
    ensures DigitRun(s) < |s| ==> DigitRun(s + x) == DigitRun(s)
    ensures DigitRun(s) <= DigitRun(s + x)
  {
    if s != "" && IsDigit(s[0]) {
      assert (s + x)[0] == s[0] && (s + x)[1..] == s[1..] + x;
      DigitRunExtends(s[1..], x);
    } else if s != "" {
      assert (s + x)[0] == s[0];
    }
  }

  /** A number that ended before the end of the input is the same number in a longer input. */
  lemma ScanExtends(s: string, x: string)
    requires ScanNumber(s).Number?
    ensures ScanNumber(s + x).Number?
    ensures ScanNumber(s).rest != "" ==>
              ScanNumber(s + x) == Number(ScanNumber(s).value, ScanNumber(s).rest + x)
  {
    var t := SkipSpace(s);
    SkipSpaceExtends(s, x);
    assert (t + x)[0] == t[0] && (t + x)[1..] == t[1..] + x;
    var body := if t[0] == '-' || t[0] == '+' then t[1..] else t;
    DigitRunExtends(body, x);
    var n := DigitRun(body);
    if n < |body| {
      RunSplits(body, n, x);
    }
  }

  lemma RunSplits(body: string, n: nat, x: string)
    requires n < |body|
    ensures (body + x)[..n] == body[..n] && (body + x)[n..] == body[n..] + x
  {
  }

  /** The same for a literal and the number after it. */
  lemma FieldExtends(text: string, s: string, x: string)
    requires Field(text, s).Number?
    ensures Field(text, s + x).Number?
    ensures Field(text, s).rest != "" ==> Field(text, s + x) == Number(Field(text, s).value, Field(text, s).rest + x)
  {
    MatchExtends(text, s, x);
    ScanExtends(MatchText(text, s).value, x);
  }

  lemma FieldNeedsInput(text: string, s: string)
    requires text != "" && !IsSpace(text[0]) && Field(text, s).Number?
    ensures s != ""
  {
  }

  /** What was accepted stays accepted in a longer input, with the same broadband and infrared. */
  lemma ParseExtends(s: string, x: string)
    requires ParseLine(s).Some?
    ensures ParseLine(s + x).Some?
    ensures ParseLine(s + x).value.broadband == ParseLine(s).value.broadband
    ensures ParseLine(s + x).value.ir == ParseLine(s).value.ir
  {
    var broadband := Field(HEAD, s);
    var ir := Field(IR, broadband.rest);
    FieldNeedsInput(IR, broadband.rest);
    FieldNeedsInput(LUX, ir.rest);
    FieldExtends(HEAD, s, x);
    FieldExtends(IR, broadband.rest, x);
    FieldExtends(LUX, ir.rest, x);
  }

  /**
   Any prefix of any line of the daemon is rejected, or it comes from a success line and gives that
   line's exact broadband and infrared.
  */
  lemma PrefixRejectedOrExact(rc: int, error: string, broadband: nat, ir: nat, lux: nat, prefix: string)
    requires error == "Success" || !("Success" <= error)
    requires prefix <= Line(rc, error, broadband, ir, lux)
    ensures var p := ParseLine(prefix);
            p.None? || (rc == 0 && error == "Success" && p.value.broadband == broadband && p.value.ir == ir)
  {
    var line := Line(rc, error, broadband, ir, lux);
    assert line + "" == line;
    if ParseLine(prefix).Some? {
      SplitAt(line, prefix);
      ParseExtends(prefix, line[|prefix|..]);
      if rc == 0 && error == "Success" {
        WireRoundTrip(broadband, ir, lux, "");
      } else {
        ErrorLineRejected(rc, error, broadband, ir, lux, "");
      }
    }
  }

  lemma SplitAt(whole: string, prefix: string)
    requires prefix <= whole
    ensures whole == prefix + whole[|prefix|..]
  {
  }

  /** A truncated success line is accepted exactly when at least one lux digit arrived. */
  lemma PrefixAcceptedIff(broadband: nat, ir: nat, lux: nat, prefix: string)
    requires prefix <= Line(0, "Success", broadband, ir, lux)
    ensures ParseLine(prefix).Some? <==> |prefix| > |UpToLux(broadband, ir)|
  {
    hide ParseLine, Fields, Dec;
    var front, tail := UpToLux(broadband, ir), Dec(lux) + "\n";
    SuccessLine(broadband, ir, lux);
    UpToLuxAppend(broadband, ir, tail);
    if |prefix| <= |front| {
      assert prefix <= front by { assert (front + tail)[..|prefix|] == front[..|prefix|]; }
      SplitAt(front, prefix);
      ParseFields(broadband, ir, "");
      if ParseLine(prefix).Some? {
        ParseExtends(prefix, front[|prefix|..]);
      }
    } else {
      var arrived := prefix[|front|..];
      assert front <= prefix by { assert (front + tail)[..|front|] == prefix[..|front|]; }
      SplitAt(prefix, front);
      assert arrived <= tail by { assert arrived == (front + tail)[|front|..|prefix|] == tail[..|arrived|]; }
      TruncatedLux(broadband, ir, lux, arrived);
    }
  }

  /** What a line cut inside its lux reports there: the digits that arrived. */
  lemma TruncatedLux(broadband: nat, ir: nat, lux: nat, arrived: string)
    requires arrived != "" && arrived <= Dec(lux) + "\n"
    ensures var n := if |arrived| <= |Dec(lux)| then |arrived| else |Dec(lux)|;
            ParseLine(UpToLux(broadband, ir) + arrived) == Some(Parsed(broadband, ir, Value(Dec(lux)[..n])))
  {
    UpToLuxAppend(broadband, ir, arrived);
    ScanArrived(Dec(lux), arrived);
    ParseFields(broadband, ir, arrived);
  }

  lemma ScanArrived(digits: string, arrived: string)
    requires digits != "" && AllDigits(digits) && arrived != "" && arrived <= digits + "\n"
    ensures var n := if |arrived| <= |digits| then |arrived| else |digits|;
            IsDigit(arrived[0]) && ScanNumber(arrived).Number? && ScanNumber(arrived).value == Value(digits[..n])
  {
    assert arrived[0] == (digits + "\n")[0] == digits[0];
    if |arrived| <= |digits| {
      assert arrived == (digits + "\n")[..|arrived|] == digits[..|arrived|];
      assert arrived + "" == arrived;
      ScanDigits(arrived, "");
    } else {
      assert arrived == digits + "\n";
      ScanDigits(digits, "\n");
      assert digits[..|digits|] == digits;
    }
  }

  // ------------------------------------------------------- dropped digits

  function PowerOfTen(n: nat): (p: nat)
    ensures p > 0
  {
    if n == 0 then 1 else 10 * PowerOfTen(n - 1)
  }

  /** A number below 10^k prints in at most k digits. */
  lemma {:induction false} DecLength(n: nat, k: nat)
    requires k > 0 && n < PowerOfTen(k)
    ensures |Dec(n)| <= k
  {
    if n >= 10 {
      assert PowerOfTen(k) == 10 * PowerOfTen(k - 1) && PowerOfTen(0) == 1;
      DecLength(n / 10, k - 1);
    }
  }

  /** Losing the last k digits divides the value by 10^k. */
  lemma {:induction false} DroppedDigits(digits: string, k: nat)
    requires AllDigits(digits) && k <= |digits|
    ensures Value(digits[..|digits| - k]) == Value(digits) / PowerOfTen(k)
  {
    if k > 0 {
      var init := digits[..|digits| - 1];
      assert init[..|init| - (k - 1)] == digits[..|digits| - k];
      DroppedDigits(init, k - 1);
      assert Value(digits) / 10 == Value(init);
      DivideInTurn(Value(digits), PowerOfTen(k - 1));
    } else {
      assert digits[..|digits| - 0] == digits;
    }
  }
}
