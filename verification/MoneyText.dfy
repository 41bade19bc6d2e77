/** Reading and writing amounts in major units, digit by digit. */
module MoneyText {
  import opened Arith
  import opened Conversion
  import opened Results
  import opened Text

  datatype TextError = EmptyText | Invalid | TooManyDecimals

  // ----- Characters and numerals (ASCII) -----

  predicate IsDigit(c: char) {
    '0' <= c <= '9'
  }

  predicate AllDigits(s: string) {
    forall i :: 0 <= i < |s| ==> IsDigit(s[i])
  }

  /** Python's `int` of a string of digits. */
  function Value(s: string): nat
    requires AllDigits(s)
  {
    if s == "" then 0 else 10 * Value(s[..|s| - 1]) + (s[|s| - 1] - '0') as nat
  }

  function DigitChar(k: nat): (c: char)
    requires k < 10
    ensures IsDigit(c) && (c - '0') as int == k
  {
    ('0' as int + k) as char
  }

  function WithDigit(s: string, k: nat): (r: string)
    requires AllDigits(s) && k < 10
    ensures r != "" && AllDigits(r) && Value(r) == 10 * Value(s) + k
  {
    var r := s + [DigitChar(k)];
    assert r[..|r| - 1] == s;
    r
  }

  /** Python's `str` of a natural number. */
  function Digits(n: nat): (s: string)
    ensures s != "" && AllDigits(s) && Value(s) == n
  {
    if n < 10 then WithDigit("", n) else WithDigit(Digits(n / 10), n % 10)
  }

  function Zeros(k: nat): (s: string)
    ensures |s| == k && AllDigits(s)
  {
    seq(k, i => '0')
  }

  /** `{n:0{width}d}`. */
  function Padded(n: nat, width: nat): (s: string)
    ensures |s| >= width && AllDigits(s)
  {
    var s := Digits(n);
    if |s| < width then Zeros(width - |s|) + s else s
  }

  /** The index of the first dot, or the length when there is none. */
  function DotIndex(s: string): (k: nat)
    ensures k <= |s| && (forall i :: 0 <= i < k ==> s[i] != '.') && (k < |s| ==> s[k] == '.')
  {
    if s == "" || s[0] == '.' then 0 else 1 + DotIndex(s[1..])
  }

  function CountDots(s: string): nat {
    if s == "" then 0 else CountDots(s[..|s| - 1]) + if s[|s| - 1] == '.' then 1 else 0
  }

  // ----- The accepted notation -----

  datatype Pieces = Pieces(sign: string, whole: string, dot: bool, frac: string)

  function Body(p: Pieces): string {
    p.whole + if p.dot then "." + p.frac else ""
  }

  function Render(p: Pieces): string {
    p.sign + Body(p)
  }

  /** An optional sign, digits, and optionally a dot and more digits; either side of a dot may be
      empty, even both. */
  ghost predicate Shape(p: Pieces) {
    && (p.sign == "" || p.sign == "+" || p.sign == "-")
    && AllDigits(p.whole) && AllDigits(p.frac)
    && (!p.dot ==> p.frac == "" && p.whole != "")
  }

  ghost function Minor(p: Pieces, exponent: nat): int
    requires Shape(p) && |p.frac| <= exponent
  {
    var magnitude := Value(p.whole) * Pow10(exponent) + Value(p.frac) * Pow10(exponent - |p.frac|);
    if p.sign == "-" then -magnitude else magnitude
  }

  /** What a text means: the amount its pieces denote, if it has the notation. */
  ghost function Parsed(text: string, exponent: nat): Result<int, TextError> {
    if p :| Shape(p) && Render(p) == Strip(text) then
      if |p.frac| <= exponent then Ok(Minor(p, exponent)) else Err(TooManyDecimals)
    else if Strip(text) == "" then Err(EmptyText)
    else Err(Invalid)
  }

  /** The notation is unambiguous. */
  lemma ShapeUnique(p: Pieces, q: Pieces)
    requires Shape(p) && Shape(q) && Render(p) == Render(q)
    ensures p == q
  {
    var s := Render(p);
    FirstCharacter(p);
    FirstCharacter(q);
    assert p.sign == q.sign;
    assert Body(p) == s[|p.sign|..];
    assert Body(q) == s[|q.sign|..];
    BodyUnique(p, q);
  }

  lemma BodyUnique(p: Pieces, q: Pieces)
    requires Shape(p) && Shape(q) && Body(p) == Body(q)
    ensures p.whole == q.whole && p.dot == q.dot && p.frac == q.frac
  {
    SplitAt(p);
    SplitAt(q);
  }

  lemma FirstCharacter(p: Pieces)
    requires Shape(p)
    ensures var s := Render(p);
      && s != ""
      && (p.sign == "-" <==> s[0] == '-') && (p.sign == "+" <==> s[0] == '+')
  {
    if p.sign == "" {
      assert Render(p)[0] == Body(p)[0];
      if p.whole == "" {
        assert Body(p)[0] == '.';
      } else {
        assert Body(p)[0] == p.whole[0];
      }
    } else {
      assert Render(p)[0] == p.sign[0];
    }
  }

  /** The dot is where the digits stop. */
  lemma SplitAt(p: Pieces)
    requires Shape(p)
    ensures DotIndex(Body(p)) == |p.whole| && Body(p)[..|p.whole|] == p.whole
    ensures p.dot <==> |p.whole| < |Body(p)|
    ensures p.dot ==> p.frac == Body(p)[|p.whole| + 1..]
    ensures CountDots(Body(p)) <= 1
  {
    var body := Body(p);
    DotAfterDigits(body, |p.whole|);
    NoDots(p.whole);
    NoDots(p.frac);
    if p.dot {
      CountConcat(p.whole, "." + p.frac);
      CountConcat(".", p.frac);
      assert "."[..0] == "" && CountDots(".") == 1;
    } else {
      assert body == p.whole;
    }
  }

  lemma {:induction false} DotAfterDigits(s: string, k: nat)
    requires k <= |s| && AllDigits(s[..k]) && (k < |s| ==> s[k] == '.')
    ensures DotIndex(s) == k
  {
    if k > 0 {
      assert s[..k][0] == s[0] && s[1..][..k - 1] == s[..k][1..];
      DotAfterDigits(s[1..], k - 1);
    }
  }

  lemma {:induction false} NoDots(s: string)
    requires AllDigits(s)
    ensures CountDots(s) == 0
  {
    if s != "" {
      NoDots(s[..|s| - 1]);
    }
  }

  lemma {:induction false} CountConcat(s: string, t: string)
    ensures CountDots(s + t) == CountDots(s) + CountDots(t)
  {
    if t == "" {
      assert s + t == s;
    } else {
      assert (s + t)[..|s + t| - 1] == s + t[..|t| - 1];
      CountConcat(s, t[..|t| - 1]);
    }
  }

  lemma ParsedPieces(text: string, exponent: nat, p: Pieces)
    requires Shape(p) && Render(p) == Strip(text)
    ensures Parsed(text, exponent)
         == if |p.frac| <= exponent then Ok(Minor(p, exponent)) else Err(TooManyDecimals)
  {
    var q: Pieces :| Shape(q) && Render(q) == Strip(text)
      && Parsed(text, exponent) == if |q.frac| <= exponent then Ok(Minor(q, exponent)) else Err(TooManyDecimals);
    ShapeUnique(p, q);
  }

  /** `Money.from_major`: the text is stripped, its sign taken off, and the rest cut at the dot. */
  method FromMajor(text: string, exponent: nat) returns (r: Result<int, TextError>)
    ensures r == Parsed(text, exponent)
  {
    hide Parsed, Strip, CountDots, DotIndex, Value, Pow10, Minor;
    var raw := Strip(text);
    if raw == "" {
      NoBody(raw);
      NoPieces(raw, "", raw);
      Unread(text, exponent);
      return Err(EmptyText);
    }
    ghost var stripped := raw;
    var signText;
    signText, raw := TakeSign(raw);
    var cut := CutAtDot(raw);
    if cut.None? {
      NoPieces(stripped, signText, raw);
      Unread(text, exponent);
      return Err(Invalid);
    }
    var whole, frac := cut.value.whole, cut.value.frac;
    ghost var p := cut.value.(sign := signText);
    assert Body(p) == Body(cut.value);
    if |frac| > exponent {
      ParsedPieces(text, exponent, p);
      return Err(TooManyDecimals);
    }
    if whole == "" {
      whole := "0";
    }
    frac := frac + Zeros(exponent - |frac|);
    ValueShifted(p.frac, exponent - |p.frac|);
    ParsedValue(text, exponent, p, whole, frac);
    EmptyValue();
    var minor := Value(whole) * Pow10(exponent) + (if frac == "" then 0 else Value(frac));
    return Ok(if signText == "-" then -minor else minor);
  }

  lemma EmptyValue()
    ensures Value("") == 0
  {
  }

  lemma Unread(text: string, exponent: nat)
    requires forall p :: Shape(p) ==> Render(p) != Strip(text)
    ensures Parsed(text, exponent) == Err(if Strip(text) == "" then EmptyText else Invalid)
  {
  }

  method TakeSign(text: string) returns (sign: string, raw: string)
    requires text != ""
    ensures text == sign + raw
    ensures sign == if text[0] == '+' then "+" else if text[0] == '-' then "-" else ""
  {
    sign, raw := "", text;
    if raw[0] == '+' {
      sign, raw := "+", raw[1..];
    } else if raw[0] == '-' {
      sign, raw := "-", raw[1..];
    }
  }

  /** The unsigned part, cut at its dot and checked digit by digit. */
  method CutAtDot(raw: string) returns (r: Option<Pieces>)
    ensures r.Some? ==> Shape(r.value) && r.value.sign == "" && Body(r.value) == raw
    ensures r.None? ==> forall p :: Shape(p) ==> Body(p) != raw
  {
    if raw == "" || CountDots(raw) > 1 {
      NoBody(raw);
      return None;
    }
    var cut := DotIndex(raw);
    var p := Pieces("", raw[..cut], cut < |raw|, if cut < |raw| then raw[cut + 1..] else "");
    if !AllDigits(p.whole) || !AllDigits(p.frac) {
      NoBody(raw);
      return None;
    }
    return Some(p);
  }

  lemma NoBody(raw: string)
    requires var k := DotIndex(raw);
      raw == "" || CountDots(raw) > 1 || !AllDigits(raw[..k]) || (k < |raw| && !AllDigits(raw[k + 1..]))
    ensures forall p :: Shape(p) ==> Body(p) != raw
  {
    forall p | Shape(p)
      ensures Body(p) != raw
    {
      SplitAt(p);
      assert Body(p) != "";
    }
  }

  lemma NoPieces(s: string, signText: string, raw: string)
    requires s == signText + raw
    requires signText == if s == "" then "" else if s[0] == '+' then "+" else if s[0] == '-' then "-" else ""
    requires forall p :: Shape(p) ==> Body(p) != raw
    ensures forall p :: Shape(p) ==> Render(p) != s
  {
    forall p | Shape(p)
      ensures Render(p) != s
    {
      FirstCharacter(p);
      assert p.sign == signText ==> Render(p)[|signText|..] == Body(p);
      assert s[|signText|..] == raw;
    }
  }

  lemma ParsedValue(text: string, exponent: nat, p: Pieces, whole: string, frac: string)
    requires Shape(p) && Render(p) == Strip(text) && |p.frac| <= exponent && AllDigits(frac)
    requires whole == if p.whole == "" then "0" else p.whole
    requires Value(frac) == Value(p.frac) * Pow10(exponent - |p.frac|)
    ensures var minor := Value(whole) * Pow10(exponent) + Value(frac);
      Parsed(text, exponent) == Ok(if p.sign == "-" then -minor else minor)
  {
    ParsedPieces(text, exponent, p);
    assert Value("") == 0 && "0"[..0] == "" && Value("0") == 0;
  }

  /** Appending zeros multiplies. */
  lemma {:induction false} ValueShifted(s: string, k: nat)
    requires AllDigits(s)
    ensures AllDigits(s + Zeros(k)) && Value(s + Zeros(k)) == Value(s) * Pow10(k)
  {
    if k == 0 {
      assert s + Zeros(0) == s;
    } else {
      ValueShifted(s, k - 1);
      assert (s + Zeros(k))[..|s| + k - 1] == s + Zeros(k - 1);
      TenTimes(Value(s), Pow10(k - 1));
    }
  }

  lemma TenTimes(x: int, y: int)
    ensures x * (10 * y) == 10 * (x * y)
  {
  }

  /** Leading zeros do not count. */
  lemma {:induction false} ValueOfPadded(k: nat, s: string)
    requires AllDigits(s)
    ensures AllDigits(Zeros(k) + s) && Value(Zeros(k) + s) == Value(s)
  {
    if s == "" {
      assert Zeros(k) + s == Zeros(k);
      ValueShifted("", k);
      assert "" + Zeros(k) == Zeros(k);
    } else {
      ValueOfPadded(k, s[..|s| - 1]);
      assert (Zeros(k) + s)[..k + |s| - 1] == Zeros(k) + s[..|s| - 1];
    }
  }

  // ----- Printing -----

  /** `Money.to_major_string`. */
  function ToMajorString(amount: int, exponent: nat): string {
    var sign := if amount < 0 then "-" else "";
    var magnitude := Abs(amount);
    var scale := Pow10(exponent);
    if scale == 1 then sign + Digits(magnitude)
    else sign + (Digits(Quotient(magnitude, scale)) + ("." + Padded(Remainder(magnitude, scale), exponent)))
  }

  function Quotient(n: nat, d: nat): nat
    requires d > 0
  {
    n / d
  }

  function Remainder(n: nat, d: nat): (r: nat)
    requires d > 0
    ensures r < d && n == Quotient(n, d) * d + r
  {
    n % d
  }

  lemma {:induction false} DigitsLength(n: nat, k: nat)
    requires 0 < k && n < Pow10(k)
    ensures |Digits(n)| <= k
  {
    if n >= 10 {
      DigitsLength(n / 10, k - 1);
    }
  }

  /** Printing an amount and reading it gives the amount. */
  lemma ParseUndoesPrint(amount: int, exponent: nat)
    ensures Parsed(ToMajorString(amount, exponent), exponent) == Ok(amount)
  {
    hide Parsed, Strip, Digits, Padded, Value;
    var sign, magnitude := if amount < 0 then "-" else "", Abs(amount);
    if Pow10(exponent) == 1 {
      var p := PrintedWhole(sign, magnitude, exponent);
      assert Render(p) == ToMajorString(amount, exponent);
      PrintedPieces(ToMajorString(amount, exponent), exponent, p, p.whole);
    } else {
      var p := PrintedParts(sign, magnitude, exponent);
      assert Render(p) == ToMajorString(amount, exponent);
      PrintedPieces(ToMajorString(amount, exponent), exponent, p, p.frac);
    }
  }

  lemma PrintedWhole(sign: string, magnitude: nat, exponent: nat) returns (p: Pieces)
    requires sign == "" || sign == "-"
    requires Pow10(exponent) == 1
    ensures p == Pieces(sign, Digits(magnitude), false, "") && Body(p) == p.whole
    ensures Shape(p) && exponent == 0
    ensures Value(p.whole) * Pow10(exponent) + Value(p.frac) == magnitude
  {
    p := Pieces(sign, Digits(magnitude), false, "");
    assert Value("") == 0;
  }

  lemma PrintedParts(sign: string, magnitude: nat, exponent: nat) returns (p: Pieces)
    requires sign == "" || sign == "-"
    requires Pow10(exponent) != 1
    ensures p == Pieces(sign, Digits(Quotient(magnitude, Pow10(exponent))), true,
                        Padded(Remainder(magnitude, Pow10(exponent)), exponent))
    ensures Shape(p) && |p.frac| == exponent > 0
    ensures Value(p.whole) * Pow10(exponent) + Value(p.frac) == magnitude
  {
    var rest := Remainder(magnitude, Pow10(exponent));
    var frac := Padded(rest, exponent);
    DigitsLength(rest, exponent);
    ValueOfPadded(exponent - |Digits(rest)|, Digits(rest));
    p := Pieces(sign, Digits(Quotient(magnitude, Pow10(exponent))), true, frac);
  }

  /** A text that ends in digits has no blanks to strip, so its pieces are what it is read as. */
  lemma PrintedPieces(text: string, exponent: nat, p: Pieces, last: string)
    requires Shape(p) && text == Render(p) && |p.frac| == exponent && p.whole != ""
    requires last == (if p.dot then p.frac else p.whole) != ""
    ensures Parsed(text, exponent) == Ok(Minor(p, exponent))
    ensures var magnitude := Value(p.whole) * Pow10(exponent) + Value(p.frac);
      Minor(p, exponent) == if p.sign == "-" then -magnitude else magnitude
  {
    FirstCharacter(p);
    assert text[0] == '-' || text[0] == '+' || IsDigit(text[0]);
    assert text[|text| - 1] == Body(p)[|Body(p)| - 1] == last[|last| - 1];
    ParsedPieces(text, exponent, p);
    assert Pow10(0) == 1;
  }

  /** Printing what an accepted text means, and reading that, changes nothing. */
  lemma PrintNormalises(text: string, exponent: nat)
    requires Parsed(text, exponent).Ok?
    ensures var printed := ToMajorString(Parsed(text, exponent).value, exponent);
      Parsed(printed, exponent) == Parsed(text, exponent)
  {
    ParseUndoesPrint(Parsed(text, exponent).value, exponent);
  }
}
