/**
 Typed amounts to integer cents and back (apps/mobile/src/ui/amount.ts), digit by digit.
 */
module Amount {
  import opened Text

  const MAX_AMOUNT_CENTS := 10000000000

  // ---------- trim ----------

  /** WhiteSpace and LineTerminator of ECMA-262, sections 12.2 and 12.3. */
  predicate IsSpace(c: char) {
    c in {'\t', '\n', '\U{B}', '\U{C}', '\r', ' ', '\U{A0}', '\U{1680}', '\U{2028}', '\U{2029}', '\U{202F}', '\U{205F}',
          '\U{3000}', '\U{FEFF}'}
    || '\U{2000}' <= c <= '\U{200A}'
  }

  function TrimStart(s: string): string {
    if s != [] && IsSpace(s[0]) then TrimStart(s[1..]) else s
  }

  function TrimEnd(s: string): string {
    if s != [] && IsSpace(s[|s| - 1]) then TrimEnd(s[..|s| - 1]) else s
  }

  function Trim(s: string): string {
    TrimEnd(TrimStart(s))
  }

  /** White space and line terminators by code unit. */
  predicate White(s: string) {
    forall c :: c in s ==>
      9 <= c as int <= 13 || 0x2000 <= c as int <= 0x200A
      || c as int in {0x20, 0xA0, 0x1680, 0x2028, 0x2029, 0x202F, 0x205F, 0x3000, 0xFEFF}
  }

  /** `body` is the text without the white space on its ends. */
  predicate TrimsTo(s: string, lead: string, body: string, trail: string) {
    && s == lead + body + trail && White(lead) && White(trail)
    && (body != [] ==> !White([body[0]]) && !White([body[|body| - 1]]))
  }

  lemma SpaceIsWhite(c: char)
    ensures IsSpace(c) <==> White([c])
  {
    assert c in [c];
  }

  lemma {:induction false} TrimStartIs(s: string)
    ensures var n := |s| - |TrimStart(s)|; n >= 0 && TrimStart(s) == s[n..] && White(s[..n])
    ensures TrimStart(s) != [] ==> !White([TrimStart(s)[0]])
    decreases |s|
  {
    hide IsSpace, White;
    NothingWhite();
    if s != [] && IsSpace(s[0]) {
      SpaceIsWhite(s[0]);
      TrimStartIs(s[1..]);
      var n := |s[1..]| - |TrimStart(s)|;
      WhiteConcat([s[0]], s[1..][..n]);
      assert [s[0]] + s[1..][..n] == s[..n + 1];
    } else if s != [] {
      SpaceIsWhite(s[0]);
      assert s[..0] == [];
    }
  }

  lemma {:induction false} TrimEndIs(s: string)
    ensures var n := |TrimEnd(s)|; n <= |s| && TrimEnd(s) == s[..n] && White(s[n..])
    ensures TrimEnd(s) != [] ==> !White([TrimEnd(s)[|TrimEnd(s)| - 1]])
    decreases |s|
  {
    hide IsSpace, White;
    NothingWhite();
    if s != [] && IsSpace(s[|s| - 1]) {
      var front, last := s[..|s| - 1], s[|s| - 1];
      SpaceIsWhite(last);
      TrimEndIs(front);
      var n := |TrimEnd(front)|;
      WhiteConcat(front[n..], [last]);
      assert front[n..] + [last] == s[n..] && front[..n] == s[..n];
    } else if s != [] {
      SpaceIsWhite(s[|s| - 1]);
      assert s[|s|..] == [];
    }
  }

  lemma NothingWhite()
    ensures White([])
  {
  }

  lemma WhiteConcat(a: string, b: string)
    requires White(a) && White(b)
    ensures White(a + b)
  {
  }

  /** Trimming takes off white space at both ends, and all of it. */
  lemma TrimIs(s: string)
    ensures exists lead, trail :: TrimsTo(s, lead, Trim(s), trail)
  {
    hide IsSpace, TrimStart, TrimEnd, White;
    TrimStartIs(s);
    TrimEndIs(TrimStart(s));
    var rest := TrimStart(s);
    var lead, trail := s[..|s| - |rest|], rest[|Trim(s)|..];
    assert s == lead + rest && rest == Trim(s) + trail;
    assert s == lead + Trim(s) + trail;
    assert TrimsTo(s, lead, Trim(s), trail);
  }

  // ---------- the pattern ^(\d*)(?:(?:sep)(\d{0,2}))?$ ----------

  datatype Parts = Parts(whole: string, fraction: string)

  /** The rest of the text after `\d*`: a separator and up to two digits, or nothing. */
  function MatchRest(rest: string, separators: seq<string>): Option<string> {
    if separators == [] then if rest == [] then Some([]) else None
    else
      var sep := separators[0];
      if sep <= rest && |rest| - |sep| <= 2 && AllDigits(rest[|sep|..]) then Some(rest[|sep|..])
      else MatchRest(rest, separators[1..])
  }

  /** `\d*` is greedy: it gives digits back only when the rest does not match. */
  function MatchFrom(text: string, n: nat, separators: seq<string>): Option<Parts>
    requires n <= |text|
  {
    var rest := MatchRest(text[n..], separators);
    if rest.Some? then Some(Parts(text[..n], rest.value))
    else if n == 0 then None
    else MatchFrom(text, n - 1, separators)
  }

  function DigitPrefix(text: string): (n: nat)
    ensures n <= |text| && AllDigits(text[..n])
    ensures n < |text| ==> !IsDigit(text[n])
  {
    if text != [] && IsDigit(text[0]) then
      var n := 1 + DigitPrefix(text[1..]);
      assert text[..n] == [text[0]] + text[1..][..n - 1];
      n
    else 0
  }

  function Match(text: string, separators: seq<string>): Option<Parts> {
    MatchFrom(text, DigitPrefix(text), separators)
  }

  // ---------- parse and print ----------

  /** `fraction.padEnd(2, '0')` */
  function PadEnd2(s: string): (r: string)
    ensures AllDigits(s) ==> AllDigits(r)
    decreases 2 - |s|
  {
    if |s| >= 2 then s else PadEnd2(s + "0")
  }

  function Cents(p: Parts): nat
    requires AllDigits(p.whole) && AllDigits(p.fraction)
  {
    Value((if p.whole == [] then "0" else p.whole) + PadEnd2(p.fraction))
  }

  lemma {:induction false} MatchDigits(text: string, n: nat, separators: seq<string>)
    requires n <= |text| && AllDigits(text[..n])
    ensures MatchFrom(text, n, separators).Some? ==>
              var p := MatchFrom(text, n, separators).value;
              AllDigits(p.whole) && AllDigits(p.fraction) && |p.fraction| <= 2
  {
    RestDigits(text[n..], separators);
    if n > 0 { MatchDigits(text, n - 1, separators); }
  }

  lemma {:induction false} RestDigits(rest: string, separators: seq<string>)
    ensures MatchRest(rest, separators).Some? ==>
              AllDigits(MatchRest(rest, separators).value) && |MatchRest(rest, separators).value| <= 2
    decreases |separators|
  {
    if separators != [] { RestDigits(rest, separators[1..]); }
  }

  /** `undefined` is None. */
  function ParseCents(input: string, decimalSeparator: string): Option<nat> {
    var text := Trim(input);
    var separators := if decimalSeparator == "." then ["."] else [".", decimalSeparator];
    var match_ := Match(text, separators);
    if match_.None? then None
    else
      var p := match_.value;
      MatchDigits(text, DigitPrefix(text), separators);
      if p.whole == [] && p.fraction == [] then None
      else if Cents(p) > MAX_AMOUNT_CENTS then None
      else Some(Cents(p))
  }

  function ParseAmount(input: string, decimalSeparator: string): Option<nat> {
    var cents := ParseCents(input, decimalSeparator);
    if cents.Some? && cents.value > 0 then cents else None
  }

  /** A route parameter: absent, one text, or repeated. */
  datatype Param = Missing | Single(text: string) | Repeated(texts: seq<string>)

  function CentsParamToInput(param: Param): string {
    if !(param.Single? && param.text != [] && AllDigits(param.text)) then ""
    else
      var cents := Value(param.text);
      if cents == 0 || cents > MAX_AMOUNT_CENTS then "" else Printed(cents)
  }

  function Printed(cents: nat): string {
    Decimal(cents / 100) + "." + PadStart(Decimal(cents % 100), 2, '0')
  }

  // ---------- the grammar ----------

  /** Digits, then at most one separator with at most two more digits. */
  predicate Grammar(text: string, sep: char, p: Parts) {
    && AllDigits(p.whole) && AllDigits(p.fraction) && |p.fraction| <= 2 && p != Parts([], [])
    && (text == p.whole + "." + p.fraction || text == p.whole + [sep] + p.fraction
       || (text == p.whole && p.fraction == []))
  }

  function Padded(fraction: string): nat
    requires AllDigits(fraction) && |fraction| <= 2
  {
    if |fraction| == 0 then 0
    else if |fraction| == 1 then 10 * DigitValue(fraction[0])
    else 10 * DigitValue(fraction[0]) + DigitValue(fraction[1])
  }

  /** 100 times the whole part plus the fraction padded to two digits. */
  lemma CentsAre(p: Parts)
    requires AllDigits(p.whole) && AllDigits(p.fraction) && |p.fraction| <= 2
    ensures Cents(p) == 100 * Value(p.whole) + Padded(p.fraction)
  {
    hide PadEnd2, Value;
    var whole := if p.whole == [] then "0" else p.whole;
    assert Value(whole) == Value(p.whole) by { ZeroIsNothing(); }
    var two := PadEnd2(p.fraction);
    PadEndTwo(p.fraction);
    ValueTwo(whole, two[0], two[1]);
    assert two == [two[0], two[1]];
  }

  lemma ZeroIsNothing()
    ensures AllDigits("0") && Value("0") == 0 && Value("") == 0
  {
    assert "0"[..0] == "";
  }

  lemma PadEndTwo(fraction: string)
    requires AllDigits(fraction) && |fraction| <= 2
    ensures var two := PadEnd2(fraction);
            |two| == 2 && AllDigits(two) && 10 * DigitValue(two[0]) + DigitValue(two[1]) == Padded(fraction)
  {
    if |fraction| == 1 {
      assert PadEnd2(fraction) == fraction + "0";
    } else if |fraction| == 0 {
      assert PadEnd2(fraction) == PadEnd2(fraction + "0") == fraction + "0" + "0";
    }
  }

  lemma ValueTwo(s: string, a: char, b: char)
    requires AllDigits(s) && IsDigit(a) && IsDigit(b)
    ensures AllDigits(s + [a, b]) && Value(s + [a, b]) == 100 * Value(s) + 10 * DigitValue(a) + DigitValue(b)
  {
    assert (s + [a, b])[..|s| + 1] == s + [a] && (s + [a])[..|s|] == s;
  }

  /** What one separator makes of the rest. */
  lemma OneSeparator(rest: string, sep: char, f: string)
    ensures ([sep] <= rest && |rest| - 1 <= 2 && AllDigits(rest[1..]) && rest[1..] == f) <==>
            (AllDigits(f) && |f| <= 2 && rest == [sep] + f)
  {
    if rest == [sep] + f { assert rest[1..] == f; }
    if [sep] <= rest { assert rest == [sep] + rest[1..]; }
  }

  lemma RestExact(rest: string, sep: char, f: string)
    requires !IsDigit(sep)
    ensures var separators := if [sep] == "." then ["."] else [".", [sep]];
            MatchRest(rest, separators) == Some(f) <==>
              AllDigits(f) && |f| <= 2 && (rest == "." + f || rest == [sep] + f || (rest == [] && f == []))
  {
    OneSeparator(rest, '.', f);
    OneSeparator(rest, sep, f);
    var one: seq<string> := [[sep]];
    assert one[1..] == [] && ["."][1..] == [] && [".", [sep]][1..] == one;
    assert MatchRest(rest, []) == if rest == [] then Some([]) else None;
    assert [sep] <= rest ==> rest[0] == sep;
    assert "." <= rest ==> rest[0] == '.';
  }

  lemma {:induction false} MatchSound(text: string, n: nat, sep: char)
    requires n <= |text| && AllDigits(text[..n]) && !IsDigit(sep)
    ensures var separators := if [sep] == "." then ["."] else [".", [sep]];
            var m := MatchFrom(text, n, separators);
            m.Some? && m.value != Parts([], []) ==> Grammar(text, sep, m.value)
  {
    hide MatchRest;
    var separators := if [sep] == "." then ["."] else [".", [sep]];
    var rest := MatchRest(text[n..], separators);
    if rest.Some? {
      RestExact(text[n..], sep, rest.value);
      assert text == text[..n] + text[n..];
      assert text[..n] + "." + rest.value == text[..n] + ("." + rest.value);
      assert text[..n] + [sep] + rest.value == text[..n] + ([sep] + rest.value);
    } else if n > 0 {
      MatchSound(text, n - 1, sep);
    }
  }

  /** The digit prefix of a text of the grammar is its whole part. */
  lemma {:induction false} PrefixIsWhole(whole: string, rest: string)
    requires AllDigits(whole) && (rest == [] || !IsDigit(rest[0]))
    ensures DigitPrefix(whole + rest) == |whole|
    decreases |whole|
  {
    if whole == [] {
      assert whole + rest == rest;
    } else {
      assert (whole + rest)[1..] == whole[1..] + rest;
      PrefixIsWhole(whole[1..], rest);
    }
  }

  lemma MatchComplete(text: string, sep: char, p: Parts)
    requires !IsDigit(sep) && Grammar(text, sep, p)
    ensures var separators := if [sep] == "." then ["."] else [".", [sep]]; Match(text, separators) == Some(p)
  {
    hide MatchRest, DigitPrefix;
    var rest := text[|p.whole|..];
    assert text == p.whole + rest
           && (rest == "." + p.fraction || rest == [sep] + p.fraction || (rest == [] && p.fraction == []));
    PrefixIsWhole(p.whole, rest);
    RestExact(rest, sep, p.fraction);
  }

  /**
   For any one-character separator that is no digit: a text is accepted exactly when, trimmed,
   it is in the grammar and its value is within the ceiling, and then the value is that.
   */
  lemma ParseExact(input: string, sep: char, v: nat)
    requires !IsDigit(sep)
    ensures ParseCents(input, [sep]) == Some(v) <==>
            && v <= 10000000000
            && exists p :: Grammar(Trim(input), sep, p) && v == 100 * Value(p.whole) + Padded(p.fraction)
    ensures ParseAmount(input, [sep]) == Some(v) <==> v > 0 && ParseCents(input, [sep]) == Some(v)
  {
    hide Trim, MatchFrom, DigitPrefix, Cents, Padded, Value;
    var text := Trim(input);
    var separators := if [sep] == "." then ["."] else [".", [sep]];
    MatchSound(text, DigitPrefix(text), sep);
    MatchDigits(text, DigitPrefix(text), separators);
    if Match(text, separators).Some? { CentsAre(Match(text, separators).value); }
    forall p | Grammar(text, sep, p)
      ensures Match(text, separators) == Some(p)
    {
      MatchComplete(text, sep, p);
    }
  }

  // ---------- round trip ----------

  lemma NoSpaces(s: string)
    requires forall c :: c in s ==> !IsSpace(c)
    ensures Trim(s) == s
  {
  }

  lemma PrintedParts(cents: nat)
    ensures var p := Parts(Decimal(cents / 100), Digits(cents % 100, 2));
            && (forall sep :: Grammar(Printed(cents), sep, p))
            && 100 * Value(p.whole) + Padded(p.fraction) == cents
            && Trim(Printed(cents)) == Printed(cents)
  {
    hide Decimal, Trim;
    assert Pow10(2) == 100 by { assert Pow10(1) == 10; }
    PaddedDecimal(cents % 100, 2);
    var whole, fraction := Decimal(cents / 100), Digits(cents % 100, 2);
    TwoDigits(cents % 100);
    forall c | c in Printed(cents)
      ensures !IsSpace(c)
    {
      assert c in whole || c == '.' || c in fraction;
    }
    NoSpaces(Printed(cents));
  }

  lemma TwoDigits(n: nat)
    requires n < 100
    ensures Padded(Digits(n, 2)) == n
  {
    assert Digits(n, 1) == [DigitChar(n % 10)] by { assert Digits(n / 10, 0) == []; }
    assert Digits(n / 10, 1) == [DigitChar(n / 10 % 10)] by { assert Digits(n / 10 / 10, 0) == []; }
  }

  /** Printing any amount of the ledger and parsing it back gives the amount, under any separator. */
  lemma PrintThenParse(cents: nat, sep: char)
    requires 1 <= cents <= 10000000000 && !IsDigit(sep)
    ensures ParseAmount(CentsParamToInput(Single(Decimal(cents))), [sep]) == Some(cents)
  {
    hide ParseCents, Decimal, Value, Padded, Grammar, Trim, Printed;
    assert CentsParamToInput(Single(Decimal(cents))) == Printed(cents);
    PrintedParts(cents);
    assert Grammar(Printed(cents), sep, Parts(Decimal(cents / 100), Digits(cents % 100, 2)));
    ParseExact(Printed(cents), sep, cents);
  }

  /** A parameter is printed exactly when it is a positive amount within the ceiling, as units and two digits. */
  lemma PrintedParams(param: Param)
    ensures CentsParamToInput(param) != "" <==>
            param.Single? && param.text != [] && AllDigits(param.text) && 1 <= Value(param.text) <= 10000000000
    ensures CentsParamToInput(param) != "" ==>
              var cents := Value(param.text);
              CentsParamToInput(param) == Decimal(cents / 100) + "." + Digits(cents % 100, 2)
  {
    hide Printed, Decimal, Value;
    if param.Single? && AllDigits(param.text) {
      PrintedNotEmpty(Value(param.text));
      PrintedIs(Value(param.text));
    }
  }

  lemma PrintedIs(cents: nat)
    ensures Printed(cents) == Decimal(cents / 100) + "." + Digits(cents % 100, 2)
  {
    hide Decimal;
    assert Pow10(2) == 100 by { assert Pow10(1) == 10; }
    PaddedDecimal(cents % 100, 2);
  }

  lemma PrintedNotEmpty(cents: nat)
    ensures Printed(cents) != ""
  {
    assert |Printed(cents)| >= |Decimal(cents / 100)| + 1;
  }
}
