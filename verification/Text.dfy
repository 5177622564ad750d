/** Decimal numerals and JSON pointers as text. */
module Text {
  import opened JsonValue

  // ---------------------------------------------------------------------
  // Decimal numerals
  // ---------------------------------------------------------------------

  function Decimal(n: nat): string {
    if n < 10 then [Digit(n)] else Decimal(n / 10) + [Digit(n % 10)]
  }

  function Digit(d: nat): char
    requires d < 10
  {
    '0' + d as char
  }

  /** The digits of a numeral; leading zeros are allowed. */
  function Digits(s: string): Option<nat> {
    if s == "" then None
    else
      var last := s[|s| - 1];
      if !('0' <= last <= '9') then None
      else if |s| == 1 then Some((last - '0') as nat)
      else match Digits(s[..|s| - 1])
        case None => None
        case Some(high) => Some(10 * high + (last - '0') as nat)
  }

  /** Digits are read as a number exactly if there are any and nothing else, and each
      digit more is worth ten times what came before. */
  lemma {:induction false} DigitsExactly(s: string)
    ensures Digits(s).Some? <==> s != "" && forall i :: 0 <= i < |s| ==> '0' <= s[i] <= '9'
    ensures Digits(s).Some? ==>
              var n := |s| - 1;
              Digits(s).value == (if n == 0 then 0 else 10 * Digits(s[..n]).value) + (s[n] as int - '0' as int)
  {
    if |s| > 1 {
      DigitsExactly(s[..|s| - 1]);
    }
  }

  /** The same without leading zeros, as in an array index of RFC 6901. */
  ghost function ParseNat(s: string): Option<nat> {
    if |s| > 1 && s[0] == '0' then None else Digits(s)
  }

  lemma {:induction false} DigitsOfDecimal(n: nat)
    ensures Digits(Decimal(n)) == Some(n) && Decimal(n) != ""
  {
    if n >= 10 {
      DigitsOfDecimal(n / 10);
      assert Decimal(n)[..|Decimal(n)| - 1] == Decimal(n / 10);
    }
  }

  lemma {:induction false} NoLeadingZero(n: nat)
    requires n > 0
    ensures Decimal(n) != "" && Decimal(n)[0] != '0'
  {
    if n >= 10 {
      NoLeadingZero(n / 10);
    }
  }

  lemma {:induction false} DecimalRoundTrip(n: nat)
    ensures ParseNat(Decimal(n)) == Some(n)
  {
    DigitsOfDecimal(n);
    if n > 0 {
      NoLeadingZero(n);
    }
  }

  lemma {:induction false} DecimalIsPlain(n: nat)
    ensures forall i :: 0 <= i < |Decimal(n)| ==> '0' <= Decimal(n)[i] <= '9'
  {
    if n >= 10 {
      DecimalIsPlain(n / 10);
    }
  }

  /** A larger number has at least as many digits, and at most one more per unit. */
  lemma {:induction false} DecimalGrowsSlowly(a: nat, b: nat)
    requires a <= b
    ensures |Decimal(a)| <= |Decimal(b)| <= |Decimal(a)| + (b - a)
    decreases b
  {
    if 10 <= b && a < b {
      DecimalGrowsSlowly(a / 10, b / 10);
    }
  }

  /** White space as `unicode.IsSpace` has it. */
  predicate IsSpace(c: char) {
    || '\t' <= c <= '\r'
    || c in {' ', '\U{85}', '\U{A0}', '\U{1680}', '\U{2028}', '\U{2029}', '\U{202F}', '\U{205F}', '\U{3000}'}
    || '\U{2000}' <= c <= '\U{200A}'
  }

  lemma DigitIsNoSpace(c: char)
    requires '0' <= c <= '9'
    ensures !IsSpace(c)
  {
  }

  function TrimSpace(s: string): string {
    if s == "" then ""
    else if IsSpace(s[0]) then TrimSpace(s[1..])
    else if IsSpace(s[|s| - 1]) then TrimSpace(s[..|s| - 1])
    else s
  }

  ghost predicate Blank(s: string) {
    forall i :: 0 <= i < |s| ==> IsSpace(s[i])
  }

  /** What is cut off is white space, and what is left does not begin or end with any. */
  lemma {:induction false} TrimSpaceCuts(s: string) returns (before: string, after: string)
    ensures s == before + TrimSpace(s) + after && Blank(before) && Blank(after)
    ensures var t := TrimSpace(s);
            t == "" || (!IsSpace(t[0]) && !IsSpace(t[|t| - 1]))
  {
    hide IsSpace;
    before, after := "", "";
    if s != "" {
      var n := |s| - 1;
      if IsSpace(s[0]) {
        before, after := TrimSpaceCuts(s[1..]);
        BlankBefore(s, TrimSpace(s), before, after);
        before := [s[0]] + before;
      } else if IsSpace(s[n]) {
        before, after := TrimSpaceCuts(s[..n]);
        BlankAfter(s, TrimSpace(s), before, after);
        after := after + [s[n]];
      }
    }
  }

  lemma BlankBefore(s: string, t: string, before: string, after: string)
    requires s != "" && IsSpace(s[0]) && s[1..] == before + t + after && Blank(before)
    ensures s == [s[0]] + before + t + after && Blank([s[0]] + before)
  {
    hide IsSpace;
    assert s == [s[0]] + s[1..];
  }

  lemma BlankAfter(s: string, t: string, before: string, after: string)
    requires s != "" && IsSpace(s[|s| - 1]) && s[..|s| - 1] == before + t + after && Blank(after)
    ensures s == before + t + (after + [s[|s| - 1]]) && Blank(after + [s[|s| - 1]])
  {
    hide IsSpace;
    assert s == s[..|s| - 1] + [s[|s| - 1]];
  }

  // ---------------------------------------------------------------------
  // JSON pointers (RFC 6901)
  // ---------------------------------------------------------------------

  ghost function EscapeChar(c: char): string {
    if c == '~' then "~0" else if c == '/' then "~1" else [c]
  }

  ghost function Escape(s: string): string {
    if s == "" then "" else EscapeChar(s[0]) + Escape(s[1..])
  }

  /** One pass of section 4: every `~code` becomes `plain`. */
  ghost function Replace(s: string, code: char, plain: char): string {
    if s == "" then ""
    else if |s| >= 2 && s[0] == '~' && s[1] == code then [plain] + Replace(s[2..], code, plain)
    else [s[0]] + Replace(s[1..], code, plain)
  }

  /** Section 4: first `~1` becomes `/`, then `~0` becomes `~`. */
  ghost function Unescape(s: string): string {
    Replace(Replace(s, '1', '/'), '0', '~')
  }

  ghost function EscapeTilde(s: string): string {
    if s == "" then "" else (if s[0] == '~' then "~0" else [s[0]]) + EscapeTilde(s[1..])
  }

  lemma ReplaceHit(rest: string, code: char, plain: char)
    ensures Replace(['~', code] + rest, code, plain) == [plain] + Replace(rest, code, plain)
  {
    assert (['~', code] + rest)[2..] == rest;
  }

  lemma ReplaceMiss(c: char, rest: string, code: char, plain: char)
    requires c != '~' || rest == "" || rest[0] != code
    ensures Replace([c] + rest, code, plain) == [c] + Replace(rest, code, plain)
  {
    assert ([c] + rest)[1..] == rest;
  }

  lemma TildeSurvives(rest: string)
    ensures Replace("~0" + rest, '1', '/') == "~0" + Replace(rest, '1', '/')
  {
    hide Replace;
    assert "~0" + rest == ['~'] + (['0'] + rest);
    ReplaceMiss('~', ['0'] + rest, '1', '/');
    ReplaceMiss('0', rest, '1', '/');
    assert ['~'] + (['0'] + Replace(rest, '1', '/')) == "~0" + Replace(rest, '1', '/');
  }

  lemma {:induction false} FirstPass(s: string)
    ensures Replace(Escape(s), '1', '/') == EscapeTilde(s)
  {
    if s != "" {
      FirstPass(s[1..]);
      var e := Escape(s[1..]);
      if s[0] == '~' {
        TildeSurvives(e);
      } else if s[0] == '/' {
        ReplaceHit(e, '1', '/');
      } else {
        ReplaceMiss(s[0], e, '1', '/');
      }
    }
  }

  lemma {:induction false} SecondPass(s: string)
    ensures Replace(EscapeTilde(s), '0', '~') == s
  {
    if s != "" {
      SecondPass(s[1..]);
      var e := EscapeTilde(s[1..]);
      if s[0] == '~' {
        ReplaceHit(e, '0', '~');
      } else {
        ReplaceMiss(s[0], e, '0', '~');
      }
      assert [s[0]] + s[1..] == s;
    }
  }

  lemma UnescapeEscape(s: string)
    ensures Unescape(Escape(s)) == s
  {
    FirstPass(s);
    SecondPass(s);
  }

  lemma {:induction false} EscapeHidesSlash(s: string)
    ensures '/' !in Escape(s)
  {
    if s != "" {
      EscapeHidesSlash(s[1..]);
    }
  }

  lemma {:induction false} EscapeConcat(s: string, c: char)
    ensures Escape(s + [c]) == Escape(s) + EscapeChar(c)
  {
    if s == "" {
      assert s + [c] == [c];
    } else {
      EscapeConcat(s[1..], c);
      assert (s + [c])[1..] == s[1..] + [c];
      assert EscapeChar(s[0]) + (Escape(s[1..]) + EscapeChar(c)) == (EscapeChar(s[0]) + Escape(s[1..])) + EscapeChar(c);
    }
  }

  lemma {:induction false} EscapeKeepsPlain(s: string)
    requires forall i :: 0 <= i < |s| ==> s[i] != '~' && s[i] != '/'
    ensures Escape(s) == s
  {
    if s != "" {
      EscapeKeepsPlain(s[1..]);
      assert s == [s[0]] + s[1..];
    }
  }

  ghost function Pointer(tokens: seq<string>): string {
    if tokens == [] then "" else "/" + Escape(tokens[0]) + Pointer(tokens[1..])
  }

  /** The length of the reference token at the start of `s`. */
  ghost function TokenLength(s: string): (n: nat)
    ensures n <= |s|
  {
    if s == "" || s[0] == '/' then 0 else 1 + TokenLength(s[1..])
  }

  /** Section 3: a sequence of reference tokens, each after a slash. */
  ghost function ParsePointer(p: string): Option<seq<string>> {
    if p == "" then Some([])
    else if p[0] != '/' then None
    else
      var n := TokenLength(p[1..]);
      match ParsePointer(p[1 + n..])
      case None => None
      case Some(rest) => Some([Unescape(p[1..1 + n])] + rest)
  }

  lemma {:induction false} TokenEnds(token: string, rest: string)
    requires '/' !in token && (rest == "" || rest[0] == '/')
    ensures TokenLength(token + rest) == |token|
  {
    if token == "" {
      assert token + rest == rest;
    } else {
      TokenEnds(token[1..], rest);
      assert (token + rest)[1..] == token[1..] + rest;
    }
  }

  lemma ParseToken(token: string, rest: string)
    requires '/' !in token && (rest == "" || rest[0] == '/') && ParsePointer(rest).Some?
    ensures ParsePointer("/" + token + rest) == Some([Unescape(token)] + ParsePointer(rest).value)
  {
    var p := "/" + token + rest;
    TokenEnds(token, rest);
    assert p[1..] == token + rest;
    assert p[1..1 + |token|] == token && p[1 + |token|..] == rest;
  }

  /** What is written as a pointer is read back as the same tokens. */
  lemma {:induction false} PointerRoundTrip(tokens: seq<string>)
    ensures ParsePointer(Pointer(tokens)) == Some(tokens)
  {
    if tokens != [] {
      PointerRoundTrip(tokens[1..]);
      EscapeHidesSlash(tokens[0]);
      ParseToken(Escape(tokens[0]), Pointer(tokens[1..]));
      UnescapeEscape(tokens[0]);
      assert [tokens[0]] + tokens[1..] == tokens;
    }
  }
}
