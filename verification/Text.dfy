/** Python's notion of white space, str.strip and decimal numerals. */
module Text {
  predicate IsSpace(c: char) {
    || '\t' <= c <= '\r' || '\U{1c}' <= c <= ' ' || c == '\U{85}' || c == '\U{a0}' || c == '\U{1680}'
    || '\U{2000}' <= c <= '\U{200a}' || c == '\U{2028}' || c == '\U{2029}' || c == '\U{202f}'
    || c == '\U{205f}' || c == '\U{3000}'
  }

  function StripLeft(s: string): string {
    if s != "" && IsSpace(s[0]) then StripLeft(s[1..]) else s
  }

  function StripRight(s: string): string {
    if s != "" && IsSpace(s[|s| - 1]) then StripRight(s[..|s| - 1]) else s
  }

  function Strip(s: string): string {
    StripRight(StripLeft(s))
  }

  /** Nothing but white space. */
  predicate Spaces(s: string) {
    forall i :: 0 <= i < |s| ==> IsSpace(s[i])
  }

  /** No leading or trailing white space. */
  predicate Stripped(s: string) {
    s == "" || (!IsSpace(s[0]) && !IsSpace(s[|s| - 1]))
  }

  lemma {:induction false} LeftIs(pad: string, s: string)
    requires Spaces(pad) && (s == "" || !IsSpace(s[0]))
    ensures StripLeft(pad + s) == s
  {
    if pad == "" {
      assert pad + s == s;
    } else {
      LeftIs(pad[1..], s);
      assert (pad + s)[1..] == pad[1..] + s;
    }
  }

  lemma {:induction false} RightIs(s: string, pad: string)
    requires Spaces(pad) && (s == "" || !IsSpace(s[|s| - 1]))
    ensures StripRight(s + pad) == s
  {
    if pad == "" {
      assert s + pad == s;
    } else {
      RightIs(s, pad[..|pad| - 1]);
      assert (s + pad)[..|s + pad| - 1] == s + pad[..|pad| - 1];
    }
  }

  /** Between white space, a stripped string is what stripping finds. */
  lemma StripIs(left: string, s: string, right: string)
    requires Spaces(left) && Spaces(right) && Stripped(s)
    ensures Strip(left + s + right) == s
  {
    if s == "" {
      LeftIs(left + right, "");
      assert left + s + right == left + right + "";
    } else {
      LeftIs(left, s + right);
      assert left + s + right == left + (s + right);
      RightIs(s, right);
    }
  }

  lemma {:induction false} LeftPad(s: string) returns (pad: string)
    ensures s == pad + StripLeft(s) && Spaces(pad)
    ensures StripLeft(s) == "" || !IsSpace(StripLeft(s)[0])
  {
    if s != "" && IsSpace(s[0]) {
      var rest := LeftPad(s[1..]);
      pad := [s[0]] + rest;
      assert s == [s[0]] + s[1..];
    } else {
      pad := "";
    }
  }

  lemma {:induction false} RightPad(s: string) returns (pad: string)
    ensures s == StripRight(s) + pad && Spaces(pad)
    ensures StripRight(s) == "" || !IsSpace(StripRight(s)[|StripRight(s)| - 1])
  {
    if s != "" && IsSpace(s[|s| - 1]) {
      var rest := RightPad(s[..|s| - 1]);
      pad := rest + [s[|s| - 1]];
      assert s == s[..|s| - 1] + [s[|s| - 1]];
    } else {
      pad := "";
    }
  }

  /** A string is its stripped form between white space. */
  lemma Pads(s: string) returns (left: string, right: string)
    ensures s == left + Strip(s) + right && Spaces(left) && Spaces(right) && Stripped(Strip(s))
  {
    left := LeftPad(s);
    right := RightPad(StripLeft(s));
  }

  /** Stripping changes exactly the strings with white space at an end. */
  lemma StripIdentity(s: string)
    ensures Strip(s) == s <==> Stripped(s)
    ensures Stripped(Strip(s))
  {
    var left, right := Pads(s);
    if Stripped(s) {
      StripIs("", s, "");
      assert "" + s + "" == s;
    }
  }

  // ---- Numerals -----------------------------------------------------------------------------------

  function Digit(d: nat): char
    requires d < 10
  {
    '0' + d as char
  }

  function Decimal(n: nat): (s: string)
    ensures s != ""
    ensures forall i :: 0 <= i < |s| ==> '0' <= s[i] <= '9'
  {
    if n < 10 then [Digit(n)] else Decimal(n / 10) + [Digit(n % 10)]
  }

  function ValueOf(digits: string): int {
    if digits == "" then 0 else 10 * ValueOf(digits[..|digits| - 1]) + (digits[|digits| - 1] as int - '0' as int)
  }

  /** The decimal numeral of n denotes n. */
  lemma {:induction false} DecimalDenotes(n: nat)
    ensures ValueOf(Decimal(n)) == n
  {
    var s := Decimal(n);
    assert s[|s| - 1] == Digit(n % 10);
    if n < 10 {
      assert s[..|s| - 1] == "";
    } else {
      assert s[..|s| - 1] == Decimal(n / 10);
      DecimalDenotes(n / 10);
    }
  }

  lemma DecimalInjective(a: nat, b: nat)
    requires Decimal(a) == Decimal(b)
    ensures a == b
  {
    DecimalDenotes(a);
    DecimalDenotes(b);
  }

  lemma {:induction false} DecimalLengthMonotone(a: nat, b: nat)
    requires a <= b
    ensures |Decimal(a)| <= |Decimal(b)|
  {
    if a >= 10 {
      DecimalLengthMonotone(a / 10, b / 10);
    }
  }
}
