/** The pure part of the code composer: the digit filter applied to the input
    field, the seven-digit cap, and the text `updateResult` writes into the
    result element. */
module CodeFormat {

  /** Width of the digit field of a code; also the cap on typed digits. */
  const Width: nat := 7

  /** The class `[0-9]` of the sanitising regular expression. */
  predicate IsDigit(c: char) {
    '0' <= c <= '9'
  }

  predicate AllDigits(s: string) {
    forall i :: 0 <= i < |s| ==> IsDigit(s[i])
  }

  /** `n` copies of `c`. */
  function Repeat(c: char, n: nat): (r: string)
    ensures |r| == n
    ensures forall k :: 0 <= k < n ==> r[k] == c
  {
    if n == 0 then [] else [c] + Repeat(c, n - 1)
  }

  /** `String.prototype.padStart` with a one-character filler: prefixes `fill`
      until the text is `width` long; a text already that long is kept. */
  function PadStart(s: string, width: nat, fill: char): (r: string)
    ensures |r| == if |s| < width then width else |s|
    ensures r[|r| - |s|..] == s
    ensures forall k :: 0 <= k < |r| - |s| ==> r[k] == fill
  {
    if |s| >= width then s else Repeat(fill, width - |s|) + s
  }

  /** `value.replace(/[^0-9]/g, '')`: drops every character that is not a digit. */
  function Sanitize(s: string): (r: string)
    ensures AllDigits(r)
    ensures |r| <= |s|
  {
    if s == [] then []
    else (if IsDigit(s[0]) then [s[0]] else []) + Sanitize(s[1..])
  }

  /** What the input handler leaves in the field before it decides whether to
      commit: the sanitised text, cut to its first `Width` digits by `slice(0, 7)`. */
  function Clean(raw: string): (r: string)
    ensures AllDigits(r)
    ensures |r| == if |Sanitize(raw)| > Width then Width else |Sanitize(raw)|
    ensures r == Sanitize(raw)[..|r|]
  {
    var digits := Sanitize(raw);
    if |digits| > Width then digits[..Width] else digits
  }

  /** The text `updateResult` puts in the result element:
      SECTION-NUMBER-F followed by the buffer zero-padded to seven places. */
  function ResultCode(section: string, number: string, digits: string): (r: string)
    ensures |r| == |section| + |number| + 3 + (if |digits| < Width then Width else |digits|)
  {
    section + "-" + number + "-F" + PadStart(digits, Width, '0')
  }

  /** Reads a digit string as a decimal number, most significant digit first. */
  function DigitsValue(s: string): nat
    requires AllDigits(s)
  {
    if s == [] then 0 else 10 * DigitsValue(s[..|s| - 1]) + (s[|s| - 1] as int - '0' as int)
  }

  // ---------------------------------------------------------------------
  // Sanitising

  /** The filter works character by character: filtering a concatenation is
      concatenating the filtered parts, so the digits keep their order. */
  lemma {:induction false} SanitizeAppend(a: string, b: string)
    ensures Sanitize(a + b) == Sanitize(a) + Sanitize(b)
  {
    if a == [] {
      assert a + b == b;
    } else {
      var head := if IsDigit(a[0]) then [a[0]] else [];
      assert (a + b)[0] == a[0];
      assert (a + b)[1..] == a[1..] + b;
      assert Sanitize(a + b) == head + Sanitize(a[1..] + b);
      SanitizeAppend(a[1..], b);
      assert Sanitize(a) == head + Sanitize(a[1..]);
    }
  }

  /** A single character survives exactly when it is a digit. */
  lemma SanitizeChar(c: char)
    ensures Sanitize([c]) == if IsDigit(c) then [c] else []
  {
    assert [c][1..] == [];
  }

  /** Every digit of the input is kept, as often as it occurs, and nothing else is. */
  lemma {:induction false} SanitizeCounts(s: string, c: char)
    ensures multiset(Sanitize(s))[c] == if IsDigit(c) then multiset(s)[c] else 0
  {
    if s != [] {
      SanitizeCounts(s[1..], c);
      assert s == [s[0]] + s[1..];
      assert multiset(s) == multiset([s[0]]) + multiset(s[1..]);
    }
  }

  /** A text of digits only passes through the filter unchanged. */
  lemma {:induction false} SanitizeDigitsFixed(s: string)
    requires AllDigits(s)
    ensures Sanitize(s) == s
  {
    if s != [] {
      SanitizeDigitsFixed(s[1..]);
      assert s == [s[0]] + s[1..];
    }
  }

  /** Sanitising twice is sanitising once. */
  lemma SanitizeIdempotent(s: string)
    ensures Sanitize(Sanitize(s)) == Sanitize(s)
  {
    SanitizeDigitsFixed(Sanitize(s));
  }

  /** Feeding the cleaned text through the handler's filter and cap again
      changes nothing; a text with at most seven digits and nothing else is
      kept as it is. */
  lemma CleanIdempotent(raw: string)
    ensures Clean(Clean(raw)) == Clean(raw)
    ensures AllDigits(raw) && |raw| <= Width ==> Clean(raw) == raw
  {
    SanitizeDigitsFixed(Clean(raw));
    if AllDigits(raw) {
      SanitizeDigitsFixed(raw);
    }
  }

  /** When the filtered input runs past seven digits, the kept part is its
      first seven digits. */
  lemma CleanTruncates(raw: string)
    requires |Sanitize(raw)| > Width
    ensures Clean(raw) == Sanitize(raw)[..Width]
    ensures |Clean(raw)| == Width
  {
  }

  // ---------------------------------------------------------------------
  // The result text

  /** A leading zero does not change the value of a digit string. */
  lemma {:induction false} LeadingZeroValue(s: string)
    requires AllDigits(s)
    ensures AllDigits("0" + s)
    ensures DigitsValue("0" + s) == DigitsValue(s)
  {
    if s != [] {
      var t := "0" + s;
      assert t[..|t| - 1] == "0" + s[..|s| - 1];
      assert t[|t| - 1] == s[|s| - 1];
      LeadingZeroValue(s[..|s| - 1]);
    }
  }

  /** Leading zeros do not change the value of a digit string. */
  lemma {:induction false} ZerosKeepValue(n: nat, s: string)
    requires AllDigits(s)
    ensures AllDigits(Repeat('0', n) + s)
    ensures DigitsValue(Repeat('0', n) + s) == DigitsValue(s)
  {
    if n > 0 {
      ZerosKeepValue(n - 1, s);
      var t := Repeat('0', n - 1) + s;
      assert Repeat('0', n) + s == "0" + t;
      LeadingZeroValue(t);
      calc {
        DigitsValue(Repeat('0', n) + s);
        DigitsValue("0" + t);
        DigitsValue(t);
        DigitsValue(s);
      }
    } else {
      assert Repeat('0', n) + s == s;
    }
  }

  /** Zero padding keeps the number the digits denote. */
  lemma PadKeepsValue(s: string, width: nat)
    requires AllDigits(s)
    ensures AllDigits(PadStart(s, width, '0'))
    ensures DigitsValue(PadStart(s, width, '0')) == DigitsValue(s)
  {
    if |s| < width {
      ZerosKeepValue(width - |s|, s);
    }
  }

  /** The field of a code read as a number is the number typed. */
  lemma CodeFieldValue(digits: string)
    requires AllDigits(digits) && |digits| <= Width
    ensures var field := PadStart(digits, Width, '0');
            |field| == Width && AllDigits(field) && DigitsValue(field) == DigitsValue(digits)
  {
    PadKeepsValue(digits, Width);
  }

  /** Where each part sits in a result code: the section, a hyphen, the
      number and "-F" come first, and the seven-place digit field closes it.
      With two-letter sections and two-digit numbers a code is 14 characters. */
  lemma ResultCodeLayout(section: string, number: string, digits: string)
    requires |digits| <= Width
    ensures var r := ResultCode(section, number, digits);
            |r| == |section| + |number| + 3 + Width &&
            r[..|section|] == section &&
            r[|section|] == '-' &&
            r[|section| + 1..|section| + 1 + |number|] == number &&
            r[|section| + 1 + |number|..|section| + |number| + 3] == "-F" &&
            r[|section| + |number| + 3..] == PadStart(digits, Width, '0')
    ensures |section| == 2 && |number| == 2 ==> |ResultCode(section, number, digits)| == 14
  {
    var field := PadStart(digits, Width, '0');
    assert |field| == Width;
    HeadLayout(section, number, field);
  }

  lemma HeadLayout(section: string, number: string, field: string)
    ensures var r := section + "-" + number + "-F" + field;
            |r| == |section| + |number| + 3 + |field| &&
            r[..|section|] == section &&
            r[|section|] == '-' &&
            r[|section| + 1..|section| + 1 + |number|] == number &&
            r[|section| + 1 + |number|..|section| + |number| + 3] == "-F" &&
            r[|section| + |number| + 3..] == field
  {
    var r := section + "-" + number + "-F" + field;
    var head := section + "-" + number + "-F";
    var f := |section| + |number| + 3;
    assert r == head + field;
    assert |head| == f;
    assert r[..f] == head;
    assert head[..|section|] == section;
    assert head[|section| + 1..|section| + 1 + |number|] == number;
  }

  /** The digit field of a code: zeros in the places the typed digits do
      not fill, then the digits themselves, last digit last. */
  lemma DigitFieldLayout(digits: string)
    requires |digits| <= Width
    ensures var field := PadStart(digits, Width, '0');
            |field| == Width &&
            (forall k :: 0 <= k < Width - |digits| ==> field[k] == '0') &&
            field[Width - |digits|..] == digits
  {
  }

  /** An all-digit buffer of full width appears in the code without padding. */
  lemma FullCodeUnpadded(section: string, number: string, digits: string)
    requires |digits| == Width
    ensures ResultCode(section, number, digits) == section + "-" + number + "-F" + digits
  {
  }
}
