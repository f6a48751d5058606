/** The few pieces of JavaScript semantics the scripts rely on: a possibly
    missing field (`undefined`), `String.prototype.trim`, `parseInt` on a
    decimal prefix, the `<` comparison with NaN, `replace(/-/g, '/')`, and the
    loose comparison of a `for...in` key with the number 0. */
module Js {

  datatype Option<T> = None | Some(value: T)

  /** How a template literal renders a value that may be `undefined`. */
  function Show(v: Option<string>): string {
    if v.Some? then v.value else "undefined"
  }

  // ---------------------------------------------------------------------
  // trim()

  /** ECMAScript WhiteSpace and LineTerminator code points: what trim() removes. */
  predicate IsSpace(c: char) {
    c == '\t' || c == '\n' || c == '\U{000B}' || c == '\U{000C}' || c == '\r' || c == ' '
    || c == '\U{00A0}' || c == '\U{1680}' || ('\U{2000}' <= c <= '\U{200A}')
    || c == '\U{2028}' || c == '\U{2029}' || c == '\U{202F}' || c == '\U{205F}'
    || c == '\U{3000}' || c == '\U{FEFF}'
  }

  /** The number of white-space characters `s` starts with. */
  function LeadingSpaces(s: string): (n: nat)
    ensures n <= |s|
    ensures forall i :: 0 <= i < n ==> IsSpace(s[i])
    ensures n < |s| ==> !IsSpace(s[n])
  {
    if s != [] && IsSpace(s[0]) then 1 + LeadingSpaces(s[1..]) else 0
  }

  /** The number of white-space characters `s` ends with. */
  function TrailingSpaces(s: string): (n: nat)
    ensures n <= |s|
    ensures forall i :: |s| - n <= i < |s| ==> IsSpace(s[i])
    ensures n < |s| ==> !IsSpace(s[|s| - 1 - n])
  {
    if s != [] && IsSpace(s[|s| - 1]) then 1 + TrailingSpaces(s[..|s| - 1]) else 0
  }

  /** String.prototype.trimStart. */
  function TrimStart(s: string): string {
    s[LeadingSpaces(s)..]
  }

  /** String.prototype.trim: the result is the middle of `s` once the white
      space at both ends is gone, and it neither starts nor ends with white space. */
  function Trim(s: string): (r: string)
    ensures LeadingSpaces(s) + |r| <= |s|
    ensures r == s[LeadingSpaces(s)..LeadingSpaces(s) + |r|]
    ensures forall i :: 0 <= i < LeadingSpaces(s) ==> IsSpace(s[i])
    ensures forall i :: LeadingSpaces(s) + |r| <= i < |s| ==> IsSpace(s[i])
    ensures r != [] ==> !IsSpace(r[0]) && !IsSpace(r[|r| - 1])
  {
    var a := LeadingSpaces(s);
    var t := s[a..];
    var b := TrailingSpaces(t);
    assert forall i :: a + |t| - b <= i < |s| ==> s[i] == t[i - a];
    s[a..|s| - b]
  }

  lemma {:induction false} LeadingSpacesOfPadded(l: string, m: string)
    requires forall i :: 0 <= i < |l| ==> IsSpace(l[i])
    requires m != [] ==> !IsSpace(m[0])
    ensures LeadingSpaces(l + m) == |l|
  {
    if l != [] {
      assert (l + m)[1..] == l[1..] + m;
      LeadingSpacesOfPadded(l[1..], m);
    }
  }

  lemma {:induction false} TrailingSpacesOfPadded(m: string, r: string)
    requires forall i :: 0 <= i < |r| ==> IsSpace(r[i])
    requires m != [] ==> !IsSpace(m[|m| - 1])
    ensures TrailingSpaces(m + r) == |r|
  {
    if r != [] {
      assert (m + r)[..|m + r| - 1] == m + r[..|r| - 1];
      TrailingSpacesOfPadded(m, r[..|r| - 1]);
    }
  }

  /** The converse of Trim's contract: white space around a text that has no
      white space at its ends is exactly what trim() removes. */
  lemma TrimOfPadded(l: string, m: string, r: string)
    requires forall i :: 0 <= i < |l| ==> IsSpace(l[i])
    requires forall i :: 0 <= i < |r| ==> IsSpace(r[i])
    requires m != [] ==> !IsSpace(m[0]) && !IsSpace(m[|m| - 1])
    ensures Trim(l + m + r) == m
  {
    var s := l + m + r;
    if m == [] {
      assert s == (l + r) + [];
      LeadingSpacesOfPadded(l + r, []);
    } else {
      assert s == l + (m + r);
      LeadingSpacesOfPadded(l, m + r);
      assert s[|l|..] == m + r;
      TrailingSpacesOfPadded(m, r);
    }
  }

  /** The status gate shared by every variant: the trimmed cell text is RECEIVED. */
  predicate IsReceived(cell: string) {
    Trim(cell) == "RECEIVED"
  }

  /** `cell` is RECEIVED starting at index `i`, with only white space around it. */
  predicate ReceivedAt(cell: string, i: int) {
    0 <= i <= |cell| - 8 && cell[i..i + 8] == "RECEIVED"
    && (forall k :: 0 <= k < i ==> IsSpace(cell[k]))
    && (forall k :: i + 8 <= k < |cell| ==> IsSpace(cell[k]))
  }

  lemma ReceivedAtLeadingSpaces(cell: string)
    requires IsReceived(cell)
    ensures ReceivedAt(cell, LeadingSpaces(cell))
  {
    var r := Trim(cell);
    assert |r| == 8;
  }

  lemma ReceivedAtTrims(cell: string, i: int)
    requires ReceivedAt(cell, i)
    ensures IsReceived(cell)
  {
    var l, r := cell[..i], cell[i + 8..];
    assert cell == l + "RECEIVED" + r;
    assert forall k :: 0 <= k < |r| ==> IsSpace(r[k]) by {
      forall k | 0 <= k < |r| ensures IsSpace(r[k]) {
        assert r[k] == cell[i + 8 + k];
      }
    }
    TrimOfPadded(l, "RECEIVED", r);
  }

  /** The gate admits RECEIVED padded with any white space, and only that. */
  lemma IsReceivedIff(cell: string)
    ensures IsReceived(cell) <==> exists i :: ReceivedAt(cell, i)
  {
    if IsReceived(cell) {
      ReceivedAtLeadingSpaces(cell);
    }
    if exists i :: ReceivedAt(cell, i) {
      var i :| ReceivedAt(cell, i);
      ReceivedAtTrims(cell, i);
    }
  }

  // ---------------------------------------------------------------------
  // Decimal digits, parseInt and <

  predicate IsDigit(c: char) { '0' <= c <= '9' }

  predicate AllDigits(s: string) {
    forall i :: 0 <= i < |s| ==> IsDigit(s[i])
  }

  /** The longest prefix of `s` made of decimal digits. */
  function DigitPrefix(s: string): (d: string)
    ensures |d| <= |s| && d == s[..|d|]
    ensures AllDigits(d)
    ensures |d| < |s| ==> !IsDigit(s[|d|])
  {
    if s != [] && IsDigit(s[0]) then [s[0]] + DigitPrefix(s[1..]) else []
  }

  /** The number a string of decimal digits denotes. */
  function DigitsValue(d: string): nat
    requires AllDigits(d)
  {
    if d == [] then 0 else DigitsValue(d[..|d| - 1]) * 10 + (d[|d| - 1] as int - '0' as int)
  }

  /** The decimal rendering of a natural number, without leading zeros. */
  function ShowNat(n: nat): (s: string)
    ensures s != [] && AllDigits(s)
    ensures |s| > 1 ==> s[0] != '0'
  {
    if n < 10 then [('0' as int + n) as char]
    else ShowNat(n / 10) + [('0' as int + n % 10) as char]
  }

  /** How String(n) renders an integer. */
  function ShowInt(i: int): string {
    if i < 0 then "-" + ShowNat(-i) else ShowNat(i)
  }

  lemma {:induction false} ShowNatValue(n: nat)
    ensures DigitsValue(ShowNat(n)) == n
  {
    if n >= 10 {
      var s := ShowNat(n);
      assert s[..|s| - 1] == ShowNat(n / 10);
      ShowNatValue(n / 10);
    }
  }

  lemma {:induction false} DigitPrefixOfDigits(d: string, rest: string)
    requires AllDigits(d)
    requires rest != [] ==> !IsDigit(rest[0])
    ensures DigitPrefix(d + rest) == d
  {
    if d != [] {
      assert (d + rest)[1..] == d[1..] + rest;
      DigitPrefixOfDigits(d[1..], rest);
    }
  }

  /** parseInt's result: an integer or NaN. */
  datatype Number = Int(value: int) | NaN

  /** parseInt(s) with no radix on a decimal text: leading white space is
      skipped, an optional sign is read, then the longest run of digits; no
      digit at all gives NaN. Whatever follows the digits (a thousands
      separator, a decimal point, a unit) is ignored. */
  function ParseInt(s: string): (n: Number)
    ensures n.NaN? <==>
      var t := TrimStart(s);
      var body := if t != [] && (t[0] == '-' || t[0] == '+') then t[1..] else t;
      body == [] || !IsDigit(body[0])
  {
    var t := TrimStart(s);
    var negative := t != [] && t[0] == '-';
    var body := if t != [] && (t[0] == '-' || t[0] == '+') then t[1..] else t;
    var d := DigitPrefix(body);
    if d == [] then NaN
    else Int(if negative then -(DigitsValue(d) as int) else DigitsValue(d))
  }

  /** parseInt of a field that may be `undefined`: parseInt(undefined) is NaN. */
  function ParseField(v: Option<string>): Number {
    if v.Some? then ParseInt(v.value) else NaN
  }

  /** The `<` of JavaScript numbers: any comparison with NaN is false. */
  predicate Less(a: Number, b: Number) {
    a.Int? && b.Int? && a.value < b.value
  }

  /** A string that does not start with white space is its own trimStart. */
  lemma TrimStartOfUnpadded(s: string)
    requires s != [] && !IsSpace(s[0])
    ensures TrimStart(s) == s
  {
    assert LeadingSpaces(s) == 0;
  }

  /** parseInt of an unsigned decimal text followed by a non-digit. */
  lemma ParseIntOfDigits(d: string, rest: string)
    requires d != [] && AllDigits(d)
    requires rest != [] ==> !IsDigit(rest[0])
    ensures ParseInt(d + rest) == Int(DigitsValue(d))
  {
    var s := d + rest;
    assert s[0] == d[0] && IsDigit(s[0]);
    TrimStartOfUnpadded(s);
    DigitPrefixOfDigits(d, rest);
  }

  /** parseInt of a negative decimal text followed by a non-digit. */
  lemma ParseIntOfNegativeDigits(d: string, rest: string)
    requires d != [] && AllDigits(d)
    requires rest != [] ==> !IsDigit(rest[0])
    ensures ParseInt("-" + d + rest) == Int(-(DigitsValue(d) as int))
  {
    var s := "-" + d + rest;
    assert s[0] == '-' && s[1..] == d + rest;
    DigitPrefixOfDigits(d, rest);
    ParseIntOfMinus(s, d);
  }

  /** parseInt of a text that starts with a minus sign and digits. */
  lemma ParseIntOfMinus(s: string, d: string)
    requires |s| > 1 && s[0] == '-' && d != [] && DigitPrefix(s[1..]) == d
    ensures ParseInt(s) == Int(-(DigitsValue(d) as int))
  {
    TrimStartOfUnpadded(s);
  }

  /** parseInt reads back the decimal rendering of any integer, whatever
      non-digit text follows it. */
  lemma ParseIntShowInt(i: int, rest: string)
    requires rest != [] ==> !IsDigit(rest[0])
    ensures ParseInt(ShowInt(i) + rest) == Int(i)
  {
    if i < 0 {
      ShowNatValue(-i);
      ParseIntOfNegativeDigits(ShowNat(-i), rest);
    } else {
      ShowNatValue(i);
      ParseIntOfDigits(ShowNat(i), rest);
    }
  }

  /** An example of `ParseIntShowInt` for the amounts the scripts read: a
      thousands separator ends the digits, so parseInt("1,234") is 1. */
  lemma ParseIntStopsAtSeparator()
    ensures ParseInt("1,234") == Int(1)
  {
    ParseIntShowInt(1, ",234");
    assert ShowInt(1) + ",234" == "1,234";
  }

  // ---------------------------------------------------------------------
  // replace(/-/g, '/')

  /** `s.replace(/-/g, '/')`: every hyphen becomes a slash, every other
      character stays where it is. */
  function ReplaceDashes(s: string): (r: string)
    ensures |r| == |s|
    ensures forall i :: 0 <= i < |s| ==> r[i] == (if s[i] == '-' then '/' else s[i])
  {
    if s == [] then [] else [if s[0] == '-' then '/' else s[0]] + ReplaceDashes(s[1..])
  }

  /** After the rewrite no hyphen is left, and a second rewrite changes nothing. */
  lemma ReplaceDashesIdempotent(s: string)
    ensures '-' !in ReplaceDashes(s)
    ensures ReplaceDashes(ReplaceDashes(s)) == ReplaceDashes(s)
  {
    var r := ReplaceDashes(s);
    assert forall i :: 0 <= i < |r| ==> r[i] != '-';
  }

  predicate NoDash(s: string) {
    forall i :: 0 <= i < |s| ==> s[i] != '-'
  }

  /** A sheet date DD-MM-YYYY becomes DD/MM/YYYY, the form the issue date
      field takes; the parts themselves are left alone. */
  lemma ReplaceDashesDate(day: string, month: string, year: string)
    requires NoDash(day) && NoDash(month) && NoDash(year)
    ensures ReplaceDashes(day + "-" + month + "-" + year) == day + "/" + month + "/" + year
  {
    var s1 := day + "-";
    var s2 := s1 + month;
    var s3 := s2 + "-";
    assert ReplaceDashes("-") == "/";
    assert ReplaceDashes(s1) == day + "/" by {
      ReplaceDashesKeeps(day);
      ReplaceDashesAppend(day, "-");
    }
    assert ReplaceDashes(s2) == day + "/" + month by {
      ReplaceDashesKeeps(month);
      ReplaceDashesAppend(s1, month);
    }
    assert ReplaceDashes(s3) == day + "/" + month + "/" by {
      ReplaceDashesAppend(s2, "-");
    }
    assert ReplaceDashes(s3 + year) == day + "/" + month + "/" + year by {
      ReplaceDashesKeeps(year);
      ReplaceDashesAppend(s3, year);
    }
  }

  /** The rewrite works character by character, so it distributes over `+`. */
  lemma ReplaceDashesAppend(a: string, b: string)
    ensures ReplaceDashes(a + b) == ReplaceDashes(a) + ReplaceDashes(b)
  {
    var l, r := ReplaceDashes(a + b), ReplaceDashes(a) + ReplaceDashes(b);
    forall i | 0 <= i < |l| ensures l[i] == r[i] {
      if i < |a| {
        assert (a + b)[i] == a[i];
      } else {
        assert (a + b)[i] == b[i - |a|];
      }
    }
  }

  /** A text with no hyphen is left as it is. */
  lemma ReplaceDashesKeeps(s: string)
    requires NoDash(s)
    ensures ReplaceDashes(s) == s
  {
  }

  // ---------------------------------------------------------------------
  // for...in keys compared with == 0

  /** ToNumber on the strings that occur as array keys: white space is
      trimmed, the empty string is 0, a run of decimal digits is its value,
      anything else is NaN here. */
  function KeyToNumber(key: string): Number {
    var t := Trim(key);
    if t == [] then Int(0) else if AllDigits(t) then Int(DigitsValue(t)) else NaN
  }

  /** `key == 0` for a string key: the key is converted to a number first. */
  predicate LooseEqualsZero(key: string) {
    KeyToNumber(key) == Int(0)
  }

  /** for...in over an array yields the keys "0", "1", ...: only the first
      compares equal to 0. */
  lemma ForInKeyEqualsZero(n: nat)
    ensures LooseEqualsZero(ShowNat(n)) <==> n == 0
  {
    var s := ShowNat(n);
    TrimOfPadded([], s, []);
    assert [] + s + [] == s;
    ShowNatValue(n);
  }
}
