/**
  The few PHP built-ins the plugin's core leans on, written out so that the
  rest of the model can state exactly what they do: `strtolower`, `absint`
  (with the `intval` string conversion under it), the decimal rendering of an
  integer in string concatenation, `basename`, and string truthiness.
 */
module Php {

  // ---------------------------------------------------------------------
  // strtolower (ASCII letters only, as in PHP 8.2 and later)

  predicate IsUpper(c: char) {
    'A' <= c <= 'Z'
  }

  function LowerChar(c: char): (d: char)
    ensures !IsUpper(d)
    ensures IsUpper(c) ==> d as int == c as int + 32
    ensures !IsUpper(c) ==> d == c
  {
    if IsUpper(c) then (c as int + 32) as char else c
  }

  function Lower(s: string): (r: string)
    ensures |r| == |s|
    ensures forall i :: 0 <= i < |s| ==> r[i] == LowerChar(s[i])
  {
    if s == [] then [] else [LowerChar(s[0])] + Lower(s[1..])
  }

  /** A string Lower leaves alone has no upper-case letter, and the other way round. */
  predicate IsLowered(s: string) {
    forall i :: 0 <= i < |s| ==> !IsUpper(s[i])
  }

  lemma LowerIsLowered(s: string)
    ensures IsLowered(Lower(s))
    ensures Lower(s) == s <==> IsLowered(s)
  {
    if IsLowered(s) {
      assert forall i :: 0 <= i < |s| ==> Lower(s)[i] == s[i];
    } else {
      var i :| 0 <= i < |s| && IsUpper(s[i]);
      assert Lower(s)[i] != s[i];
    }
  }

  /** Lowering twice is lowering once. */
  lemma {:induction false} LowerIdempotent(s: string)
    ensures Lower(Lower(s)) == Lower(s)
  {
    if s != [] {
      LowerIdempotent(s[1..]);
      assert Lower(s) == [LowerChar(s[0])] + Lower(s[1..]);
      assert Lower(s)[1..] == Lower(s[1..]);
    }
  }

  // ---------------------------------------------------------------------
  // absint: abs((int) $value) for the string values route variables carry

  predicate IsDigit(c: char) {
    '0' <= c <= '9'
  }

  predicate AllDigits(s: string) {
    forall i :: 0 <= i < |s| ==> IsDigit(s[i])
  }

  /** The characters PHP skips in front of a numeric string. */
  predicate IsSpace(c: char) {
    c == ' ' || c == '\t' || c == '\n' || c == '\r' || c == '\U{000B}' || c == '\U{000C}'
  }

  function SkipSpace(s: string): (r: string)
    ensures |r| <= |s| && r == s[|s| - |r|..]
    ensures r == [] || !IsSpace(r[0])
  {
    if s != [] && IsSpace(s[0]) then SkipSpace(s[1..]) else s
  }

  /** The longest prefix of `s` made of decimal digits. */
  function DigitPrefix(s: string): (r: string)
    ensures AllDigits(r)
    ensures |r| <= |s| && r == s[..|r|]
    ensures |r| == |s| || !IsDigit(s[|r|])
  {
    if s != [] && IsDigit(s[0]) then [s[0]] + DigitPrefix(s[1..]) else []
  }

  function DigitValue(c: char): nat
    requires IsDigit(c)
  {
    c as int - '0' as int
  }

  function DigitChar(d: nat): (c: char)
    requires d < 10
    ensures IsDigit(c) && DigitValue(c) == d
  {
    ('0' as int + d) as char
  }

  /** The number that a string of decimal digits denotes. */
  function DigitsValue(s: string): nat
    requires AllDigits(s)
  {
    if s == [] then 0 else DigitsValue(s[..|s| - 1]) * 10 + DigitValue(s[|s| - 1])
  }

  /** What follows an optional leading sign. */
  function Unsigned(t: string): (u: string)
    ensures u == t || (t != [] && t[0] in "+-" && u == t[1..])
  {
    if t != [] && t[0] in "+-" then t[1..] else t
  }

  /** Whether a digit follows the leading white space and an optional sign. */
  predicate StartsNumeric(s: string) {
    var u := Unsigned(SkipSpace(s));
    u != [] && IsDigit(u[0])
  }

  /**
    `(int) $s`: skip leading white space, read an optional sign, then the
    leading run of digits; anything else contributes nothing, and a string
    without leading digits converts to 0.
   */
  function IntVal(s: string): (v: int)
    ensures v < 0 ==> SkipSpace(s) != [] && SkipSpace(s)[0] == '-'
  {
    var t := SkipSpace(s);
    var m := DigitsValue(DigitPrefix(Unsigned(t)));
    if t != [] && t[0] == '-' then -(m as int) else m
  }

  function AbsInt(s: string): (n: nat)
    ensures n == IntVal(s) || n == -IntVal(s)
  {
    var v := IntVal(s);
    if v < 0 then -v else v
  }

  /** `absint` of a value that is already an integer. */
  function Abs(i: int): (n: nat)
    ensures n == i || n == -i
  {
    if i < 0 then -i else i
  }

  /**
    A string in which no digit follows the leading blanks and an optional sign
    (empty, a word, a lone sign, a signed word) converts to 0.
   */
  lemma AbsIntOfNonNumeric(s: string)
    requires !StartsNumeric(s)
    ensures AbsInt(s) == 0
  {
    var u := Unsigned(SkipSpace(s));
    assert DigitPrefix(u) == [];
  }

  // ---------------------------------------------------------------------
  // Decimal rendering of an integer, as `'text' . $int` produces it

  function NatToString(n: nat): (s: string)
    ensures s != [] && AllDigits(s)
    ensures s[0] == '0' ==> n == 0
    ensures n < 10 <==> |s| == 1
  {
    if n < 10 then [DigitChar(n)] else NatToString(n / 10) + [DigitChar(n % 10)]
  }

  lemma {:induction false} DigitsValueOfNatToString(n: nat)
    ensures DigitsValue(NatToString(n)) == n
  {
    var s := NatToString(n);
    if n >= 10 {
      DigitsValueOfNatToString(n / 10);
      assert s[..|s| - 1] == NatToString(n / 10);
    }
  }

  lemma {:induction false} DigitPrefixOfDigits(s: string)
    requires AllDigits(s)
    ensures DigitPrefix(s) == s
  {
    if s != [] {
      DigitPrefixOfDigits(s[1..]);
    }
  }

  /** A string of decimal digits alone converts to the number it denotes. */
  lemma AbsIntOfDigits(s: string)
    requires AllDigits(s)
    ensures AbsInt(s) == DigitsValue(s)
  {
    if s != [] {
      assert !IsSpace(s[0]) && s[0] !in "+-";
      assert SkipSpace(s) == s && Unsigned(s) == s;
    }
    DigitPrefixOfDigits(s);
  }

  /** Reading back the rendering of a number gives the number: absint undoes concatenation. */
  lemma AbsIntOfNatToString(n: nat)
    ensures AbsInt(NatToString(n)) == n
  {
    AbsIntOfDigits(NatToString(n));
    DigitsValueOfNatToString(n);
  }

  // ---------------------------------------------------------------------
  // basename (POSIX separators, no suffix argument)

  function StripTrailingSlashes(s: string): (r: string)
    ensures |r| <= |s| && r == s[..|r|]
    ensures r == [] || r[|r| - 1] != '/'
    ensures forall i :: |r| <= i < |s| ==> s[i] == '/'
  {
    if s != [] && s[|s| - 1] == '/' then StripTrailingSlashes(s[..|s| - 1]) else s
  }

  /** The part of `s` after its last `/`, or all of `s` when it has none. */
  function AfterLastSlash(s: string): (r: string)
    ensures '/' !in r
    ensures |r| <= |s| && r == s[|s| - |r|..]
    ensures |r| == |s| || s[|s| - |r| - 1] == '/'
  {
    if s == [] || s[|s| - 1] == '/' then [] else AfterLastSlash(s[..|s| - 1]) + [s[|s| - 1]]
  }

  function Basename(path: string): (name: string)
    ensures '/' !in name
  {
    AfterLastSlash(StripTrailingSlashes(path))
  }

  lemma {:induction false} AfterLastSlashOfJoin(dir: string, name: string)
    requires '/' !in name
    ensures AfterLastSlash(dir + "/" + name) == name
  {
    if name == [] {
    } else {
      var p := dir + "/" + name;
      assert p[..|p| - 1] == dir + "/" + name[..|name| - 1];
      AfterLastSlashOfJoin(dir, name[..|name| - 1]);
    }
  }

  /** The base name of `dir/name` is `name`, whatever the directory part. */
  lemma BasenameOfJoin(dir: string, name: string)
    requires name != [] && '/' !in name
    ensures Basename(dir + "/" + name) == name
  {
    var p := dir + "/" + name;
    assert p[|p| - 1] == name[|name| - 1];
    assert StripTrailingSlashes(p) == p;
    AfterLastSlashOfJoin(dir, name);
  }

  // ---------------------------------------------------------------------
  // PHP truthiness of a string: "" and "0" are the falsy strings

  predicate Truthy(s: string): (b: bool)
    ensures !b ==> AbsInt(s) == 0
    ensures |s| >= 2 ==> b
  {
    assert DigitsValue("0") == 0 by { assert "0"[..0] == ""; }
    s != "" && s != "0"
  }
}
