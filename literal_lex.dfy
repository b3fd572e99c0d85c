/** `LiteralLexChecker`: the base of the numeric-literal checkers. It holds
    the text `s` and a cursor `idx` that the checks advance; each check
    answers whether a piece of Java literal syntax starts at the cursor. */
module LiteralLex {

  /** `Character.isDigit`, for ASCII digits. */
  predicate IsDigit(c: char) { '0' <= c <= '9' }

  predicate IsDigitOrUnderscore(c: char) { c == '_' || IsDigit(c) }

  /** End of the run of digits and underscores that starts at `i`. */
  function RunEnd(s: string, i: nat): (e: nat)
    requires i <= |s|
    ensures i <= e <= |s|
    ensures forall k | i <= k < e :: IsDigitOrUnderscore(s[k])
    ensures e < |s| ==> !IsDigitOrUnderscore(s[e])
    decreases |s| - i
  {
    if i < |s| && IsDigitOrUnderscore(s[i]) then RunEnd(s, i + 1) else i
  }

  /** The digit sequences of Java's literal grammar: digits with
      underscores between them, starting and ending with a digit. */
  predicate Digits(t: string) {
    |t| >= 1 && IsDigit(t[0]) && IsDigit(t[|t| - 1]) &&
    forall k | 0 <= k < |t| :: IsDigitOrUnderscore(t[k])
  }

  /** The special floating-point names the checker accepts. */
  predicate FloatConstant(s: string) {
    var u := if s != [] && (s[0] == '+' || s[0] == '-') then s[1..] else s;
    u == "NaN" || u == "Infinity"
  }

  /** Where the digits of a signed integer start: after one optional sign. */
  function DigitsStart(s: string, i: nat): nat
    requires i < |s|
  {
    if s[i] == '+' || s[i] == '-' then i + 1 else i
  }

  class LiteralLexChecker {
    const s: string
    var idx: nat

    constructor (text: string)
      ensures s == text && idx == 0
    {
      s := text;
      idx := 0;
    }

    /** `isEnd`: the cursor is past the last character. */
    method IsEnd() returns (r: bool)
      ensures r <==> idx >= |s|
    {
      r := idx >= |s|;
    }

    /** `hasNext`: move the cursor one character on and tell whether it is
        still inside the text. */
    method HasNext() returns (r: bool)
      modifies this
      ensures idx == old(idx) + 1
      ensures r <==> idx < |s|
    {
      idx := idx + 1;
      r := idx < |s|;
    }

    /** `isFloatConstants`: the whole text is `NaN` or `Infinity`, with or
        without one sign. The cursor is not used. */
    method IsFloatConstants() returns (r: bool)
      ensures r <==> FloatConstant(s)
    {
      FloatConstantNames(s);
      r := s == "+NaN" || s == "-NaN" || s == "NaN" ||
           s == "+Infinity" || s == "-Infinity" || s == "Infinity";
    }

    /** `isFloatTypeSuffix`: the character at the cursor is `f`, `F`, `d`
        or `D` and it is the last one. The cursor does not move. */
    method IsFloatTypeSuffix() returns (r: bool)
      ensures r <==> idx + 1 == |s| && s[idx] in "fFdD"
    {
      var atEnd := IsEnd();
      if atEnd {
        return false;
      }
      var c := s[idx];
      if c == 'f' || c == 'F' || c == 'd' || c == 'D' {
        r := idx + 1 == |s|;
      } else {
        r := false;
      }
    }

    /** `isDigits`: at a digit, consume the run of digits and underscores
        that follows; succeed when what was consumed is a digit sequence of
        Java's grammar, that is, when its last character is a digit. At the
        end or at a non-digit, fail without moving. */
    method IsDigits() returns (r: bool)
      modifies this
      ensures old(idx) >= |s| || !IsDigit(s[old(idx)]) ==> !r && idx == old(idx)
      ensures old(idx) < |s| && IsDigit(s[old(idx)]) ==> idx == RunEnd(s, old(idx))
      ensures r <==> old(idx) < idx <= |s| && Digits(s[old(idx)..idx])
    {
      var atEnd := IsEnd();
      if atEnd {
        return false;
      }
      if !IsDigit(s[idx]) {
        return false;
      }
      ghost var start := idx;
      var more := HasNext();
      if !more {
        assert s[start..idx] == [s[start]];
        return true;
      }
      while idx < |s|
        invariant start < idx <= |s|
        invariant RunEnd(s, start) == RunEnd(s, idx)
        decreases |s| - idx
      {
        var c := s[idx];
        if c == '_' || IsDigit(c) {
          idx := idx + 1;
        } else {
          break;
        }
      }
      r := IsDigit(s[idx - 1]);
      DigitsOfRun(s, start, idx);
    }

    /** `isSignedInteger`: one optional `+` or `-`, then `isDigits`. The
        cursor ends after the digit run, or, where no digit follows, just
        past the sign (if any); at the end of the text it does not move. */
    method IsSignedInteger() returns (r: bool)
      modifies this
      ensures old(idx) >= |s| ==> !r && idx == old(idx)
      ensures old(idx) < |s| ==> old(idx) <= idx <= |s|
      ensures old(idx) < |s| ==>
        var j := DigitsStart(s, old(idx));
        (r <==> j < idx && Digits(s[j..idx])) &&
        idx == (if j < |s| && IsDigit(s[j]) then RunEnd(s, j) else j)
    {
      var atEnd := IsEnd();
      if atEnd {
        return false;
      }
      var c := s[idx];
      if c == '+' || c == '-' {
        var more := HasNext();
        if !more {
          return false;
        }
      }
      r := IsDigits();
    }
  }

  /** A run of digits and underscores that starts with a digit is a digit
      sequence exactly when it ends with a digit. */
  lemma DigitsOfRun(s: string, i: nat, e: nat)
    requires i < e <= |s| && IsDigit(s[i])
    requires forall k | i <= k < e :: IsDigitOrUnderscore(s[k])
    ensures Digits(s[i..e]) <==> IsDigit(s[e - 1])
  {
    assert s[i..e][0] == s[i] && s[i..e][e - i - 1] == s[e - 1];
  }

  /** The checks on `1_2` and `1_` from the start: underscores may separate
      digits but may not end the sequence. */
  lemma UnderscoreExamples()
    ensures Digits("1_2") && !Digits("1_")
    ensures RunEnd("1_2", 0) == 3 && RunEnd("1_", 0) == 2
    ensures RunEnd("1_2x", 0) == 3
  {
  }

  /** A float constant is one of the six names. */
  lemma FloatConstantNames(s: string)
    ensures FloatConstant(s) <==> s in ["+NaN", "-NaN", "NaN", "+Infinity", "-Infinity", "Infinity"]
  {
    var names := ["+NaN", "-NaN", "NaN", "+Infinity", "-Infinity", "Infinity"];
    if s != [] && (s[0] == '+' || s[0] == '-') {
      assert s == [s[0]] + s[1..];
      assert "+NaN"[1..] == "NaN" && "-NaN"[1..] == "NaN";
      assert "+Infinity"[1..] == "Infinity" && "-Infinity"[1..] == "Infinity";
      assert s !in ["NaN", "Infinity"];
      if s[0] == '+' {
        assert s == "+" + s[1..];
        if s[1..] == "NaN" { assert s == "+NaN"; }
        if s[1..] == "Infinity" { assert s == "+Infinity"; }
        assert s !in ["-NaN", "-Infinity"];
      } else {
        assert s == "-" + s[1..];
        if s[1..] == "NaN" { assert s == "-NaN"; }
        if s[1..] == "Infinity" { assert s == "-Infinity"; }
        assert s !in ["+NaN", "+Infinity"];
      }
    } else {
      assert s !in ["+NaN", "-NaN", "+Infinity", "-Infinity"];
    }
  }
}
