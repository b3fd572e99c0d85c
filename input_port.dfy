/** `InputPort`: a line-by-line tokenizer. `nextToken` hands out queued
    tokens first; when none are left it reads the next line, scans all of
    its tokens into the queue with the token pattern, and tries again. The
    pattern is written out here as a scanner: leading whitespace is
    skipped, then the first alternative that matches is taken, in order
    `,@`, one of `(`, `'`, `` ` ``, `,`, `)`, a double-quoted string with
    backslash escapes, a `;` comment to the end of the line, and finally a
    maximal run of ordinary characters (possibly empty). */
module Port {
  import opened Values

  // ---------------------------------------------------------------------
  // The token pattern
  // ---------------------------------------------------------------------

  /** `\s` of java.util.regex: space, tab, newline, vertical tab, form feed
      and carriage return. */
  predicate IsSpace(c: char) {
    c == ' ' || c == '\t' || c == '\n' || c == '\U{000B}' || c == '\U{000C}' || c == '\r'
  }

  /** The line terminators that `.` does not match. */
  predicate IsLineTerminator(c: char) {
    c == '\n' || c == '\r' || c == '\U{0085}' || c == '\U{2028}' || c == '\U{2029}'
  }

  /** The one-character tokens `[('`,)]`. */
  predicate IsSingle(c: char) {
    c == '(' || c == '\'' || c == '`' || c == ',' || c == ')'
  }

  /** A character of an ordinary token: `[^\s('"`,;)]`. */
  predicate IsAtomChar(c: char) {
    !IsSpace(c) && !IsSingle(c) && c != '"' && c != ';'
  }

  /** Position of the first non-whitespace character at or after `i`. */
  function SkipSpace(l: string, i: nat): (s: nat)
    requires i <= |l|
    ensures i <= s <= |l|
    ensures forall k | i <= k < s :: IsSpace(l[k])
    ensures s < |l| ==> !IsSpace(l[s])
    decreases |l| - i
  {
    if i < |l| && IsSpace(l[i]) then SkipSpace(l, i + 1) else i
  }

  /** End of the maximal run of ordinary characters starting at `i`. */
  function AtomEnd(l: string, i: nat): (e: nat)
    requires i <= |l|
    ensures i <= e <= |l|
    ensures forall k | i <= k < e :: IsAtomChar(l[k])
    ensures e < |l| ==> !IsAtomChar(l[e])
    decreases |l| - i
  {
    if i < |l| && IsAtomChar(l[i]) then AtomEnd(l, i + 1) else i
  }

  /** End of a `;` comment whose text starts at `i`: `.*` stops at the
      first line terminator. */
  function CommentEnd(l: string, i: nat): (e: nat)
    requires i <= |l|
    ensures i <= e <= |l|
    ensures forall k | i <= k < e :: !IsLineTerminator(l[k])
    ensures e < |l| ==> IsLineTerminator(l[e])
    decreases |l| - i
  {
    if i < |l| && !IsLineTerminator(l[i]) then CommentEnd(l, i + 1) else i
  }

  /** End of a string literal whose body starts at `i` (just after the
      opening quote): `(?:[\\].|[^\\"])*"`. A backslash takes the next
      character with it unless that is a line terminator; the first quote
      not so taken closes the literal. `None` where there is no closing
      quote, so this alternative fails. */
  function StringEnd(l: string, i: nat): (e: Option<nat>)
    requires i <= |l|
    ensures e.Some? ==> i < e.value <= |l| && l[e.value - 1] == '"'
    decreases |l| - i
  {
    if i == |l| then None
    else if l[i] == '"' then Some(i + 1)
    else if l[i] == '\\' then
      if i + 1 < |l| && !IsLineTerminator(l[i + 1]) then StringEnd(l, i + 2) else None
    else StringEnd(l, i + 1)
  }

  /** A string literal is closed only by a quote that no backslash escapes:
      every quote inside it follows a backslash, and without any quote
      there is no literal. */
  lemma {:induction false} StringEndEscapes(l: string, i: nat)
    requires i <= |l|
    ensures var e := StringEnd(l, i);
      e.Some? ==> forall k | i <= k < e.value - 1 :: l[k] == '"' ==> i < k && l[k - 1] == '\\'
    ensures (forall k | i <= k < |l| :: l[k] != '"') ==> StringEnd(l, i).None?
    decreases |l| - i
  {
    if i < |l| && l[i] != '"' {
      if l[i] == '\\' {
        if i + 1 < |l| && !IsLineTerminator(l[i + 1]) {
          StringEndEscapes(l, i + 2);
        }
      } else {
        StringEndEscapes(l, i + 1);
      }
    }
  }

  /** End of the token group that starts at `s`, trying the alternatives
      of the pattern in order. */
  function GroupEnd(l: string, s: nat): (e: nat)
    requires s <= |l|
    ensures s <= e <= |l|
    // `,@` is tried before `,`
    ensures s + 1 < |l| && l[s] == ',' && l[s + 1] == '@' ==> e == s + 2
    ensures s < |l| && IsSingle(l[s]) && !(l[s] == ',' && s + 1 < |l| && l[s + 1] == '@') ==> e == s + 1
    // a closed string literal is taken whole; an unclosed one matches nothing
    ensures s < |l| && l[s] == '"' ==>
      e == (if StringEnd(l, s + 1).Some? then StringEnd(l, s + 1).value else s)
    // a comment runs to the end of the line or to the first line terminator
    ensures s < |l| && l[s] == ';' ==>
      s < e && (e == |l| || IsLineTerminator(l[e])) && forall k | s < k < e :: !IsLineTerminator(l[k])
    // an ordinary token is the maximal run of ordinary characters
    ensures s < |l| && IsAtomChar(l[s]) ==>
      s < e && (e == |l| || !IsAtomChar(l[e])) && forall k | s <= k < e :: IsAtomChar(l[k])
  {
    if s == |l| then s
    else if l[s] == ',' && s + 1 < |l| && l[s + 1] == '@' then s + 2
    else if IsSingle(l[s]) then s + 1
    else if l[s] == '"' && StringEnd(l, s + 1).Some? then StringEnd(l, s + 1).value
    else if l[s] == ';' then CommentEnd(l, s + 1)
    else AtomEnd(l, s)
  }

  /** `matcher.find(idx)` followed by `start(1)` and `end(1)`: the match
      always begins at `idx`, because the pattern matches the empty string. */
  function MatchAt(l: string, i: nat): (m: (nat, nat))
    requires i <= |l|
    ensures i <= m.0 <= m.1 <= |l|
  {
    var s := SkipSpace(l, i);
    (s, GroupEnd(l, s))
  }

  /** A match skips only whitespace, and it is empty exactly at the end of
      the line or at a quote that no closing quote follows. */
  lemma MatchAtStops(l: string, i: nat)
    requires i <= |l|
    ensures var m := MatchAt(l, i);
      (forall k | i <= k < m.0 :: IsSpace(l[k])) &&
      (m.0 == m.1 <==> m.0 == |l| || (l[m.0] == '"' && StringEnd(l, m.0 + 1).None?))
  {
  }

  /** The tokens the scanning loop queues from position `i` of a line: it
      stops at the first empty match and drops comments. */
  function Collect(l: string, i: nat): (ts: seq<string>)
    requires i <= |l|
    decreases |l| - i
  {
    var m := MatchAt(l, i);
    if m.0 == m.1 then []
    else (if l[m.0] == ';' then [] else [l[m.0..m.1]]) + Collect(l, m.1)
  }

  /** Every token consumes at least one character, and a rest of the line
      holding only whitespace yields no token. */
  lemma {:induction false} CollectBound(l: string, i: nat)
    requires i <= |l|
    ensures |Collect(l, i)| <= |l| - i
    ensures (forall k | i <= k < |l| :: IsSpace(l[k])) ==> Collect(l, i) == []
    decreases |l| - i
  {
    var m := MatchAt(l, i);
    MatchAtStops(l, i);
    if m.0 != m.1 {
      CollectBound(l, m.1);
    }
  }

  /** The tokens one line contributes to the queue. */
  function LineTokens(l: string): seq<string> {
    Collect(l, 0)
  }

  /** What a token of the pattern looks like: `,@`, a one-character token, a
      closed string literal, or a non-empty run of ordinary characters. */
  predicate TokenShape(t: string) {
    t == ",@" ||
    (|t| == 1 && IsSingle(t[0])) ||
    (|t| >= 2 && t[0] == '"' && StringEnd(t, 1) == Some(|t|)) ||
    (t != [] && forall k | 0 <= k < |t| :: IsAtomChar(t[k]))
  }

  /** `StringEnd` only looks at the characters up to the quote it finds. */
  lemma {:induction false} StringEndPrefix(l: string, i: nat, n: nat)
    requires i <= n <= |l| && StringEnd(l, i) == Some(n)
    ensures StringEnd(l[..n], i) == Some(n)
    decreases |l| - i
  {
    if l[i] == '\\' {
      StringEndPrefix(l, i + 2, n);
    } else if l[i] != '"' {
      StringEndPrefix(l, i + 1, n);
    }
  }

  /** Every token taken from a line has the shape of the pattern; in
      particular none is empty and no comment is ever queued. */
  lemma {:induction false} CollectShape(l: string, i: nat)
    requires i <= |l|
    ensures forall t | t in Collect(l, i) :: TokenShape(t) && t[0] != ';'
    decreases |l| - i
  {
    var m := MatchAt(l, i);
    if m.0 != m.1 {
      CollectShape(l, m.1);
      if l[m.0] != ';' {
        var s := m.0;
        var t := l[s..m.1];
        if l[s] == '"' && StringEnd(l, s + 1).Some? {
          var n := StringEnd(l, s + 1).value;
          StringEndShift(l, s, s + 1, n);
        }
        assert TokenShape(t);
      }
    }
  }

  /** Scanning a string literal inside a line is scanning it on its own. */
  lemma {:induction false} StringEndShift(l: string, s: nat, i: nat, n: nat)
    requires s < i <= n <= |l| && StringEnd(l, i) == Some(n)
    ensures StringEnd(l[s..n], i - s) == Some(n - s)
    decreases |l| - i
  {
    var t := l[s..n];
    assert t[i - s] == l[i];
    if l[i] == '\\' {
      assert t[i - s + 1] == l[i + 1];
      StringEndShift(l, s, i + 2, n);
    } else if l[i] != '"' {
      StringEndShift(l, s, i + 1, n);
    }
  }

  /** A line of whitespace only contributes no tokens; so does an empty
      line. */
  lemma BlankLine(l: string)
    requires forall k | 0 <= k < |l| :: IsSpace(l[k])
    ensures LineTokens(l) == []
  {
  }

  // ---------------------------------------------------------------------
  // The port
  // ---------------------------------------------------------------------

  /** What `nextToken` returns: a token's text or the end-of-input symbol. */
  datatype Token = Text(text: string) | EofMarker

  /** The tokens of the lines still to be read, in order. */
  function Flat(lines: seq<string>): seq<string> {
    if lines == [] then [] else LineTokens(lines[0]) + Flat(lines[1..])
  }

  class InputPort {
    /** The lines `file.readLine()` will still return, in order. */
    var lines: seq<string>
    /** The field `line`; `None` is Java's null after the end of input. */
    var line: Option<string>
    var queue: seq<string>

    /** Between calls the line buffer is empty, or null once the end of
        input was met with nothing queued. */
    predicate Valid()
      reads this
    {
      line == Some("") || (line == None && queue == [] && lines == [])
    }

    /** Every token still to come, queued ones first. */
    function Pending(): seq<string>
      reads this
    {
      queue + Flat(lines)
    }

    constructor (input: seq<string>)
      ensures Valid() && lines == input && line == Some("") && queue == []
    {
      lines := input;
      line := Some("");
      queue := [];
    }

    /** `line = file.readLine()`: the next line, or null at the end. */
    method ReadLine()
      modifies this
      ensures old(lines) == [] ==> line == None && lines == []
      ensures old(lines) != [] ==> line == Some(old(lines)[0]) && lines == old(lines)[1..]
      ensures queue == old(queue)
    {
      if lines == [] {
        line := None;
      } else {
        line := Some(lines[0]);
        lines := lines[1..];
      }
    }

    /** The scanning loop of `nextToken`: every match of the token pattern in
        `line`, from left to right until the first empty match, is queued
        unless it is a comment; then the line buffer is cleared. */
    method ScanLine()
      requires line.Some?
      modifies this
      ensures queue == old(queue) + LineTokens(old(line).value)
      ensures line == Some("") && lines == old(lines)
    {
      var l := line.value;
      var idx := 0;
      while true
        invariant idx <= |l| && lines == old(lines) && line == old(line)
        invariant queue + Collect(l, idx) == old(queue) + LineTokens(l)
        decreases |l| - idx
      {
        var m := MatchAt(l, idx);
        if m.0 == m.1 {
          break;
        }
        var token := l[m.0..m.1];
        ghost var tokens := if token[0] == ';' then [] else [token];
        assert Collect(l, idx) == tokens + Collect(l, m.1);
        idx := m.1;
        if token[0] != ';' {
          queue := queue + [token];
        }
      }
      line := Some("");
    }

    /** `nextToken`: the next token of the input, or the end-of-input marker
        when there is none. Queued tokens come first and no line is read
        while any is queued. Once the end was reached, `line` is null and a
        further call dereferences it. */
    method NextToken() returns (r: Result<Token>)
      requires Valid()
      modifies this
      ensures Valid()
      ensures old(line).None? ==> r == Err(JvmFault(NullPointer)) && line == None
      ensures old(line).Some? && old(Pending()) == [] ==>
        r == Ok(EofMarker) && line == None && Pending() == []
      ensures old(line).Some? && old(Pending()) != [] ==>
        r == Ok(Text(old(Pending())[0])) && line == Some("") && Pending() == old(Pending())[1..]
      ensures old(queue) != [] ==> lines == old(lines) && queue == old(queue)[1..]
    {
      ghost var pending := Pending();
      while true
        invariant line == Some("") || (line == None && queue == [] && lines == [])
        invariant old(line).None? ==> line == None
        invariant old(line).Some? ==> line == Some("") && queue + Flat(lines) == pending
        invariant old(queue) != [] ==> queue == old(queue) && lines == old(lines)
        decreases |lines|
      {
        if queue != [] {
          r := Ok(Text(queue[0]));
          queue := queue[1..];
          return;
        } else if line.None? {
          // `line.equals("")` on null
          return Err(JvmFault(NullPointer));
        } else if line == Some("") {
          ReadLine();
        }
        if line.None? {
          return Ok(EofMarker);
        } else if line == Some("") {
          continue;
        }
        ScanLine();
      }
    }
  }

  /** A blank line among the input lines adds nothing to the tokens still
      to come. */
  lemma FlatSkipsBlank(blank: string, rest: seq<string>)
    requires forall k | 0 <= k < |blank| :: IsSpace(blank[k])
    ensures Flat([blank] + rest) == Flat(rest)
  {
    BlankLine(blank);
    assert ([blank] + rest)[1..] == rest;
  }

  /** The line of the example below. */
  const ExampleLine := "'\"\\\"\";c"

  /** Its comment is dropped and ends the line. */
  lemma ExampleLineComment()
    ensures Collect(ExampleLine, 5) == []
  {
    assert SkipSpace(ExampleLine, 5) == 5 && CommentEnd(ExampleLine, 6) == 7;
  }

  /** Its string literal keeps the escaped quote. */
  lemma ExampleLineString()
    ensures Collect(ExampleLine, 1) == ["\"\\\"\""] + Collect(ExampleLine, 5)
  {
    assert StringEnd(ExampleLine, 2) == Some(5);
    assert ExampleLine[1..5] == "\"\\\"\"";
  }

  /** It starts with a quote shorthand. */
  lemma ExampleLineQuote()
    ensures Collect(ExampleLine, 0) == ["'"] + Collect(ExampleLine, 1)
  {
    assert ExampleLine[0..1] == "'";
  }

  /** A quote shorthand, a string with an escaped quote, and a comment
      that is dropped. */
  lemma LineExample()
    ensures LineTokens(ExampleLine) == ["'", "\"\\\"\""]
  {
    ExampleLineComment();
    ExampleLineString();
    ExampleLineQuote();
  }
}
