/** The string reader of Jispy: `tokenize` splits a program into tokens,
    `readFromTokens` builds one S-expression from the token queue and
    `toAtom` classifies a single token. */
module Reader {
  import opened Values

  // ---------------------------------------------------------------------
  // Integer.parseInt and Integer.toString (decimal, 32-bit)
  // ---------------------------------------------------------------------

  const IntMin: int := -0x8000_0000
  const IntMax: int := 0x7FFF_FFFF

  predicate IsDigit(c: char) { '0' <= c <= '9' }

  predicate AllDigits(s: string) { forall k :: 0 <= k < |s| ==> IsDigit(s[k]) }

  /** The value of a string of decimal digits, most significant first. */
  function DigitsValue(ds: string): nat
    requires AllDigits(ds)
  {
    if ds == [] then 0
    else 10 * DigitsValue(ds[..|ds| - 1]) + (ds[|ds| - 1] as int - '0' as int)
  }

  /** `Integer.parseInt(x)`: an optional `+` or `-`, then at least one digit,
      and a value inside the 32-bit range; `None` where Java throws
      NumberFormatException. Only ASCII digits are modelled. */
  function ParseInt(x: string): (r: Option<int>)
    ensures r.Some? ==> IntMin <= r.value <= IntMax
    ensures r.Some? ==> x != [] && IsDigit(x[|x| - 1]) && (IsDigit(x[0]) || x[0] == '-' || x[0] == '+')
    ensures r.Some? ==> AllDigits(x[1..])
  {
    if x == [] then None
    else
      var digits := if x[0] == '-' || x[0] == '+' then x[1..] else x;
      if digits == [] || !AllDigits(digits) then None
      else
        var n: int := if x[0] == '-' then -(DigitsValue(digits) as int) else DigitsValue(digits);
        if IntMin <= n <= IntMax then Some(n) else None
  }

  /** Every optionally signed digit string whose value lies in the 32-bit
      range is accepted, with that value. */
  lemma ParseIntAccepts(x: string)
    ensures x != [] && AllDigits(x) && DigitsValue(x) <= IntMax ==>
      ParseInt(x) == Some(DigitsValue(x))
    ensures |x| > 1 && x[0] == '+' && AllDigits(x[1..]) && DigitsValue(x[1..]) <= IntMax ==>
      ParseInt(x) == Some(DigitsValue(x[1..]))
    ensures |x| > 1 && x[0] == '-' && AllDigits(x[1..]) && DigitsValue(x[1..]) <= -IntMin ==>
      ParseInt(x) == Some(-(DigitsValue(x[1..]) as int))
  {
    if x != [] && AllDigits(x) {
      assert IsDigit(x[0]);
    }
  }

  function DigitChar(d: nat): char
    requires d < 10
  {
    ('0' as int + d) as char
  }

  /** Decimal digits of `n` without leading zeros. */
  function ShowNat(n: nat): (s: string)
    ensures s != [] && AllDigits(s)
  {
    if n < 10 then [DigitChar(n)] else ShowNat(n / 10) + [DigitChar(n % 10)]
  }

  /** `Integer.toString(n)`. */
  function ShowInt(n: int): string {
    if n < 0 then "-" + ShowNat(-n) else ShowNat(n)
  }

  lemma {:induction false} DigitsValueShowNat(n: nat)
    ensures DigitsValue(ShowNat(n)) == n
  {
    var s := ShowNat(n);
    if n >= 10 {
      DigitsValueShowNat(n / 10);
      assert s[..|s| - 1] == ShowNat(n / 10);
    }
  }

  /** Every integer Java can hold is printed so that `Integer.parseInt`
      reads it back. */
  lemma ParseShowInt(n: int)
    requires IntMin <= n <= IntMax
    ensures ParseInt(ShowInt(n)) == Some(n)
  {
    var s := ShowInt(n);
    if n < 0 {
      DigitsValueShowNat(-n);
      assert s[1..] == ShowNat(-n);
    } else {
      DigitsValueShowNat(n);
      assert s[0] != '-' && s[0] != '+' by { assert IsDigit(s[0]); }
    }
  }

  // ---------------------------------------------------------------------
  // toAtom
  // ---------------------------------------------------------------------

  /** `toAtom(x)`: `#t` and `#f` are booleans; a token starting with a
      backslash is a string without its first and last character; otherwise
      the first of `Integer.parseInt`, `Double.parseDouble` and
      `ComplexFormat.parse` that succeeds decides, and a token none of them
      accepts is a symbol. */
  function ToAtom(x: string, host: Host): (r: Result<Value>)
    ensures r.Err? <==> x == "\\"
    ensures r.Ok? ==> !(r.value.List? || r.value.Null? || r.value.Eof? || IsProcedure(r.value))
    ensures r.Ok? && r.value.Str? ==> |r.value.s| + 2 == |x| && x[0] == '\\' && r.value.s == x[1..|x| - 1]
  {
    if x == "#t" then Ok(Bool(true))
    else if x == "#f" then Ok(Bool(false))
    else if |x| > 0 && x[0] == '\\' then
      // x.substring(1, x.length() - 1) throws on a lone backslash
      if |x| >= 2 then Ok(Str(x[1..|x| - 1])) else Err(JvmFault(StringIndexOutOfBounds))
    else match ParseInt(x)
      case Some(n) => Ok(Int(n))
      case None =>
        match host.parseDouble(x)
        case Some(d) => Ok(Float(d))
        case None =>
          match host.parseComplex(x)
          case Some(c) => Ok(Complex(c.0, c.1))
          case None => Ok(Sym(x))
  }

  /** Integers take precedence over every other numeric reading and over
      symbols, whatever the floating-point parsers would say. */
  lemma ToAtomPrefersInt(x: string, host: Host)
    requires ParseInt(x).Some?
    ensures ToAtom(x, host) == Ok(Int(ParseInt(x).value))
  {
    assert x != [] && (x[0] == '-' || x[0] == '+' || IsDigit(x[0]));
  }

  /** A token no integer reading accepts is a floating-point number when
      the double parser accepts it, whatever the complex parser says. */
  lemma ToAtomPrefersDouble(x: string, host: Host)
    requires x != "#t" && x != "#f" && (x == [] || x[0] != '\\')
    requires ParseInt(x).None? && host.parseDouble(x).Some?
    ensures ToAtom(x, host) == Ok(Float(host.parseDouble(x).value))
  {
  }

  /** A token becomes a symbol exactly when no literal reading applies. */
  lemma ToAtomSymbol(x: string, host: Host)
    ensures ToAtom(x, host) == Ok(Sym(x)) <==>
      && x != "#t" && x != "#f"
      && (x == [] || x[0] != '\\')
      && ParseInt(x).None?
      && host.parseDouble(x).None?
      && host.parseComplex(x).None?
  {
  }

  // ---------------------------------------------------------------------
  // tokenize
  // ---------------------------------------------------------------------

  predicate IsParen(c: char) { c == '(' || c == ')' }

  /** What `tokenize` promises of each token: not empty, no space, and a
      parenthesis only as a token of its own. */
  predicate WellFormedToken(t: string) {
    && t != []
    && ' ' !in t
    && (('(' in t || ')' in t) ==> |t| == 1)
  }

  /** `String.replace(c, r)` for a one-character target. */
  function Replace(s: string, c: char, r: string): string {
    if s == [] then [] else (if s[0] == c then r else [s[0]]) + Replace(s[1..], c, r)
  }

  /** `program.replace("(", " ( ").replace(")", " ) ")`. */
  function Padded(program: string): string {
    Replace(Replace(program, '(', " ( "), ')', " ) ")
  }

  /** The fields of `s` between single spaces, `cur` being the field read so
      far. `String.split(" ")` also drops trailing empty fields; the
      `removeIf` that follows drops every empty field anyway. */
  function Fields(s: string, cur: string): seq<string> {
    if s == [] then [cur]
    else if s[0] == ' ' then [cur] + Fields(s[1..], "")
    else Fields(s[1..], cur + [s[0]])
  }

  function SplitOnSpace(s: string): seq<string> { Fields(s, "") }

  /** `t.removeIf(s -> s.equals(""))`. */
  function DropEmpty(ts: seq<string>): seq<string> {
    if ts == [] then [] else (if ts[0] == "" then [] else [ts[0]]) + DropEmpty(ts[1..])
  }

  function Flush(cur: string): seq<string> { if cur == [] then [] else [cur] }

  /** Reference tokenizer: a left-to-right scan in which a space ends the
      current token and a parenthesis ends it and is a token itself. */
  function Scan(s: string, cur: string): seq<string> {
    if s == [] then Flush(cur)
    else if s[0] == ' ' then Flush(cur) + Scan(s[1..], "")
    else if IsParen(s[0]) then Flush(cur) + [[s[0]]] + Scan(s[1..], "")
    else Scan(s[1..], cur + [s[0]])
  }

  function Tokens(program: string): seq<string> { Scan(program, "") }

  lemma {:induction false} ScanWellFormed(s: string, cur: string)
    requires ' ' !in cur && '(' !in cur && ')' !in cur
    ensures forall t :: t in Scan(s, cur) ==> WellFormedToken(t)
  {
    if s == [] {
    } else if s[0] == ' ' || IsParen(s[0]) {
      ScanWellFormed(s[1..], "");
    } else {
      ScanWellFormed(s[1..], cur + [s[0]]);
    }
  }

  /** No token is empty or holds a space, and every parenthesis is a token
      of its own. */
  lemma TokensWellFormed(program: string)
    ensures forall t :: t in Tokens(program) ==> WellFormedToken(t)
  {
    ScanWellFormed(program, "");
  }

  lemma {:induction false} DropEmptyAppend(a: seq<string>, b: seq<string>)
    ensures DropEmpty(a + b) == DropEmpty(a) + DropEmpty(b)
  {
    if a == [] {
      assert a + b == b;
    } else {
      assert (a + b)[0] == a[0];
      assert (a + b)[1..] == a[1..] + b;
      DropEmptyAppend(a[1..], b);
    }
  }

  lemma {:induction false} ReplaceAppend(a: string, b: string, c: char, r: string)
    ensures Replace(a + b, c, r) == Replace(a, c, r) + Replace(b, c, r)
  {
    if a == [] {
      assert a + b == b;
    } else {
      assert (a + b)[0] == a[0];
      assert (a + b)[1..] == a[1..] + b;
      ReplaceAppend(a[1..], b, c, r);
    }
  }

  /** How `Padded` treats one character. */
  lemma PaddedCons(c: char, rest: string)
    ensures Padded([c] + rest) ==
      (if c == '(' then " ( " else if c == ')' then " ) " else [c]) + Padded(rest)
  {
    ReplaceAppend([c], rest, '(', " ( ");
    var r1 := if c == '(' then " ( " else [c];
    assert Replace([c], '(', " ( ") == r1;
    ReplaceAppend(r1, Replace(rest, '(', " ( "), ')', " ) ");
    if c == '(' {
      assert Replace(" ( ", ')', " ) ") == " ( " by {
        assert " ( "[1..] == "( " && "( "[1..] == " " && " "[1..] == "";
      }
    } else if c == ')' {
      assert Replace([c], ')', " ) ") == " ) ";
    } else {
      assert Replace([c], ')', " ) ") == [c];
    }
  }

  /** Splitting a padded parenthesis: the field before it ends, and the
      parenthesis is a field of its own. */
  lemma FieldsParen(c: char, p: string, cur: string)
    requires IsParen(c)
    ensures Fields((if c == '(' then " ( " else " ) ") + p, cur) == [cur] + [[c]] + Fields(p, "")
  {
    var pc := if c == '(' then " ( " else " ) ";
    assert (pc + p)[1..] == [c] + " " + p;
    assert ([c] + " " + p)[1..] == " " + p;
    assert (" " + p)[1..] == p;
    assert ("" + [c]) == [c];
    assert Fields(" " + p, [c]) == [[c]] + Fields(p, "");
    assert Fields([c] + " " + p, "") == Fields(" " + p, [c]);
  }

  lemma {:induction false} ScanMatchesSplit(s: string, cur: string)
    ensures Scan(s, cur) == DropEmpty(Fields(Padded(s), cur))
  {
    if s == [] {
      assert DropEmpty([cur]) == Flush(cur);
    } else {
      var c, rest := s[0], s[1..];
      assert s == [c] + rest;
      PaddedCons(c, rest);
      var p := Padded(rest);
      if c == ' ' {
        assert (" " + p)[1..] == p;
        assert Fields(" " + p, cur) == [cur] + Fields(p, "");
        DropEmptyAppend([cur], Fields(p, ""));
        ScanMatchesSplit(rest, "");
      } else if IsParen(c) {
        FieldsParen(c, p, cur);
        DropEmptyAppend([cur] + [[c]], Fields(p, ""));
        DropEmptyAppend([cur], [[c]]);
        ScanMatchesSplit(rest, "");
      } else {
        assert ([c] + p)[1..] == p;
        ScanMatchesSplit(rest, cur + [c]);
      }
    }
  }

  /** The reference scan gives exactly the tokens of Java's pipeline:
      pad the parentheses, split on single spaces, drop empty strings. */
  lemma TokensMatchJava(program: string)
    ensures Tokens(program) == DropEmpty(SplitOnSpace(Padded(program)))
  {
    ScanMatchesSplit(program, "");
  }

  /** `tokenize(program)`: the `removeIf` loop over the split fields. */
  method Tokenize(program: string) returns (queue: seq<string>)
    ensures queue == Tokens(program)
  {
    var t := SplitOnSpace(Padded(program));
    queue := [];
    var i := 0;
    while i < |t|
      invariant 0 <= i <= |t|
      invariant queue == DropEmpty(t[..i])
    {
      DropEmptyAppend(t[..i], [t[i]]);
      assert t[..i + 1] == t[..i] + [t[i]];
      if t[i] != "" {
        queue := queue + [t[i]];
      }
      i := i + 1;
    }
    assert t[..|t|] == t;
    TokensMatchJava(program);
  }

  // ---------------------------------------------------------------------
  // readFromTokens
  // ---------------------------------------------------------------------

  /** The outcome of reading from a token queue, with what is left in it. */
  datatype Parsed = Parsed(result: Result<Value>, rest: seq<string>)

  /** `readFromTokens`: one form from the front of the queue. */
  function ReadTokens(ts: seq<string>, host: Host): (p: Parsed)
    ensures |p.rest| <= |ts|
    ensures ts != [] ==> |p.rest| < |ts|
    decreases |ts|, 0
  {
    if ts == [] then Parsed(Err(SyntaxError("unexpected EOF")), ts)
    else if ts[0] == "(" then ReadItems(ts[1..], [], host)
    else if ts[0] == ")" then Parsed(Err(SyntaxError("unexpected ')'")), ts[1..])
    else Parsed(ToAtom(ts[0], host), ts[1..])
  }

  /** The loop of `readFromTokens` after a `(`: forms are read until the
      queue shows `)`, which is consumed. `peek()` on an empty queue yields
      null, so running out of tokens inside a list is a NullPointerException. */
  function ReadItems(ts: seq<string>, acc: seq<Value>, host: Host): (p: Parsed)
    ensures |p.rest| <= |ts|
    ensures p.result.Ok? ==> p.result.value.List? && acc <= p.result.value.items
    decreases |ts|, 1
  {
    if ts == [] then Parsed(Err(JvmFault(NullPointer)), ts)
    else if ts[0] == ")" then Parsed(Ok(List(acc)), ts[1..])
    else
      var p := ReadTokens(ts, host);
      if p.result.Err? then p else ReadItems(p.rest, acc + [p.result.value], host)
  }

  /** `parse(String)`: tokenize and read one form; tokens after it are
      ignored and nothing is expanded. */
  function ParseString(program: string, host: Host): Result<Value> {
    ReadTokens(Tokens(program), host).result
  }

  /** The `Queue<String>` that `tokenize` returns and `readFromTokens` polls. */
  class TokenQueue {
    var items: seq<string>

    constructor (tokens: seq<string>)
      ensures items == tokens
    {
      items := tokens;
    }

    /** `Queue.poll`: the head, or null (`None`) on an empty queue. */
    method Poll() returns (t: Option<string>)
      modifies this
      ensures old(items) == [] ==> t == None && items == old(items)
      ensures old(items) != [] ==> t == Some(old(items)[0]) && items == old(items)[1..]
    {
      if items == [] {
        t := None;
      } else {
        t := Some(items[0]);
        items := items[1..];
      }
    }

    /** `Queue.peek`: the head without removing it. */
    method Peek() returns (t: Option<string>)
      ensures items == [] ==> t == None
      ensures items != [] ==> t == Some(items[0])
    {
      t := if items == [] then None else Some(items[0]);
    }
  }

  method ReadFromTokens(q: TokenQueue, host: Host) returns (r: Result<Value>)
    modifies q
    ensures Parsed(r, q.items) == ReadTokens(old(q.items), host)
    decreases |q.items|
  {
    if |q.items| == 0 {
      return Err(SyntaxError("unexpected EOF"));
    }
    var token := q.Poll();
    if token == Some("(") {
      var l: seq<Value> := [];
      ghost var start := q.items;
      while true
        invariant |q.items| < |old(q.items)|
        invariant ReadItems(q.items, l, host) == ReadItems(start, [], host)
        decreases |q.items|
      {
        var next := q.Peek();
        if next.None? {
          return Err(JvmFault(NullPointer));
        }
        if next.value == ")" {
          break;
        }
        var v := ReadFromTokens(q, host);
        if v.Err? {
          return v;
        }
        l := l + [v.value];
      }
      var _ := q.Poll();
      return Ok(List(l));
    } else if token == Some(")") {
      return Err(SyntaxError("unexpected ')'"));
    } else {
      return ToAtom(token.value, host);
    }
  }

  /** `parse(String)` as the source runs it, over a fresh token queue. */
  method Parse(program: string, host: Host) returns (r: Result<Value>)
    ensures r == ParseString(program, host)
  {
    var tokens := Tokenize(program);
    var q := new TokenQueue(tokens);
    r := ReadFromTokens(q, host);
  }
}
