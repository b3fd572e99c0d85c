/** `Jispy.toString`: the external representation of a value, and how it
    reads back through `tokenize` and `readFromTokens`. */
module Writer {
  import opened Values
  import opened Reader

  /** `toString(x)` as the source writes it. A list is built in a
      StringBuilder: `(`, then every element followed by a space, then the
      last character is deleted and `)` appended. */
  function Show(x: Value, host: Host): (r: Result<string>)
    ensures r.Err? ==> r.error == JvmFault(NullPointer) || r.error == JvmFault(StringIndexOutOfBounds)
    decreases Size(x), 1
  {
    match x
    case Null => Err(JvmFault(NullPointer))          // x.equals(true) on null
    case Bool(b) => Ok(if b then "#t" else "#f")
    case Sym(name) => Ok(name)
    case Str(s) =>
      // substring(1, length - 1) assumes the quote characters are still there
      if |s| >= 2 then Ok(s[1..|s| - 1]) else Err(JvmFault(StringIndexOutOfBounds))
    case List(items) =>
      var body := ShowJoined(items, host);
      if body.Err? then body
      else
        var sb := "(" + body.value;
        Ok(sb[..|sb| - 1] + ")")
    case Complex(re, im) => Ok(host.showComplex(re, im))
    case Int(i) => Ok(ShowInt(i))
    case Float(d) => Ok(host.showFloat(d))
    case _ => Ok(host.showObject(x))                 // Object.toString
  }

  /** The text the StringBuilder loop appends: each element's rendering
      followed by one space. */
  function ShowJoined(items: seq<Value>, host: Host): (r: Result<string>)
    ensures r.Err? ==> r.error == JvmFault(NullPointer) || r.error == JvmFault(StringIndexOutOfBounds)
    decreases SizeSeq(items), 0
  {
    if items == [] then Ok("")
    else
      var first := Show(items[0], host);
      if first.Err? then first else Prepend(first.value + " ", ShowJoined(items[1..], host))
  }

  function Prepend(p: string, r: Result<string>): Result<string> {
    if r.Err? then r else Ok(p + r.value)
  }

  lemma PrependTwice(a: string, b: string, r: Result<string>)
    ensures Prepend(a, Prepend(b, r)) == Prepend(a + b, r)
  {
    if r.Ok? {
      assert a + (b + r.value) == (a + b) + r.value;
    }
  }

  /** `s1 s2 ... sn` */
  function Join(ss: seq<string>): string {
    if ss == [] then "" else if |ss| == 1 then ss[0] else ss[0] + " " + Join(ss[1..])
  }

  /** The rendering of every element, or the first failure. */
  function ShowAll(items: seq<Value>, host: Host): (r: Result<seq<string>>)
    ensures r.Ok? ==> |r.value| == |items|
    decreases SizeSeq(items), 0
  {
    if items == [] then Ok([])
    else
      var first := Show(items[0], host);
      if first.Err? then Err(first.error)
      else
        var rest := ShowAll(items[1..], host);
        if rest.Err? then rest else Ok([first.value] + rest.value)
  }

  lemma {:induction false} ShowJoinedIsJoin(items: seq<Value>, host: Host)
    requires items != []
    ensures ShowAll(items, host).Ok? ==> ShowJoined(items, host) == Ok(Join(ShowAll(items, host).value) + " ")
    ensures ShowAll(items, host).Err? ==> ShowJoined(items, host) == Err(ShowAll(items, host).error)
    decreases |items|
  {
    var first := Show(items[0], host);
    if first.Ok? {
      var f := first.value;
      if |items| == 1 {
        assert items[1..] == [];
        assert ShowJoined(items, host) == Prepend(f + " ", Ok(""));
        assert f + " " + "" == f + " ";
        assert ShowAll(items[1..], host) == Ok([]);
        assert [f] + [] == [f];
        assert ShowAll(items, host) == Ok([f]);
      } else {
        ShowJoinedIsJoin(items[1..], host);
        var rest := ShowAll(items[1..], host);
        if rest.Ok? {
          var all := [f] + rest.value;
          assert ShowAll(items, host) == Ok(all);
          assert all[0] == f && all[1..] == rest.value;
          assert Join(all) == f + " " + Join(rest.value);
          assert ShowJoined(items, host) == Prepend(f + " ", Ok(Join(rest.value) + " "));
          assert f + " " + (Join(rest.value) + " ") == Join(all) + " ";
        }
      }
    }
  }

  /** A non-empty list renders as `(`, its elements separated by single
      spaces, and `)`. */
  lemma ShowNonEmptyList(items: seq<Value>, host: Host)
    requires items != [] && ShowAll(items, host).Ok?
    ensures Show(List(items), host) == Ok("(" + Join(ShowAll(items, host).value) + ")")
  {
    ShowJoinedIsJoin(items, host);
    var j := Join(ShowAll(items, host).value);
    assert ("(" + (j + " "))[..|j| + 1] == "(" + j;
  }

  /** Booleans render as `#t` and `#f`, which `toAtom` reads back. */
  lemma BoolRoundTrip(b: bool, host: Host)
    ensures Show(Bool(b), host).Ok?
    ensures ToAtom(Show(Bool(b), host).value, host) == Ok(Bool(b))
  {
  }

  /** `toString` as a method over a StringBuilder, as the source runs it. */
  method ToString(x: Value, host: Host) returns (r: Result<string>)
    ensures r == Show(x, host)
    decreases Size(x)
  {
    match x
    case List(items) =>
      var sb := "(";
      var i := 0;
      assert items[0..] == items;
      assert Prepend(sb[1..], ShowJoined(items, host)) == ShowJoined(items, host) by {
        var j := ShowJoined(items, host);
        if j.Ok? { assert sb[1..] + j.value == j.value; }
      }
      while i < |items|
        invariant 0 <= i <= |items|
        invariant |sb| >= 1 && sb[0] == '('
        invariant ShowJoined(items, host) == Prepend(sb[1..], ShowJoined(items[i..], host))
      {
        assert items[i..][0] == items[i] && items[i..][1..] == items[i + 1..];
        SizeSeqElement(items, i);
        var e := ToString(items[i], host);
        if e.Err? {
          return e;
        }
        assert ShowJoined(items[i..], host) == Prepend(e.value + " ", ShowJoined(items[i + 1..], host));
        PrependTwice(sb[1..], e.value + " ", ShowJoined(items[i + 1..], host));
        assert (sb + e.value + " ")[1..] == sb[1..] + (e.value + " ");
        sb := sb + e.value + " ";
        i := i + 1;
      }
      assert items[i..] == [];
      assert ShowJoined(items, host) == Ok(sb[1..]) by {
        assert sb[1..] + "" == sb[1..];
      }
      assert "(" + sb[1..] == sb;
      sb := sb[..|sb| - 1];
      r := Ok(sb + ")");
    case _ =>
      r := Show(x, host);
  }

  // ---------------------------------------------------------------------
  // Reading back what is written
  // ---------------------------------------------------------------------

  /** A symbol name that survives writing and reading: a single token that
      `toAtom` classifies as a symbol. */
  predicate SymbolText(name: string, host: Host) {
    && name != [] && ' ' !in name && '(' !in name && ')' !in name
    && ToAtom(name, host) == Ok(Sym(name))
  }

  /** The data the writer and the reader agree on: booleans, 32-bit
      integers, symbols and lists of them. */
  predicate Datum(v: Value, host: Host)
    decreases Size(v)
  {
    match v
    case Bool(_) => true
    case Int(i) => IntMin <= i <= IntMax
    case Sym(name) => SymbolText(name, host)
    case List(items) => forall k | 0 <= k < |items| :: (SizeSeqElement(items, k); Datum(items[k], host))
    case _ => false
  }

  predicate NoEmptyList(v: Value)
    decreases Size(v)
  {
    match v
    case List(items) =>
      items != [] && forall k | 0 <= k < |items| :: (SizeSeqElement(items, k); NoEmptyList(items[k]))
    case _ => true
  }

  /** The writer with an empty list rendered as `()`. */
  function ShowFixed(x: Value, host: Host): Result<string>
    decreases Size(x), 1
  {
    match x
    case List(items) =>
      var all := ShowAllFixed(items, host);
      if all.Err? then Err(all.error) else Ok("(" + Join(all.value) + ")")
    case _ => Show(x, host)
  }

  function ShowAllFixed(items: seq<Value>, host: Host): (r: Result<seq<string>>)
    ensures r.Ok? ==> |r.value| == |items|
    decreases SizeSeq(items), 0
  {
    if items == [] then Ok([])
    else
      var first := ShowFixed(items[0], host);
      if first.Err? then Err(first.error)
      else
        var rest := ShowAllFixed(items[1..], host);
        if rest.Err? then rest else Ok([first.value] + rest.value)
  }

  /** The token sequence a datum is written as. */
  function Encode(v: Value, host: Host): seq<string>
    decreases Size(v), 1
  {
    match v
    case List(items) => ["("] + EncodeAll(items, host) + [")"]
    case Int(i) => [ShowInt(i)]
    case _ => if ShowFixed(v, host).Ok? then [ShowFixed(v, host).value] else []
  }

  function EncodeAll(items: seq<Value>, host: Host): seq<string>
    decreases SizeSeq(items), 0
  {
    if items == [] then [] else Encode(items[0], host) + EncodeAll(items[1..], host)
  }

  predicate IsDelimiter(c: char) { c == ' ' || IsParen(c) }

  /** A space or a parenthesis cuts the scan in two. */
  lemma {:induction false} ScanAtDelimiter(a: string, d: char, b: string, cur: string)
    requires IsDelimiter(d)
    ensures Scan(a + [d] + b, cur) ==
      Scan(a, cur) + (if d == ' ' then [] else [[d]]) + Scan(b, "")
  {
    if a == [] {
      assert a + [d] + b == [d] + b;
      assert ([d] + b)[1..] == b;
    } else {
      assert (a + [d] + b)[0] == a[0];
      assert (a + [d] + b)[1..] == a[1..] + [d] + b;
      if IsDelimiter(a[0]) {
        ScanAtDelimiter(a[1..], d, b, "");
      } else {
        ScanAtDelimiter(a[1..], d, b, cur + [a[0]]);
      }
    }
  }

  /** Text without delimiters is one token. */
  lemma {:induction false} ScanAtom(t: string, cur: string)
    requires cur + t != []
    requires forall k :: 0 <= k < |t| ==> !IsDelimiter(t[k])
    ensures Scan(t, cur) == [cur + t]
  {
    if t == [] {
      assert cur + t == cur;
    } else {
      assert cur + [t[0]] + t[1..] == cur + t;
      ScanAtom(t[1..], cur + [t[0]]);
    }
  }

  lemma ShowIntIsAtom(i: int)
    ensures ShowInt(i) != []
    ensures forall k :: 0 <= k < |ShowInt(i)| ==> !IsDelimiter(ShowInt(i)[k])
  {
    var s := ShowInt(i);
    if i < 0 {
      var n := ShowNat(-i);
      forall k | 0 <= k < |s| ensures !IsDelimiter(s[k]) {
        if k > 0 { assert s[k] == n[k - 1]; }
      }
    }
  }

  lemma {:induction false} ScanJoin(ss: seq<string>)
    requires forall k :: 0 <= k < |ss| ==> ss[k] != []
    ensures Scan(Join(ss), "") == ScanEach(ss)
  {
    if |ss| > 1 {
      ScanAtDelimiter(ss[0], ' ', Join(ss[1..]), "");
      assert ss[0] + " " + Join(ss[1..]) == ss[0] + [' '] + Join(ss[1..]);
      ScanJoin(ss[1..]);
    } else if |ss| == 1 {
      assert ScanEach(ss[1..]) == [];
    }
  }

  function ScanEach(ss: seq<string>): seq<string> {
    if ss == [] then [] else Scan(ss[0], "") + ScanEach(ss[1..])
  }

  /** What the writer produces for a datum tokenizes to its encoding. */
  lemma {:induction false} TokensOfShow(v: Value, host: Host)
    requires Datum(v, host)
    ensures ShowFixed(v, host).Ok?
    ensures Tokens(ShowFixed(v, host).value) == Encode(v, host)
    decreases Size(v), 1
  {
    match v
    case Bool(b) =>
      var t := if b then "#t" else "#f";
      ScanAtom(t, "");
      assert "" + t == t;
    case Int(i) =>
      ShowIntIsAtom(i);
      ScanAtom(ShowInt(i), "");
      assert "" + ShowInt(i) == ShowInt(i);
    case Sym(name) =>
      ScanAtom(name, "");
      assert "" + name == name;
    case List(items) =>
      TokensOfShowAll(items, host);
      var ss := ShowAllFixed(items, host).value;
      var j := Join(ss);
      ScanAtDelimiter("", '(', j + ")", "");
      assert "(" + j + ")" == "" + ['('] + (j + ")");
      ScanAtDelimiter(j, ')', "", "");
      assert j + ")" == j + [')'] + "";
      ScanJoin(ss);
  }

  lemma {:induction false} TokensOfShowAll(items: seq<Value>, host: Host)
    requires forall k | 0 <= k < |items| :: Datum(items[k], host)
    ensures ShowAllFixed(items, host).Ok?
    ensures forall k | 0 <= k < |items| :: ShowAllFixed(items, host).value[k] != []
    ensures ScanEach(ShowAllFixed(items, host).value) == EncodeAll(items, host)
    decreases SizeSeq(items), 0
  {
    if items != [] {
      TokensOfShow(items[0], host);
      TokensOfShowAll(items[1..], host);
      assert forall k | 1 <= k < |items| :: items[1..][k - 1] == items[k];
      var first := ShowFixed(items[0], host).value;
      assert Scan(first, "") == Encode(items[0], host);
      assert first != [] by {
        if first == [] { assert Scan(first, "") == []; EncodeNotEmpty(items[0], host); }
      }
    }
  }

  lemma EncodeNotEmpty(v: Value, host: Host)
    requires Datum(v, host)
    ensures Encode(v, host) != []
    ensures Encode(v, host)[0] != ")"
  {
    match v
    case Bool(b) =>
    case Int(i) =>
      ShowIntIsAtom(i);
      assert ShowInt(i) != ")" by { assert !IsDelimiter(ShowInt(i)[0]); }
    case Sym(name) =>
      assert name != ")" by { assert name[0] in name; }
    case List(_) =>
  }

  /** Reading the encoding of a datum gives the datum back and leaves the
      tokens after it in the queue. */
  lemma {:induction false} ReadEncode(v: Value, host: Host, rest: seq<string>)
    requires Datum(v, host)
    ensures ReadTokens(Encode(v, host) + rest, host) == Parsed(Ok(v), rest)
    decreases Size(v), 1
  {
    match v
    case Bool(b) =>
      assert (Encode(v, host) + rest)[1..] == rest;
    case Int(i) =>
      ParseShowInt(i);
      ToAtomPrefersInt(ShowInt(i), host);
      ShowIntIsAtom(i);
      assert ShowInt(i) != "(" && ShowInt(i) != ")" by { assert !IsDelimiter(ShowInt(i)[0]); }
      assert (Encode(v, host) + rest)[1..] == rest;
    case Sym(name) =>
      assert name != "(" && name != ")" by { assert name[0] in name; }
      assert (Encode(v, host) + rest)[1..] == rest;
    case List(items) =>
      var e := Encode(v, host) + rest;
      assert e[1..] == EncodeAll(items, host) + [")"] + rest;
      ReadItemsEncode(items, host, [], rest);
      assert [] + items == items;
  }

  lemma {:induction false} ReadItemsEncode(items: seq<Value>, host: Host, acc: seq<Value>, rest: seq<string>)
    requires forall k | 0 <= k < |items| :: Datum(items[k], host)
    ensures ReadItems(EncodeAll(items, host) + [")"] + rest, acc, host) == Parsed(Ok(List(acc + items)), rest)
    decreases SizeSeq(items), 0
  {
    if items == [] {
      assert acc + items == acc;
      assert EncodeAll(items, host) + [")"] + rest == [")"] + rest;
      assert ([")"] + rest)[1..] == rest;
    } else {
      var tail := EncodeAll(items[1..], host) + [")"] + rest;
      assert EncodeAll(items, host) + [")"] + rest == Encode(items[0], host) + tail;
      EncodeNotEmpty(items[0], host);
      ReadEncode(items[0], host, tail);
      assert forall k | 1 <= k < |items| :: items[1..][k - 1] == items[k];
      ReadItemsEncode(items[1..], host, acc + [items[0]], rest);
      assert acc + [items[0]] + items[1..] == acc + items;
    }
  }

  /** Every datum written with `()` for the empty list parses back to
      itself. */
  lemma RoundTripFixed(v: Value, host: Host)
    requires Datum(v, host)
    ensures ShowFixed(v, host).Ok?
    ensures ParseString(ShowFixed(v, host).value, host) == Ok(v)
  {
    TokensOfShow(v, host);
    ReadEncode(v, host, []);
    assert Encode(v, host) + [] == Encode(v, host);
  }

  lemma {:induction false} ShowAgrees(v: Value, host: Host)
    requires NoEmptyList(v)
    ensures Show(v, host) == ShowFixed(v, host)
    decreases Size(v), 1
  {
    match v
    case List(items) =>
      ShowAgreesAll(items, host);
      ShowJoinedIsJoin(items, host);
      var all := ShowAll(items, host);
      if all.Ok? {
        ShowNonEmptyList(items, host);
      }
    case _ =>
  }

  lemma {:induction false} ShowAgreesAll(items: seq<Value>, host: Host)
    requires forall k | 0 <= k < |items| :: NoEmptyList(items[k])
    ensures ShowAll(items, host) == ShowAllFixed(items, host)
    decreases SizeSeq(items), 0
  {
    if items != [] {
      ShowAgrees(items[0], host);
      assert forall k | 1 <= k < |items| :: items[1..][k - 1] == items[k];
      ShowAgreesAll(items[1..], host);
    }
  }

  /** The writer as the source has it reads back every datum that holds no
      empty list. */
  lemma RoundTrip(v: Value, host: Host)
    requires Datum(v, host) && NoEmptyList(v)
    ensures Show(v, host).Ok?
    ensures ParseString(Show(v, host).value, host) == Ok(v)
  {
    ShowAgrees(v, host);
    RoundTripFixed(v, host);
  }

  /** The source's writer turns the empty list into `)`, which the reader
      rejects. */
  lemma EmptyListUnreadable(host: Host)
    ensures Show(List([]), host) == Ok(")")
    ensures ParseString(")", host) == Err(SyntaxError("unexpected ')'"))
  {
    assert ShowJoined([], host) == Ok("");
    assert "("[..0] + ")" == ")";
    assert Tokens(")") == [")"] by {
      assert ")"[1..] == "";
    }
  }

  /** Strings do not survive writing and reading: `toAtom` drops the
      backslash and the last character of `\abc\`, and `toString` drops
      the first and last character again, leaving `b`, a symbol. */
  lemma StringNotRoundTrip(host: Host)
    requires NotNumber("b", host)
    ensures ToAtom("\\abc\\", host) == Ok(Str("abc"))
    ensures Show(Str("abc"), host) == Ok("b")
    ensures ParseString("b", host) == Ok(Sym("b"))
  {
    assert "\\abc\\"[1..4] == "abc";
    assert "abc"[1..2] == "b";
    ScanAtom("b", "");
    assert "" + "b" == "b";
  }

  /** The floating-point and complex parsers both reject `name`. */
  predicate NotNumber(name: string, host: Host) {
    host.parseDouble(name).None? && host.parseComplex(name).None?
  }

  /** A name that starts like no literal and that the floating-point and
      complex parsers reject is a symbol that survives writing and reading. */
  lemma PlainSymbol(name: string, host: Host)
    requires name != [] && !IsDigit(name[0]) && name[0] !in "+-#\\"
    requires forall k | 0 <= k < |name| :: !IsDelimiter(name[k])
    requires host.parseDouble(name).None? && host.parseComplex(name).None?
    ensures SymbolText(name, host)
  {
    assert name[0] != '#';
    assert ParseInt(name).None? by {
      assert !AllDigits(name) by { assert !IsDigit(name[0]); }
    }
    ToAtomSymbol(name, host);
  }

  /** A three-element list renders as its three renderings between
      parentheses. */
  lemma ShowTriple(a: Value, b: Value, c: Value, sa: string, sb: string, sc: string, host: Host)
    requires Show(a, host) == Ok(sa) && Show(b, host) == Ok(sb) && Show(c, host) == Ok(sc)
    ensures Show(List([a, b, c]), host) == Ok("(" + sa + " " + sb + " " + sc + ")")
  {
    var items := [a, b, c];
    assert ShowAll([c], host) == Ok([sc]) by {
      assert [c][1..] == [] && [sc] + [] == [sc];
    }
    assert ShowAll([b, c], host) == Ok([sb, sc]) by {
      assert [b, c][1..] == [c] && [sb] + [sc] == [sb, sc];
    }
    assert ShowAll(items, host) == Ok([sa, sb, sc]) by {
      assert items[1..] == [b, c] && [sa] + [sb, sc] == [sa, sb, sc];
    }
    assert Join([sa, sb, sc]) == sa + " " + sb + " " + sc by {
      assert [sb, sc][1..] == [sc];
      assert Join([sb, sc]) == sb + " " + sc;
      assert [sa, sb, sc][1..] == [sb, sc];
      assert sa + " " + (sb + " " + sc) == sa + " " + sb + " " + sc;
    }
    ShowNonEmptyList(items, host);
    assert "(" + Join([sa, sb, sc]) + ")" == "(" + sa + " " + sb + " " + sc + ")";
    ShowNonEmptyList(items, host);
  }

  /** The program of the source's parse test, `(begin (define r 10) (* pi
      (* r r)))`, over its five symbol names. */
  function Program(b: string, d: string, r: string, m: string, p: string): Value {
    List([Sym(b),
          List([Sym(d), Sym(r), Int(10)]),
          List([Sym(m), Sym(p), List([Sym(m), Sym(r), Sym(r)])])])
  }

  /** The text of that program, as the writer lays it out. */
  function ProgramText(b: string, d: string, r: string, m: string, p: string): string {
    var inner := "(" + m + " " + r + " " + r + ")";
    var def := "(" + d + " " + r + " " + "10" + ")";
    var mul := "(" + m + " " + p + " " + inner + ")";
    "(" + b + " " + def + " " + mul + ")"
  }

  lemma ShowTen()
    ensures ShowInt(10) == "10"
  {
    assert ShowNat(1) == ['1'];
    assert ShowNat(10) == ShowNat(1) + ['0'];
  }

  lemma ShowProgram(b: string, d: string, r: string, m: string, p: string, host: Host)
    ensures Show(Program(b, d, r, m, p), host) == Ok(ProgramText(b, d, r, m, p))
  {
    var inner := List([Sym(m), Sym(r), Sym(r)]);
    var innerText := "(" + m + " " + r + " " + r + ")";
    var defText := "(" + d + " " + r + " " + "10" + ")";
    var mulText := "(" + m + " " + p + " " + innerText + ")";
    ShowTriple(Sym(m), Sym(r), Sym(r), m, r, r, host);
    ShowTen();
    ShowTriple(Sym(d), Sym(r), Int(10), d, r, "10", host);
    ShowTriple(Sym(m), Sym(p), inner, m, p, innerText, host);
    ShowTriple(Sym(b), List([Sym(d), Sym(r), Int(10)]), List([Sym(m), Sym(p), inner]),
      b, defText, mulText, host);
  }

  /** A three-element list of data without empty lists is one too. */
  lemma DatumTriple(a: Value, b: Value, c: Value, host: Host)
    requires Datum(a, host) && Datum(b, host) && Datum(c, host)
    requires NoEmptyList(a) && NoEmptyList(b) && NoEmptyList(c)
    ensures Datum(List([a, b, c]), host) && NoEmptyList(List([a, b, c]))
  {
  }

  lemma DatumProgram(b: string, d: string, r: string, m: string, p: string, host: Host)
    requires SymbolText(b, host) && SymbolText(d, host) && SymbolText(r, host)
    requires SymbolText(m, host) && SymbolText(p, host)
    ensures Datum(Program(b, d, r, m, p), host) && NoEmptyList(Program(b, d, r, m, p))
  {
    var inner := List([Sym(m), Sym(r), Sym(r)]);
    DatumTriple(Sym(m), Sym(r), Sym(r), host);
    DatumTriple(Sym(d), Sym(r), Int(10), host);
    DatumTriple(Sym(m), Sym(p), inner, host);
    DatumTriple(Sym(b), List([Sym(d), Sym(r), Int(10)]), List([Sym(m), Sym(p), inner]), host);
  }

  lemma ProgramTextExample()
    ensures ProgramText("begin", "define", "r", "*", "pi") == "(begin (define r 10) (* pi (* r r)))"
  {
  }

  /** The five names of the parse test are symbols that survive writing
      and reading. */
  lemma ExampleSymbols(host: Host)
    requires NotNumber("begin", host) && NotNumber("define", host) && NotNumber("r", host)
    requires NotNumber("*", host) && NotNumber("pi", host)
    ensures SymbolText("begin", host) && SymbolText("define", host) && SymbolText("r", host)
    ensures SymbolText("*", host) && SymbolText("pi", host)
  {
    assert SymbolText("begin", host) by { PlainSymbol("begin", host); }
    assert SymbolText("define", host) by { PlainSymbol("define", host); }
    assert SymbolText("r", host) by { PlainSymbol("r", host); }
    assert SymbolText("*", host) by { PlainSymbol("*", host); }
    assert SymbolText("pi", host) by { PlainSymbol("pi", host); }
  }

  /** The program of the source's parse test reads as the nested list the
      test expects, given floating-point and complex parsers that reject the
      symbol names (as Java's do). */
  lemma ParseExample(host: Host)
    requires NotNumber("begin", host) && NotNumber("define", host) && NotNumber("r", host)
    requires NotNumber("*", host) && NotNumber("pi", host)
    ensures ParseString("(begin (define r 10) (* pi (* r r)))", host) ==
      Ok(Program("begin", "define", "r", "*", "pi"))
  {
    ExampleSymbols(host);
    DatumProgram("begin", "define", "r", "*", "pi", host);
    ShowProgram("begin", "define", "r", "*", "pi", host);
    ProgramTextExample();
    RoundTrip(Program("begin", "define", "r", "*", "pi"), host);
  }
}
