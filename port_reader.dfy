/** The port reader of Jispy: `read` takes one form from an `InputPort`,
    returning the end-of-input marker between forms, and `readAhead` builds
    a form from a token already taken, expanding the quote shorthands
    `'x`, `` `x ``, `,x` and `,@x` into two-element lists. */
module PortReader {
  import opened Values
  import opened Reader
  import opened Port

  /** The shorthand table `quotes` of the `Symbol` class (which is not part
      of this model), as the interpreter's quote forms define it. */
  function QuoteOf(t: string): Option<Value> {
    if t == "'" then Some(QuoteSym)
    else if t == "`" then Some(QuasiQuoteSym)
    else if t == "," then Some(UnquoteSym)
    else if t == ",@" then Some(UnquoteSplicingSym)
    else None
  }

  /** What a port still has to give, as `nextToken` sees it: the tokens to
      come, and whether the end of input was already returned (after which
      the next call fails). */
  datatype Source = Source(toks: seq<string>, ended: bool)

  /** The state of a port as a `Source`. */
  function SourceOf(p: InputPort): Source
    reads p
  {
    Source(p.Pending(), p.line.None?)
  }

  /** `nextToken` on a source, as `InputPort.NextToken` behaves. */
  function Pull(src: Source): (r: (Result<Token>, Source))
    ensures Measure(r.1) <= Measure(src)
    ensures r.0.Ok? ==> Measure(r.1) < Measure(src)
  {
    if src.ended then (Err(JvmFault(NullPointer)), src)
    else if src.toks == [] then (Ok(EofMarker), Source([], true))
    else (Ok(Text(src.toks[0])), Source(src.toks[1..], false))
  }

  /** Every successful pull lowers this. */
  function Measure(src: Source): nat {
    2 * |src.toks| + (if src.ended then 0 else 1)
  }

  /** `read(inPort)`: the end-of-input marker, or the form that starts with
      the next token. */
  function ReadF(src: Source, host: Host): (r: (Result<Value>, Source))
    ensures Measure(r.1) <= Measure(src)
    decreases Measure(src), 0
  {
    var (t, src') := Pull(src);
    if t.Err? then (Err(t.error), src')
    else if t.value == EofMarker then (Ok(Eof), src')
    else ReadAheadF(t.value, src', host)
  }

  /** `readAhead(token, inPort)`. */
  function ReadAheadF(token: Token, src: Source, host: Host): (r: (Result<Value>, Source))
    ensures Measure(r.1) <= Measure(src)
    decreases Measure(src), 1
  {
    match token
    case EofMarker => (Err(SyntaxError("unexpected EOF in list")), src)
    case Text(t) =>
      if t == "(" then ReadListF([], src, host)
      else if t == ")" then (Err(SyntaxError("unexpected )")), src)
      else if QuoteOf(t).Some? then
        var (v, src') := ReadF(src, host);
        (if v.Ok? then Ok(List([QuoteOf(t).value, v.value])) else v, src')
      else (ToAtom(t, host), src)
  }

  /** The loop of `readAhead` after a `(`: forms are read until a `)` token. */
  function ReadListF(acc: seq<Value>, src: Source, host: Host): (r: (Result<Value>, Source))
    ensures Measure(r.1) <= Measure(src)
    ensures r.0.Ok? ==> r.0.value.List? && acc <= r.0.value.items
    decreases Measure(src), 0
  {
    var (t, src') := Pull(src);
    if t.Err? then (Err(t.error), src')
    else if t.value == Text(")") then (Ok(List(acc)), src')
    else
      var (v, src'') := ReadAheadF(t.value, src', host);
      if v.Err? then (v, src'') else ReadListF(acc + [v.value], src'', host)
  }

  /** `read(inPort)` over a port. */
  method Read(p: InputPort, host: Host) returns (r: Result<Value>)
    requires p.Valid()
    modifies p
    ensures p.Valid()
    ensures (r, SourceOf(p)) == ReadF(old(SourceOf(p)), host)
    decreases Measure(SourceOf(p)), 0
  {
    var t := p.NextToken();
    if t.Err? {
      return Err(t.error);
    }
    if t.value == EofMarker {
      return Ok(Eof);
    }
    r := ReadAhead(t.value, p, host);
  }

  /** `readAhead(token, inPort)` over a port. */
  method ReadAhead(token: Token, p: InputPort, host: Host) returns (r: Result<Value>)
    requires p.Valid()
    modifies p
    ensures p.Valid()
    ensures (r, SourceOf(p)) == ReadAheadF(token, old(SourceOf(p)), host)
    decreases Measure(SourceOf(p)), 1
  {
    if token == Text("(") {
      var l: seq<Value> := [];
      ghost var start := SourceOf(p);
      while true
        invariant p.Valid()
        invariant Measure(SourceOf(p)) <= Measure(start)
        invariant ReadListF(l, SourceOf(p), host) == ReadListF([], start, host)
        decreases Measure(SourceOf(p))
      {
        var next := p.NextToken();
        if next.Err? {
          return Err(next.error);
        }
        if next.value == Text(")") {
          return Ok(List(l));
        }
        var v := ReadAhead(next.value, p, host);
        if v.Err? {
          return v;
        }
        l := l + [v.value];
      }
    } else if token == Text(")") {
      return Err(SyntaxError("unexpected )"));
    } else if token.Text? && QuoteOf(token.text).Some? {
      var v := Read(p, host);
      return if v.Ok? then Ok(List([QuoteOf(token.text).value, v.value])) else v;
    } else if token == EofMarker {
      return Err(SyntaxError("unexpected EOF in list"));
    } else {
      return ToAtom(token.text, host);
    }
  }

  // ---------------------------------------------------------------------
  // Properties
  // ---------------------------------------------------------------------

  /** A shorthand token is read as a two-element list of its quote symbol
      and the next form; at the end of input that form is the end marker. */
  lemma QuoteShorthand(q: string, src: Source, host: Host)
    requires QuoteOf(q).Some?
    ensures var (v, rest) := ReadF(src, host);
      v.Ok? ==> ReadAheadF(Text(q), src, host) == (Ok(List([QuoteOf(q).value, v.value])), rest)
    ensures ReadAheadF(Text(q), Source([], false), host) == (Ok(List([QuoteOf(q).value, Eof])), Source([], true))
  {
  }

  /** Between forms the end of input is the end marker, and the call after
      that fails; a stray `)` is a syntax error, and so is the end of input
      inside any open list, whatever it holds so far. */
  lemma ReadErrors(t: string, host: Host)
    requires t != "(" && t != ")" && QuoteOf(t).None?
    ensures ReadF(Source([], false), host) == (Ok(Eof), Source([], true))
    ensures ReadF(Source([], true), host).0 == Err(JvmFault(NullPointer))
    ensures ReadF(Source([")"], false), host).0 == Err(SyntaxError("unexpected )"))
    ensures ToAtom(t, host).Ok? ==>
      ReadF(Source(["(", t], false), host).0 == Err(SyntaxError("unexpected EOF in list"))
    ensures forall acc: seq<Value> ::
      ReadListF(acc, Source([], false), host).0 == Err(SyntaxError("unexpected EOF in list"))
  {
    if ToAtom(t, host).Ok? {
      var src := Source(["(", t], false);
      assert Pull(src) == (Ok(Text("(")), Source([t], false));
      assert Pull(Source([t], false)) == (Ok(Text(t)), Source([], false));
      var v := ToAtom(t, host).value;
      assert ReadAheadF(Text(t), Source([], false), host) == (Ok(v), Source([], false));
      assert ReadListF([v], Source([], false), host).0 == Err(SyntaxError("unexpected EOF in list"));
      assert ReadListF([], Source([t], false), host).0 == Err(SyntaxError("unexpected EOF in list"));
    }
  }

  /** On tokens without quote shorthands, reading from a port agrees with
      `readFromTokens` wherever the latter succeeds: the same form, and the
      same tokens left. */
  lemma {:induction false} ReadAgrees(ts: seq<string>, host: Host)
    requires forall k | 0 <= k < |ts| :: QuoteOf(ts[k]).None?
    requires ReadTokens(ts, host).result.Ok?
    ensures ReadF(Source(ts, false), host) ==
      (ReadTokens(ts, host).result, Source(ReadTokens(ts, host).rest, false))
    decreases |ts|, 0
  {
    if ts[0] == "(" {
      ReadItemsAgree(ts[1..], [], host);
    }
  }

  lemma {:induction false} ReadItemsAgree(ts: seq<string>, acc: seq<Value>, host: Host)
    requires forall k | 0 <= k < |ts| :: QuoteOf(ts[k]).None?
    requires ReadItems(ts, acc, host).result.Ok?
    ensures ReadListF(acc, Source(ts, false), host) ==
      (ReadItems(ts, acc, host).result, Source(ReadItems(ts, acc, host).rest, false))
    decreases |ts|, 1
  {
    if ts[0] != ")" {
      var p := ReadTokens(ts, host);
      ReadAgrees(ts, host);
      forall k | 0 <= k < |p.rest|
        ensures QuoteOf(p.rest[k]).None?
      {
        ReadTokensSuffix(ts, host);
        var j := |ts| - |p.rest| + k;
        assert p.rest[k] == ts[j];
      }
      ReadItemsAgree(p.rest, acc + [p.result.value], host);
      assert ReadAheadF(Text(ts[0]), Source(ts[1..], false), host) == ReadF(Source(ts, false), host);
    }
  }

  /** What `readFromTokens` leaves is a suffix of its queue. */
  lemma {:induction false} ReadTokensSuffix(ts: seq<string>, host: Host)
    ensures ReadTokens(ts, host).rest == ts[|ts| - |ReadTokens(ts, host).rest|..]
    decreases |ts|, 0
  {
    if ts != [] && ts[0] == "(" {
      ReadItemsSuffix(ts[1..], [], host);
      assert ts[1..][|ts| - 1 - |ReadItems(ts[1..], [], host).rest|..] ==
        ts[|ts| - |ReadItems(ts[1..], [], host).rest|..];
    }
  }

  lemma {:induction false} ReadItemsSuffix(ts: seq<string>, acc: seq<Value>, host: Host)
    ensures ReadItems(ts, acc, host).rest == ts[|ts| - |ReadItems(ts, acc, host).rest|..]
    decreases |ts|, 1
  {
    if ts != [] && ts[0] != ")" {
      var p := ReadTokens(ts, host);
      ReadTokensSuffix(ts, host);
      if p.result.Ok? {
        ReadItemsSuffix(p.rest, acc + [p.result.value], host);
        var r := ReadItems(p.rest, acc + [p.result.value], host).rest;
        assert p.rest[|p.rest| - |r|..] == ts[|ts| - |r|..];
      }
    }
  }
}
