/** Jispy's syntax expander: `expand` checks the shape of each special form
    and rewrites derived syntax (`define` of a procedure, several-form
    `lambda` bodies, quasiquote, macro calls) into the core forms `eval`
    knows. Its state is the interpreter's global environment, where macro
    definitions are evaluated, and the macro table. */
module Expander {
  import opened Values
  import opened Evaluator

  /** `isPair`: a non-empty list. */
  predicate IsPair(x: Value) {
    x.List? && x.items != []
  }

  /** `require(x, predicate, m)`: a failed check is a SecurityException
      carrying the offending form; the two-argument form uses the message
      "wrong length". Every shape check of `expand` and `expandQuasiQuote`
      goes through it. */
  function Require(x: Value, ok: bool, msg: string): (r: Result<()>)
    ensures r.Ok? <==> ok
    ensures !ok ==> r.error == SecurityError(x, msg)
  {
    if ok then Ok(()) else Err(SecurityError(x, msg))
  }

  const WrongLength := "wrong length"

  // ---------------------------------------------------------------------
  // Quasiquote
  // ---------------------------------------------------------------------

  /** `expandQuasiQuote`: a template becomes code that builds it with
      `cons` and `append`; an `(unquote e)` is replaced by `e` itself and an
      element `(unquote-splicing e)` is appended. A null element is a
      NullPointerException from `equals` on it. */
  function QuasiQuote(x: Value): (r: Result<Value>)
    ensures r.Err? ==> (r.error == JvmFault(NullPointer) ||
      (r.error.SecurityError? && Within(r.error.form, x) &&
       (r.error.msg == WrongLength || r.error.msg == "can't splice here")))
    decreases Size(x)
  {
    if !IsPair(x) then Ok(List([QuoteSym, x]))
    else
      var l := x.items;
      if l[0].Null? then Err(JvmFault(NullPointer))
      else
        var _ :- Require(x, l[0] != UnquoteSplicingSym, "can't splice here");
        if l[0] == UnquoteSym then
          var _ :- Require(x, |l| == 2, WrongLength);
          Ok(l[1])
        else
          var rest := List(l[1..]);
          assert Size(rest) < Size(x);
          assert Size(l[0]) < Size(x);
          if IsPair(l[0]) && l[0].items[0].Null? then Err(JvmFault(NullPointer))
          else if IsPair(l[0]) && l[0].items[0] == UnquoteSplicingSym then
            var _ :- Require(l[0], |l[0].items| == 2, WrongLength);
            var tail :- QuasiQuote(rest);
            Ok(List([AppendSym, l[0].items[1], tail]))
          else
            var head :- QuasiQuote(l[0]);
            var tail :- QuasiQuote(rest);
            Ok(List([ConsSym, head, tail]))
  }

  /** `y` is `x` or a part of it the quasiquote rewrite visits: the first
      element of a list, or the list of the elements after it. */
  predicate Within(y: Value, x: Value)
    decreases Size(x)
  {
    y == x ||
    (x.List? && x.items != [] &&
      var rest := List(x.items[1..]);
      assert Size(rest) < Size(x) && Size(x.items[0]) < Size(x);
      Within(y, x.items[0]) || Within(y, rest))
  }

  /** A template with no unquoting in it: no element of any of its lists is
      null, `unquote` or `unquote-splicing`. */
  predicate Plain(x: Value)
    decreases Size(x)
  {
    match x
    case List(items) =>
      forall k | 0 <= k < |items| ::
        items[k] != Null && items[k] != UnquoteSym && items[k] != UnquoteSplicingSym &&
        (SizeSeqElement(items, k); Plain(items[k]))
    case _ => true
  }

  /** The value the code `QuasiQuote` builds denotes, read with `quote`,
      `cons` and `append` as Scheme defines them. */
  function Denote(t: Value): Option<Value>
    decreases Size(t)
  {
    if t.List? && |t.items| == 2 && t.items[0] == QuoteSym then Some(t.items[1])
    else if t.List? && |t.items| == 3 && (t.items[0] == ConsSym || t.items[0] == AppendSym) then
      SizeSeqElement(t.items, 1);
      SizeSeqElement(t.items, 2);
      match (Denote(t.items[1]), Denote(t.items[2]))
      case (Some(a), Some(List(d))) =>
        if t.items[0] == ConsSym then Some(List([a] + d))
        else if a.List? then Some(List(a.items + d))
        else None
      case _ => None
    else None
  }

  /** A template without unquoting is quoted as it stands: the code
      `QuasiQuote` builds for it denotes the template itself. */
  lemma {:induction false} QuasiQuotePlain(x: Value)
    requires Plain(x)
    ensures QuasiQuote(x).Ok? && Denote(QuasiQuote(x).value) == Some(x)
    decreases Size(x)
  {
    if IsPair(x) {
      var l := x.items;
      var rest := List(l[1..]);
      assert Size(rest) < Size(x);
      SizeSeqElement(l, 0);
      assert Plain(l[0]) && l[0] != Null && l[0] != UnquoteSym && l[0] != UnquoteSplicingSym;
      PlainTail(l);
      QuasiQuotePlain(l[0]);
      QuasiQuotePlain(rest);
      assert Plain(l[0]);
      QuasiQuoteCons(x);
      DenoteCons(QuasiQuote(l[0]).value, QuasiQuote(rest).value);
      assert l == [l[0]] + l[1..];
    }
  }

  /** A template whose first element is neither null, an unquote nor a
      splice, and whose first element is not itself a splice form, builds a
      `cons` of the code for that element and the code for the rest. */
  lemma QuasiQuoteCons(x: Value)
    requires IsPair(x)
    requires x.items[0] != Null && x.items[0] != UnquoteSym && x.items[0] != UnquoteSplicingSym
    requires !(IsPair(x.items[0]) && (x.items[0].items[0].Null? || x.items[0].items[0] == UnquoteSplicingSym))
    requires QuasiQuote(x.items[0]).Ok? && QuasiQuote(List(x.items[1..])).Ok?
    ensures QuasiQuote(x) ==
      Ok(List([ConsSym, QuasiQuote(x.items[0]).value, QuasiQuote(List(x.items[1..])).value]))
  {
  }

  /** `(cons a d)` denotes `a` put in front of the list `d`. */
  lemma DenoteCons(h: Value, t: Value)
    requires Denote(h).Some? && Denote(t).Some? && Denote(t).value.List?
    ensures Denote(List([ConsSym, h, t])) ==
      Some(List([Denote(h).value] + Denote(t).value.items))
  {
    var c := List([ConsSym, h, t]);
    assert c.items[1] == h && c.items[2] == t;
  }

  /** The elements after the first of a template without unquoting form
      one too. */
  lemma PlainTail(l: seq<Value>)
    requires l != [] && Plain(List(l))
    ensures Plain(List(l[1..]))
  {
    forall k | 0 <= k < |l[1..]|
      ensures Plain(l[1..][k])
    {
      assert l[1..][k] == l[k + 1];
      SizeSeqElement(l, k + 1);
    }
  }

  /** The three ways an unquote shows in a template, as the source rewrites
      them: `(unquote e)` is `e`, a leading `(unquote-splicing e)` becomes an
      `append`, and `unquote-splicing` at the head of the template itself
      is refused. */
  lemma QuasiQuoteUnquote(e: Value, rest: seq<Value>)
    ensures QuasiQuote(List([UnquoteSym, e])) == Ok(e)
    ensures QuasiQuote(List([UnquoteSplicingSym] + rest)).Err?
    ensures QuasiQuote(List(rest)).Ok? ==>
      QuasiQuote(List([List([UnquoteSplicingSym, e])] + rest)) ==
        Ok(List([AppendSym, e, QuasiQuote(List(rest)).value]))
  {
    var x := List([List([UnquoteSplicingSym, e])] + rest);
    assert x.items[1..] == rest;
  }

  // ---------------------------------------------------------------------
  // expand
  // ---------------------------------------------------------------------

  /** The interpreter state `expand` reads and writes: the environment
      store, whose frame 0 is the global environment, and `macro_table`. */
  datatype Interp = Interp(store: Store, macros: map<string, Value>)

  predicate Valid(st: Interp) {
    WellFormed(st.store) && |st.store| > 0 &&
    forall m | m in st.macros :: IsProcedure(st.macros[m])
  }

  /** An expansion's result together with the state it leaves. */
  datatype Expanded<+T> = Expanded(result: Result<T>, st: Interp)

  /** The names of the forms `expand` handles itself. */
  predicate SpecialHead(h: Value) {
    h in [QuoteSym, IfSym, SetSym, DefineSym, DefineMacroSym, BeginSym, LambdaSym, QuasiQuoteSym]
  }

  /** A list of symbols: the parameter list `lambda` accepts. */
  predicate SymbolList(v: Value) {
    v.List? && forall k | 0 <= k < |v.items| :: v.items[k].Sym?
  }

  /** `expand(x, topLevel)`. `fuel` bounds the rewrites that build a larger
      form (a procedure `define` and a macro call, each costing one unit)
      and the closure calls a macro makes. Only a top-level expansion can
      change the macro table or the global frame; no expansion changes any
      other existing frame. */
  function Expand(x: Value, top: bool, st: Interp, fuel: nat, host: Host): (r: Expanded<Value>)
    requires Valid(st)
    ensures Valid(r.st) && |st.store| <= |r.st.store|
    ensures forall k | 1 <= k < |st.store| :: r.st.store[k] == st.store[k]
    ensures !top ==> r.st.macros == st.macros && r.st.store[0] == st.store[0]
    decreases fuel, Size(x)
  {
    var notNil := Require(x, x != List([]), WrongLength);
    if notNil.Err? then Expanded(Err(notNil.error), st)
    else if !x.List? then Expanded(Ok(x), st)
    else
      var l := x.items;
      var head := l[0];
      assert SizeSeq(l) < Size(x);
      if head.Null? then Expanded(Err(JvmFault(NullPointer)), st)
      else if head == QuoteSym then
        Expanded((var _ :- Require(x, |l| == 2, WrongLength); Ok(x)), st)
      else if head == IfSym then
        // A three-element `if` gets a null alternative (`l.add(null)`); null
        // expands to itself, so it is appended after the other elements
        // (`ExpandAllPadded` shows this is the map over the padded list).
        var sized := Require(x, |l| == 3 || |l| == 4, WrongLength);
        if sized.Err? then Expanded(Err(sized.error), st)
        else
          var pad := if |l| == 3 then [Null] else [];
          var r := ExpandAll(l, false, st, fuel, host);
          Expanded(if r.result.Ok? then Ok(List(r.result.value + pad)) else Err(r.result.error), r.st)
      else if head == SetSym then
        var sized := Require(x, |l| == 3, WrongLength);
        if sized.Err? then Expanded(Err(sized.error), st)
        else
          var target := Require(x, l[1].Sym?, "can set! only a symbol");
          if target.Err? then Expanded(Err(target.error), st)
          else
            SizeSeqElement(l, 2);
            var e := Expand(l[2], false, st, fuel, host);
            Expanded(if e.result.Ok? then Ok(List([SetSym, l[1], e.result.value])) else e.result, e.st)
      else if head == DefineSym || head == DefineMacroSym then
        ExpandDefine(x, top, st, fuel, host)
      else if head == BeginSym then
        if |l| == 1 then Expanded(Ok(Null), st)
        else
          var r := ExpandAll(l, top, st, fuel, host);
          Expanded(if r.result.Ok? then Ok(List(r.result.value)) else Err(r.result.error), r.st)
      else if head == LambdaSym then
        ExpandLambdaForm(x, st, fuel, host)
      else if head == QuasiQuoteSym then
        Expanded((var _ :- Require(x, |l| == 2, WrongLength); QuasiQuote(l[1])), st)
      else if head.Sym? && head.name in st.macros then
        ExpandMacroCall(x, top, st, fuel, host)
      else
        var r := ExpandAll(l, false, st, fuel, host);
        Expanded(if r.result.Ok? then Ok(List(r.result.value)) else Err(r.result.error), r.st)
  }

  /** The `lambda` case of `expand`: the parameters must be a list of
      symbols, and a body of several forms becomes one `begin`. */
  function ExpandLambdaForm(x: Value, st: Interp, fuel: nat, host: Host): (r: Expanded<Value>)
    requires Valid(st) && x.List? && x.items != [] && x.items[0] == LambdaSym
    ensures Valid(r.st) && |st.store| <= |r.st.store|
    ensures forall k | 1 <= k < |st.store| :: r.st.store[k] == st.store[k]
    ensures r.st.macros == st.macros && r.st.store[0] == st.store[0]
    decreases fuel, Size(x), 0
  {
    var l := x.items;
    var sized := Require(x, |l| >= 3, WrongLength);
    if sized.Err? then Expanded(Err(sized.error), st)
    else
      var params := Require(x, SymbolList(l[1]), WrongLength);
      if params.Err? then Expanded(Err(params.error), st)
      else
        var body := l[2..];
        var exp := if |body| == 1 then body[0] else List([BeginSym] + body);
        assert Size(exp) < Size(x) by {
          assert l == l[..2] + body;
          SizeSeqAppend(l[..2], body);
          SizeSeqAppend([BeginSym], body);
          SizeSeqElement(l, 2);
        }
        var e := Expand(exp, false, st, fuel, host);
        Expanded(if e.result.Ok? then Ok(List([LambdaSym, l[1], e.result.value])) else e.result, e.st)
  }

  /** A call of a macro: the macro procedure is applied to the unevaluated
      arguments and what it returns is expanded in turn. */
  function ExpandMacroCall(x: Value, top: bool, st: Interp, fuel: nat, host: Host): (r: Expanded<Value>)
    requires Valid(st) && x.List? && x.items != []
    requires x.items[0].Sym? && x.items[0].name in st.macros
    ensures Valid(r.st) && |st.store| <= |r.st.store|
    ensures forall k | 1 <= k < |st.store| :: r.st.store[k] == st.store[k]
    ensures !top ==> r.st.macros == st.macros && r.st.store[0] == st.store[0]
    decreases fuel, Size(x), 0
  {
    var l := x.items;
    var a := Apply(st.macros[l[0].name], l[1..], st.store, fuel, host);
    var st' := st.(store := a.store);
    if a.result.Err? then Expanded(Err(a.result.error), st')
    else if fuel == 0 then Expanded(Err(OutOfFuel), st')
    else Expand(a.result.value, top, st', fuel - 1, host)
  }

  /** The `define` and `define-macro` case of `expand`. */
  function ExpandDefine(x: Value, top: bool, st: Interp, fuel: nat, host: Host): (r: Expanded<Value>)
    requires Valid(st) && x.List? && x.items != []
    requires x.items[0] == DefineSym || x.items[0] == DefineMacroSym
    ensures Valid(r.st) && |st.store| <= |r.st.store|
    ensures forall k | 1 <= k < |st.store| :: r.st.store[k] == st.store[k]
    ensures !top ==> r.st.macros == st.macros && r.st.store[0] == st.store[0]
    decreases fuel, Size(x), 0
  {
    var l := x.items;
    var def := l[0];
    var sized := Require(x, |l| >= 3, WrongLength);
    if sized.Err? then Expanded(Err(sized.error), st)
    else
      var v := l[1];
      if v.List? && v.items != [] then
        // (define (f args...) body...) => (define f (lambda (args...) (body...)))
        if fuel == 0 then Expanded(Err(OutOfFuel), st)
        else Expand(List([def, v.items[0], List([LambdaSym, List(v.items[1..]), List(l[2..])])]),
                    false, st, fuel - 1, host)
      else
        var exact := Require(x, |l| == 3, WrongLength);
        if exact.Err? then Expanded(Err(exact.error), st)
        else
          var target := Require(x, v.Sym?, "can define only a symbol");
          if target.Err? then Expanded(Err(target.error), st)
          else
            SizeSeqElement(l, 2);
            var e := Expand(l[2], false, st, fuel, host);
            if e.result.Err? then e
            else if def == DefineMacroSym then
              var atTop := Require(x, top, "define-macro only allowed at top level");
              if atTop.Err? then Expanded(Err(atTop.error), e.st)
              else
                var p := Eval(e.result.value, 0, e.st.store, fuel, host);
                var st' := e.st.(store := p.store);
                if p.result.Err? then Expanded(Err(p.result.error), st')
                else
                  var isProc := Require(x, IsProcedure(p.result.value), "macro must be a procedure");
                  if isProc.Err? then Expanded(Err(isProc.error), st')
                  else Expanded(Ok(Null), st'.(macros := st'.macros[v.name := p.result.value]))
            else Expanded(Ok(List([DefineSym, v, e.result.value])), e.st)
  }

  /** `l.stream().map(i -> expand(i, top))`: element by element, left to
      right, each element seeing the macros defined by those before it. */
  function ExpandAll(items: seq<Value>, top: bool, st: Interp, fuel: nat, host: Host): (r: Expanded<seq<Value>>)
    requires Valid(st)
    ensures Valid(r.st) && |st.store| <= |r.st.store|
    ensures forall k | 1 <= k < |st.store| :: r.st.store[k] == st.store[k]
    ensures !top ==> r.st.macros == st.macros && r.st.store[0] == st.store[0]
    ensures r.result.Ok? ==> |r.result.value| == |items|
    decreases fuel, SizeSeq(items)
  {
    if items == [] then Expanded(Ok([]), st)
    else
      SizeSeqElement(items, 0);
      var first := Expand(items[0], top, st, fuel, host);
      if first.result.Err? then Expanded(Err(first.result.error), first.st)
      else
        var rest := ExpandAll(items[1..], top, first.st, fuel, host);
        if rest.result.Err? then rest
        else Expanded(Ok([first.result.value] + rest.result.value), rest.st)
  }

  /** Mapping `expand` over a list with a null added at the end is the map
      over the list followed by that null. */
  lemma {:induction false} ExpandAllPadded(items: seq<Value>, top: bool, st: Interp, fuel: nat, host: Host)
    requires Valid(st)
    ensures var padded := ExpandAll(items + [Null], top, st, fuel, host);
      var plain := ExpandAll(items, top, st, fuel, host);
      padded.st == plain.st &&
      padded.result == (if plain.result.Ok? then Ok(plain.result.value + [Null]) else plain.result)
    decreases |items|
  {
    if items == [] {
      assert [] + [Null] == [Null];
      assert [Null][1..] == [];
      assert Expand(Null, top, st, fuel, host) == Expanded(Ok(Null), st);
      assert ExpandAll([], top, st, fuel, host) == Expanded(Ok([]), st);
      assert [Null] + [] == [] + [Null];
    } else {
      assert (items + [Null])[0] == items[0];
      assert (items + [Null])[1..] == items[1..] + [Null];
      var first := Expand(items[0], top, st, fuel, host);
      if first.result.Ok? {
        ExpandAllPadded(items[1..], top, first.st, fuel, host);
        var rest := ExpandAll(items[1..], top, first.st, fuel, host);
        if rest.result.Ok? {
          assert [first.result.value] + (rest.result.value + [Null]) ==
            ([first.result.value] + rest.result.value) + [Null];
        }
      }
    }
  }

  // ---------------------------------------------------------------------
  // Shapes of the expanded forms
  // ---------------------------------------------------------------------

  /** `quote` must have exactly one operand and is kept as it stands. */
  lemma ExpandQuote(x: Value, top: bool, st: Interp, fuel: nat, host: Host)
    requires Valid(st) && x.List? && x.items != [] && x.items[0] == QuoteSym
    ensures var r := Expand(x, top, st, fuel, host);
      r.st == st && (r.result.Ok? <==> |x.items| == 2) && (r.result.Ok? ==> r.result.value == x)
  {
  }

  /** `if` must have two or three operands; the result is a four-element
      `if`, a missing alternative being null, and the operands are expanded
      in order and not at top level. */
  lemma ExpandIf(x: Value, top: bool, st: Interp, fuel: nat, host: Host)
    requires Valid(st) && x.List? && x.items != [] && x.items[0] == IfSym
    ensures var r := Expand(x, top, st, fuel, host);
      (|x.items| != 3 && |x.items| != 4 ==> r.result == Err(SecurityError(x, WrongLength))) &&
      (r.result.Ok? ==>
        var y := r.result.value.items;
        |y| == 4 && y[0] == IfSym &&
        (|x.items| == 3 ==> y[3] == Null) &&
        forall k | 1 <= k < |x.items| ::
          Expand(x.items[k], false, ExpandAll(x.items[..k], false, st, fuel, host).st, fuel, host).result == Ok(y[k]))
  {
    var l := x.items;
    if |l| == 3 || |l| == 4 {
      var r := ExpandAll(l, false, st, fuel, host);
      if r.result.Ok? {
        forall k | 0 <= k < |l|
          ensures Expand(l[k], false, ExpandAll(l[..k], false, st, fuel, host).st, fuel, host).result == Ok(r.result.value[k])
        {
          ExpandAllElement(l, k, false, st, fuel, host);
        }
        assert r.result.value[0] == l[0] by {
          assert l[..0] == [];
        }
      }
    }
  }

  /** Element `k` of a successful element-wise expansion is the expansion
      of item `k` in the state the items before it leave. */
  lemma {:induction false} ExpandAllElement(items: seq<Value>, k: nat, top: bool, st: Interp, fuel: nat, host: Host)
    requires Valid(st) && k < |items|
    requires ExpandAll(items, top, st, fuel, host).result.Ok?
    ensures var pre := ExpandAll(items[..k], top, st, fuel, host);
      pre.result.Ok? &&
      Expand(items[k], top, pre.st, fuel, host).result == Ok(ExpandAll(items, top, st, fuel, host).result.value[k])
    decreases k
  {
    var first := Expand(items[0], top, st, fuel, host);
    if k == 0 {
      assert items[..0] == [];
    } else {
      ExpandAllElement(items[1..], k - 1, top, first.st, fuel, host);
      assert items[..k][0] == items[0];
      assert items[..k][1..] == items[1..][..k - 1];
      assert items[1..][k - 1] == items[k];
    }
  }

  /** `set!` needs exactly a symbol and an expression; only the expression
      is expanded. */
  lemma ExpandSet(x: Value, top: bool, st: Interp, fuel: nat, host: Host)
    requires Valid(st) && x.List? && x.items != [] && x.items[0] == SetSym
    ensures var r := Expand(x, top, st, fuel, host);
      (|x.items| != 3 ==> r.result == Err(SecurityError(x, WrongLength))) &&
      (|x.items| == 3 && !x.items[1].Sym? ==> r.result == Err(SecurityError(x, "can set! only a symbol"))) &&
      (r.result.Ok? ==>
        |x.items| == 3 && x.items[1].Sym? &&
        r.result.value == List([SetSym, x.items[1], Expand(x.items[2], false, st, fuel, host).result.value]))
  {
  }

  /** `(begin)` is null; otherwise `begin` expands element-wise at the same
      level: element `k` of the result is the expansion of form `k` in the
      state the forms before it leave. */
  lemma ExpandBegin(x: Value, top: bool, st: Interp, fuel: nat, host: Host)
    requires Valid(st) && x.List? && x.items != [] && x.items[0] == BeginSym
    ensures var r := Expand(x, top, st, fuel, host);
      (|x.items| == 1 ==> r == Expanded(Ok(Null), st)) &&
      (|x.items| > 1 ==> r.st == ExpandAll(x.items, top, st, fuel, host).st) &&
      (|x.items| > 1 && r.result.Ok? ==>
        r.result.value.List? && |r.result.value.items| == |x.items| &&
        r.result.value.items[0] == BeginSym &&
        forall k | 1 <= k < |x.items| ::
          Expand(x.items[k], top, ExpandAll(x.items[..k], top, st, fuel, host).st, fuel, host).result ==
            Ok(r.result.value.items[k]))
  {
    var l := x.items;
    if |l| > 1 {
      var r := ExpandAll(l, top, st, fuel, host);
      assert Expand(x, top, st, fuel, host) ==
        Expanded(if r.result.Ok? then Ok(List(r.result.value)) else Err(r.result.error), r.st);
      if r.result.Ok? {
        forall k | 0 <= k < |l|
          ensures Expand(l[k], top, ExpandAll(l[..k], top, st, fuel, host).st, fuel, host).result == Ok(r.result.value[k])
        {
          ExpandAllElement(l, k, top, st, fuel, host);
        }
        assert r.result.value[0] == l[0] by {
          assert l[..0] == [];
        }
      }
    }
  }

  /** `lambda` needs a list of symbols and at least one body form; several
      body forms are folded into one `begin`, so the result always has
      three elements. */
  lemma ExpandLambda(x: Value, top: bool, st: Interp, fuel: nat, host: Host)
    requires Valid(st) && x.List? && x.items != [] && x.items[0] == LambdaSym
    ensures var r := Expand(x, top, st, fuel, host);
      (|x.items| < 3 || !SymbolList(x.items[1]) ==> r.result == Err(SecurityError(x, WrongLength))) &&
      (r.result.Ok? ==>
        var body := x.items[2..];
        var exp := if |body| == 1 then body[0] else List([BeginSym] + body);
        var e := Expand(exp, false, st, fuel, host).result;
        |x.items| >= 3 && SymbolList(x.items[1]) &&
        e.Ok? && r.result.value == List([LambdaSym, x.items[1], e.value]))
  {
    assert Expand(x, top, st, fuel, host) == ExpandLambdaForm(x, st, fuel, host);
  }

  /** `define` needs at least two operands. A list target `(f a...)` is
      rewritten, at one unit of fuel, to `(define f (lambda (a...) (body...)))`,
      the body list becoming the single lambda body, and expanded again not
      at top level; otherwise the form must be exactly a symbol and an
      expression. */
  lemma ExpandDefineShapes(x: Value, top: bool, st: Interp, fuel: nat, host: Host)
    requires Valid(st) && x.List? && x.items != [] && x.items[0] == DefineSym
    ensures var l := x.items;
      var r := Expand(x, top, st, fuel, host);
      (|l| < 3 ==> r.result == Err(SecurityError(x, WrongLength))) &&
      (|l| >= 3 && IsPair(l[1]) && fuel > 0 ==>
        r == Expand(List([DefineSym, l[1].items[0], List([LambdaSym, List(l[1].items[1..]), List(l[2..])])]),
                    false, st, fuel - 1, host)) &&
      (|l| >= 3 && !IsPair(l[1]) ==>
        (|l| != 3 ==> r.result == Err(SecurityError(x, WrongLength))) &&
        (|l| == 3 && !l[1].Sym? ==> r.result == Err(SecurityError(x, "can define only a symbol"))) &&
        (|l| == 3 && l[1].Sym? ==>
          var e := Expand(l[2], false, st, fuel, host);
          r.st == e.st &&
          r.result == (if e.result.Ok? then Ok(List([DefineSym, l[1], e.result.value])) else e.result)))
  {
  }

  // ---------------------------------------------------------------------
  // Macros
  // ---------------------------------------------------------------------

  /** `define-macro` is refused below the top level, whatever its shape. */
  lemma {:induction false} DefineMacroNotTop(x: Value, st: Interp, fuel: nat, host: Host)
    requires Valid(st) && x.List? && x.items != [] && x.items[0] == DefineMacroSym
    ensures Expand(x, false, st, fuel, host).result.Err?
    decreases fuel
  {
    var l := x.items;
    if |l| >= 3 && IsPair(l[1]) && fuel > 0 {
      var y := List([DefineMacroSym, l[1].items[0], List([LambdaSym, List(l[1].items[1..]), List(l[2..])])]);
      DefineMacroNotTop(y, st, fuel - 1, host);
    }
  }

  /** The procedure shorthand `(define-macro (m a...) body...)` never
      defines a macro, even at top level: its rewrite is expanded below the
      top level. */
  lemma DefineMacroShorthandFails(x: Value, top: bool, st: Interp, fuel: nat, host: Host)
    requires Valid(st) && x.List? && |x.items| >= 3 && x.items[0] == DefineMacroSym && IsPair(x.items[1])
    ensures Expand(x, top, st, fuel, host).result.Err?
    ensures Expand(x, top, st, fuel, host).st.macros == st.macros
  {
    var l := x.items;
    if fuel > 0 {
      var y := List([DefineMacroSym, l[1].items[0], List([LambdaSym, List(l[1].items[1..]), List(l[2..])])]);
      DefineMacroNotTop(y, st, fuel - 1, host);
    }
  }

  /** At top level, `(define-macro m e)` evaluates the expansion of `e` in
      the global environment and, when that is a procedure, enters it in
      the macro table under `m` and yields null. */
  lemma DefineMacroTop(m: string, e: Value, st: Interp, fuel: nat, host: Host)
    requires Valid(st)
    ensures var x := List([DefineMacroSym, Sym(m), e]);
      var r := Expand(x, true, st, fuel, host);
      var ex := Expand(e, false, st, fuel, host);
      ex.result.Ok? ==>
        var p := Eval(ex.result.value, 0, ex.st.store, fuel, host);
        (p.result.Ok? && IsProcedure(p.result.value) ==>
          r.result == Ok(Null) && r.st.macros == st.macros[m := p.result.value] &&
          r.st.store == p.store) &&
        (p.result.Ok? && !IsProcedure(p.result.value) ==>
          r.result == Err(SecurityError(x, "macro must be a procedure")) && r.st.macros == st.macros)
  {
    var x := List([DefineMacroSym, Sym(m), e]);
    assert x.items[1] == Sym(m) && x.items[2] == e;
    assert Expand(x, true, st, fuel, host) == ExpandDefine(x, true, st, fuel, host);
  }

  /** A form headed by a macro's name is replaced by the macro applied to
      the unexpanded operands, and that result is expanded at the same
      level, at one unit of fuel. */
  lemma MacroCall(x: Value, top: bool, st: Interp, fuel: nat, host: Host)
    requires Valid(st) && x.List? && x.items != [] && x.items[0].Sym?
    requires !SpecialHead(x.items[0]) && x.items[0].name in st.macros
    ensures var a := Apply(st.macros[x.items[0].name], x.items[1..], st.store, fuel, host);
      a.result.Ok? && fuel > 0 ==>
        Expand(x, top, st, fuel, host) == Expand(a.result.value, top, st.(store := a.store), fuel - 1, host)
  {
  }

  /** Quasiquote output is not expanded again: a three-element `if` inside
      an unquote stays three elements long, where expanding it directly
      adds the null alternative. */
  lemma QuasiQuoteNotExpanded(st: Interp, fuel: nat, host: Host)
    requires Valid(st)
    ensures var form := List([IfSym, Bool(true), Int(1)]);
      Expand(List([QuasiQuoteSym, List([UnquoteSym, form])]), true, st, fuel, host).result == Ok(form) &&
      Expand(form, true, st, fuel, host).result == Ok(List([IfSym, Bool(true), Int(1), Null]))
  {
    var form := List([IfSym, Bool(true), Int(1)]);
    var q := List([QuasiQuoteSym, List([UnquoteSym, form])]);
    assert Expand(q, true, st, fuel, host).result == Ok(form) by {
      assert q.items[1] == List([UnquoteSym, form]);
      assert QuasiQuote(List([UnquoteSym, form])) == Ok(form);
    }
    assert Expand(form, true, st, fuel, host).result == Ok(List([IfSym, Bool(true), Int(1), Null])) by {
      ExpandAllAtoms(form.items, false, st, fuel, host);
      assert [IfSym, Bool(true), Int(1)] + [Null] == [IfSym, Bool(true), Int(1), Null];
    }
  }

  /** Atoms expand to themselves and leave the state alone. */
  lemma {:induction false} ExpandAllAtoms(items: seq<Value>, top: bool, st: Interp, fuel: nat, host: Host)
    requires Valid(st) && forall k | 0 <= k < |items| :: !items[k].List?
    ensures ExpandAll(items, top, st, fuel, host) == Expanded(Ok(items), st)
    decreases |items|
  {
    if items != [] {
      ExpandAllAtoms(items[1..], top, st, fuel, host);
      assert [items[0]] + items[1..] == items;
    }
  }
}
