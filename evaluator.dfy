/** Jispy's `eval`: a tree walker over a chain of environments.

    The environments (`Env` objects in the source) are kept in an explicit
    store: a frame is a map from keys to values plus the index of its outer
    frame, and an environment reference is an index into the store. A frame
    only ever points to an older frame, so the store is `WellFormed` and the
    chain walk of `find` terminates. The `Env` class itself is not part of
    this model; `Find`, `Put` and `NewFrame` state what `eval` relies on:
    `find` returns the nearest frame that binds the key, `put` writes the
    current frame, and `new Env(params, args, outer)` binds positionally. */
module Evaluator {
  import opened Values

  datatype Frame = Frame(vars: map<Value, Value>, outer: Option<nat>)

  type Store = seq<Frame>

  /** Every frame's outer frame is older than the frame itself. */
  predicate WellFormed(store: Store) {
    forall k | 0 <= k < |store| :: store[k].outer.Some? ==> store[k].outer.value < k
  }

  /** Frame `k` lies on the chain of outer frames that starts at `env`. */
  predicate OnChain(store: Store, env: nat, k: nat)
    requires WellFormed(store)
    ensures OnChain(store, env, k) ==> k <= env < |store|
    decreases env
  {
    env < |store| &&
    (k == env || (store[env].outer.Some? && OnChain(store, store[env].outer.value, k)))
  }

  /** `env.find(key)`: the nearest frame along the outer chain that binds
      `key`, or `None` where no frame does. Frames further out have lower
      indices, so "nearer" is "higher on the chain". */
  function Find(store: Store, env: nat, key: Value): (r: Option<nat>)
    requires WellFormed(store)
    ensures r.Some? ==> r.value <= env && r.value < |store| && key in store[r.value].vars
    ensures r.Some? ==> OnChain(store, env, r.value)
    ensures r.Some? ==> forall k: nat | OnChain(store, env, k) && r.value < k :: key !in store[k].vars
    ensures r.None? ==> forall k: nat | OnChain(store, env, k) :: key !in store[k].vars
    decreases env
  {
    if env >= |store| then None
    else if key in store[env].vars then Some(env)
    else match store[env].outer
      case None => None
      case Some(o) => Find(store, o, key)
  }

  /** `env.find(key).get(key)`: the value the nearest binding frame holds;
      a key no frame on the chain binds is `Unbound`. */
  function Lookup(store: Store, env: nat, key: Value): (r: Result<Value>)
    requires WellFormed(store)
    ensures r.Err? ==> r.error == Unbound(key) && forall k: nat | OnChain(store, env, k) :: key !in store[k].vars
    ensures r.Ok? <==> Find(store, env, key).Some?
    ensures r.Ok? ==> (var k := Find(store, env, key).value;
      OnChain(store, env, k) && key in store[k].vars && r.value == store[k].vars[key])
  {
    match Find(store, env, key)
    case None => Err(Unbound(key))
    case Some(k) => Ok(store[k].vars[key])
  }

  /** `env.put(key, value)`: a binding in the current frame only. */
  function Put(store: Store, env: nat, key: Value, value: Value): (r: Store)
    requires env < |store|
    ensures |r| == |store| && r[env].outer == store[env].outer
    ensures r[env].vars == store[env].vars[key := value]
    ensures forall k | 0 <= k < |store| && k != env :: r[k] == store[k]
  {
    store[env := store[env].(vars := store[env].vars[key := value])]
  }

  /** The key a variable name is bound and looked up under. A name read
      from a backslash token is a Java `String`, like the names `eval`
      looks up; since a symbol and a string of the same text are one name
      here, both are keyed by the symbol. */
  function NameKey(v: Value): Value {
    if v.Str? then Sym(v.s) else v
  }

  /** The keys the parameters of a call frame bind. */
  function ParamKeys(params: seq<Value>): set<Value> {
    set p | p in params :: NameKey(p)
  }

  /** The bindings of `new Env(params, args, outer)`: parameter `k` is bound
      to argument `k`, a repeated parameter keeping its last argument. */
  function Bind(params: seq<Value>, args: seq<Value>): map<Value, Value>
    requires |params| == |args|
  {
    if params == [] then map[]
    else Bind(params[..|params| - 1], args[..|args| - 1])[NameKey(params[|params| - 1]) := args[|args| - 1]]
  }

  /** `new Env((Iterable<Object>) parameter, arguments, env)`: the cast
      rejects a parameter object that is not a list, and the count of
      parameters and arguments must agree. */
  function NewFrame(params: Value, args: seq<Value>, outer: nat): (r: Result<Frame>)
    ensures r.Ok? <==> params.List? && |params.items| == |args|
    ensures r.Ok? ==> r.value.outer == Some(outer)
  {
    match params
    case List(ps) =>
      if |ps| != |args| then Err(ArgumentCount(|ps|, |args|))
      else Ok(Frame(Bind(ps, args), Some(outer)))
    case Null => Err(JvmFault(NullPointer))
    case _ => Err(JvmFault(ClassCast))
  }

  /** The outcome of an evaluation: its result and the store it leaves,
      including the bindings made before an exception was thrown. */
  datatype Out<+T> = Out(result: Result<T>, store: Store)

  /** The special-form name of a list head: `(String) list.get(0)`. */
  function HeadName(head: Value): Result<string> {
    match head
    case Sym(n) => Ok(n)
    case Str(s) => Ok(s)
    case Null => Err(JvmFault(NullPointer))     // switch on a null string
    case _ => Err(JvmFault(ClassCast))
  }

  /** `eval(x, env)`. Every closure call spends one unit of `fuel`; running
      out is `OutOfFuel`. Evaluation adds frames to the store and changes
      no frame but the current one. */
  function Eval(x: Value, env: nat, store: Store, fuel: nat, host: Host): (r: Out<Value>)
    requires WellFormed(store) && env < |store|
    ensures WellFormed(r.store) && |store| <= |r.store|
    ensures r.store[env].outer == store[env].outer
    ensures forall k | 0 <= k < |store| && k != env :: r.store[k] == store[k]
    decreases fuel, Size(x)
  {
    match x
    case Sym(_) => Out(Lookup(store, env, x), store)
    case Str(_) => Out(Lookup(store, env, NameKey(x)), store)
    case Null => Out(Err(JvmFault(NullPointer)), store)
    case List(items) =>
      if items == [] then Out(Err(JvmFault(IndexOutOfBounds)), store)
      else
        var op := HeadName(items[0]);
        if op.Err? then Out(Err(op.error), store)
        else
          var args := items[1..];
          assert SizeSeq(args) < Size(x);
          if op.value == "if" then
            if args == [] then Out(Err(JvmFault(IndexOutOfBounds)), store)
            else
              SizeSeqElement(args, 0);
              var t := Eval(args[0], env, store, fuel, host);
              if t.result.Err? then t
              else if !(t.result.value.Bool? || t.result.value.Null?) then
                Out(Err(JvmFault(ClassCast)), t.store)
              else if |args| < 3 then Out(Err(JvmFault(IndexOutOfBounds)), t.store)
              else if t.result.value.Null? then Out(Err(JvmFault(NullPointer)), t.store)
              else
                SizeSeqElement(args, 1);
                SizeSeqElement(args, 2);
                Eval(if t.result.value.b then args[1] else args[2], env, t.store, fuel, host)
          else if op.value == "define" then
            if |args| < 2 then Out(Err(JvmFault(IndexOutOfBounds)), store)
            else
              SizeSeqElement(args, 1);
              var e := Eval(args[1], env, store, fuel, host);
              if e.result.Err? then e
              else Out(Ok(Null), Put(e.store, env, NameKey(args[0]), e.result.value))
          else if op.value == "lambda" then
            if |args| < 2 then Out(Err(JvmFault(IndexOutOfBounds)), store)
            else Out(Ok(Closure(args[0], args[1], env)), store)
          else
            var proc := Lookup(store, env, Sym(op.value));
            if proc.Err? then Out(Err(proc.error), store)
            else if !(IsProcedure(proc.value) || proc.value.Null?) then
              Out(Err(JvmFault(ClassCast)), store)
            else
              var vals := EvalArgs(args, env, store, fuel, host);
              if vals.result.Err? then Out(Err(vals.result.error), vals.store)
              else if proc.value.Null? then Out(Err(JvmFault(ClassCast)), vals.store)
              else Apply(proc.value, vals.result.value, vals.store, fuel, host)
    case _ => Out(Ok(x), store)
  }

  /** `args.stream().map(arg -> eval(arg, env))`: left to right, stopping
      at the first exception. */
  function EvalArgs(args: seq<Value>, env: nat, store: Store, fuel: nat, host: Host): (r: Out<seq<Value>>)
    requires WellFormed(store) && env < |store|
    ensures WellFormed(r.store) && |store| <= |r.store|
    ensures r.store[env].outer == store[env].outer
    ensures forall k | 0 <= k < |store| && k != env :: r.store[k] == store[k]
    ensures r.result.Ok? ==> |r.result.value| == |args|
    decreases fuel, SizeSeq(args)
  {
    if args == [] then Out(Ok([]), store)
    else
      SizeSeqElement(args, 0);
      var first := Eval(args[0], env, store, fuel, host);
      if first.result.Err? then Out(Err(first.result.error), first.store)
      else
        var rest := EvalArgs(args[1..], env, first.store, fuel, host);
        if rest.result.Err? then rest
        else Out(Ok([first.result.value] + rest.result.value), rest.store)
  }

  /** `proc.apply(vals)`. A primitive is host code over the argument values;
      a closure evaluates its body in a new frame whose outer frame is the
      one it was created in. Applying a procedure changes no existing
      frame. */
  function Apply(proc: Value, vals: seq<Value>, store: Store, fuel: nat, host: Host): (r: Out<Value>)
    requires WellFormed(store) && IsProcedure(proc)
    ensures WellFormed(r.store) && |store| <= |r.store|
    ensures forall k | 0 <= k < |store| :: r.store[k] == store[k]
    decreases fuel, 0
  {
    match proc
    case Prim(id) => Out(host.prim(id, vals), store)
    case Closure(params, body, outer) =>
      if outer >= |store| then Out(Err(NoFrame(outer)), store)
      else
        var frame := NewFrame(params, vals, outer);
        if frame.Err? then Out(Err(frame.error), store)
        else if fuel == 0 then Out(Err(OutOfFuel), store)
        else Eval(body, |store|, store + [frame.value], fuel - 1, host)
  }

  // ---------------------------------------------------------------------
  // Environments
  // ---------------------------------------------------------------------

  /** The keys a new frame binds are exactly its parameters' names. */
  lemma {:induction false} BindKeys(params: seq<Value>, args: seq<Value>)
    requires |params| == |args|
    ensures Bind(params, args).Keys == ParamKeys(params)
  {
    if params != [] {
      var n := |params| - 1;
      var init := params[..n];
      BindKeys(init, args[..n]);
      assert params == init + [params[n]];
      assert ParamKeys(params) == ParamKeys(init) + {NameKey(params[n])};
    }
  }

  /** No two parameters name the same variable. */
  predicate DistinctNames(params: seq<Value>) {
    forall i, j | 0 <= i < j < |params| :: NameKey(params[i]) != NameKey(params[j])
  }

  /** Every parameter's name is bound, and with distinct names each
      parameter is bound to its own argument. */
  lemma {:induction false} BindPositional(params: seq<Value>, args: seq<Value>)
    requires |params| == |args|
    ensures forall k | 0 <= k < |params| :: NameKey(params[k]) in Bind(params, args)
    ensures DistinctNames(params) ==>
      forall k | 0 <= k < |params| :: Bind(params, args)[NameKey(params[k])] == args[k]
  {
    BindKeys(params, args);
    forall k | 0 <= k < |params|
      ensures NameKey(params[k]) in Bind(params, args)
    {
      assert params[k] in params;
    }
    if params != [] && DistinctNames(params) {
      var n := |params| - 1;
      var init := params[..n];
      assert DistinctNames(init) by {
        forall i, j | 0 <= i < j < n
          ensures NameKey(init[i]) != NameKey(init[j])
        {
          assert init[i] == params[i] && init[j] == params[j];
        }
      }
      BindPositional(init, args[..n]);
      forall k | 0 <= k < n
        ensures Bind(params, args)[NameKey(params[k])] == args[k]
      {
        assert init[k] == params[k] && args[..n][k] == args[k];
        assert NameKey(params[k]) != NameKey(params[n]);
      }
    }
  }

  /** Lexical scoping: in the frame a closure call creates, a parameter is
      found in that frame and any other key is looked up exactly as in the
      frame the closure was created in. */
  lemma ClosureScope(store: Store, params: seq<Value>, args: seq<Value>, outer: nat, key: Value)
    requires WellFormed(store) && outer < |store|
    requires NewFrame(List(params), args, outer).Ok?
    ensures var s := store + [NewFrame(List(params), args, outer).value];
      WellFormed(s) &&
      (key in ParamKeys(params) ==> Find(s, |store|, key) == Some(|store|)) &&
      (key !in ParamKeys(params) ==> Find(s, |store|, key) == Find(store, outer, key))
  {
    var s := store + [NewFrame(List(params), args, outer).value];
    BindKeys(params, args);
    if key !in ParamKeys(params) {
      FindPrefix(store, s, outer, key);
    }
  }

  /** Adding frames at the end of the store does not change a lookup that
      starts in an old frame. */
  lemma {:induction false} FindPrefix(store: Store, bigger: Store, env: nat, key: Value)
    requires WellFormed(store) && WellFormed(bigger)
    requires env < |store| <= |bigger| && bigger[..|store|] == store
    ensures Find(bigger, env, key) == Find(store, env, key)
    decreases env
  {
    assert bigger[env] == store[env];
    if key !in store[env].vars && store[env].outer.Some? {
      FindPrefix(store, bigger, store[env].outer.value, key);
    }
  }

  /** `(define key e)` binds the value of `e` in the current frame under
      the key's name, so a later lookup of that name from the frame yields
      it, and the form yields null. */
  lemma DefineBinds(key: Value, e: Value, env: nat, store: Store, fuel: nat, host: Host)
    requires WellFormed(store) && env < |store|
    ensures var v := Eval(e, env, store, fuel, host);
      var r := Eval(List([DefineSym, key, e]), env, store, fuel, host);
      (v.result.Ok? ==> r.result == Ok(Null) && Lookup(r.store, env, NameKey(key)) == v.result) &&
      (v.result.Err? ==> r == v)
  {
    var x := List([DefineSym, key, e]);
    assert x.items[1..] == [key, e];
  }

  /** A name defined in a frame evaluates there to its value, whether the
      definition and the use spell it as a symbol or as a backslash token. */
  lemma DefineThenEval(name: string, key: Value, use: Value, e: Value,
                       env: nat, store: Store, fuel: nat, host: Host)
    requires WellFormed(store) && env < |store|
    requires key == Sym(name) || key == Str(name)
    requires use == Sym(name) || use == Str(name)
    ensures var v := Eval(e, env, store, fuel, host);
      var r := Eval(List([DefineSym, key, e]), env, store, fuel, host);
      v.result.Ok? ==> Eval(use, env, r.store, fuel, host).result == v.result
  {
    DefineBinds(key, e, env, store, fuel, host);
    assert NameKey(use) == NameKey(key);
  }

  // ---------------------------------------------------------------------
  // Evaluation order
  // ---------------------------------------------------------------------

  /** `if` evaluates its test and then exactly one branch: the branch not
      taken has no influence on the outcome. */
  lemma IfTakesOneBranch(test: Value, conseq: Value, alt: Value, other: Value,
                         env: nat, store: Store, fuel: nat, host: Host)
    requires WellFormed(store) && env < |store|
    ensures var t := Eval(test, env, store, fuel, host);
      t.result.Ok? && t.result.value.Bool? ==>
        var taken := if t.result.value.b then conseq else alt;
        Eval(List([IfSym, test, conseq, alt]), env, store, fuel, host) ==
          Eval(taken, env, t.store, fuel, host) &&
        (t.result.value.b ==>
          Eval(List([IfSym, test, conseq, other]), env, store, fuel, host) ==
            Eval(List([IfSym, test, conseq, alt]), env, store, fuel, host)) &&
        (!t.result.value.b ==>
          Eval(List([IfSym, test, other, alt]), env, store, fuel, host) ==
            Eval(List([IfSym, test, conseq, alt]), env, store, fuel, host))
  {
    IfBranch(test, conseq, alt, env, store, fuel, host);
    IfBranch(test, conseq, other, env, store, fuel, host);
    IfBranch(test, other, alt, env, store, fuel, host);
  }

  /** A four-element `if` whose test yields a Boolean is the evaluation of
      the branch the test selects, in the store the test leaves. */
  lemma IfBranch(test: Value, conseq: Value, alt: Value, env: nat, store: Store, fuel: nat, host: Host)
    requires WellFormed(store) && env < |store|
    ensures var t := Eval(test, env, store, fuel, host);
      t.result.Ok? && t.result.value.Bool? ==>
        Eval(List([IfSym, test, conseq, alt]), env, store, fuel, host) ==
          Eval(if t.result.value.b then conseq else alt, env, t.store, fuel, host)
  {
    assert List([IfSym, test, conseq, alt]).items[1..] == [test, conseq, alt];
  }

  /** The arguments are evaluated left to right: value `k` is the value of
      argument `k` in the store the arguments before it leave. */
  lemma {:induction false} EvalArgsElement(args: seq<Value>, k: nat, env: nat, store: Store, fuel: nat, host: Host)
    requires WellFormed(store) && env < |store| && k < |args|
    requires EvalArgs(args, env, store, fuel, host).result.Ok?
    ensures var pre := EvalArgs(args[..k], env, store, fuel, host);
      pre.result.Ok? &&
      Eval(args[k], env, pre.store, fuel, host).result == Ok(EvalArgs(args, env, store, fuel, host).result.value[k])
    decreases k
  {
    var first := Eval(args[0], env, store, fuel, host);
    if k == 0 {
      assert args[..0] == [];
    } else {
      EvalArgsElement(args[1..], k - 1, env, first.store, fuel, host);
      assert args[..k][0] == args[0];
      assert args[..k][1..] == args[1..][..k - 1];
      assert args[1..][k - 1] == args[k];
    }
  }

  /** A procedure call `(f a...)`: the operator is looked up first, and a
      value that is not a procedure fails the cast before any argument is
      evaluated; then the arguments are evaluated, a null operator failing
      only after them; then the procedure is applied to their values. */
  lemma EvalCall(f: string, args: seq<Value>, env: nat, store: Store, fuel: nat, host: Host)
    requires WellFormed(store) && env < |store|
    requires f != "if" && f != "define" && f != "lambda"
    ensures var r := Eval(List([Sym(f)] + args), env, store, fuel, host);
      var proc := Lookup(store, env, Sym(f));
      var vals := EvalArgs(args, env, store, fuel, host);
      (proc.Err? ==> r == Out(Err(proc.error), store)) &&
      (proc.Ok? && !IsProcedure(proc.value) && !proc.value.Null? ==>
        r == Out(Err(JvmFault(ClassCast)), store)) &&
      (proc.Ok? && (IsProcedure(proc.value) || proc.value.Null?) && vals.result.Err? ==>
        r == Out(Err(vals.result.error), vals.store)) &&
      (proc.Ok? && proc.value.Null? && vals.result.Ok? ==>
        r == Out(Err(JvmFault(ClassCast)), vals.store)) &&
      (proc.Ok? && IsProcedure(proc.value) && vals.result.Ok? ==>
        r == Apply(proc.value, vals.result.value, vals.store, fuel, host))
  {
    var x := List([Sym(f)] + args);
    assert x.items[0] == Sym(f) && x.items[1..] == args;
  }

  /** `(if 1 2 3 4 5)` as `runScheme` evaluates it: nothing expands it, and
      the outcome is a class-cast fault, not a syntax error. Here the test
      value 1 fails the cast to Boolean; in Java the `(String)` cast of the
      reader's `Symbol` head fails earlier with the same exception. */
  lemma IfOnIntegerTest(env: nat, store: Store, fuel: nat, host: Host)
    requires WellFormed(store) && env < |store|
    ensures Eval(List([IfSym, Int(1), Int(2), Int(3), Int(4), Int(5)]), env, store, fuel, host).result
      == Err(JvmFault(ClassCast))
  {
    var x := List([IfSym, Int(1), Int(2), Int(3), Int(4), Int(5)]);
    assert x.items[1..][0] == Int(1);
  }

  // ---------------------------------------------------------------------
  // Fuel
  // ---------------------------------------------------------------------

  /** More fuel does not change an evaluation that did not run out: the
      bound on closure calls only cuts off evaluations, it never alters
      their outcome. */
  lemma {:induction false} EvalFuel(x: Value, env: nat, store: Store, fuel: nat, more: nat, host: Host)
    requires WellFormed(store) && env < |store| && fuel <= more
    requires Eval(x, env, store, fuel, host).result != Err(OutOfFuel)
    ensures Eval(x, env, store, more, host) == Eval(x, env, store, fuel, host)
    decreases fuel, Size(x)
  {
    match x
    case List(items) =>
      if items != [] && HeadName(items[0]).Ok? {
        var op := HeadName(items[0]).value;
        var args := items[1..];
        assert SizeSeq(args) < Size(x);
        if op == "if" {
          if args != [] {
            SizeSeqElement(args, 0);
            EvalFuel(args[0], env, store, fuel, more, host);
            var t := Eval(args[0], env, store, fuel, host);
            if t.result.Ok? && t.result.value.Bool? && |args| >= 3 {
              SizeSeqElement(args, 1);
              SizeSeqElement(args, 2);
              EvalFuel(if t.result.value.b then args[1] else args[2], env, t.store, fuel, more, host);
            }
          }
        } else if op == "define" {
          if |args| >= 2 {
            SizeSeqElement(args, 1);
            EvalFuel(args[1], env, store, fuel, more, host);
          }
        } else if op != "lambda" {
          var proc := Lookup(store, env, Sym(op));
          if proc.Ok? && (IsProcedure(proc.value) || proc.value.Null?) {
            EvalArgsFuel(args, env, store, fuel, more, host);
            var vals := EvalArgs(args, env, store, fuel, host);
            if vals.result.Ok? && IsProcedure(proc.value) {
              ApplyFuel(proc.value, vals.result.value, vals.store, fuel, more, host);
            }
          }
        }
      }
    case _ =>
  }

  lemma {:induction false} EvalArgsFuel(args: seq<Value>, env: nat, store: Store, fuel: nat, more: nat, host: Host)
    requires WellFormed(store) && env < |store| && fuel <= more
    requires EvalArgs(args, env, store, fuel, host).result != Err(OutOfFuel)
    ensures EvalArgs(args, env, store, more, host) == EvalArgs(args, env, store, fuel, host)
    decreases fuel, SizeSeq(args)
  {
    if args != [] {
      SizeSeqElement(args, 0);
      EvalFuel(args[0], env, store, fuel, more, host);
      var first := Eval(args[0], env, store, fuel, host);
      if first.result.Ok? {
        EvalArgsFuel(args[1..], env, first.store, fuel, more, host);
      }
    }
  }

  lemma {:induction false} ApplyFuel(proc: Value, vals: seq<Value>, store: Store, fuel: nat, more: nat, host: Host)
    requires WellFormed(store) && IsProcedure(proc) && fuel <= more
    requires Apply(proc, vals, store, fuel, host).result != Err(OutOfFuel)
    ensures Apply(proc, vals, store, more, host) == Apply(proc, vals, store, fuel, host)
    decreases fuel, 0
  {
    match proc
    case Prim(_) =>
    case Closure(params, body, outer) =>
      if outer < |store| && NewFrame(params, vals, outer).Ok? && fuel > 0 {
        var frame := NewFrame(params, vals, outer).value;
        assert Apply(proc, vals, store, fuel, host) == Eval(body, |store|, store + [frame], fuel - 1, host);
        assert Apply(proc, vals, store, more, host) == Eval(body, |store|, store + [frame], more - 1, host);
        EvalFuel(body, |store|, store + [frame], fuel - 1, more - 1, host);
      }
  }
}
