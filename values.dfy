/** The values the interpreter reads, expands and evaluates, the ways an
    operation can fail, and the foreign code the core calls but does not
    define (floating-point and complex parsing and printing, primitive
    procedures). */
module Values {

  datatype Option<+T> = None | Some(value: T)

  /** One S-expression or runtime value. The interpreter uses the same
      representation for code and data. Java's `Symbol` objects and the bare
      `String`s that `eval` treats as variable names are both `Sym`; every
      Java list (`ArrayList`, `Arrays.asList`, `subList`) is `List`. */
  datatype Value =
    | Bool(b: bool)
    | Int(i: int)                       // java.lang.Integer
    | Float(d: real)                    // java.lang.Double, kept abstract
    | Complex(re: real, im: real)       // org.apache.commons.math3 Complex
    | Str(s: string)                    // string literal (quotes removed)
    | Sym(name: string)
    | List(items: seq<Value>)
    | Null                              // Java null: the "unspecified" value
    | Eof                               // the reader's end-of-input marker
    | Prim(id: nat)                     // host-provided procedure
    | Closure(params: Value, body: Value, env: nat)  // user lambda over frame `env`

  /** Runtime exceptions the JVM raises in the modelled code. */
  datatype Fault =
    | NullPointer
    | ClassCast
    | IndexOutOfBounds
    | StringIndexOutOfBounds

  datatype Error =
    | SyntaxError(msg: string)                  // Jispy.SyntaxException
    | SecurityError(form: Value, msg: string)   // thrown by Jispy.require
    | Unbound(key: Value)                       // Env.find found no frame
    | ArgumentCount(params: nat, args: nat)     // new Env(params, args, outer)
    | JvmFault(fault: Fault)
    | PrimitiveFailure(msg: string)             // raised inside a host primitive
    | OutOfFuel                                 // model bound on closure calls / rewrites
    | NoFrame(env: nat)                         // model only: a closure over a frame not in the store

  datatype Result<+T> = Ok(value: T) | Err(error: Error) {
    predicate IsFailure() { Err? }
    function PropagateFailure<U>(): Result<U> requires Err? { Err(error) }
    function Extract(): T requires Ok? { value }
  }

  /** The code outside the core that the core calls: `Double.parseDouble`,
      `ComplexFormat.parse` and their printing counterparts, `Object.toString`
      of procedures and of the end-of-input symbol, and the primitive
      procedures of the standard environment. */
  datatype Host = Host(
    parseDouble: string -> Option<real>,
    parseComplex: string -> Option<(real, real)>,
    showFloat: real -> string,
    showComplex: (real, real) -> string,
    showObject: Value -> string,
    prim: (nat, seq<Value>) -> Result<Value>)

  // The symbols of the special forms and of the quote shorthands.
  const QuoteSym := Sym("quote")
  const IfSym := Sym("if")
  const SetSym := Sym("set!")
  const DefineSym := Sym("define")
  const DefineMacroSym := Sym("define-macro")
  const BeginSym := Sym("begin")
  const LambdaSym := Sym("lambda")
  const QuasiQuoteSym := Sym("quasiquote")
  const UnquoteSym := Sym("unquote")
  const UnquoteSplicingSym := Sym("unquote-splicing")
  const ConsSym := Sym("cons")
  const AppendSym := Sym("append")

  predicate IsProcedure(v: Value) { v.Prim? || v.Closure? }

  /** Number of list nodes and atoms in a value; the measure of the
      structural recursions over S-expressions. */
  function Size(v: Value): (n: nat)
    ensures n >= 1
  {
    match v
    case List(items) => 1 + SizeSeq(items)
    case _ => 1
  }

  function SizeSeq(s: seq<Value>): nat {
    if s == [] then 0 else 1 + Size(s[0]) + SizeSeq(s[1..])
  }

  lemma {:induction false} SizeSeqAppend(a: seq<Value>, b: seq<Value>)
    ensures SizeSeq(a + b) == SizeSeq(a) + SizeSeq(b)
  {
    if a != [] {
      assert (a + b)[0] == a[0];
      assert (a + b)[1..] == a[1..] + b;
      SizeSeqAppend(a[1..], b);
    } else {
      assert a + b == b;
    }
  }

  lemma {:induction false} SizeSeqElement(s: seq<Value>, k: nat)
    requires k < |s|
    ensures Size(s[k]) < SizeSeq(s)
  {
    if k > 0 { SizeSeqElement(s[1..], k - 1); }
  }
}
