/** The reflective part of the cache (cache.go): the callable's shape, the
    checks run on it before anything else, and `invoke`. Go's reflection is
    replaced by an explicit descriptor of the callable and by the two type
    relations the checks consult, supplied by the caller as `TypeRules`. */
module Reflection {
  import opened Wrappers
  import opened Values

  /** `AssignableTo` and `Implements(error)` of Go's reflection, left open. */
  datatype TypeRules = TypeRules(assignable: (Ty, Ty) -> bool, implementsError: Ty -> bool)

  /** What a call of the function produced: its first result and its second
      result seen as an `error` (a nil or non-error second result is `None`). */
  datatype Return = Return(res: Value, err: Option<Error>)

  /** A Go function value: the runtime's full name for it, its declared
      parameter and result types, and what calling it computes. */
  datatype Fn = Fn(fullName: string, params: seq<Ty>, results: seq<Ty>, body: seq<Value> -> Return)

  /** The `interface{}` handed to `Cache` as the function: either a function
      or some other value. */
  datatype Callable = NotFunc(value: Value) | Func(fn: Fn)

  /** The errors `Cache` returns before touching the configuration or the
      strategy. `index` is 0-based; Go's message prints it plus one. */
  datatype ValidationError =
    | NotAFunc(value: Value)
    | ArgCountMismatch(expectedCount: nat, providedCount: nat, fnName: string)
    | ArgTypeMismatch(index: nat, expectedType: Ty, providedType: Ty, fnName: string)
    | ResultCountMismatch(fnName: string)
    | SecondResultNotError(fnName: string)

  /** Outcome of `checkForArgsError`. A nil argument makes Go's
      `reflect.TypeOf(args[i])` nil, and calling `AssignableTo` on it panics. */
  datatype ArgCheck = ArgsOk | ArgsInvalid(error: ValidationError) | ArgsPanic(index: nat)

  /** Argument `a` can be passed for a parameter of type `p`. */
  predicate Fits(rules: TypeRules, a: Value, p: Ty)
  {
    a.Typed? && rules.assignable(a.ty, p)
  }

  /** Every argument from position `from` on fits its parameter. */
  predicate FitFrom(rules: TypeRules, args: seq<Value>, params: seq<Ty>, from: nat)
    requires |args| == |params|
  {
    forall j :: from <= j < |args| ==> Fits(rules, args[j], params[j])
  }

  /** `fetchFuncType`: only a function value passes. */
  function FetchFuncType(fnc: Callable): (r: Result<Fn, ValidationError>)
    ensures r.Success? <==> fnc.Func?
    ensures r.Success? ==> r.value == fnc.fn
    ensures r.Failure? ==> r.error == NotAFunc(fnc.value)
  {
    match fnc
    case NotFunc(v) => Failure(NotAFunc(v))
    case Func(fn) => Success(fn)
  }

  /** `checkForArgsError`: the argument count first, then each argument in
      order, stopping at the first that does not fit. */
  function CheckForArgsError(rules: TypeRules, args: seq<Value>, fnName: string, fn: Fn): (r: ArgCheck)
    ensures r.ArgsOk? <==> |args| == |fn.params| && FitFrom(rules, args, fn.params, 0)
    ensures |args| != |fn.params| ==> r == ArgsInvalid(ArgCountMismatch(|fn.params|, |args|, fnName))
    ensures r.ArgsPanic? ==> |args| == |fn.params| && r.index < |args| && args[r.index].Nil?
    ensures r.ArgsInvalid? && |args| == |fn.params| ==>
      && r.error.ArgTypeMismatch? && r.error.fnName == fnName
      && var i := r.error.index;
      && i < |args| && args[i].Typed? && !rules.assignable(args[i].ty, fn.params[i])
      && r.error.expectedType == fn.params[i] && r.error.providedType == args[i].ty
    ensures |args| == |fn.params| && !r.ArgsOk? ==>
      var i := if r.ArgsPanic? then r.index else r.error.index;
      forall j :: 0 <= j < i ==> Fits(rules, args[j], fn.params[j])
  {
    if |fn.params| != |args| then ArgsInvalid(ArgCountMismatch(|fn.params|, |args|, fnName))
    else CheckArgsFrom(rules, args, fnName, fn.params, 0)
  }

  /** The loop of `checkForArgsError` from position `i` on. */
  function CheckArgsFrom(rules: TypeRules, args: seq<Value>, fnName: string, params: seq<Ty>, i: nat): (r: ArgCheck)
    requires |args| == |params| && i <= |args|
    decreases |args| - i
    ensures r.ArgsOk? <==> FitFrom(rules, args, params, i)
    ensures r.ArgsPanic? ==>
      && i <= r.index < |args| && args[r.index].Nil?
      && forall j :: i <= j < r.index ==> Fits(rules, args[j], params[j])
    ensures r.ArgsInvalid? ==>
      && r.error.ArgTypeMismatch? && r.error.fnName == fnName
      && var k := r.error.index;
      && i <= k < |args| && args[k].Typed? && !rules.assignable(args[k].ty, params[k])
      && r.error.expectedType == params[k] && r.error.providedType == args[k].ty
      && forall j :: i <= j < k ==> Fits(rules, args[j], params[j])
  {
    if i == |args| then ArgsOk
    else if args[i].Nil? then ArgsPanic(i)
    else if !rules.assignable(args[i].ty, params[i]) then
      ArgsInvalid(ArgTypeMismatch(i, params[i], args[i].ty, fnName))
    else CheckArgsFrom(rules, args, fnName, params, i + 1)
  }

  /** `checkArgIndexForError`: the result at `index` implements `error`. */
  function CheckArgIndexForError(rules: TypeRules, fn: Fn, index: nat, fnName: string): (r: Option<ValidationError>)
    requires index < |fn.results|
    ensures r.None? <==> rules.implementsError(fn.results[index])
    ensures r.Some? ==> r.value == SecondResultNotError(fnName)
  {
    if rules.implementsError(fn.results[index]) then None else Some(SecondResultNotError(fnName))
  }

  /** `invoke`: the call itself. Panics raised inside the function are not
      part of this model. */
  function Invoke(fn: Fn, args: seq<Value>): Return
  {
    fn.body(args)
  }
}
