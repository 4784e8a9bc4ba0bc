/**
  * Describing syntax-level types as run-time type descriptors: `getType`
  * and `buildFunctionType` of main.go. A Go panic ("Unsupported type: %T")
  * is a `Failure` carrying the name of the unsupported node's Go type.
  */
module Describe {
  import opened Wrappers
  import opened Syntax
  import opened ReflectTypes

  /**
    * `getType`: an identifier becomes `int` whatever its name, a star becomes
    * a pointer around the description of what it points to, anything else
    * panics with the node's kind.
    */
  function GetType(e: Expr): (r: Result<Type, string>)
    ensures r.Success? <==> Base(e).Ident?
    ensures r.Failure? ==> Base(e) == Other(r.error)
  {
    match e
    case Ident(_) => Success(IntT)
    case Star(x) =>
      (match GetType(x)
       case Success(t) => Success(PtrT(t))
       case Failure(kind) => Failure(kind))
    case Other(kind) => Failure(kind)
  }

  /**
    * The whole behaviour of `getType`, stated without it: the result is
    * `int` under as many pointers as the expression has stars, or the
    * kind of the innermost node when that is not an identifier.
    */
  lemma {:induction false} GetTypeShape(e: Expr)
    ensures GetType(e) ==
      if Base(e).Ident? then Success(PtrTo(StarDepth(e), IntT)) else Failure(Base(e).kind)
  {
    Decompose(e);
    GetTypeStars(StarDepth(e), Base(e));
  }

  /**
    * Built up from the other side: `n` stars around an identifier of any
    * name give `n` pointers around `int`, and around any other node they
    * fail with that node's kind.
    */
  lemma {:induction false} GetTypeStars(n: nat, base: Expr)
    requires !base.Star?
    ensures GetType(Stars(n, base)) ==
      if base.Ident? then Success(PtrTo(n, IntT)) else Failure(base.kind)
  {
    if n > 0 {
      GetTypeStars(n - 1, base);
    }
  }

  /** Pointer depth of a description equals the star depth of the expression. */
  lemma PointerDepthPreserved(e: Expr)
    requires GetType(e).Success?
    ensures PtrDepth(GetType(e).value) == StarDepth(e)
  {
    GetTypeShape(e);
    PtrToDepth(StarDepth(e));
  }

  /** The field list described in order; the first unsupported field's kind on failure. */
  function DescribeFields(fs: seq<Field>): (r: Result<seq<Type>, string>)
    ensures r.Success? <==> forall j :: 0 <= j < |fs| ==> GetType(fs[j].typ).Success?
    ensures r.Success? ==>
      |r.value| == |fs| && forall j :: 0 <= j < |fs| ==> GetType(fs[j].typ) == Success(r.value[j])
  {
    if |fs| == 0 then Success([])
    else
      match GetType(fs[0].typ)
      case Failure(kind) => Failure(kind)
      case Success(t) =>
        match DescribeFields(fs[1..])
        case Failure(kind) => Failure(kind)
        case Success(ts) => Success([t] + ts)
  }

  /** When every field before `i` is supported and field `i` is not, description fails with field `i`'s kind. */
  lemma {:induction false} DescribeFieldsFirstFailure(fs: seq<Field>, i: nat)
    requires i < |fs|
    requires forall j :: 0 <= j < i ==> GetType(fs[j].typ).Success?
    requires GetType(fs[i].typ).Failure?
    ensures DescribeFields(fs) == Failure(GetType(fs[i].typ).error)
  {
    if i > 0 {
      assert GetType(fs[0].typ).Success?;
      DescribeFieldsFirstFailure(fs[1..], i - 1);
    }
  }

  /** When every field is supported, the descriptions are exactly the fields' descriptions, in order. */
  lemma DescribeFieldsAllSupported(fs: seq<Field>, ts: seq<Type>)
    requires |ts| == |fs|
    requires forall j :: 0 <= j < |fs| ==> GetType(fs[j].typ) == Success(ts[j])
    ensures DescribeFields(fs) == Success(ts)
  {
  }

  /** The result list's description; a nil result list describes as no results. */
  function DescribeResults(results: Option<seq<Field>>): (r: Result<seq<Type>, string>)
    ensures r.Success? <==>
      (results.Some? ==> forall j :: 0 <= j < |results.value| ==> GetType(results.value[j].typ).Success?)
    ensures r.Success? ==>
      |r.value| == (if results.None? then 0 else |results.value|) &&
      (results.Some? ==> forall j :: 0 <= j < |results.value| ==> GetType(results.value[j].typ) == Success(r.value[j]))
  {
    match results
    case None => Success([])
    case Some(fs) => DescribeFields(fs)
  }

  /**
    * The function type `buildFunctionType` makes: one parameter per
    * parameter field and one result per result field, in source order,
    * never variadic; it fails with the first unsupported parameter field,
    * or else with the first unsupported result field.
    */
  function FunctionType(f: Func): (r: Result<Type, string>)
    ensures r.Success? <==>
      (forall j :: 0 <= j < |f.params| ==> GetType(f.params[j].typ).Success?) &&
      (f.results.Some? ==> forall j :: 0 <= j < |f.results.value| ==> GetType(f.results.value[j].typ).Success?)
    ensures r.Success? ==>
      r.value.FuncT? && !r.value.variadic &&
      |r.value.params| == |f.params| &&
      |r.value.results| == (if f.results.None? then 0 else |f.results.value|) &&
      (forall j :: 0 <= j < |f.params| ==> GetType(f.params[j].typ) == Success(r.value.params[j])) &&
      (f.results.Some? ==>
        forall j :: 0 <= j < |f.results.value| ==> GetType(f.results.value[j].typ) == Success(r.value.results[j]))
    ensures DescribeFields(f.params).Failure? ==> r == Failure(DescribeFields(f.params).error)
    ensures r.Failure? && DescribeFields(f.params).Success? ==> r == Failure(DescribeResults(f.results).error)
  {
    match DescribeFields(f.params)
    case Failure(kind) => Failure(kind)
    case Success(ps) =>
      match DescribeResults(f.results)
      case Failure(kind) => Failure(kind)
      case Success(rs) => Success(FuncT(ps, rs, false))
  }

  /**
    * `buildFunctionType`: grows the parameter list and then the result
    * list one field at a time, stopping at the first field `getType`
    * panics on.
    */
  method BuildFunctionType(fd: Func) returns (r: Result<Type, string>)
    ensures r == FunctionType(fd)
  {
    var paramTypes: seq<Type> := [];
    var i := 0;
    while i < |fd.params|
      invariant 0 <= i <= |fd.params|
      invariant |paramTypes| == i
      invariant forall j :: 0 <= j < i ==> GetType(fd.params[j].typ) == Success(paramTypes[j])
    {
      var t := GetType(fd.params[i].typ);
      if t.Failure? {
        DescribeFieldsFirstFailure(fd.params, i);
        return Failure(t.error);
      }
      paramTypes := paramTypes + [t.value];
      i := i + 1;
    }
    DescribeFieldsAllSupported(fd.params, paramTypes);

    var resultTypes: seq<Type> := [];
    if fd.results.Some? {
      var results := fd.results.value;
      var k := 0;
      while k < |results|
        invariant 0 <= k <= |results|
        invariant |resultTypes| == k
        invariant forall j :: 0 <= j < k ==> GetType(results[j].typ) == Success(resultTypes[j])
      {
        var t := GetType(results[k].typ);
        if t.Failure? {
          DescribeFieldsFirstFailure(results, k);
          return Failure(t.error);
        }
        resultTypes := resultTypes + [t.value];
        k := k + 1;
      }
      DescribeFieldsAllSupported(results, resultTypes);
    }
    r := Success(FuncT(paramTypes, resultTypes, false));
  }
}
