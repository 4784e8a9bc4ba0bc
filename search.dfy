/**
  * The factory search of `callInstanceFunc` in main.go: find the first
  * top-level function declaration that returns the interface `MyInterface`,
  * then describe its signature.
  */
module Search {
  import opened Wrappers
  import opened Syntax
  import opened ReflectTypes
  import opened Describe

  /** The name of the target interface, `reflect.TypeOf((*MyInterface)(nil)).Elem().Name()`. */
  const InterfaceName: string := "MyInterface"

  /**
    * A function qualifies when its result list is present, has exactly one
    * field, and that field's type is the bare identifier `MyInterface`.
    */
  predicate ReturnsInterface(fn: Func)
  {
    fn.results.Some? && |fn.results.value| == 1 && fn.results.value[0].typ == Ident(InterfaceName)
  }

  /** A declaration the search picks: a function declaration that returns the interface. */
  predicate IsInstanceFunc(d: Decl)
  {
    d.FuncDecl? && ReturnsInterface(d.fn)
  }

  /** Index of the first qualifying declaration, if any ("first match wins"). */
  function FirstMatch(decls: seq<Decl>): (r: Option<nat>)
    ensures r.Some? ==> r.value < |decls| && IsInstanceFunc(decls[r.value])
  {
    if |decls| == 0 then None
    else if IsInstanceFunc(decls[0]) then Some(0)
    else Next(FirstMatch(decls[1..]))
  }

  /** An index found in the tail, seen from the whole sequence. */
  function Next(found: Option<nat>): Option<nat>
  {
    match found
    case None => None
    case Some(i) => Some(i + 1)
  }

  /**
    * What `FirstMatch` finds is a qualifying declaration with none before it,
    * and it finds nothing exactly when no declaration qualifies.
    */
  lemma {:induction false} FirstMatchIsFirst(decls: seq<Decl>)
    ensures FirstMatch(decls).Some? ==>
      FirstMatch(decls).value < |decls| && IsInstanceFunc(decls[FirstMatch(decls).value]) &&
      forall j :: 0 <= j < FirstMatch(decls).value ==> !IsInstanceFunc(decls[j])
    ensures FirstMatch(decls).None? <==> forall j :: 0 <= j < |decls| ==> !IsInstanceFunc(decls[j])
  {
    if |decls| > 0 && !IsInstanceFunc(decls[0]) {
      var rest := decls[1..];
      FirstMatchIsFirst(rest);
      forall j | 1 <= j < |decls|
        ensures decls[j] == rest[j - 1]
      {
      }
    }
  }

  /**
    * Declarations after the first qualifying one are never looked at:
    * searching `a + b` gives the match in `a` if there is one, and
    * otherwise the match in `b`, shifted past `a`.
    */
  lemma {:induction false} FirstMatchAppend(a: seq<Decl>, b: seq<Decl>)
    ensures FirstMatch(a + b) ==
      if FirstMatch(a).Some? then FirstMatch(a)
      else if FirstMatch(b).Some? then Some(|a| + FirstMatch(b).value)
      else None
  {
    if |a| > 0 {
      assert (a + b)[0] == a[0];
      assert (a + b)[1..] == a[1..] + b;
      FirstMatchAppend(a[1..], b);
    } else {
      assert a + b == b;
    }
  }

  /**
    * Only function declarations matter: a non-function declaration inserted
    * between `a` and `b` changes nothing but the position of a match found
    * in `b`, which moves up by one.
    */
  lemma {:induction false} FirstMatchSkipsOtherDecls(a: seq<Decl>, b: seq<Decl>)
    ensures FirstMatch(a + ([OtherDecl] + b)) == ShiftFrom(FirstMatch(a + b), |a|)
  {
    var with, without := a + ([OtherDecl] + b), a + b;
    if |a| == 0 {
      assert with == [OtherDecl] + b && !IsInstanceFunc(with[0]) && with[1..] == b;
      assert FirstMatch(with) == Next(FirstMatch(b));
      assert without == b;
    } else {
      var with', without' := a[1..] + ([OtherDecl] + b), a[1..] + b;
      assert with[0] == a[0] && with[1..] == with';
      assert without[0] == a[0] && without[1..] == without';
      FirstMatchSkipsOtherDecls(a[1..], b);
      if !IsInstanceFunc(a[0]) {
        assert FirstMatch(with) == Next(FirstMatch(with'));
        assert FirstMatch(without) == Next(FirstMatch(without'));
      }
    }
  }

  /** An index at or past `at` moved up by one, as when a declaration is inserted at `at`. */
  function ShiftFrom(found: Option<nat>, at: nat): Option<nat>
  {
    match found
    case None => None
    case Some(i) => Some(if i < at then i else i + 1)
  }

  /**
    * The loop of `callInstanceFunc` (main.go lines 62-75): walk the
    * declarations in order and stop at the first one that qualifies.
    */
  method FindInstanceFunc(decls: seq<Decl>) returns (instanceFunc: Option<Func>)
    ensures instanceFunc == (match FirstMatch(decls) case None => None case Some(i) => Some(decls[i].fn))
  {
    FirstMatchIsFirst(decls);
    instanceFunc := None;
    var i := 0;
    while i < |decls|
      invariant 0 <= i <= |decls|
      invariant forall j :: 0 <= j < i ==> !IsInstanceFunc(decls[j])
    {
      var decl := decls[i];
      if decl.FuncDecl? {
        var fn := decl.fn;
        if fn.results.Some? && |fn.results.value| == 1 {
          var resultType := fn.results.value[0].typ;
          if resultType.Ident? {
            if resultType.name == InterfaceName {
              instanceFunc := Some(fn);
              break;
            }
          }
        }
      }
      i := i + 1;
    }
  }

  /**
    * What `callInstanceFunc` ends in. `Invokes` reaches
    * `reflect.ValueOf(instanceFunc).Call(nil)` (main.go line 97) with the
    * named function and its signature; the value reflected on is a
    * `*ast.FuncDecl` pointer, not a function, so that call panics too.
    */
  datatype CallOutcome =
    | ReturnsNil                        // nothing to invoke: the function returns nil
    | Panics(kind: string)              // `getType` panicked on a node of this kind
    | Invokes(name: string, sig: Type)  // reaches the reflective call of the named function, with this signature

  /** Some parameter field of the function has a type `getType` cannot describe. */
  predicate HasUnsupportedParam(fn: Func)
  {
    exists j :: 0 <= j < |fn.params| && GetType(fn.params[j].typ).Failure?
  }

  /** The outcome of `callInstanceFunc` as a function of the parsed file. */
  function CallOutcomeOf(file: Option<seq<Decl>>): (o: CallOutcome)
    ensures o.ReturnsNil? <==> file.None? || FirstMatch(file.value).None?
  {
    if file.None? then ReturnsNil
    else
      match FirstMatch(file.value)
      case None => ReturnsNil
      case Some(i) =>
        var fn := file.value[i].fn;
        match FunctionType(fn)
        case Failure(kind) => Panics(kind)
        case Success(sig) => Invokes(fn.name, sig)
  }

  /**
    * `callInstanceFunc` for one file. `file` is the parsed declaration list,
    * or `None` when importing the package or parsing the file failed.
    */
  method CallInstanceFunc(file: Option<seq<Decl>>) returns (outcome: CallOutcome)
    ensures file.None? ==> outcome == ReturnsNil
    ensures outcome.ReturnsNil? <==> file.None? || FirstMatch(file.value).None?
    ensures outcome.Invokes? ==>
      file.Some? && FirstMatch(file.value).Some? &&
      outcome.name == file.value[FirstMatch(file.value).value].fn.name &&
      FunctionType(file.value[FirstMatch(file.value).value].fn) == Success(outcome.sig)
    ensures outcome.Invokes? ==>
      outcome.sig.FuncT? && outcome.sig.results == [IntT] && !outcome.sig.variadic
    ensures outcome.Panics? ==>
      file.Some? && FirstMatch(file.value).Some? &&
      FunctionType(file.value[FirstMatch(file.value).value].fn) == Failure(outcome.kind) &&
      HasUnsupportedParam(file.value[FirstMatch(file.value).value].fn)
    ensures outcome == CallOutcomeOf(file)
  {
    if file.None? {
      return ReturnsNil;
    }
    var instanceFunc := FindInstanceFunc(file.value);
    if instanceFunc.None? {
      return ReturnsNil;
    }
    var fn := instanceFunc.value;
    assert GetType(fn.results.value[0].typ) == Success(IntT);
    var t := BuildFunctionType(fn);
    match t
    case Failure(kind) =>
      outcome := Panics(kind);
    case Success(sig) =>
      assert sig.results == [IntT];
      outcome := Invokes(fn.name, sig);
  }

  /**
    * A worked file: a function returning `*MyInterface` is passed over, the
    * later `New(a, b string) MyInterface` is picked, and its two grouped
    * parameters give ONE parameter type, because the signature is built per
    * field.
    */
  lemma ExampleFile()
    ensures FirstMatch(ExampleDecls()) == Some(3)
    ensures FunctionType(ExampleDecls()[3].fn) == Success(FuncT([IntT], [IntT], false))
  {
    var decls := ExampleDecls();
    FirstMatchIsFirst(decls);
    assert IsInstanceFunc(decls[3]);
    assert !IsInstanceFunc(decls[0]) && !IsInstanceFunc(decls[1]) && !IsInstanceFunc(decls[2]);
    DescribeFieldsAllSupported([Field(["a", "b"], Ident("string"))], [IntT]);
    DescribeFieldsAllSupported([Field([], Ident(InterfaceName))], [IntT]);
  }

  /** The declarations of the worked file, in source order. */
  function ExampleDecls(): seq<Decl>
  {
    [ OtherDecl,
      FuncDecl(Func("Ptr", [], Some([Field([], Star(Ident(InterfaceName)))]))),
      FuncDecl(Func("Pair", [], Some([Field([], Ident(InterfaceName)), Field([], Ident("error"))]))),
      FuncDecl(Func("New", [Field(["a", "b"], Ident("string"))], Some([Field([], Ident(InterfaceName))]))),
      FuncDecl(Func("Other", [], Some([Field([], Ident(InterfaceName))]))) ]
  }
}
