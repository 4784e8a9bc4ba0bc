/**
  * The fragment of Go's run-time type descriptors (package reflect) that
  * main.go builds: `reflect.TypeOf(0)`, `reflect.PtrTo(t)` and
  * `reflect.FuncOf(params, results, variadic)`.
  */
module ReflectTypes {
  datatype Type =
    | IntT
    | PtrT(elem: Type)
    | FuncT(params: seq<Type>, results: seq<Type>, variadic: bool)

  /** `t` under `n` levels of pointer. */
  function PtrTo(n: nat, t: Type): Type
  {
    if n == 0 then t else PtrT(PtrTo(n - 1, t))
  }

  /** Number of pointer levels around a type. */
  function PtrDepth(t: Type): nat
  {
    match t
    case PtrT(u) => 1 + PtrDepth(u)
    case _ => 0
  }

  /** `n` pointer levels around `int` have depth `n`. */
  lemma {:induction false} PtrToDepth(n: nat)
    ensures PtrDepth(PtrTo(n, IntT)) == n
  {
    if n > 0 {
      PtrToDepth(n - 1);
    }
  }
}
