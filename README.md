# Factory discovery over a Go syntax tree, in Dafny

The modelled program walks a package directory. It hands each `.go` file
other than `main.go` to `callInstanceFunc`. That function parses the file and
looks among its top-level declarations for a factory function that returns
the interface `MyInterface`. If it finds one, it describes that function's
signature as a run-time function type and then tries to call the function
reflectively. That attempt always panics, so the walk stops at the first file
that declares a factory. It also stops at the first entry that the walk
reports with an error. This project models the part of `main.go` that can be
stated as logic. It proves what the search selects, what the type
description produces and when it fails, which walked paths are inspected,
and where the walk ends.

Modules:

- `Wrappers` (`wrappers.dfy`): `Option` and `Result`.
- `Syntax` (`syntax.dfy`): the go/ast fragment. It has type expressions
  (`Ident`, `Star` and `Other(kind)`), fields (one type shared by several
  names), function declarations (whose results may be nil) and declarations.
- `ReflectTypes` (`reflect_types.dfy`): the reflect fragment that is built:
  `IntT`, `PtrT` and `FuncT(params, results, variadic)`.
- `Describe` (`describe.dfy`): `getType` as the function `GetType`, and
  `buildFunctionType` as the method `BuildFunctionType` with two loops. The
  method is specified by the function `FunctionType`. A Go panic
  ("Unsupported type") is a `Failure` that carries the Go type name of the
  offending node.
- `Search` (`search.dfy`): the declaration loop of `callInstanceFunc` as the
  method `FindInstanceFunc`, specified by `FirstMatch`. `CallInstanceFunc`
  combines the search with the signature description and is specified by
  `CallOutcomeOf`. It ends in `ReturnsNil`, `Panics(kind)` or
  `Invokes(name, sig)`; the last reaches the reflective call, which panics.
- `DirWalk` (`walk.dfy`): the filter of line 27 (`IsCandidate`, built on
  `filepath.Ext`, which is `Ext` here), the walk function as the method
  `Visit`, and the walk as the method `WalkPackage` over the sequence of
  entries that `filepath.Walk` reports.

Behaviour of the code worth noting:

- Only the FIRST qualifying declaration of a file is kept, because of the
  `break` on line 70. Later matches are never looked at.
- Only a bare identifier result qualifies. A `*MyInterface` result is not
  resolved through the pointer and never qualifies.
- An unsupported parameter or result type makes `getType` panic, which
  ends the program. The declaration is not skipped.
- The excluded file is the constant `currentFile` ("main.go"). It is
  compared with the entry's base name, so a `main.go` in any subdirectory is
  skipped as well.
- `buildFunctionType` produces one entry per field, not one per name.
  `New(a, b string) MyInterface` gets one parameter type (`ExampleFile`).
- Every identifier, `MyInterface` included, is described as `int`.
- `reflect.ValueOf(instanceFunc)` reflects on the `*ast.FuncDecl` pointer,
  which is not a function, so `Call` panics. No file's factory is ever
  called and `instance.MyMethod()` is never reached (`WalkEndsAtFactory`).

## Model

| member | source | states |
|---|---|---|
| `Describe.GetType` | main.go:121-130 | succeeds exactly when the innermost node under the stars is an identifier; otherwise it fails with that innermost node's kind |
| `Describe.GetTypeShape` | main.go:121-129 | the description of any expression is `int` under as many pointers as the expression has stars, whatever the identifier's name, or the failure of its innermost non-identifier node |
| `Describe.GetTypeStars` | main.go:123-128 | `n` stars around an identifier of any name give `n` pointers around `int`; around any other node they fail with that node's kind |
| `Describe.PointerDepthPreserved` | main.go:125-126 | the pointer depth of a successful description equals the star depth of the expression |
| `Describe.DescribeFields` | main.go:107-109 | a field list is described exactly when every field's type is; the result has one entry per field, each that field's description, in order |
| `Describe.DescribeFieldsFirstFailure` | main.go:107-108 | if every field before `i` is supported and field `i` is not, the list fails with field `i`'s kind (the first panic wins) |
| `Describe.DescribeFieldsAllSupported` | main.go:107-109 | if every field is supported, the description is exactly the list of the fields' descriptions |
| `Describe.DescribeResults` | main.go:110-115 | the result types are described exactly when the result list is nil or every result field's type is supported; a nil list then gives no result types, otherwise one per result field, each that field's description, in order |
| `Describe.FunctionType` | main.go:104-119 | the signature succeeds exactly when all parameter and result field types are supported; it is then a non-variadic function type with one parameter per parameter field and one result per result field (zero when results are nil), each the field's description in order; on failure it names the first unsupported parameter field, or else the first unsupported result field |
| `Describe.BuildFunctionType` | main.go:104-119 | the two append loops compute exactly `FunctionType` of the declaration, stopping at the first unsupported field |
| `Search.FirstMatch` | main.go:61-75 | an index found is in range and names a qualifying function declaration |
| `Search.FirstMatchIsFirst` | main.go:61-75 | no qualifying declaration comes before the one found; nothing is found exactly when no declaration qualifies |
| `Search.FirstMatchAppend` | main.go:63-71 | searching `a + b` gives the match in `a` if there is one, else the match in `b` shifted past `a`: declarations after the first match are never considered |
| `Search.FirstMatchSkipsOtherDecls` | main.go:63-64 | inserting a non-function declaration changes neither whether a function is found nor which one; only the position of a match after the insertion point moves up by one |
| `Search.FindInstanceFunc` | main.go:61-75 | the loop with `break` returns the function declared at the index `FirstMatch` finds, and nil when it finds none; by `FirstMatchIsFirst` this is the first qualifying function, and nil exactly when none qualifies |
| `Search.CallOutcomeOf` | main.go:42-101 | `callInstanceFunc` returns nil exactly when the import or parse fails or no declaration qualifies |
| `Search.CallInstanceFunc` | main.go:42-101 | an import or parse failure, or no qualifying function, returns nil; otherwise the first qualifying function's signature is built; the call reaches the reflective invocation with that name and a non-variadic signature whose single result is `int`, or panics, and only because of an unsupported parameter type |
| `Search.ExampleFile` | main.go:63-116 | in a file with a non-function declaration, a `*MyInterface` factory, a two-result factory and two qualifying factories, the first qualifying one is picked, and its grouped parameters `(a, b string)` give one parameter type |
| `DirWalk.Ext` | main.go:27 | a non-empty extension starts with '.', is a suffix of the path, and contains no further '.' and no separator |
| `DirWalk.ExtEmptyMeansNoDot` | main.go:27 | when a path has no extension, every '.' in it is followed later by a separator; with `Ext`'s own contract, a path has an extension exactly when some '.' has no separator after it |
| `DirWalk.ExtIsGo` | main.go:27 | a path's extension is ".go" exactly when the path ends with ".go" |
| `DirWalk.IsCandidateIff` | main.go:14-27 | an entry is processed exactly when its path ends with ".go", it is not a directory, and its name is not "main.go" |
| `DirWalk.Candidates` | main.go:23-35 | the walk never hands more files to the search than it has entries |
| `DirWalk.CandidatesSound` | main.go:27-29 | every visited path comes from an entry that passes the filter |
| `DirWalk.CandidatesComplete` | main.go:27-29 | in any stretch of entries, every entry that passes the filter has its path among the candidates of that stretch; with `WalkPackage` this covers each candidate before the walk stops |
| `DirWalk.CandidatesAppend` | main.go:23-36 | filtering keeps walk order: the candidates of two consecutive stretches of the walk are concatenated |
| `DirWalk.FirstStop` | main.go:24-33 | the index found is that of the first entry that ends the walk (one with an error, or a candidate file that declares a factory), or the number of entries if none does |
| `DirWalk.FirstStopAt` | main.go:24-33 | an index before which no entry ends the walk and at which one does (or the end) is the first stop |
| `DirWalk.WalkEndsAtFactory` | main.go:78-97 | a candidate file that declares a factory ends the walk at or before its own position: no later entry is looked at |
| `DirWalk.Visit` | main.go:23-36 | the walk function hands the entry to `callInstanceFunc` exactly when it has no error and passes the filter; it ends the walk exactly when the entry ends it, with the walk error or with the panic of the call's outcome |
| `DirWalk.WalkPackage` | main.go:22-39 | the walk visits, in order, the candidate paths before the first entry that ends it, plus that entry's path when it is a file whose call panics; it completes when no entry ends it, returns the walk error when the first stop carries one, and otherwise ends in the panic of `callInstanceFunc` on that file |

## Left out

- The directory walk itself (`filepath.Walk`, `os.FileInfo`): the entries,
  their base names, directory flags and errors are given as a sequence.
  Paths use '/' as the separator.
- `build.ImportDir` and `parser.ParseFile` are library calls. Each entry
  carries the declaration list they produce for it, or `None` when either
  fails, which makes `callInstanceFunc` return nil.
- The second `build.ImportDir` and its `panic` (lines 86-89). It runs only
  after the signature was built, so it can only turn an `Invokes` outcome
  into a different panic, which ends the walk at the same entry. The
  imported package is only printed.
- What the reflective call `reflect.ValueOf(instanceFunc).Call(nil)` does
  beyond panicking (lines 94-98): `Invokes(name, sig)` records that the
  call is reached and ends the program. The type assertion to `MyInterface`
  and `instance.MyMethod()` (lines 30-33) are therefore never reached.
- The text of the panic messages. A `Panics` outcome keeps only the Go type
  name that `getType` formats with `%T`.
- `reflect.TypeOf((*MyInterface)(nil)).Elem().Name()` is the constant
  "MyInterface". `reflect.TypeOf(0)` and `reflect.PtrTo` are modelled by
  `IntT` and `PtrT`.
- Describe.FunctionType: does not model the panic of `reflect.FuncOf` (line
  116) when the parameter and result types together number more than 128.
  It describes such a signature as a `FuncT` where the program panics.
- Describe.BuildFunctionType: inherits the same gap, since it computes
  `FunctionType`.
- Method receivers and type parameters of function declarations: neither
  the search nor `buildFunctionType` reads them.
- All printing (`fmt.Printf`, `fmt.Println`).
