/** The scope chain of the semantic analyzer: each scope maps a declared
    name to whether it has been initialized, and each scope but the
    outermost has a parent. The chain is a sequence with the innermost
    scope first; `c[1..]` is the parent chain of `c[0]`. */
module Scopes {
  import opened Wrappers

  type Scope = map<string, bool>
  type Chain = seq<Scope>

  datatype SemanticError =
    | DuplicateDeclaration(name: string)
    | UndeclaredVariable(name: string)
    | UninitializedVariable(name: string)
    | UnknownStatementType

  /** The index of the nearest scope that has `name` as a key. */
  function Nearest(c: Chain, name: string): (r: Option<nat>)
    ensures r.Some? ==> r.value < |c| && name in c[r.value]
    ensures r.Some? ==> forall j :: 0 <= j < r.value ==> name !in c[j]
    ensures r.None? <==> forall j :: 0 <= j < |c| ==> name !in c[j]
  {
    if c == [] then None
    else if name in c[0] then Some(0)
    else
      var r := Nearest(c[1..], name);
      if r.Some? then Some(r.value + 1) else None
  }

  /** Whether some scope of the chain declares `name`. */
  function IsDeclared(c: Chain, name: string): (b: bool)
    ensures b <==> exists j :: 0 <= j < |c| && name in c[j]
  {
    if c == [] then false
    else if name in c[0] then true
    else IsDeclared(c[1..], name)
  }

  /** The flag of the nearest scope that declares `name`, or false when no
      scope does. */
  function IsInitialized(c: Chain, name: string): (b: bool)
    ensures b <==> var r := Nearest(c, name); r.Some? && c[r.value][name]
    ensures b ==> IsDeclared(c, name)
  {
    if c == [] then false
    else if name in c[0] then c[0][name]
    else IsInitialized(c[1..], name)
  }

  /** Adds `name`, not yet initialized, to the innermost scope; an error
      when that scope already has it. Outer scopes are not consulted, so
      shadowing is allowed. */
  function Declare(c: Chain, name: string): (r: Result<Chain, SemanticError>)
    requires |c| > 0
    ensures r.Err? <==> name in c[0]
    ensures r.Err? ==> r.error == DuplicateDeclaration(name)
    ensures r.Ok? ==> |r.value| == |c| && r.value[1..] == c[1..]
    ensures r.Ok? ==> name in r.value[0] && !r.value[0][name]
    ensures r.Ok? ==> r.value[0].Keys == c[0].Keys + {name}
    ensures r.Ok? ==> forall k :: k in c[0] ==> r.value[0][k] == c[0][k]
  {
    if name in c[0] then Err(DuplicateDeclaration(name))
    else Ok([c[0][name := false]] + c[1..])
  }

  /** Sets the flag of `name` in the nearest scope that declares it; a
      chain that does not declare it is returned as it is. */
  function Initialize(c: Chain, name: string): (r: Chain)
    ensures |r| == |c|
    ensures forall j :: 0 <= j < |c| ==> r[j].Keys == c[j].Keys
    ensures Nearest(c, name).None? ==> r == c
    ensures Nearest(c, name).Some? ==>
              var i := Nearest(c, name).value;
              && r[i][name]
              && (forall j :: 0 <= j < |c| && j != i ==> r[j] == c[j])
              && (forall k :: k in c[i] && k != name ==> r[i][k] == c[i][k])
  {
    if c == [] then []
    else if name in c[0] then [c[0][name := true]] + c[1..]
    else [c[0]] + Initialize(c[1..], name)
  }

  /** The chain with a new, empty innermost scope. */
  function Push(c: Chain): (r: Chain)
    ensures |r| == |c| + 1 && r[0] == map[] && r[1..] == c
    ensures forall n :: IsDeclared(r, n) == IsDeclared(c, n) && IsInitialized(r, n) == IsInitialized(c, n)
  {
    [map[]] + c
  }

  /** Declaring a fresh name and then marking it initialized adds it,
      initialized, to the innermost scope and changes nothing else. */
  lemma DeclareThenInitialize(c: Chain, name: string)
    requires |c| > 0 && name !in c[0]
    ensures Declare(c, name).Ok?
    ensures Initialize(Declare(c, name).value, name) == [c[0][name := true]] + c[1..]
  {
    var d := [c[0][name := false]] + c[1..];
    assert Declare(c, name) == Ok(d);
    assert d[0] == c[0][name := false] && d[1..] == c[1..];
    assert Initialize(d, name) == [d[0][name := true]] + d[1..];
    assert d[0][name := true] == c[0][name := true];
  }
}
