/** The evaluator of permission expressions, and the laws that it obeys. */
module Sexpr {
  import opened Basics

  /** JavaScript values as they occur in expressions; lists and tuples are the two kinds of object. */
  datatype Value =
    | Undefined
    | Null
    | Bool(b: bool)
    | Num(n: int)
    | Str(s: string)
    | List(items: seq<Value>)
    | Tuple(fields: seq<(string, Value)>)

  /** An evaluation gives a list of values, or the bare null of a failed lookup, or an exception. */
  datatype Result = Vals(vs: seq<Value>) | NoSuchKey | Thrown

  /** What a name is bound to: the result of an evaluation that did not throw. */
  type Env = map<string, Result>

  datatype Fun = Fun(params: seq<string>, body: seq<Value>)

  /** What evaluation takes from its surroundings; builtins and JavaScript's own indexing are parameters. */
  datatype World = World(
    builtins: map<string, seq<Value> -> Result>,
    property: (Value, Value) -> Option<Value>,
    functions: map<string, Fun>,
    permissions: set<string>)

  const MAX_DEPTH := 20

  const SPECIAL: set<string> := {"quote", "let", "if", "map"}

  predicate IsScalar(v: Value) {
    !v.List? && !v.Tuple?
  }

  predicate Truthy(v: Value) {
    match v
    case Undefined | Null => false
    case Bool(b) => b
    case Num(n) => n != 0
    case Str(s) => s != ""
    case _ => true
  }

  function At(xs: seq<Value>, i: nat): Value {
    if i < |xs| then xs[i] else Undefined
  }

  /** What a result adds when results are collected into one list: a bare null counts as one value. */
  function Items(r: Result): seq<Value> {
    match r
    case Vals(vs) => vs
    case NoSuchKey => [Null]
    case Thrown => []
  }

  /** The value of a result that has to be a single one. */
  function Single(r: Result): Option<Value> {
    if r.Vals? && |r.vs| == 1 then Some(r.vs[0]) else None
  }

  function Characters(s: string): seq<Value> {
    if s == "" then [] else [Str(s[..1])] + Characters(s[1..])
  }

  predicate HasField(v: Value, name: string) {
    v.Tuple? && exists i :: 0 <= i < |v.fields| && v.fields[i].0 == name
  }

  /** The elements that `let` reads by index from its list of bindings. */
  function BindingsOf(v: Value): Option<seq<Value>> {
    match v
    case List(items) => Some(items)
    case Str(s) => Some(Characters(s))
    case Undefined | Null => None
    case Tuple(_) => if HasField(v, "length") then None else Some([])
    case _ => Some([])
  }

  /** The elements that `map` takes apart. */
  function Iterated(v: Value): Option<seq<Value>> {
    match v
    case List(items) => Some(items)
    case Str(s) => Some(Characters(s))
    case _ => None
  }

  /** Only names that are strings can be looked up again. */
  function Bound(env: Env, name: Value, r: Result): Env {
    if name.Str? then env[name.s := r] else env
  }

  /** A function sees its arguments and nothing else; a missing argument is undefined. */
  function Arguments(params: seq<string>, args: seq<Value>): Env {
    if params == [] then map[]
    else
      var last := |params| - 1;
      Arguments(params[..last], args)[params[last] := Vals([At(args, last)])]
  }

  /** Index into a bound value, key by key. */
  function Index(w: World, v: Value, keys: seq<Value>): Result
    decreases |keys|
  {
    if keys == [] then Vals([v])
    else if IsScalar(v) && v != Null then Thrown
    else if v == Null then NoSuchKey
    else
      match w.property(v, keys[0])
      case None => NoSuchKey
      case Some(inner) => Index(w, inner, keys[1..])
  }

  /** What a bound name gives when it is applied to keys. */
  function LookUp(w: World, bound: Result, keys: seq<Value>): Result {
    if keys == [] then bound
    else
      match Single(bound)
      case None => Thrown
      case Some(v) => Index(w, v, keys)
  }

  function Fuel(depth: nat): nat {
    if depth <= MAX_DEPTH then MAX_DEPTH + 1 - depth else 0
  }

  function Eval(w: World, x: Value, env: Env, depth: nat): Result
    decreases Fuel(depth), 1, 0
  {
    if IsScalar(x) then Vals([x])
    else if depth > MAX_DEPTH then Thrown
    else
      match x
      case Tuple(fields) =>
        (match EvalFields(w, fields, env, depth + 1)
         case None => Thrown
         case Some(fs) => Vals([Tuple(fs)]))
      case List(items) =>
        if items == [] || !items[0].Str? then Thrown
        else
          var name := items[0].s;
          if name == "quote" then Vals(items[1..])
          else if name == "let" then EvalLet(w, items, env, depth + 1)
          else if name == "if" then EvalIf(w, items, env, depth + 1)
          else if name == "map" then EvalMap(w, items, env, depth + 1)
          else
            var args := EvalAll(w, items[1..], env, depth + 1);
            if args.Thrown? then Thrown else Apply(w, name, Items(args), env, depth + 1)
  }

  /** Evaluate a list of expressions and put the results one after the other. */
  function EvalAll(w: World, xs: seq<Value>, env: Env, depth: nat): (r: Result)
    ensures !r.NoSuchKey?
    decreases Fuel(depth), 2, |xs|
  {
    if xs == [] then Vals([])
    else
      var first := Eval(w, xs[0], env, depth);
      if first.Thrown? then Thrown
      else
        var rest := EvalAll(w, xs[1..], env, depth);
        if rest.Thrown? then Thrown else Vals(Items(first) + Items(rest))
  }

  function EvalFields(w: World, fields: seq<(string, Value)>, env: Env, depth: nat): Option<seq<(string, Value)>>
    decreases Fuel(depth), 2, |fields|
  {
    if fields == [] then Some([])
    else
      match Single(Eval(w, fields[0].1, env, depth))
      case None => None
      case Some(v) =>
        match EvalFields(w, fields[1..], env, depth)
        case None => None
        case Some(rest) => Some([(fields[0].0, v)] + rest)
  }

  /** Bind names one after the other, each seeing the ones before. */
  function EvalBindings(w: World, bind: seq<Value>, env: Env, depth: nat): Option<Env>
    decreases Fuel(depth), 2, |bind|
  {
    if bind == [] then Some(env)
    else
      var r := Eval(w, At(bind, 1), env, depth);
      if r.Thrown? then None
      else EvalBindings(w, if |bind| < 2 then [] else bind[2..], Bound(env, bind[0], r), depth)
  }

  function EvalLet(w: World, items: seq<Value>, env: Env, depth: nat): Result
    decreases Fuel(depth), 3, 0
  {
    match BindingsOf(At(items, 1))
    case None => Thrown
    case Some(bind) =>
      match EvalBindings(w, bind, env, depth)
      case None => Thrown
      case Some(inner) => EvalAll(w, if |items| < 2 then [] else items[2..], inner, depth)
  }

  function EvalIf(w: World, items: seq<Value>, env: Env, depth: nat): Result
    decreases Fuel(depth), 3, 0
  {
    match Single(Eval(w, At(items, 1), env, depth))
    case None => Thrown
    case Some(cond) =>
      if Truthy(cond) then Eval(w, At(items, 2), env, depth)
      else if |items| < 3 then Vals([])
      else Eval(w, At(items, 3), env, depth)
  }

  function EvalMap(w: World, items: seq<Value>, env: Env, depth: nat): Result
    decreases Fuel(depth), 4, 0
  {
    match Iterated(At(items, 1))
    case None => Thrown
    case Some(parts) =>
      var list := EvalAll(w, if |items| < 2 then [] else items[2..], env, depth);
      if list.Thrown? then Thrown
      else EvalEach(w, At(parts, 0), if parts == [] then [] else parts[1..], Items(list), env, depth)
  }

  /** The body of a `map` once for each value. */
  function EvalEach(w: World, name: Value, body: seq<Value>, vals: seq<Value>, env: Env, depth: nat): (r: Result)
    ensures !r.NoSuchKey?
    decreases Fuel(depth), 3, |vals|
  {
    if vals == [] then Vals([])
    else
      var first := EvalAll(w, body, Bound(env, name, Vals([vals[0]])), depth);
      if first.Thrown? then Thrown
      else
        var rest := EvalEach(w, name, body, vals[1..], env, depth);
        if rest.Thrown? then Thrown else Vals(Items(first) + Items(rest))
  }

  /** A name applied to values: builtins first, then bound names, then functions, then permissions. */
  function Apply(w: World, name: string, args: seq<Value>, env: Env, depth: nat): Result
    decreases Fuel(depth), 3, 0
  {
    if name in w.builtins then w.builtins[name](args)
    else if name in env then LookUp(w, env[name], args)
    else if name in w.functions then
      var f := w.functions[name];
      EvalAll(w, f.body, Arguments(f.params, args), depth)
    else if name in w.permissions then Vals([List([Str(name)] + args)])
    else Thrown
  }

  // ---- A result does not change at a smaller depth ----

  lemma {:induction false} Shallower(w: World, x: Value, env: Env, d: nat, e: nat)
    requires e <= d && !Eval(w, x, env, d).Thrown?
    ensures Eval(w, x, env, e) == Eval(w, x, env, d)
    decreases Fuel(d), 1, 0
  {
    hide EvalLet, EvalIf, EvalMap, EvalAll, EvalFields, Apply;
    if !IsScalar(x) {
      match x
      case Tuple(fields) =>
        ShallowerFields(w, fields, env, d + 1, e + 1);
      case List(items) =>
        var name := items[0].s;
        if name == "let" {
          ShallowerLet(w, items, env, d + 1, e + 1);
        } else if name == "if" {
          ShallowerIf(w, items, env, d + 1, e + 1);
        } else if name == "map" {
          ShallowerMap(w, items, env, d + 1, e + 1);
        } else if name != "quote" {
          ShallowerAll(w, items[1..], env, d + 1, e + 1);
          ShallowerApply(w, name, Items(EvalAll(w, items[1..], env, d + 1)), env, d + 1, e + 1);
        }
    }
  }

  lemma {:induction false} ShallowerAll(w: World, xs: seq<Value>, env: Env, d: nat, e: nat)
    requires e <= d && !EvalAll(w, xs, env, d).Thrown?
    ensures EvalAll(w, xs, env, e) == EvalAll(w, xs, env, d)
    decreases Fuel(d), 2, |xs|
  {
    if xs != [] {
      Shallower(w, xs[0], env, d, e);
      ShallowerAll(w, xs[1..], env, d, e);
    }
  }

  lemma {:induction false} ShallowerFields(w: World, fields: seq<(string, Value)>, env: Env, d: nat, e: nat)
    requires e <= d && EvalFields(w, fields, env, d).Some?
    ensures EvalFields(w, fields, env, e) == EvalFields(w, fields, env, d)
    decreases Fuel(d), 2, |fields|
  {
    if fields != [] {
      Shallower(w, fields[0].1, env, d, e);
      ShallowerFields(w, fields[1..], env, d, e);
    }
  }

  lemma {:induction false} ShallowerBindings(w: World, bind: seq<Value>, env: Env, d: nat, e: nat)
    requires e <= d && EvalBindings(w, bind, env, d).Some?
    ensures EvalBindings(w, bind, env, e) == EvalBindings(w, bind, env, d)
    decreases Fuel(d), 2, |bind|
  {
    if bind != [] {
      var r := Eval(w, At(bind, 1), env, d);
      Shallower(w, At(bind, 1), env, d, e);
      ShallowerBindings(w, if |bind| < 2 then [] else bind[2..], Bound(env, bind[0], r), d, e);
    }
  }

  lemma ShallowerLet(w: World, items: seq<Value>, env: Env, d: nat, e: nat)
    requires e <= d && !EvalLet(w, items, env, d).Thrown?
    ensures EvalLet(w, items, env, e) == EvalLet(w, items, env, d)
    decreases Fuel(d), 3, 0
  {
    var bind := BindingsOf(At(items, 1)).value;
    ShallowerBindings(w, bind, env, d, e);
    ShallowerAll(w, if |items| < 2 then [] else items[2..], EvalBindings(w, bind, env, d).value, d, e);
  }

  lemma ShallowerIf(w: World, items: seq<Value>, env: Env, d: nat, e: nat)
    requires e <= d && !EvalIf(w, items, env, d).Thrown?
    ensures EvalIf(w, items, env, e) == EvalIf(w, items, env, d)
    decreases Fuel(d), 3, 0
  {
    Shallower(w, At(items, 1), env, d, e);
    if Truthy(Single(Eval(w, At(items, 1), env, d)).value) {
      Shallower(w, At(items, 2), env, d, e);
    } else if |items| >= 3 {
      Shallower(w, At(items, 3), env, d, e);
    }
  }

  lemma ShallowerMap(w: World, items: seq<Value>, env: Env, d: nat, e: nat)
    requires e <= d && !EvalMap(w, items, env, d).Thrown?
    ensures EvalMap(w, items, env, e) == EvalMap(w, items, env, d)
    decreases Fuel(d), 4, 0
  {
    var list, parts := if |items| < 2 then [] else items[2..], Iterated(At(items, 1)).value;
    ShallowerAll(w, list, env, d, e);
    ShallowerEach(w, At(parts, 0), if parts == [] then [] else parts[1..], Items(EvalAll(w, list, env, d)), env, d, e);
  }

  lemma {:induction false} ShallowerEach(
    w: World, name: Value, body: seq<Value>, vals: seq<Value>, env: Env, d: nat, e: nat)
    requires e <= d && !EvalEach(w, name, body, vals, env, d).Thrown?
    ensures EvalEach(w, name, body, vals, env, e) == EvalEach(w, name, body, vals, env, d)
    decreases Fuel(d), 3, |vals|
  {
    if vals != [] {
      ShallowerAll(w, body, Bound(env, name, Vals([vals[0]])), d, e);
      ShallowerEach(w, name, body, vals[1..], env, d, e);
    }
  }

  lemma ShallowerApply(w: World, name: string, args: seq<Value>, env: Env, d: nat, e: nat)
    requires e <= d && !Apply(w, name, args, env, d).Thrown?
    ensures Apply(w, name, args, env, e) == Apply(w, name, args, env, d)
    decreases Fuel(d), 3, 0
  {
    if name !in w.builtins && name !in env && name in w.functions {
      var f := w.functions[name];
      ShallowerAll(w, f.body, Arguments(f.params, args), d, e);
    }
  }

  // ---- Bindings and scope ----

  /** Two environments that differ only in names that cannot be looked up. */
  ghost predicate Alike(w: World, a: Env, b: Env) {
    forall k :: k !in SPECIAL && k !in w.builtins ==> (k in a <==> k in b) && (k in a ==> a[k] == b[k])
  }

  lemma BoundAlike(w: World, a: Env, b: Env, name: Value, r: Result)
    requires Alike(w, a, b)
    ensures Alike(w, Bound(a, name, r), Bound(b, name, r))
  {
  }

  /** Bindings of builtins and special forms are never seen: builtins cannot be renamed or overridden. */
  lemma {:induction false} BuiltinsHold(w: World, x: Value, a: Env, b: Env, d: nat)
    requires Alike(w, a, b)
    ensures Eval(w, x, a, d) == Eval(w, x, b, d)
    decreases Fuel(d), 1, 0
  {
    hide Alike, EvalLet, EvalIf, EvalMap, EvalAll, EvalFields, Apply;
    if !IsScalar(x) && d <= MAX_DEPTH {
      match x
      case Tuple(fields) =>
        BuiltinsHoldFields(w, fields, a, b, d + 1);
      case List(items) =>
        if items != [] && items[0].Str? {
          var name := items[0].s;
          if name == "let" {
            BuiltinsHoldLet(w, items, a, b, d + 1);
          } else if name == "if" {
            BuiltinsHoldIf(w, items, a, b, d + 1);
          } else if name == "map" {
            BuiltinsHoldMap(w, items, a, b, d + 1);
          } else if name != "quote" {
            BuiltinsHoldAll(w, items[1..], a, b, d + 1);
            ApplyAlike(w, name, Items(EvalAll(w, items[1..], a, d + 1)), a, b, d + 1);
          }
        }
    }
  }

  lemma BuiltinsHoldIf(w: World, items: seq<Value>, a: Env, b: Env, d: nat)
    requires Alike(w, a, b)
    ensures EvalIf(w, items, a, d) == EvalIf(w, items, b, d)
    decreases Fuel(d), 3, 0
  {
    hide Alike, Eval;
    BuiltinsHold(w, At(items, 1), a, b, d);
    BuiltinsHold(w, At(items, 2), a, b, d);
    BuiltinsHold(w, At(items, 3), a, b, d);
  }

  lemma ApplyAlike(w: World, name: string, args: seq<Value>, a: Env, b: Env, d: nat)
    requires Alike(w, a, b) && name !in SPECIAL
    ensures Apply(w, name, args, a, d) == Apply(w, name, args, b, d)
  {
    hide Alike, LookUp, EvalAll;
    if name !in w.builtins {
      LookupAlike(w, a, b, name);
    }
  }

  lemma LookupAlike(w: World, a: Env, b: Env, name: string)
    requires Alike(w, a, b) && name !in SPECIAL && name !in w.builtins
    ensures (name in a <==> name in b) && (name in a ==> a[name] == b[name])
  {
  }

  lemma {:induction false} BuiltinsHoldAll(w: World, xs: seq<Value>, a: Env, b: Env, d: nat)
    requires Alike(w, a, b)
    ensures EvalAll(w, xs, a, d) == EvalAll(w, xs, b, d)
    decreases Fuel(d), 2, |xs|
  {
    hide Alike;
    if xs != [] {
      BuiltinsHold(w, xs[0], a, b, d);
      BuiltinsHoldAll(w, xs[1..], a, b, d);
    }
  }

  lemma {:induction false} BuiltinsHoldFields(w: World, fields: seq<(string, Value)>, a: Env, b: Env, d: nat)
    requires Alike(w, a, b)
    ensures EvalFields(w, fields, a, d) == EvalFields(w, fields, b, d)
    decreases Fuel(d), 2, |fields|
  {
    hide Alike;
    if fields != [] {
      BuiltinsHold(w, fields[0].1, a, b, d);
      BuiltinsHoldFields(w, fields[1..], a, b, d);
    }
  }

  lemma {:induction false} BuiltinsHoldBindings(w: World, bind: seq<Value>, a: Env, b: Env, d: nat)
    requires Alike(w, a, b)
    ensures EvalBindings(w, bind, a, d).Some? == EvalBindings(w, bind, b, d).Some?
    ensures EvalBindings(w, bind, a, d).Some? ==>
      Alike(w, EvalBindings(w, bind, a, d).value, EvalBindings(w, bind, b, d).value)
    decreases Fuel(d), 2, |bind|
  {
    hide Alike;
    if bind != [] {
      BuiltinsHold(w, At(bind, 1), a, b, d);
      var r, rest := Eval(w, At(bind, 1), a, d), if |bind| < 2 then [] else bind[2..];
      BoundAlike(w, a, b, bind[0], r);
      BuiltinsHoldBindings(w, rest, Bound(a, bind[0], r), Bound(b, bind[0], r), d);
    }
  }

  lemma BuiltinsHoldLet(w: World, items: seq<Value>, a: Env, b: Env, d: nat)
    requires Alike(w, a, b)
    ensures EvalLet(w, items, a, d) == EvalLet(w, items, b, d)
    decreases Fuel(d), 3, 0
  {
    hide Alike;
    if BindingsOf(At(items, 1)).Some? {
      var bind := BindingsOf(At(items, 1)).value;
      BuiltinsHoldBindings(w, bind, a, b, d);
      if EvalBindings(w, bind, a, d).Some? {
        BuiltinsHoldAll(w, if |items| < 2 then [] else items[2..],
                        EvalBindings(w, bind, a, d).value, EvalBindings(w, bind, b, d).value, d);
      }
    }
  }

  lemma BuiltinsHoldMap(w: World, items: seq<Value>, a: Env, b: Env, d: nat)
    requires Alike(w, a, b)
    ensures EvalMap(w, items, a, d) == EvalMap(w, items, b, d)
    decreases Fuel(d), 4, 0
  {
    hide Alike;
    if Iterated(At(items, 1)).Some? {
      var list, parts := if |items| < 2 then [] else items[2..], Iterated(At(items, 1)).value;
      BuiltinsHoldAll(w, list, a, b, d);
      BuiltinsHoldEach(w, At(parts, 0), if parts == [] then [] else parts[1..], Items(EvalAll(w, list, a, d)), a, b, d);
    }
  }

  lemma {:induction false} BuiltinsHoldEach(
    w: World, name: Value, body: seq<Value>, vals: seq<Value>, a: Env, b: Env, d: nat)
    requires Alike(w, a, b)
    ensures EvalEach(w, name, body, vals, a, d) == EvalEach(w, name, body, vals, b, d)
    decreases Fuel(d), 3, |vals|
  {
    hide Alike;
    if vals != [] {
      var one := Vals([vals[0]]);
      BoundAlike(w, a, b, name, one);
      BuiltinsHoldAll(w, body, Bound(a, name, one), Bound(b, name, one), d);
      BuiltinsHoldEach(w, name, body, vals[1..], a, b, d);
    }
  }

  /** So an attempt to override a builtin with `let` is the same as evaluating the value for its exceptions only. */
  lemma OverridingIsVain(w: World, k: string, v: Value, body: seq<Value>, env: Env, d: nat)
    requires k in w.builtins || k in SPECIAL
    requires d <= MAX_DEPTH && !Eval(w, v, env, d + 1).Thrown?
    ensures Eval(w, List([Str("let"), List([Str(k), v])] + body), env, d) == EvalAll(w, body, env, d + 1)
  {
    var items := [Str("let"), List([Str(k), v])] + body;
    var bind := [Str(k), v];
    var inner := Bound(env, Str(k), Eval(w, v, env, d + 1));
    assert items[2..] == body && items[1] == List(bind);
    assert At(bind, 1) == v && bind[2..] == [];
    assert EvalBindings(w, bind, env, d + 1) == EvalBindings(w, [], inner, d + 1) == Some(inner);
    BuiltinsHoldAll(w, body, inner, env, d + 1);
  }

  // ---- Function calls ----

  function Call(name: string, args: seq<Value>): Value {
    List([Str(name)] + args)
  }

  /** The name is one that is looked up among functions unless something is bound to it. */
  predicate NamesFunction(w: World, name: string) {
    name in w.functions && name !in w.builtins && name !in SPECIAL
  }

  /**
   * At any depth, a call of a function that no binding hides depends on the
   * values of its arguments and not on the environment of the caller.
   */
  lemma CallDependsOnValues(w: World, name: string, xs: seq<Value>, ys: seq<Value>, a: Env, b: Env, d: nat)
    requires NamesFunction(w, name) && name !in a && name !in b
    requires EvalAll(w, xs, a, d + 1) == EvalAll(w, ys, b, d + 1)
    ensures Eval(w, Call(name, xs), a, d) == Eval(w, Call(name, ys), b, d)
  {
    assert Call(name, xs).items[1..] == xs;
    assert Call(name, ys).items[1..] == ys;
  }

  /** So it is the call with the argument values quoted, made where nothing is bound, while quoting is possible. */
  lemma CallByValue(w: World, name: string, xs: seq<Value>, env: Env, d: nat)
    requires NamesFunction(w, name) && name !in env
    requires d < MAX_DEPTH && EvalAll(w, xs, env, d + 1).Vals?
    ensures Eval(w, Call(name, xs), env, d) ==
            Eval(w, Call(name, [Call("quote", EvalAll(w, xs, env, d + 1).vs)]), map[], d)
  {
    var vs := EvalAll(w, xs, env, d + 1).vs;
    var quoted := Call("quote", vs);
    assert quoted.items[1..] == vs;
    assert [quoted][1..] == [];
    assert EvalAll(w, [quoted][1..], map[], d + 1) == Vals([]);
    assert EvalAll(w, [quoted], map[], d + 1) == Vals(vs);
    CallDependsOnValues(w, name, xs, [quoted], env, map[], d);
  }

  /**
   * A binding of the function's name hides the function: with any arguments
   * the outcome is the look-up in what is bound.
   */
  lemma BindingHidesFunction(w: World, name: string, xs: seq<Value>, env: Env, d: nat)
    requires NamesFunction(w, name) && name in env && d <= MAX_DEPTH
    requires EvalAll(w, xs, env, d + 1).Vals?
    ensures Eval(w, Call(name, xs), env, d) == LookUp(w, env[name], EvalAll(w, xs, env, d + 1).vs)
  {
    assert Call(name, xs).items[1..] == xs;
  }

  /** So there the outcome does vary with the caller's bindings. */
  lemma HiddenCallVaries(w: World, name: string, r: Result, q: Result, env: Env, d: nat)
    requires NamesFunction(w, name) && d <= MAX_DEPTH
    ensures Eval(w, Call(name, []), env[name := r], d) == Eval(w, Call(name, []), env[name := q], d) <==> r == q
  {
    BindingHidesFunction(w, name, [], env[name := r], d);
    BindingHidesFunction(w, name, [], env[name := q], d);
  }

  // ---- let ----

  function Let(bind: seq<Value>, body: seq<Value>): Value {
    List([Str("let"), List(bind)] + body)
  }

  lemma {:induction false} BindingsSplit(w: World, first: seq<Value>, second: seq<Value>, env: Env, d: nat)
    requires |first| % 2 == 0
    ensures EvalBindings(w, first + second, env, d) ==
      match EvalBindings(w, first, env, d)
      case None => None
      case Some(inner) => EvalBindings(w, second, inner, d)
    decreases |first|
  {
    if first == [] {
      assert first + second == second;
    } else {
      var r := Eval(w, first[1], env, d);
      assert (first + second)[2..] == first[2..] + second;
      if !r.Thrown? {
        BindingsSplit(w, first[2..], second, Bound(env, first[0], r), d);
      }
    }
  }

  lemma LetIs(w: World, bind: seq<Value>, body: seq<Value>, env: Env, d: nat)
    requires d <= MAX_DEPTH
    ensures Eval(w, Let(bind, body), env, d) ==
      match EvalBindings(w, bind, env, d + 1)
      case None => Thrown
      case Some(inner) => EvalAll(w, body, inner, d + 1)
  {
    assert Let(bind, body).items[2..] == body;
  }

  lemma OneElement(w: World, x: Value, env: Env, d: nat)
    requires !Eval(w, x, env, d).NoSuchKey?
    ensures EvalAll(w, [x], env, d) == Eval(w, x, env, d)
  {
    assert [x][1..] == [];
  }

  /**
   * One `let` with several bindings and nested `let`s: when the nested form
   * succeeds the flat one gives the same, and the nested form succeeds whenever
   * the flat one does so one level further down.
   */
  lemma LetNested(w: World, first: seq<Value>, second: seq<Value>, body: seq<Value>, env: Env, d: nat)
    requires |first| % 2 == 0
    ensures var flat, nested := Let(first + second, body), Let(first, [Let(second, body)]);
      && (!Eval(w, nested, env, d).Thrown? ==> Eval(w, flat, env, d) == Eval(w, nested, env, d))
      && (!Eval(w, flat, env, d + 1).Thrown? ==> Eval(w, nested, env, d) == Eval(w, flat, env, d + 1))
  {
    if d < MAX_DEPTH {
      LetNestedBelow(w, first, second, body, env, d);
    }
  }

  lemma LetNestedBelow(w: World, first: seq<Value>, second: seq<Value>, body: seq<Value>, env: Env, d: nat)
    requires |first| % 2 == 0 && d < MAX_DEPTH
    ensures var flat, nested := Let(first + second, body), Let(first, [Let(second, body)]);
      && (!Eval(w, nested, env, d).Thrown? ==> Eval(w, flat, env, d) == Eval(w, nested, env, d))
      && (!Eval(w, flat, env, d + 1).Thrown? ==> Eval(w, nested, env, d) == Eval(w, flat, env, d + 1))
  {
    hide Eval;
    LetIs(w, first + second, body, env, d);
    LetIs(w, first + second, body, env, d + 1);
    LetIs(w, first, [Let(second, body)], env, d);
    BindingsSplit(w, first, second, env, d + 1);
    BindingsSplit(w, first, second, env, d + 2);
    if EvalBindings(w, first, env, d + 2).Some? {
      ShallowerBindings(w, first, env, d + 2, d + 1);
    }
    if EvalBindings(w, first, env, d + 1).Some? {
      var inner := EvalBindings(w, first, env, d + 1).value;
      LetIs(w, second, body, inner, d + 1);
      OneElement(w, Let(second, body), inner, d + 1);
      if EvalBindings(w, second, inner, d + 2).Some? {
        ShallowerBindings(w, second, inner, d + 2, d + 1);
        var innermost := EvalBindings(w, second, inner, d + 2).value;
        if !EvalAll(w, body, innermost, d + 2).Thrown? {
          ShallowerAll(w, body, innermost, d + 2, d + 1);
        }
      }
    }
  }

  predicate AllScalar(xs: seq<Value>) {
    forall i :: 0 <= i < |xs| ==> IsScalar(xs[i])
  }

  /** The values in a list of bindings are scalars; a missing last one is undefined. */
  predicate ScalarBindings(bind: seq<Value>) {
    forall i :: 0 <= i < |bind| && i % 2 == 1 ==> IsScalar(bind[i])
  }

  /** Below the limit nothing but scalars can be evaluated. */
  lemma {:induction false} AllAtLimit(w: World, xs: seq<Value>, env: Env)
    ensures EvalAll(w, xs, env, MAX_DEPTH + 1) == if AllScalar(xs) then Vals(xs) else Thrown
    decreases |xs|
  {
    if xs != [] {
      AllAtLimit(w, xs[1..], env);
      assert AllScalar(xs) <==> IsScalar(xs[0]) && AllScalar(xs[1..]);
      assert xs == [xs[0]] + xs[1..];
    }
  }

  lemma {:induction false} BindingsAtLimit(w: World, bind: seq<Value>, env: Env)
    ensures EvalBindings(w, bind, env, MAX_DEPTH + 1).Some? <==> ScalarBindings(bind)
    decreases |bind|
  {
    if |bind| >= 2 {
      var rest := bind[2..];
      BindingsAtLimit(w, rest, Bound(env, bind[0], Eval(w, bind[1], env, MAX_DEPTH + 1)));
      assert forall i :: 0 <= i < |rest| ==> rest[i] == bind[i + 2];
      if ScalarBindings(rest) && IsScalar(bind[1]) {
        forall i | 0 <= i < |bind| && i % 2 == 1 ensures IsScalar(bind[i]) {
          assert i == 1 || bind[i] == rest[i - 2];
        }
      }
    }
  }

  /**
   * At the depth limit nested `let`s always fail, whatever they bind, while one
   * `let` with the same bindings succeeds if it binds and returns scalars only.
   */
  lemma NestingCostsDepth(w: World, first: seq<Value>, second: seq<Value>, body: seq<Value>, env: Env)
    ensures Eval(w, Let(first, [Let(second, body)]), env, MAX_DEPTH) == Thrown
    ensures !Eval(w, Let(first + second, body), env, MAX_DEPTH).Thrown? <==>
            ScalarBindings(first + second) && AllScalar(body)
  {
    var inner := Let(second, body);
    LetIs(w, first, [inner], env, MAX_DEPTH);
    LetIs(w, first + second, body, env, MAX_DEPTH);
    BindingsAtLimit(w, first, env);
    BindingsAtLimit(w, first + second, env);
    if EvalBindings(w, first, env, MAX_DEPTH + 1).Some? {
      AllAtLimit(w, [inner], EvalBindings(w, first, env, MAX_DEPTH + 1).value);
      assert !IsScalar([inner][0]);
    }
    if EvalBindings(w, first + second, env, MAX_DEPTH + 1).Some? {
      AllAtLimit(w, body, EvalBindings(w, first + second, env, MAX_DEPTH + 1).value);
    }
  }
}
