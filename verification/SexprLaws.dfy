/** What each form of a permission expression gives. */
module SexprLaws {
  import opened Basics
  import opened Sexpr

  // ---- Constants, quoting and the depth limit ----

  lemma ScalarIs(w: World, x: Value, env: Env, d: nat)
    requires IsScalar(x)
    ensures Eval(w, x, env, d) == Vals([x])
  {
  }

  /** Nothing but a constant can be evaluated below the limit. */
  lemma TooDeep(w: World, x: Value, env: Env, d: nat)
    requires (x.List? || x.Tuple?) && d > 20
    ensures Eval(w, x, env, d) == Thrown
  {
  }

  lemma QuoteIs(w: World, xs: seq<Value>, env: Env, d: nat)
    requires d <= 20
    ensures Eval(w, Call("quote", xs), env, d) == Vals(xs)
  {
    assert Call("quote", xs).items[1..] == xs;
  }

  // ---- Sequences and tuples ----

  /** What one expression adds to a list: its values, and a failed lookup a null. */
  predicate Adds(r: Result, vs: seq<Value>) {
    r == Vals(vs) || (r == NoSuchKey && vs == [Null])
  }

  /** Sequences evaluate part by part, from left to right. */
  lemma {:induction false} AllSplit(w: World, xs: seq<Value>, ys: seq<Value>, env: Env, d: nat)
    ensures var a, b, r := EvalAll(w, xs, env, d), EvalAll(w, ys, env, d), EvalAll(w, xs + ys, env, d);
      if a.Vals? && b.Vals? then r == Vals(a.vs + b.vs) else r == Thrown
    decreases |xs|
  {
    hide Eval, EvalAll;
    AllStep(w, xs, env, d);
    AllStep(w, xs + ys, env, d);
    if xs == [] {
      assert xs + ys == ys;
    } else {
      assert (xs + ys)[1..] == xs[1..] + ys;
      AllSplit(w, xs[1..], ys, env, d);
    }
  }

  lemma AllStep(w: World, xs: seq<Value>, env: Env, d: nat)
    ensures xs == [] ==> EvalAll(w, xs, env, d) == Vals([])
    ensures xs != [] ==>
      var one, rest := Eval(w, xs[0], env, d), EvalAll(w, xs[1..], env, d);
      EvalAll(w, xs, env, d) ==
        if one.Thrown? || rest.Thrown? then Thrown else Vals((if one.Vals? then one.vs else [Null]) + rest.vs)
  {
    hide Eval;
  }

  lemma AllOfOne(w: World, x: Value, env: Env, d: nat)
    ensures var one, r := Eval(w, x, env, d), EvalAll(w, [x], env, d);
      if one.Thrown? then r == Thrown else r.Vals? && Adds(one, r.vs)
  {
    hide Eval;
    assert [x][1..] == [];
    assert EvalAll(w, [], env, d) == Vals([]);
  }

  /** A tuple keeps its keys in order, and each field has the one value that its expression gives. */
  lemma {:induction false} FieldsAre(w: World, fields: seq<(string, Value)>, env: Env, d: nat,
                                     out: seq<(string, Value)>)
    ensures EvalFields(w, fields, env, d) == Some(out) <==>
      |out| == |fields| && forall i :: 0 <= i < |fields| ==>
        out[i].0 == fields[i].0 && Eval(w, fields[i].1, env, d) == Vals([out[i].1])
    decreases |fields|
  {
    hide Eval;
    if fields != [] && out != [] {
      FieldsAre(w, fields[1..], env, d, out[1..]);
      assert out == [out[0]] + out[1..];
      assert out[0] == (out[0].0, out[0].1);
      assert forall i :: 0 < i < |fields| ==> fields[i] == fields[1..][i - 1];
      assert forall i :: 0 < i < |out| ==> out[i] == out[1..][i - 1];
    }
  }

  lemma TupleIs(w: World, fields: seq<(string, Value)>, env: Env, d: nat, out: seq<(string, Value)>)
    requires d <= 20
    ensures Eval(w, Tuple(fields), env, d) == Vals([Tuple(out)]) <==>
      |out| == |fields| && forall i :: 0 <= i < |fields| ==>
        out[i].0 == fields[i].0 && Eval(w, fields[i].1, env, d + 1) == Vals([out[i].1])
    ensures Eval(w, Tuple(fields), env, d) != Thrown ==> exists o :: Eval(w, Tuple(fields), env, d) == Vals([Tuple(o)])
  {
    TupleUnfolds(w, fields, env, d);
    FieldsAre(w, fields, env, d + 1, out);
  }

  lemma TupleUnfolds(w: World, fields: seq<(string, Value)>, env: Env, d: nat)
    requires d <= 20
    ensures Eval(w, Tuple(fields), env, d) ==
      match EvalFields(w, fields, env, d + 1) { case None => Thrown case Some(fs) => Vals([Tuple(fs)]) }
  {
    hide EvalFields;
  }

  // ---- if ----

  const FALSY: set<Value> := {Undefined, Null, Bool(false), Num(0), Str("")}

  /**
   * A condition with one value chooses: the first branch if it counts as true,
   * and the second if not. A missing branch is undefined, and without any the
   * result is empty.
   */
  lemma IfChooses(w: World, c: Value, branches: seq<Value>, env: Env, d: nat, v: Value)
    requires d <= 20 && Eval(w, c, env, d + 1) == Vals([v])
    ensures var r := Eval(w, Call("if", [c] + branches), env, d);
      && (v !in FALSY && branches != [] ==> r == Eval(w, branches[0], env, d + 1))
      && (v !in FALSY && branches == [] ==> r == Vals([Undefined]))
      && (v in FALSY && |branches| >= 2 ==> r == Eval(w, branches[1], env, d + 1))
      && (v in FALSY && |branches| == 1 ==> r == Vals([Undefined]))
      && (v in FALSY && branches == [] ==> r == Vals([]))
  {
    IfUnfolds(w, [c] + branches, env, d);
    var items := [Str("if")] + ([c] + branches);
    assert items[1] == c && forall i :: 0 <= i < |branches| ==> items[i + 2] == branches[i];
  }

  lemma IfUnfolds(w: World, args: seq<Value>, env: Env, d: nat)
    requires d <= 20
    ensures Eval(w, Call("if", args), env, d) == EvalIf(w, [Str("if")] + args, env, d + 1)
  {
    hide EvalIf;
  }

  /** Any other condition is an error. */
  lemma IfNeedsOne(w: World, c: Value, branches: seq<Value>, env: Env, d: nat)
    requires d <= 20 && forall v :: Eval(w, c, env, d + 1) != Vals([v])
    ensures Eval(w, Call("if", [c] + branches), env, d) == Thrown
  {
    IfUnfolds(w, [c] + branches, env, d);
    NotSingle(Eval(w, c, env, d + 1));
  }

  lemma NotSingle(r: Result)
    ensures Single(r).None? <==> forall v :: r != Vals([v])
  {
    if Single(r).Some? {
      assert r == Vals([r.vs[0]]);
    }
  }

  // ---- let ----

  /** One binding: the body is evaluated with the name bound to what the expression gives. */
  lemma LetOne(w: World, name: string, x: Value, body: seq<Value>, env: Env, d: nat)
    requires d <= 20 && !Eval(w, x, env, d + 1).Thrown?
    ensures Eval(w, Let([Str(name), x], body), env, d) == EvalAll(w, body, env[name := Eval(w, x, env, d + 1)], d + 1)
  {
    hide Eval;
    LetIs(w, [Str(name), x], body, env, d);
    BindOne(w, Str(name), x, [], env, d + 1);
  }

  lemma BindOne(w: World, name: Value, x: Value, rest: seq<Value>, env: Env, d: nat)
    ensures EvalBindings(w, [name, x] + rest, env, d) ==
      if Eval(w, x, env, d).Thrown? then None
      else EvalBindings(w, rest, if name.Str? then env[name.s := Eval(w, x, env, d)] else env, d)
    ensures rest == [] ==> [name, x] + rest == [name, x]
    ensures EvalBindings(w, [], env, d) == Some(env)
    ensures rest == [] && !Eval(w, x, env, d).Thrown? ==>
      EvalBindings(w, [name, x], env, d) == Some(if name.Str? then env[name.s := Eval(w, x, env, d)] else env)
  {
    hide Eval;
    assert ([name, x] + rest)[2..] == rest;
    if rest == [] {
      assert [name, x] + rest == [name, x];
      assert EvalBindings(w, rest, if name.Str? then env[name.s := Eval(w, x, env, d)] else env, d) ==
             Some(if name.Str? then env[name.s := Eval(w, x, env, d)] else env);
    }
  }

  /** A name without arguments gives what it is bound to, and applied to keys what is found under them. */
  lemma NameIs(w: World, name: string, keys: seq<Value>, env: Env, d: nat)
    requires name in env && name !in w.builtins && name !in SPECIAL && d <= 20
    requires EvalAll(w, keys, env, d + 1).Vals?
    ensures var vs, r := EvalAll(w, keys, env, d + 1).vs, Eval(w, Call(name, keys), env, d);
      && (vs == [] ==> r == env[name])
      && (forall v :: vs != [] && env[name] == Vals([v]) ==> r == Index(w, v, vs))
      && (vs != [] && (forall v :: env[name] != Vals([v])) ==> r == Thrown)
  {
    hide EvalAll;
    assert Call(name, keys).items[1..] == keys;
    var b := env[name];
    if b.Vals? && |b.vs| == 1 {
      assert b == Vals([b.vs[0]]);
    }
  }

  /** Indexing by one key, and by several. */
  lemma IndexIs(w: World, v: Value, k: Value, more: seq<Value>)
    ensures Index(w, v, []) == Vals([v])
    ensures v == Null ==> Index(w, v, [k] + more) == NoSuchKey
    ensures v != Null && !v.List? && !v.Tuple? ==> Index(w, v, [k] + more) == Thrown
    ensures (v.List? || v.Tuple?) && w.property(v, k).None? ==> Index(w, v, [k] + more) == NoSuchKey
    ensures (v.List? || v.Tuple?) && w.property(v, k).Some? ==>
      Index(w, v, [k] + more) == Index(w, w.property(v, k).value, more)
  {
    assert ([k] + more)[1..] == more;
  }

  // ---- map ----

  /** A `let` for each value, with the same body. */
  function Lets(name: string, body: seq<Value>, vals: seq<Value>): (ls: seq<Value>)
    ensures |ls| == |vals|
    ensures forall i :: 0 <= i < |vals| ==> ls[i] == Let([Str(name), Call("quote", [vals[i]])], body)
  {
    if vals == [] then [] else [Let([Str(name), Call("quote", [vals[0]])], body)] + Lets(name, body, vals[1..])
  }

  lemma MapUnfolds(w: World, name: string, body: seq<Value>, list: seq<Value>, env: Env, d: nat)
    requires d <= 20
    ensures var r := Eval(w, Call("map", [List([Str(name)] + body)] + list), env, d);
      var vals := EvalAll(w, list, env, d + 1);
      r == if vals.Thrown? then Thrown else EvalEach(w, Str(name), body, vals.vs, env, d + 1)
  {
    hide EvalAll, EvalEach;
    var parts := [Str(name)] + body;
    var items := [Str("map")] + ([List(parts)] + list);
    assert items[2..] == list && items[1] == List(parts) && parts[1..] == body;
    assert Eval(w, List(items), env, d) == EvalMap(w, items, env, d + 1);
  }

  /** The body of a `map` is evaluated once for each value, in order: the `map` is that many `let`s. */
  lemma {:induction false} EachIsLets(w: World, name: string, body: seq<Value>, vals: seq<Value>, env: Env, d: nat)
    requires d < 20
    ensures EvalEach(w, Str(name), body, vals, env, d + 1) == EvalAll(w, Lets(name, body, vals), env, d)
    decreases |vals|
  {
    hide Eval;
    if vals != [] {
      var x := Call("quote", [vals[0]]);
      QuoteIs(w, [vals[0]], env, d + 1);
      LetOne(w, name, x, body, env, d);
      EachIsLets(w, name, body, vals[1..], env, d);
      assert Lets(name, body, vals)[1..] == Lets(name, body, vals[1..]);
    }
  }

  lemma MapIsLets(w: World, name: string, body: seq<Value>, list: seq<Value>, env: Env, d: nat)
    requires d < 20
    ensures var r := Eval(w, Call("map", [List([Str(name)] + body)] + list), env, d);
      var vals := EvalAll(w, list, env, d + 1);
      r == if vals.Thrown? then Thrown else EvalAll(w, Lets(name, body, vals.vs), env, d)
  {
    hide Eval, EvalAll, EvalEach;
    MapUnfolds(w, name, body, list, env, d);
    if EvalAll(w, list, env, d + 1).Vals? {
      EachIsLets(w, name, body, EvalAll(w, list, env, d + 1).vs, env, d);
    }
  }

  // ---- Calls ----

  /** Each parameter with its value, quoted; a parameter without a value is undefined. */
  function Binds(params: seq<string>, vals: seq<Value>): (bs: seq<Value>)
    ensures |bs| == 2 * |params|
  {
    if params == [] then []
    else
      [Str(params[0]), Call("quote", [if vals == [] then Undefined else vals[0]])]
      + Binds(params[1..], if vals == [] then [] else vals[1..])
  }

  lemma {:induction false} BindsLast(params: seq<string>, vals: seq<Value>)
    requires params != []
    ensures var n := |params| - 1;
      Binds(params, vals) == Binds(params[..n], vals) + [Str(params[n]), Call("quote", [At(vals, n)])]
    decreases |params|
  {
    var n := |params| - 1;
    if n > 0 {
      BindsLast(params[1..], if vals == [] then [] else vals[1..]);
      assert params[1..][..n - 1] == params[..n][1..];
    }
  }

  lemma {:induction false} BindsAreArguments(w: World, params: seq<string>, vals: seq<Value>, d: nat)
    requires d <= 20
    ensures EvalBindings(w, Binds(params, vals), map[], d) == Some(Arguments(params, vals))
    decreases |params|
  {
    hide Eval;
    if params == [] {
      BindOne(w, Null, Null, [], map[], d);
    } else {
      var n := |params| - 1;
      var last := [Str(params[n]), Call("quote", [At(vals, n)])];
      BindsLast(params, vals);
      BindsAreArguments(w, params[..n], vals, d);
      var inner := Arguments(params[..n], vals);
      BindingsSplit(w, Binds(params[..n], vals), last, map[], d);
      QuoteIs(w, [At(vals, n)], inner, d);
      BindOne(w, last[0], last[1], [], inner, d);
    }
  }

  /** A call is a `let` of the parameters to the argument values, made where nothing else is bound. */
  lemma CallIsLet(w: World, name: string, args: seq<Value>, env: Env, d: nat)
    requires NamesFunction(w, name) && name !in env && d < 20
    requires EvalAll(w, args, env, d + 1).Vals?
    ensures var f, vals := w.functions[name], EvalAll(w, args, env, d + 1).vs;
      Eval(w, Call(name, args), env, d) == Eval(w, Let(Binds(f.params, vals), f.body), map[], d)
  {
    var f, vals := w.functions[name], EvalAll(w, args, env, d + 1).vs;
    CallUnfolds(w, name, args, env, d);
    BindsAreArguments(w, f.params, vals, d + 1);
    LetIs(w, Binds(f.params, vals), f.body, map[], d);
  }

  lemma CallUnfolds(w: World, name: string, args: seq<Value>, env: Env, d: nat)
    requires NamesFunction(w, name) && name !in env && d <= 20 && EvalAll(w, args, env, d + 1).Vals?
    ensures var f, vals := w.functions[name], EvalAll(w, args, env, d + 1).vs;
      Eval(w, Call(name, args), env, d) == EvalAll(w, f.body, Arguments(f.params, vals), d + 1)
  {
    hide EvalAll, Arguments;
    assert Call(name, args).items[1..] == args;
  }

  /** Builtins come first; a permission that is nothing else is put in front of its arguments; the rest is an error. */
  lemma AppliedIs(w: World, name: string, args: seq<Value>, env: Env, d: nat)
    requires name !in SPECIAL && d <= 20
    ensures var vals, r := EvalAll(w, args, env, d + 1), Eval(w, Call(name, args), env, d);
      && (vals.Thrown? ==> r == Thrown)
      && (vals.Vals? && name in w.builtins ==> r == w.builtins[name](vals.vs))
      && (vals.Vals? && name !in w.builtins && name !in env && name !in w.functions ==>
            r == if name in w.permissions then Vals([List([Str(name)] + vals.vs)]) else Thrown)
  {
    hide EvalAll;
    assert Call(name, args).items[1..] == args;
  }

  // ---- Strings and other values where a list belongs ----

  /** `chars` are the characters of `s`. */
  predicate Spells(s: string, chars: seq<Value>) {
    |chars| == |s| && forall i :: 0 <= i < |s| ==> chars[i] == Str([s[i]])
  }

  lemma {:induction false} CharactersSpell(s: string, chars: seq<Value>)
    ensures chars == Characters(s) <==> Spells(s, chars)
    decreases s
  {
    if s != "" {
      assert s[..1] == [s[0]];
      if chars != [] {
        CharactersSpell(s[1..], chars[1..]);
        assert chars == [chars[0]] + chars[1..];
        if Spells(s, chars) {
          assert forall i :: 0 <= i < |s[1..]| ==> s[1..][i] == s[i + 1];
        }
        if Spells(s[1..], chars[1..]) && chars[0] == Str([s[0]]) {
          assert forall i :: 0 < i < |s| ==> s[i] == s[1..][i - 1] && chars[i] == chars[1..][i - 1];
        }
      }
    }
  }

  lemma LetUnfolds(w: World, b: Value, body: seq<Value>, env: Env, d: nat)
    requires d <= 20
    ensures Eval(w, Call("let", [b] + body), env, d) ==
      match BindingsOf(b) { case None => Thrown case Some(bind) => Eval(w, Let(bind, body), env, d) }
  {
    hide EvalBindings, EvalAll;
    var items := [Str("let")] + ([b] + body);
    assert items[2..] == body && items[1] == b;
    assert Eval(w, List(items), env, d) == EvalLet(w, items, env, d + 1);
    if BindingsOf(b).Some? {
      LetIs(w, BindingsOf(b).value, body, env, d);
    }
  }

  /**
   * A string is taken for the list of its characters, null is an error, and
   * anything else without a length binds nothing.
   */
  lemma LetOfOther(w: World, b: Value, body: seq<Value>, env: Env, d: nat)
    requires d <= 20
    ensures var r := Eval(w, Call("let", [b] + body), env, d);
      && (b in {Undefined, Null} ==> r == Thrown)
      && (forall s, chars :: b == Str(s) && Spells(s, chars) ==> r == Eval(w, Let(chars, body), env, d))
      && (b.Bool? || b.Num? ==> r == Eval(w, Let([], body), env, d))
      && (b.Tuple? && (forall f :: f in b.fields ==> f.0 != "length") ==> r == Eval(w, Let([], body), env, d))
  {
    hide Eval;
    LetUnfolds(w, b, body, env, d);
    if b.Str? {
      forall chars | Spells(b.s, chars) ensures chars == Characters(b.s) {
        CharactersSpell(b.s, chars);
      }
    }
  }

  /** So is the first part of a `map`, which must be a list or a string. */
  lemma MapOfOther(w: World, b: Value, list: seq<Value>, env: Env, d: nat)
    requires d <= 20
    ensures var r := Eval(w, Call("map", [b] + list), env, d);
      && (forall s, chars :: b == Str(s) && Spells(s, chars) ==>
            r == Eval(w, Call("map", [List(chars)] + list), env, d))
      && (!b.List? && !b.Str? ==> r == Thrown)
  {
    MapTakes(w, b, list, env, d);
    if b.Str? {
      forall chars | Spells(b.s, chars) ensures chars == Characters(b.s) {
        CharactersSpell(b.s, chars);
      }
      MapTakes(w, List(Characters(b.s)), list, env, d);
    }
  }

  lemma MapTakes(w: World, b: Value, list: seq<Value>, env: Env, d: nat)
    requires d <= 20
    ensures var r, vals := Eval(w, Call("map", [b] + list), env, d), EvalAll(w, list, env, d + 1);
      match Iterated(b)
      case None => r == Thrown
      case Some(parts) =>
        r == if vals.Thrown? then Thrown
             else EvalEach(w, At(parts, 0), if parts == [] then [] else parts[1..], vals.vs, env, d + 1)
  {
    hide EvalAll, EvalEach;
    var items := [Str("map")] + ([b] + list);
    assert items[2..] == list && items[1] == b;
    assert Eval(w, List(items), env, d) == EvalMap(w, items, env, d + 1);
  }
}
