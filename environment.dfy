/**
 * Lexical scopes (pylox/environment.py): a mutable name-to-value map with an
 * optional enclosing scope. The class is generic in the value type so that it
 * depends on tokens only, as the source does.
 *
 * The enclosing scope is fixed at construction (the source never reassigns
 * `_enclosing`), so it is a `const`; the ghost constants `ancestors` (every
 * scope outward of this one) and `depth` give the chain walk its footprint and
 * its termination measure.
 */
module Environments {
  import opened Wrappers
  import opened Tokens

  /** The error both `get` and `_assign` raise for a name no scope binds. */
  datatype Undefined = Undefined(token: Token, message: string)

  /** What `get` yields: the bound value, or the error it raises. */
  datatype Lookup<V> = Found(value: V) | NotFound(error: Undefined)

  function UndefinedMessage(name: string): string {
    "Undefined variable '" + name + "'."
  }

  /**
   * The bindings of a chain of scopes, innermost first: what lookup and
   * assignment see of it. `FramesGet` and `FramesAssign` are `get` and
   * `_assign` read on these values instead of on the linked scopes.
   */
  function FramesGet<V>(fs: seq<map<string, V>>, token: Token): Lookup<V> {
    if fs == [] then NotFound(Undefined(token, UndefinedMessage(token.lexeme)))
    else if token.lexeme in fs[0] then Found(fs[0][token.lexeme])
    else FramesGet(fs[1..], token)
  }

  /** Whether some scope of the chain binds `name`. */
  predicate FramesBind<V>(fs: seq<map<string, V>>, name: string) {
    fs != [] && (name in fs[0] || FramesBind(fs[1..], name))
  }

  /** The chain after `_assign`: the nearest scope binding `name` rebinds it; with none, nothing changes. */
  function FramesAssign<V>(fs: seq<map<string, V>>, name: string, value: V): (r: seq<map<string, V>>)
    ensures |r| == |fs|
  {
    if fs == [] then []
    else if name in fs[0] then [fs[0][name := value]] + fs[1..]
    else [fs[0]] + FramesAssign(fs[1..], name, value)
  }

  /** The chain after `define`: the innermost scope binds `name`, the outer ones are as they were. */
  function FramesDefine<V>(fs: seq<map<string, V>>, name: string, value: V): (r: seq<map<string, V>>)
    requires fs != []
    ensures |r| == |fs| && r[1..] == fs[1..]
  {
    [fs[0][name := value]] + fs[1..]
  }

  /** A lookup succeeds exactly when some scope of the chain binds the name. */
  lemma {:induction false} FramesGetBind<V>(fs: seq<map<string, V>>, token: Token)
    ensures FramesGet(fs, token).Found? <==> FramesBind(fs, token.lexeme)
  {
    if fs != [] && token.lexeme !in fs[0] {
      FramesGetBind(fs[1..], token);
    }
  }

  /**
   * After an assignment to a bound name, lookup yields the assigned value,
   * and every name bound before is bound still.
   */
  lemma {:induction false} FramesAssignGet<V>(fs: seq<map<string, V>>, token: Token, value: V, other: Token)
    requires FramesBind(fs, token.lexeme)
    ensures FramesGet(FramesAssign(fs, token.lexeme, value), token) == Found(value)
    ensures other.lexeme != token.lexeme ==>
              FramesGet(FramesAssign(fs, token.lexeme, value), other) == FramesGet(fs, other)
  {
    var r := FramesAssign(fs, token.lexeme, value);
    assert r[1..] == (if token.lexeme in fs[0] then fs[1..] else FramesAssign(fs[1..], token.lexeme, value));
    if token.lexeme !in fs[0] {
      FramesAssignGet(fs[1..], token, value, other);
    }
  }

  /** Assigning a name no scope binds changes nothing. */
  lemma {:induction false} FramesAssignUnbound<V>(fs: seq<map<string, V>>, name: string, value: V)
    requires !FramesBind(fs, name)
    ensures FramesAssign(fs, name, value) == fs
  {
    if fs != [] {
      FramesAssignUnbound(fs[1..], name, value);
    }
  }

  /** After `define`, lookup of that name finds the new value in the innermost scope, and other names are found as before. */
  lemma FramesDefineGet<V>(fs: seq<map<string, V>>, token: Token, value: V, other: Token)
    requires fs != []
    ensures FramesGet(FramesDefine(fs, token.lexeme, value), token) == Found(value)
    ensures other.lexeme != token.lexeme ==>
              FramesGet(FramesDefine(fs, token.lexeme, value), other) == FramesGet(fs, other)
  {
    var r := FramesDefine(fs, token.lexeme, value);
    assert r[1..] == fs[1..];
  }

  class Environment<V> {
    const enclosing: Environment?<V>
    ghost const ancestors: set<Environment<V>>
    ghost const depth: nat
    var values: map<string, V>

    /** The chain is finite and acyclic: every outer scope is strictly shallower. */
    ghost predicate Valid()
      decreases depth
    {
      && (enclosing == null ==> ancestors == {})
      && (enclosing != null ==>
            && enclosing.depth < depth
            && ancestors == {enclosing} + enclosing.ancestors
            && enclosing.Valid())
      && (forall a | a in ancestors :: a.depth < depth)
    }

    /** This scope and every scope outward of it. */
    ghost function Chain(): set<Environment<V>> {
      {this} + ancestors
    }

    /** The bindings of this scope and then of each enclosing one, innermost first. */
    ghost function Frames(): seq<map<string, V>>
      requires Valid()
      reads Chain()
      decreases depth, 1
    {
      [values] + Outer()
    }

    /** The bindings of the enclosing scopes, innermost first. */
    ghost function Outer(): seq<map<string, V>>
      requires Valid()
      reads ancestors
      decreases depth, 0
    {
      if enclosing == null then [] else enclosing.Frames()
    }

    /** A chain none of whose scopes changed its bindings has the same frames. */
    twostate lemma FramesKept()
      requires Valid() && forall a | a in Chain() :: a.values == old(a.values)
      ensures Frames() == old(Frames())
      decreases depth
    {
      if enclosing != null {
        enclosing.FramesKept();
      }
    }

    constructor (enclosing: Environment?<V>)
      requires enclosing != null ==> enclosing.Valid()
      ensures Valid()
      ensures this.enclosing == enclosing && values == map[]
      ensures ancestors == if enclosing == null then {} else enclosing.Chain()
    {
      this.enclosing := enclosing;
      if enclosing == null {
        ancestors := {};
        depth := 0;
      } else {
        ancestors := {enclosing} + enclosing.ancestors;
        depth := enclosing.depth + 1;
      }
      values := map[];
    }

    /**
     * The nearest scope in the chain that binds `name`: every scope closer to
     * this one (deeper) lacks it; `None` exactly when no scope binds it.
     */
    ghost function Resolve(name: string): (r: Option<Environment<V>>)
      requires Valid()
      reads Chain()
      ensures r.Some? ==> r.value in Chain() && r.value.Valid() && name in r.value.values
      ensures r.Some? ==> forall a | a in Chain() && a.depth > r.value.depth :: name !in a.values
      ensures r.None? <==> forall a | a in Chain() :: name !in a.values
      decreases depth
    {
      if name in values then Some(this)
      else if enclosing == null then None
      else enclosing.Resolve(name)
    }

    /** `define`: bind `name` in this scope only, overwriting any binding it had. */
    method Define(name: string, value: V)
      requires Valid()
      modifies this`values
      ensures values == old(values)[name := value]
      ensures forall a | a in ancestors :: a.values == old(a.values)
      ensures Frames() == FramesDefine(old(Frames()), name, value)
    {
      values := values[name := value];
    }

    /**
     * `get`: the value in the nearest scope that binds the token's lexeme, or
     * the "Undefined variable" error when no scope in the chain does.
     */
    function Get(token: Token): (r: Lookup<V>)
      requires Valid()
      reads Chain()
      ensures match Resolve(token.lexeme)
              case Some(e) => r == Found(e.values[token.lexeme])
              case None => r == NotFound(Undefined(token, UndefinedMessage(token.lexeme)))
      decreases depth
    {
      if token.lexeme in values then Found(values[token.lexeme])
      else if enclosing != null then enclosing.Get(token)
      else NotFound(Undefined(token, UndefinedMessage(token.lexeme)))
    }

    /** `get` agrees with the lookup on the chain's bindings. */
    lemma {:induction false} GetFrames(token: Token)
      requires Valid()
      ensures Get(token) == FramesGet(Frames(), token)
      decreases depth
    {
      var fs := Frames();
      assert fs[1..] == Outer();
      if token.lexeme !in values && enclosing != null {
        enclosing.GetFrames(token);
      }
    }

    /**
     * `_assign`: overwrite the binding in the nearest scope that has one,
     * leaving every other scope of the chain as it was; with no binding
     * anywhere it fails and binds nothing (assignment never defines).
     */
    method Assign(token: Token, value: V) returns (err: Option<Undefined>)
      requires Valid()
      modifies Chain()
      ensures old(Resolve(token.lexeme)).Some? ==>
                && err == None
                && var t := old(Resolve(token.lexeme)).value;
                && t.values == old(t.values)[token.lexeme := value]
                && (forall a | a in Chain() && a != t :: a.values == old(a.values))
      ensures old(Resolve(token.lexeme)).None? ==>
                && err == Some(Undefined(token, UndefinedMessage(token.lexeme)))
                && (forall a | a in Chain() :: a.values == old(a.values))
      ensures err == None ==> Get(token) == Found(value)
      ensures err == None <==> old(FramesBind(Frames(), token.lexeme))
      ensures Frames() == old(FramesAssign(Frames(), token.lexeme, value))
      decreases depth
    {
      if token.lexeme in values {
        values := values[token.lexeme := value];
        return None;
      }
      if enclosing != null {
        err := enclosing.Assign(token, value);
        return;
      }
      return Some(Undefined(token, UndefinedMessage(token.lexeme)));
    }
  }
}
