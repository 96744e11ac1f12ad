/** `Context`: a string-keyed store whose lookups fall back to a parent context. */
module Contexts {
  import opened Options

  /** `Map.prototype.get`: a missing key reads as `undefined`. */
  function MapGet<V>(vars: map<string, Nullable<V>>, key: string): Nullable<V> {
    if key in vars then vars[key] else Undefined
  }

  /** `key` has a usable binding in `vars`: present and neither `null` nor `undefined`. */
  predicate Binds<V>(vars: map<string, Nullable<V>>, key: string) {
    MapGet(vars, key).Val?
  }

  /** Reference lookup over a chain of stores, nearest first: the first usable binding wins. */
  function FirstBinding<V>(chain: seq<map<string, Nullable<V>>>, key: string): Option<V> {
    if chain == [] then None
    else if Binds(chain[0], key) then Some(MapGet(chain[0], key).value)
    else FirstBinding(chain[1..], key)
  }

  /** `FirstBinding` finds `v` exactly when some store binds it and no nearer store binds the key. */
  lemma {:induction false} FirstBindingFound<V>(chain: seq<map<string, Nullable<V>>>, key: string, v: V)
    ensures FirstBinding(chain, key) == Some(v) <==>
              exists i :: 0 <= i < |chain| && MapGet(chain[i], key) == Val(v) &&
                          forall j :: 0 <= j < i ==> !Binds(chain[j], key)
  {
    if chain != [] && !Binds(chain[0], key) {
      var t := chain[1..];
      FirstBindingFound(t, key, v);
      if FirstBinding(chain, key) == Some(v) {
        var i :| 0 <= i < |t| && MapGet(t[i], key) == Val(v) &&
                 forall j :: 0 <= j < i ==> !Binds(t[j], key);
        assert MapGet(chain[i + 1], key) == Val(v);
        forall j | 0 <= j < i + 1 ensures !Binds(chain[j], key) {
          if j > 0 { assert chain[j] == t[j - 1]; }
        }
      }
      if exists i :: 0 <= i < |chain| && MapGet(chain[i], key) == Val(v) &&
                     forall j :: 0 <= j < i ==> !Binds(chain[j], key) {
        var i :| 0 <= i < |chain| && MapGet(chain[i], key) == Val(v) &&
                 forall j :: 0 <= j < i ==> !Binds(chain[j], key);
        assert i > 0 && MapGet(t[i - 1], key) == Val(v);
        forall j | 0 <= j < i - 1 ensures !Binds(t[j], key) {
          assert t[j] == chain[j + 1];
        }
      }
    }
  }

  /** `FirstBinding` finds nothing exactly when no store binds the key. */
  lemma {:induction false} FirstBindingMissing<V>(chain: seq<map<string, Nullable<V>>>, key: string)
    ensures FirstBinding(chain, key) == None <==> forall i :: 0 <= i < |chain| ==> !Binds(chain[i], key)
  {
    if chain != [] && !Binds(chain[0], key) {
      var t := chain[1..];
      FirstBindingMissing(t, key);
      if forall i :: 0 <= i < |t| ==> !Binds(t[i], key) {
        forall i | 0 <= i < |chain| ensures !Binds(chain[i], key) {
          if i > 0 { assert chain[i] == t[i - 1]; }
        }
      }
    }
  }

  class Context<V> {
    const parent: Option<Context<V>>
    var vars: map<string, Nullable<V>>
    /** The parent chain above this context. */
    ghost const Ancestors: set<Context<V>>
    ghost const depth: nat

    /** The parent chain is finite and acyclic. */
    ghost predicate Valid()
      decreases depth
    {
      match parent
      case None => Ancestors == {}
      case Some(p) =>
        p.depth < depth && Ancestors == {p} + p.Ancestors && this !in Ancestors && p.Valid()
    }

    constructor (parent: Option<Context<V>>)
      requires parent.Some? ==> parent.value.Valid()
      ensures Valid() && this.parent == parent && vars == map[]
    {
      this.parent := parent;
      vars := map[];
      match parent {
        case None =>
          Ancestors := {};
          depth := 0;
        case Some(p) =>
          Ancestors := {p} + p.Ancestors;
          depth := p.depth + 1;
      }
    }

    /** The stores consulted by a lookup, this context's first. */
    ghost function Chain(): (c: seq<map<string, Nullable<V>>>)
      requires Valid()
      reads this, Ancestors
      decreases depth
      ensures c != [] && c[0] == vars
    {
      match parent
      case None => [vars]
      case Some(p) => [vars] + p.Chain()
    }

    /** `get`: the own binding unless it is missing, `null` or `undefined`; then the parent's. */
    function Get(key: string): (r: Option<V>)
      requires Valid()
      reads this, Ancestors
      decreases depth
      ensures r == FirstBinding(Chain(), key)
      ensures Binds(vars, key) ==> r == Some(vars[key].value)
      ensures !Binds(vars, key) && parent.None? ==> r == None
    {
      var own := FromNullable(MapGet(vars, key));
      if own.NonEmpty() then own
      else match parent
        case None => None
        case Some(p) => p.Get(key)
    }

    /** `set`: rebinds `key` in this context only. */
    method Set(key: string, value: Nullable<V>)
      requires Valid()
      modifies this
      ensures vars == old(vars)[key := value]
      ensures Valid()
      ensures value.Val? ==> Get(key) == Some(value.value)
      ensures forall k :: k != key ==> Get(k) == old(Get(k))
      ensures parent.Some? ==> forall k :: parent.value.Get(k) == old(parent.value.Get(k))
    {
      vars := vars[key := value];
    }
  }

  /** A binding in the child shadows the parent's binding of the same key. */
  method Shadowing<V>(parent: Context<V>, key: string, outer: V, inner: V) returns (child: Context<V>)
    requires parent.Valid()
    modifies parent
    ensures child.Valid() && child.parent == Some(parent)
    ensures parent.Get(key) == Some(outer) && child.Get(key) == Some(inner)
  {
    parent.Set(key, Val(outer));
    child := new Context(Some(parent));
    child.Set(key, Val(inner));
  }

  /** A `null` stored in the child falls through to the parent. */
  method NullFallsThrough<V>(parent: Context<V>, key: string, outer: V) returns (child: Context<V>)
    requires parent.Valid()
    modifies parent
    ensures child.Valid() && child.Get(key) == Some(outer)
  {
    parent.Set(key, Val(outer));
    child := new Context(Some(parent));
    child.Set(key, Null);
  }
}
