/**
 * Scopes (Ermis/scope.py).  A scope created with a parent takes the parent's
 * very dictionary, so every scope of a run reads and writes one shared store:
 * the namespace is flat.  `Define` and `Lookup` are what `insert` and `find`
 * do to the store's contents; the classes are the objects and their sharing.
 */
module Scope {
  import opened Errors
  import opened Values

  /** `insert` on the contents `m`: a name already present is refused. */
  function Define(m: Env, name: string, v: Value): (r: Result<Env>)
    ensures r.Err? <==> name in m
    ensures r.Err? ==> r.error == AlreadyDefined(name)
    ensures r.Ok? ==> (name in r.value && r.value[name] == v
      && r.value.Keys == m.Keys + {name}
      && forall k :: k in m ==> r.value[k] == m[k])
  {
    if name in m then Err(AlreadyDefined(name)) else Ok(m[name := v])
  }

  /** `find` on the contents `m`: an absent name and a name bound to `None` are both
      undefined. */
  function Lookup(m: Env, name: string): (r: Result<Value>)
    ensures r.Ok? <==> name in m && m[name] != NoneV
    ensures r.Ok? ==> r.value == m[name]
    ensures r.Err? ==> r.error == UndefinedVariable(name)
  {
    if name !in m || m[name] == NoneV then Err(UndefinedVariable(name)) else Ok(m[name])
  }

  /** A name can be defined once only. */
  lemma DefineOnce(m: Env, name: string, v: Value, w: Value)
    requires Define(m, name, v).Ok?
    ensures Define(Define(m, name, v).value, name, w) == Err(AlreadyDefined(name))
  {
  }

  /** What is defined can be found again, unless it is `None`. */
  lemma DefineThenLookup(m: Env, name: string, v: Value)
    requires Define(m, name, v).Ok?
    ensures Lookup(Define(m, name, v).value, name) == (if v == NoneV then Err(UndefinedVariable(name)) else Ok(v))
  {
  }

  /** Defining one name does not change what any other name finds. */
  lemma DefineKeepsOthers(m: Env, name: string, v: Value, other: string)
    requires Define(m, name, v).Ok? && other != name
    ensures Lookup(Define(m, name, v).value, other) == Lookup(m, other)
  {
  }

  /** A name bound to `None` is stuck: it can neither be found nor defined again. */
  lemma NoneBindingIsStuck(m: Env, name: string)
    requires name in m && m[name] == NoneV
    ensures Lookup(m, name).Err? && forall v :: Define(m, name, v).Err?
  {
  }

  /** The dictionary object scopes share. */
  class Store {
    var bindings: Env

    constructor ()
      ensures bindings == map[]
    {
      bindings := map[];
    }
  }

  class LocalScope {
    const data: Store
    const name: string
    const enclosing: LocalScope?
    /** Number of scopes above this one. */
    ghost const depth: nat

    /** Each scope shares its parent's store, all the way up to a root scope. */
    ghost predicate Chain()
      decreases depth
    {
      && (enclosing == null <==> depth == 0)
      && (enclosing != null ==> enclosing.depth < depth && data == enclosing.data && enclosing.Chain())
    }

    /** The root scope of the chain. */
    ghost function Root(): (r: LocalScope)
      requires Chain()
      ensures r.enclosing == null
      decreases depth
    {
      if enclosing == null then this else enclosing.Root()
    }

    /** A scope with a parent aliases the parent's store; only a root scope gets a fresh,
        empty one. */
    constructor (name: string, enclosing: LocalScope?)
      requires enclosing != null ==> enclosing.Chain()
      ensures this.name == name && this.enclosing == enclosing && Chain()
      ensures enclosing != null ==> data == enclosing.data && Root() == enclosing.Root()
      ensures enclosing == null ==> fresh(data) && data.bindings == map[]
    {
      this.name := name;
      this.enclosing := enclosing;
      if enclosing == null {
        data := new Store();
        depth := 0;
      } else {
        data := enclosing.data;
        depth := enclosing.depth + 1;
      }
    }

    /** `insert`: a name already present is refused and the store is left unchanged;
        otherwise exactly that binding is added. */
    method Insert(key: string, v: Value) returns (r: Result<()>)
      modifies data
      ensures var d := Define(old(data.bindings), key, v);
        && (d.Ok? ==> r == Ok(()) && data.bindings == d.value)
        && (d.Err? ==> r == Err(d.error) && data.bindings == old(data.bindings))
    {
      if key in data.bindings {
        return Err(AlreadyDefined(key));
      }
      data.bindings := data.bindings[key := v];
      r := Ok(());
    }

    /** `find`: never changes the store. */
    method Find(key: string) returns (r: Result<Value>)
      ensures r == Lookup(data.bindings, key)
    {
      if key !in data.bindings || data.bindings[key] == NoneV {
        return Err(UndefinedVariable(key));
      }
      r := Ok(data.bindings[key]);
    }
  }

  /** Scopes of one chain share one store: what is inserted through either of two scopes
      with the same root is found through the other. */
  lemma SameRootSameStore(a: LocalScope, b: LocalScope)
    requires a.Chain() && b.Chain() && a.Root() == b.Root()
    ensures a.data == b.data
  {
    SharesRootStore(a);
    SharesRootStore(b);
  }

  /** Every scope of a chain uses its root's store. */
  lemma {:induction false} SharesRootStore(sc: LocalScope)
    requires sc.Chain()
    ensures sc.data == sc.Root().data
    decreases sc.depth
  {
    if sc.enclosing != null {
      SharesRootStore(sc.enclosing);
    }
  }
}
