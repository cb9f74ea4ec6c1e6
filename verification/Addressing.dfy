/** Static addresses at run time.

    The store of a running program grows by activations of the environments that name resolution made.  `of`
    says which of those each environment of the store is an instance of; a resolved address then leads, from
    any of them and after any amount of execution, to an instance of the environment of the declaration. */
module Addressing {
  import opened Values
  import opened Store
  import opened Ast
  import opened Semantics
  import opened Isolation
  import opened Environments
  import opened Scopes
  import opened SharedStore

  /** An environment of the store has the slots of the static one it is an instance of, and its outer link leads
      to an instance of that one's outer environment. */
  ghost predicate InstanceAt(of: seq<Environment>, h: Heap, i: nat, envs: set<Environment>)
    requires i < |h| && i < |of|
    reads envs
  {
    && of[i] in envs
    && |of[i].data| <= |h[i].cells|
    && match h[i].outer
       case None => of[i].outer == null
       case Some(j) => j < |of| && of[i].outer == of[j]
  }

  ghost predicate Mirrors(of: seq<Environment>, h: Heap, envs: set<Environment>)
    reads envs
  {
    |of| == |h| && forall i :: 0 <= i < |h| ==> InstanceAt(of, h, i, envs)
  }

  /** At the start the store is the resolver's environments themselves. */
  lemma LoadedMirrors(s: SharedHeap, h: Heap)
    requires s.Valid() && s.Shows(h)
    ensures Closed(s.All()) && Mirrors(s.envs, h, s.All())
  {
    s.AllClosed();
    forall i | 0 <= i < |h| ensures InstanceAt(s.envs, h, i, s.All()) {
      assert s.ShowsEnv(h[i], i) && s.Linked(i);
    }
  }

  // ----- addresses -----

  /** Following outer links at run time follows the static ones. */
  lemma {:induction false} WalkMirrors(of: seq<Environment>, h: Heap, env: nat, hops: nat, envs: set<Environment>)
    requires Closed(envs) && Mirrors(of, h, envs) && env < |h|
    ensures InstanceAt(of, h, env, envs)
    ensures match Walk(h, env, hops)
            case None => Hop(of[env], hops, envs) == null
            case Some(j) => j < |h| && Hop(of[env], hops, envs) == of[j]
    decreases hops
  {
    assert InstanceAt(of, h, env, envs);
    if hops > 0 && h[env].outer.Some? {
      WalkMirrors(of, h, h[env].outer.value, hops - 1, envs);
    }
  }

  /** An address that leads to a symbol's slot statically leads to that slot of an instance of the symbol's own
      environment at run time. */
  lemma AddressMirrors(of: seq<Environment>, h: Heap, env: nat, x: Off, sym: Symbol, tree: Tree)
    requires tree.Valid() && Mirrors(of, h, tree.envs) && env < |h| && of[env] in tree.envs
    requires Addresses(of[env], x, sym, tree)
    ensures Locate(h, env, x).Some?
    ensures var at := Locate(h, env, x).value;
            && at.0 < |of| && of[at.0] == sym.scope.environment && at.1 == sym.index
            && tree.owners[of[at.0]][at.1] == sym
  {
    WalkMirrors(of, h, env, x.hops, tree.envs);
    var j := Walk(h, env, x.hops).value;
    assert InstanceAt(of, h, j, tree.envs);
  }

  // ----- what execution does to the store -----

  lemma WriteMirrors(of: seq<Environment>, h: Heap, env: nat, x: Off, v: Val, envs: set<Environment>)
    requires Mirrors(of, h, envs) && WriteVar(h, env, x, v).Some?
    ensures Mirrors(of, WriteVar(h, env, x, v).value, envs)
  {
    var h' := WriteVar(h, env, x, v).value;
    forall i | 0 <= i < |h'| ensures InstanceAt(of, h', i, envs) {
      assert InstanceAt(of, h, i, envs);
    }
  }

  /** A call adds an instance of the callee's own environment. */
  lemma ActivateMirrors(of: seq<Environment>, h: Heap, f: Header, args: seq<Val>, envs: set<Environment>)
    requires Mirrors(of, h, envs) && Activate(h, f, args).Some?
    ensures Mirrors(of + [of[f.env]], Activate(h, f, args).value, envs)
  {
    var of', h' := of + [of[f.env]], Activate(h, f, args).value;
    forall i | 0 <= i < |h'| ensures InstanceAt(of', h', i, envs) {
      assert InstanceAt(of, h, if i < |h| then i else f.env, envs);
    }
  }

  /** Identifiers in a function's body, resolved from its own scope, find their declarations in every activation. */
  lemma CallAddress(of: seq<Environment>, h: Heap, f: Header, args: seq<Val>, x: Off, sym: Symbol, tree: Tree)
    requires tree.Valid() && Mirrors(of, h, tree.envs) && Activate(h, f, args).Some? && of[f.env] in tree.envs
    requires Addresses(of[f.env], x, sym, tree)
    ensures var at := Locate(Activate(h, f, args).value, |h|, x);
            at.Some? && at.value.0 <= |of| && at.value.1 == sym.index
            && (of + [of[f.env]])[at.value.0] == sym.scope.environment
  {
    ActivateMirrors(of, h, f, args, tree.envs);
    AddressMirrors(of + [of[f.env]], Activate(h, f, args).value, |h|, x, sym, tree);
  }

  /** The functions' environments are there from the start. */
  predicate Linked(g: seq<FunDef>, h: Heap) {
    forall f :: 0 <= f < |g| ==> g[f].header.env < |h|
  }

  /** Whatever code does to a store that mirrors the static environments, the result mirrors them too, and what
      was an instance of an environment still is. */
  lemma {:induction false} FollowsMirrors(g: seq<FunDef>, h: Heap, h': Heap, kept: set<nat>, of: seq<Environment>,
                                          envs: set<Environment>, n: nat) returns (of': seq<Environment>)
    requires Mirrors(of, h, envs) && Follows(g, h, h', kept) && Linked(g, h) && |h| <= n <= |h'|
    ensures |of'| == n && of <= of' && forall i :: 0 <= i < n ==> InstanceAt(of', h', i, envs)
    decreases n
  {
    if n == |h| {
      of' := of;
      forall i | 0 <= i < n ensures InstanceAt(of', h', i, envs) {
        assert InstanceAt(of, h, i, envs) && SameShape(h[i], h'[i]);
      }
    } else {
      var shorter := FollowsMirrors(g, h, h', kept, of, envs, n - 1);
      assert FromBlueprint(g, h', n - 1);
      var f :| 0 <= f < |g| && g[f].header.env < |h'| && SameShape(h'[g[f].header.env], h'[n - 1]);
      var b := g[f].header.env;
      of' := shorter + [of[b]];
      assert InstanceAt(of, h, b, envs) && SameShape(h[b], h'[b]);
      forall i | 0 <= i < n ensures InstanceAt(of', h', i, envs) {
        if i < n - 1 {
          assert InstanceAt(shorter, h', i, envs);
        }
      }
    }
  }

  /** Executing any statement keeps the store a mirror of the static environments. */
  lemma ExecMirrors(g: seq<FunDef>, fuel: nat, s: Stmt, h: Heap, env: nat, of: seq<Environment>, envs: set<Environment>)
      returns (of': seq<Environment>)
    requires Mirrors(of, h, envs) && Linked(g, h)
    ensures var o := Exec(g, fuel, s, h, env);
            After(o).Some? ==> of <= of' && Mirrors(of', After(o).value, envs)
  {
    hide Exec, Follows, InstanceAt;
    of' := of;
    ExecIsolated(g, fuel, s, h, env, {});
    var o := Exec(g, fuel, s, h, env);
    if After(o).Some? {
      LongerStore(g, h, After(o).value);
      of' := FollowsMirrors(g, h, After(o).value, {}, of, envs, |After(o).value|);
    }
  }

  lemma LongerStore(g: seq<FunDef>, h: Heap, h': Heap)
    requires Follows(g, h, h', {})
    ensures |h| <= |h'|
  {
  }

  /** A resolved identifier denotes a cell of its own declaration, in every environment of the store, after any
      execution. */
  lemma AddressAfterExec(g: seq<FunDef>, fuel: nat, s: Stmt, h: Heap, env: nat, of: seq<Environment>, tree: Tree)
      returns (of': seq<Environment>)
    requires tree.Valid() && Mirrors(of, h, tree.envs) && Linked(g, h) && After(Exec(g, fuel, s, h, env)).Some?
    ensures var h' := After(Exec(g, fuel, s, h, env)).value;
            && of <= of' && Mirrors(of', h', tree.envs)
            && forall e: nat, x: Off, sym: Symbol | e < |h'| && of'[e] in tree.envs
               && Addresses(of'[e], x, sym, tree) ::
                 && Locate(h', e, x).Some? && Locate(h', e, x).value.1 == sym.index
                 && of'[Locate(h', e, x).value.0] == sym.scope.environment
  {
    hide Exec, Addresses, InstanceAt, Locate;
    of' := ExecMirrors(g, fuel, s, h, env, of, tree.envs);
    var h' := After(Exec(g, fuel, s, h, env)).value;
    forall e: nat, x: Off, sym: Symbol | e < |h'| && of'[e] in tree.envs && Addresses(of'[e], x, sym, tree)
      ensures Locate(h', e, x).Some? && Locate(h', e, x).value.1 == sym.index
      ensures of'[Locate(h', e, x).value.0] == sym.scope.environment
    {
      AddressMirrors(of', h', e, x, sym, tree);
    }
  }

  /** The resolver's answer, at run time: an identifier resolved in a scope denotes, in every instance of the
      scope's environment, the cell that its innermost visible declaration has in an instance of its own. */
  method ResolveAt(r: Resolver, name: string, ghost of: seq<Environment>, ghost h: Heap) returns (x: Option<Off>)
    requires r.Valid() && Mirrors(of, h, r.tree.envs)
    ensures x.None? <==> Innermost(r.scope, name, r.tree) == null
    ensures x.Some? ==>
      forall env :: 0 <= env < |h| && of[env] == r.scope.environment ==>
        var at, sym := Locate(h, env, x.value), Innermost(r.scope, name, r.tree);
        at.Some? && of[at.value.0] == sym.scope.environment && at.value.1 == sym.index
  {
    hide InstanceAt, Locate;
    x := r.Resolve(name);
    if x.Some? {
      forall env | 0 <= env < |h| && of[env] == r.scope.environment
        ensures var at, sym := Locate(h, env, x.value), Innermost(r.scope, name, r.tree);
                at.Some? && at.value.0 < |of| && of[at.value.0] == sym.scope.environment && at.value.1 == sym.index
      {
        AddressMirrors(of, h, env, x.value, Innermost(r.scope, name, r.tree), r.tree);
      }
    }
  }
}
