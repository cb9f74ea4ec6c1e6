/** The store of the machine on shared cells: environments whose slots are reference-counted cells behave as
    the environments of independent values that the compiler is verified with.

    Environments are numbered in the order they are made. */
module SharedStore {
  import opened Values
  import opened Store
  import opened Sharing
  import opened Environments

  class SharedHeap {
    const mem: Memory
    var envs: seq<Environment>
    ghost var outers: seq<Option<nat>>

    constructor (mem: Memory)
      requires mem.Valid()
      ensures Valid() && envs == [] && this.mem == mem
    {
      this.mem := mem;
      envs, outers := [], [];
    }

    ghost predicate Valid()
      reads this, mem, mem.values, mem.objects, envs
    {
      mem.Valid() && Structure()
    }

    /** Every environment is linked as numbered, and every slot has a cell of its own. */
    ghost predicate Structure()
      reads this, mem, envs
    {
      && |outers| == |envs|
      && (forall i, j :: 0 <= i < j < |envs| ==> envs[i] != envs[j])
      && (forall i :: 0 <= i < |envs| ==> Linked(i) && Holds(envs[i].data, mem))
      && forall i, k, j, l | IsSlot(i, k) && IsSlot(j, l) && (i, k) != (j, l) :: envs[i].data[k] != envs[j].data[l]
    }

    ghost predicate IsSlot(i: int, k: int)
      reads this, envs
    {
      0 <= i < |envs| && 0 <= k < |envs[i].data|
    }

    ghost predicate Linked(i: nat)
      requires i < |envs| == |outers|
      reads this, envs
    {
      if outers[i].None? then envs[i].outer == null
      else outers[i].value < |envs| && envs[i].outer == envs[outers[i].value]
    }

    /** What programs see. */
    ghost predicate Shows(h: Heap)
      requires Valid()
      reads this, mem, mem.values, mem.objects, envs
    {
      && |h| == |envs|
      && forall i :: 0 <= i < |envs| ==> ShowsEnv(h[i], i)
    }

    ghost predicate ShowsEnv(e: Env, i: nat)
      requires Valid() && i < |envs|
      reads this, mem, mem.values, mem.objects, envs
    {
      && e.outer == outers[i] && |e.cells| == |envs[i].data|
      && forall k :: 0 <= k < |e.cells| ==> e.cells[k] == Cell(envs[i].data[k].Observed(), envs[i].data[k].isConst)
    }

    ghost function All(): set<Environment>
      reads this
    {
      set i | 0 <= i < |envs| :: envs[i]
    }

    lemma AllClosed()
      requires Valid()
      ensures Closed(All())
    {
      forall e | e in All() && e.outer != null ensures e.outer in All() {
        var i :| 0 <= i < |envs| && envs[i] == e;
        assert Linked(i);
      }
    }

    /** Following pointers is following numbers. */
    lemma {:induction false} HopIsWalk(h: Heap, i: nat, hops: nat)
      requires Valid() && Shows(h) && i < |envs| && Closed(All())
      ensures match Walk(h, i, hops)
              case None => Hop(envs[i], hops, All()) == null
              case Some(j) => j < |envs| && Hop(envs[i], hops, All()) == envs[j]
      decreases hops
    {
      assert ShowsEnv(h[i], i) && Linked(i);
      if hops > 0 && outers[i].Some? {
        HopIsWalk(h, outers[i].value, hops - 1);
      }
    }

    /** Fetching a variable finds the cell that the offset denotes. */
    method Find(env: nat, x: Off, ghost h: Heap) returns (v: Value?)
      requires Valid() && Shows(h) && env < |envs|
      ensures v == null <==> Locate(h, env, x).None?
      ensures match Locate(h, env, x)
              case None => v == null
              case Some(at) => v == envs[at.0].data[at.1] && CellAt(h, at) == Cell(v.Observed(), v.isConst)
    {
      AllClosed();
      HopIsWalk(h, env, x.hops);
      v := envs[env].GetValue(x, All());
      ghost var at := Locate(h, env, x);
      if at.Some? {
        assert ShowsEnv(h[at.value.0], at.value.0);
      } else {
        ghost var w := Walk(h, env, x.hops);
        if w.Some? {
          assert ShowsEnv(h[w.value], w.value);
        }
      }
    }

    /** Storing into a variable, as an assignment, an operator's result or a caught exception: the heap shows
        the store after the write. */
    method SetVariable(env: nat, x: Off, how: Write, ghost v: Val, ghost h: Heap) returns (ok: bool)
      requires Valid() && Shows(h) && env < |envs| && CanWriteAt(Locate(h, env, x), how, v)
      modifies mem, mem.values, mem.objects
      ensures Valid() && envs == old(envs) && ok == WriteVar(h, env, x, v).Some?
      ensures if ok then Shows(WriteVar(h, env, x, v).value) else Shows(h)
    {
      hide Memory.Valid, Structure, Shows, ShowsEnv, Value.Observed;
      var c := Find(env, x, h);
      ok := c != null;
      if ok {
        CellOfEnv(h, Locate(h, env, x).value);
        Overwrite(c, how, v, h, Locate(h, env, x).value);
      }
    }

    ghost predicate CanWriteAt(at: Option<(nat, nat)>, how: Write, v: Val)
      requires mem.Valid()
      reads this, mem, mem.values, mem.objects, envs
    {
      match at
      case None => true
      case Some((i, k)) => i < |envs| && k < |envs[i].data| ==> CanWrite(envs[i].data[k], how, v, mem)
    }

    lemma CellOfEnv(h: Heap, at: (nat, nat))
      requires Valid() && Shows(h) && at.0 < |h| && at.1 < |h[at.0].cells|
      ensures at.0 < |envs| && at.1 < |envs[at.0].data| && envs[at.0].data[at.1] in mem.values
    {
      assert ShowsEnv(h[at.0], at.0) && Holds(envs[at.0].data, mem);
    }

    /** Writing a cell that belongs to one slot: only that slot shows the change. */
    method Overwrite(c: Value, how: Write, ghost v: Val, ghost h: Heap, ghost at: (nat, nat))
      requires Valid() && Shows(h) && c in mem.values && CanWrite(c, how, v, mem)
      requires at.0 < |h| && at.1 < |h[at.0].cells| && at.0 < |envs| && at.1 < |envs[at.0].data|
               && envs[at.0].data[at.1] == c
      modifies c, mem, mem.objects
      ensures Valid() && Shows(SetCell(h, at, v)) && mem.values == old(mem.values)
              && fresh(mem.objects - old(mem.objects))
      ensures forall k :: k in mem.values && k != c ==> k.Observed() == old(k.Observed())
    {
      hide Memory.Valid, Value.Observed;
      WriteCell(c, how, v, mem);
      assert Structure() by {
        forall i | 0 <= i < |envs| ensures Linked(i) && Holds(envs[i].data, mem) {
          assert old(Linked(i) && Holds(envs[i].data, mem));
        }
        forall i, k, j, l | IsSlot(i, k) && IsSlot(j, l) && (i, k) != (j, l)
          ensures envs[i].data[k] != envs[j].data[l] {
          assert old(IsSlot(i, k) && IsSlot(j, l));
        }
      }
      ghost var h' := SetCell(h, at, v);
      forall i | 0 <= i < |envs| ensures ShowsEnv(h'[i], i) {
        assert old(ShowsEnv(h[i], i)) && Holds(envs[i].data, mem);
        forall k | 0 <= k < |h'[i].cells|
          ensures h'[i].cells[k] == Cell(envs[i].data[k].Observed(), envs[i].data[k].isConst)
        {
          if (i, k) != at {
            assert IsSlot(i, k) && IsSlot(at.0, at.1);
            assert envs[i].data[k] != c;
          }
        }
      }
    }

    /** A new environment for a call: the blueprint's clone at the end of the store. */
    method Activate(f: nat, ghost h: Heap) returns (env: nat)
      requires Valid() && Shows(h) && f < |envs| && envs[f].temp == null
      modifies this, mem, mem.objects
      ensures Valid() && env == |old(envs)| && old(envs) <= envs && |envs| == env + 1
      ensures Shows(h + [h[f]]) && old(mem.values) <= mem.values && mem.objects == old(mem.objects)
      ensures forall k :: 0 <= k < |envs[env].data| ==> fresh(envs[env].data[k])
      ensures forall v :: v in old(mem.values) ==> v.Observed() == old(v.Observed())
    {
      hide Memory.Valid, Value.Observed;
      env := |envs|;
      var e := Cloned(f, h);
      Adopt(e, outers[f], h, h[f]);
    }

    method Cloned(f: nat, ghost h: Heap) returns (e: Environment)
      requires Valid() && Shows(h) && f < |envs| && envs[f].temp == null
      modifies mem, mem.objects
      ensures Valid() && Shows(h) && fresh(e) && Holds(e.data, mem) && e.outer == envs[f].outer
      ensures forall k, l :: 0 <= k < l < |e.data| ==> e.data[k] != e.data[l]
      ensures old(mem.values) <= mem.values && mem.objects == old(mem.objects)
      ensures forall k :: 0 <= k < |e.data| ==> fresh(e.data[k])
      ensures forall v :: v in old(mem.values) ==> v.Observed() == old(v.Observed())
      ensures forall i, k | IsSlot(i, k) :: envs[i].data[k] !in e.data
      ensures |e.data| == |h[f].cells|
      ensures forall k :: 0 <= k < |e.data| ==> h[f].cells[k] == Cell(e.data[k].Observed(), e.data[k].isConst)
    {
      hide Memory.Valid, Value.Observed;
      e := envs[f].Activate(null, mem);
      assert e.Cells() == e.data && envs[f].Cells() == envs[f].data;
      forall i | 0 <= i < |envs| ensures Linked(i) && Holds(envs[i].data, mem) {
        assert old(Linked(i) && Holds(envs[i].data, mem));
      }
      forall i, k | IsSlot(i, k) ensures envs[i].data[k] !in e.data && envs[i].data[k] in old(mem.values) {
        assert old(Holds(envs[i].data, mem));
      }
      forall i, k, j, l | IsSlot(i, k) && IsSlot(j, l) && (i, k) != (j, l) ensures envs[i].data[k] != envs[j].data[l] {
        assert old(IsSlot(i, k) && IsSlot(j, l));
      }
      forall i | 0 <= i < |envs| ensures ShowsEnv(h[i], i) {
        assert old(ShowsEnv(h[i], i));
        assert forall k :: 0 <= k < |envs[i].data| ==> IsSlot(i, k);
      }
      assert old(ShowsEnv(h[f], f));
    }

    /** Numbers a new environment. */
    method Adopt(e: Environment, ghost outer: Option<nat>, ghost h: Heap, ghost shown: Env)
      requires Valid() && Shows(h) && e !in envs && Holds(e.data, mem)
      requires if outer.None? then e.outer == null else outer.value < |envs| && e.outer == envs[outer.value]
      requires forall k, l :: 0 <= k < l < |e.data| ==> e.data[k] != e.data[l]
      requires forall i, k | IsSlot(i, k) :: envs[i].data[k] !in e.data
      requires shown.outer == outer && |shown.cells| == |e.data|
      requires forall k :: 0 <= k < |e.data| ==> shown.cells[k] == Cell(e.data[k].Observed(), e.data[k].isConst)
      modifies this
      ensures Valid() && envs == old(envs) + [e] && Shows(h + [shown])
    {
      hide Memory.Valid, Value.Observed;
      envs := envs + [e];
      outers := outers + [outer];
      ghost var n := |envs| - 1;
      forall i | 0 <= i < |envs| ensures Linked(i) && Holds(envs[i].data, mem) {
        assert i < n ==> old(Linked(i) && Holds(envs[i].data, mem));
      }
      forall i, k, j, l | IsSlot(i, k) && IsSlot(j, l) && (i, k) != (j, l) ensures envs[i].data[k] != envs[j].data[l] {
        assert i < n ==> old(IsSlot(i, k));
        assert j < n ==> old(IsSlot(j, l));
      }
      forall i | 0 <= i < |envs| ensures ShowsEnv((h + [shown])[i], i) {
        assert i < n ==> old(ShowsEnv(h[i], i));
      }
    }

    lemma Sizes(h: Heap, i: nat)
      requires Valid() && Shows(h) && i < |envs|
      ensures |h| == |envs| && |h[i].cells| == |envs[i].data|
    {
      assert ShowsEnv(h[i], i);
    }

    /** `prepareCall`: activation, then binding the arguments by `copy` and the surplus to a new array.  The
        heap shows the store after the machine's own activation. */
    method ActivateAndBind(f: Header, args: seq<Value>, ghost vals: seq<Val>, ghost h: Heap) returns (env: nat)
      requires Valid() && Shows(h) && f.env < |envs| && envs[f.env].temp == null
      requires Holds(args, mem) && |vals| == |args| && forall i :: 0 <= i < |args| ==> args[i].Observed() == vals[i]
      requires Store.Activate(h, f, vals).Some?
      modifies this, mem, mem.objects
      ensures Valid() && env == |old(envs)| && old(envs) <= envs
      ensures Shows(Store.Activate(h, f, vals).value)
    {
      hide Memory.Valid, Value.Observed, Structure, Shows;
      ghost var o, cells := h[f.env].outer, h[f.env].cells;
      Sizes(h, f.env);
      env := Activate(f.env, h);
      BoundNone(h, f.env, vals);
      Sizes(h + [h[f.env]], env);
      var n := if |args| < f.params then |args| else f.params;
      BoundCut(cells, vals, n);
      BindFirst(env, args[..n], vals[..n], h, o, cells);
      if f.variadic {
        var surplus := Observe(args[n..], vals[n..]);
        CellOfEnv(h + [Env(o, Bound(cells, vals, n))], (env, f.params));
        Overwrite(envs[env].data[f.params], NewObject(Arr(surplus)), Arr(surplus), h + [Env(o, Bound(cells, vals, n))],
                  (env, f.params));
        SurplusBound(h, o, cells, vals, n, f.params, Arr(surplus));
      }
    }

    /** Binds arguments to the first slots of a new environment, whose cells are its own. */
    method BindFirst(env: nat, args: seq<Value>, ghost vals: seq<Val>, ghost h: Heap, ghost o: Option<nat>,
                     ghost cells: seq<Cell>)
      requires Valid() && env == |h| && |vals| == |args| <= |cells| && Shows(h + [Env(o, Bound(cells, vals, 0))])
      requires Holds(args, mem) && forall i :: 0 <= i < |args| ==> args[i].Observed() == vals[i]
      requires env < |envs| && forall k :: 0 <= k < |envs[env].data| ==> envs[env].data[k] !in args
      modifies mem, mem.objects, set k | 0 <= k < |envs[env].data| :: envs[env].data[k]
      ensures Valid() && mem.values == old(mem.values) && fresh(mem.objects - old(mem.objects))
      ensures Shows(h + [Env(o, Bound(cells, vals, |args|))])
      ensures forall v :: v in mem.values && v !in envs[env].data ==> v.Observed() == old(v.Observed())
    {
      hide Memory.Valid, Value.Observed, Structure, Shows, Bound;
      for i := 0 to |args|
        invariant Valid() && mem.values == old(mem.values) && fresh(mem.objects - old(mem.objects))
        invariant Shows(h + [Env(o, Bound(cells, vals, i))])
        invariant forall v :: v in mem.values && v !in envs[env].data ==> v.Observed() == old(v.Observed())
      {
        BoundStep(h, o, cells, vals, i);
        CellOfEnv(h + [Env(o, Bound(cells, vals, i))], (env, i));
        Overwrite(envs[env].data[i], CopyOf(args[i]), vals[i], h + [Env(o, Bound(cells, vals, i))], (env, i));
      }
    }

    /** The contents of the array of surplus arguments. */
    method Observe(args: seq<Value>, ghost vals: seq<Val>) returns (r: seq<Val>)
      requires mem.Valid() && Holds(args, mem) && |vals| == |args| && forall i :: 0 <= i < |args| ==>
                                                                        args[i].Observed() == vals[i]
      ensures r == vals
    {
      r := [];
      for i := 0 to |args|
        invariant r == vals[..i]
      {
        assert args[i] in mem.values;
        r := r + [if args[i].data == null then Null else args[i].data.payload];
      }
    }
  }

  /** The first n parameters bound. */
  function Bound(cells: seq<Cell>, vals: seq<Val>, n: nat): (r: seq<Cell>)
    requires n <= |vals| && n <= |cells|
    ensures |r| == |cells|
  {
    seq(|cells|, i requires 0 <= i < |cells| => if i < n then cells[i].(v := vals[i]) else cells[i])
  }

  lemma BoundCut(cells: seq<Cell>, vals: seq<Val>, n: nat)
    requires n <= |vals| && n <= |cells|
    ensures Bound(cells, vals[..n], n) == Bound(cells, vals, n) && Bound(cells, vals[..n], 0) == Bound(cells, vals, 0)
  {
  }

  lemma BoundNone(h: Heap, f: nat, vals: seq<Val>)
    requires f < |h|
    ensures h + [h[f]] == h + [Env(h[f].outer, Bound(h[f].cells, vals, 0))]
  {
    assert Bound(h[f].cells, vals, 0) == h[f].cells;
  }

  lemma BoundStep(h: Heap, o: Option<nat>, cells: seq<Cell>, vals: seq<Val>, n: nat)
    requires n < |vals| && n < |cells|
    ensures SetCell(h + [Env(o, Bound(cells, vals, n))], (|h|, n), vals[n]) == h + [Env(o, Bound(cells, vals, n + 1))]
  {
    assert Bound(cells, vals, n)[n := cells[n].(v := vals[n])] == Bound(cells, vals, n + 1);
  }

  lemma SurplusBound(h: Heap, o: Option<nat>, cells: seq<Cell>, vals: seq<Val>, n: nat, k: nat, a: Val)
    requires n <= |vals| && n <= |cells| && k < |cells|
    ensures SetCell(h + [Env(o, Bound(cells, vals, n))], (|h|, k), a)
            == h + [Env(o, Bound(cells, vals, n)[k := Bound(cells, vals, n)[k].(v := a)])]
  {
  }
}
