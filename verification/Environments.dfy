/** Environments as objects: slots of shared cells, an outer link, and an environment of temporaries. */
module Environments {
  import opened Values
  import opened Store
  import opened Sharing

  class Environment {
    var outer: Environment?
    var temp: Environment?
    var data: seq<Value>

    constructor (outer: Environment?)
      ensures this.outer == outer && temp == null && data == []
    {
      this.outer, temp, data := outer, null, [];
    }

    /** Returns the offset of the new slot. */
    method PushValue(value: Value) returns (offset: Off)
      modifies this
      ensures data == old(data) + [value] && offset == Off(0, |old(data)|)
      ensures outer == old(outer) && temp == old(temp)
    {
      data := data + [value];
      offset := Off(0, |data| - 1);
    }

    /** Walks outwards while the depth counts down; null where the source's assertions fail. */
    method GetValue(offset: Off, ghost envs: set<Environment>) returns (v: Value?)
      requires this in envs && Closed(envs)
      ensures v == SlotAt(this, offset, envs)
    {
      if offset.hops == 0 {
        return if offset.idx < |data| then data[offset.idx] else null;
      }
      var depth := offset.hops;
      var env: Environment? := outer;
      while env != null && depth != 1
        invariant 1 <= depth <= offset.hops && (env != null ==> env in envs)
        invariant Hop(this, offset.hops, envs) == if env == null then null else Hop(env, depth - 1, envs)
        decreases depth
      {
        depth := depth - 1;
        env := env.outer;
      }
      v := if env != null && offset.idx < |env.data| then env.data[offset.idx] else null;
    }

    // ----- activation -----

    /** New cells with the same contents as the old ones. */
    method CloneCells(ghost mem: Memory) returns (cells: seq<Value>)
      requires mem.Valid() && Holds(data, mem)
      modifies mem, mem.objects
      ensures mem.Valid() && mem.objects == old(mem.objects) && old(mem.values) <= mem.values
      ensures fresh(mem.values - old(mem.values)) && NewRow(cells, mem.values - old(mem.values), mem)
      ensures |cells| == |data|
      ensures forall i :: 0 <= i < |cells| ==>
                cells[i].Observed() == old(data[i].Observed()) && cells[i].isConst == data[i].isConst
      ensures forall v :: v in old(mem.values) ==> v.Observed() == old(v.Observed())
    {
      hide Memory.Valid, Value.Observed;
      cells := [];
      for i := 0 to |data|
        invariant mem.Valid() && mem.objects == old(mem.objects) && old(mem.values) <= mem.values
        invariant fresh(mem.values - old(mem.values)) && NewRow(cells, mem.values - old(mem.values), mem)
        invariant |cells| == i && Holds(data, mem)
        invariant forall k :: 0 <= k < i ==>
                    cells[k].Observed() == old(data[k].Observed()) && cells[k].isConst == data[k].isConst
        invariant forall v :: v in old(mem.values) ==> v.Observed() == old(v.Observed())
      {
        var c := data[i].Clone(mem);
        cells := cells + [c];
      }
    }

    /** Clones the slots and the temporaries. */
    method CloneAll(ghost mem: Memory) returns (cells: seq<Value>, temps: seq<Value>)
      requires mem.Valid() && Holds(data, mem) && (temp != null ==> Holds(temp.data, mem))
      modifies mem, mem.objects
      ensures mem.Valid() && mem.objects == old(mem.objects) && old(mem.values) <= mem.values
      ensures fresh(mem.values - old(mem.values)) && NewRow(cells + temps, mem.values - old(mem.values), mem)
      ensures |cells| == |data| && |cells + temps| == |Cells()|
      ensures forall i :: 0 <= i < |data| ==> cells[i].isConst == data[i].isConst
      ensures forall i :: 0 <= i < |Cells()| ==> (cells + temps)[i].Observed() == old(Cells()[i].Observed())
      ensures forall v :: v in old(mem.values) ==> v.Observed() == old(v.Observed())
    {
      hide Memory.Valid, Value.Observed;
      cells := CloneCells(mem);
      temps := [];
      ghost var between := mem.values;
      assert forall i :: 0 <= i < |cells| ==> cells[i].Observed() == old(data[i].Observed());
      if temp != null {
        label L:
        temps := temp.CloneCells(mem);
        assert forall v :: v in between ==> v.Observed() == old@L(v.Observed());
        assert forall i :: 0 <= i < |cells| ==> cells[i] in between;
        assert forall i :: 0 <= i < |temps| ==> temps[i].Observed() == old(temp.data[i].Observed());
      }
    }

    /** `activate`: a clone with the same slots and temporaries, and with the given outer environment if
        there is one. */
    method Activate(outer: Environment?, ghost mem: Memory) returns (env: Environment)
      requires mem.Valid() && Holds(data, mem) && (temp != null ==> Holds(temp.data, mem))
      modifies mem, mem.objects
      ensures mem.Valid() && mem.objects == old(mem.objects) && old(mem.values) <= mem.values
      ensures fresh(mem.values - old(mem.values)) && fresh(env)
              && (temp != null ==> env.temp != null && fresh(env.temp))
      ensures env.outer == (if outer != null then outer else this.outer) && (temp == null ==> env.temp == null)
      ensures NewRow(env.Cells(), mem.values - old(mem.values), mem)
      ensures |env.data| == |data| && |env.Cells()| == |Cells()|
      ensures forall i :: 0 <= i < |data| ==> env.data[i].isConst == data[i].isConst
      ensures forall i :: 0 <= i < |Cells()| ==> env.Cells()[i].Observed() == old(Cells()[i].Observed())
      ensures forall v :: v in old(mem.values) ==> v.Observed() == old(v.Observed())
    {
      hide Memory.Valid, Row, NewRow, Value.Observed;
      var cells, temps := CloneAll(mem);
      env := new Environment(this.outer);
      env.data := cells;
      if temp != null {
        env.temp := new Environment(temp.outer);
        env.temp.data := temps;
      }
      if outer != null {
        env.outer := outer;
      }
      assert env.Cells() == cells + temps;
    }

    /** The cells of the slots, then those of the temporaries. */
    ghost function Cells(): seq<Value>
      reads this, temp
    {
      data + (if temp == null then [] else temp.data)
    }
  }

  /** Outer links stay inside the set. */
  ghost predicate Closed(envs: set<Environment>)
    reads envs
  {
    forall e :: e in envs && e.outer != null ==> e.outer in envs
  }

  /** Following outer links; null when there are not enough of them. */
  ghost function Hop(e: Environment, hops: nat, envs: set<Environment>): (r: Environment?)
    requires e in envs && Closed(envs)
    reads envs
    ensures r != null ==> r in envs
    decreases hops
  {
    if hops == 0 then e else if e.outer == null then null else Hop(e.outer, hops - 1, envs)
  }

  ghost function SlotAt(e: Environment, offset: Off, envs: set<Environment>): Value?
    requires e in envs && Closed(envs)
    reads envs
  {
    var at := Hop(e, offset.hops, envs);
    if at != null && offset.idx < |at.data| then at.data[offset.idx] else null
  }

  ghost predicate Holds(cells: seq<Value>, mem: Memory)
    reads mem
  {
    forall i :: 0 <= i < |cells| ==> cells[i] in mem.values
  }

  /** Different cells, all of them among the given ones. */
  ghost predicate NewRow(cells: seq<Value>, among: set<Value>, mem: Memory)
    reads mem
  {
    Row(cells, mem) && forall i :: 0 <= i < |cells| ==> cells[i] in among
  }

  /** Frames are isolated: after two activations of one blueprint, a write of any kind to a slot or temporary of
      the first shows in that cell alone, not in the blueprint nor in the second, whatever objects they share. */
  method WriteAfterActivation(blueprint: Environment, i: nat, how: Write, ghost v: Val, mem: Memory)
      returns (a: Environment, b: Environment)
    requires mem.Valid() && Holds(blueprint.Cells(), mem) && i < |blueprint.Cells()| && Source(how, v, mem)
    modifies mem, mem.objects, mem.values
    ensures |a.Cells()| == |b.Cells()| == |blueprint.Cells()| && a.outer == b.outer == blueprint.outer
    ensures forall k :: 0 <= k < |blueprint.Cells()| ==>
      && blueprint.Cells()[k].Observed() == old(blueprint.Cells()[k].Observed())
      && b.Cells()[k].Observed() == old(blueprint.Cells()[k].Observed())
      && a.Cells()[k].Observed() == if k == i then v else old(blueprint.Cells()[k].Observed())
  {
    hide Memory.Valid, Value.Observed, Row;
    a, b := ActivateTwice(blueprint, mem);
    OnlyOne(a.Cells(), i, mem);
    var c := if i < |a.data| then a.data[i] else a.temp.data[i - |a.data|];
    assert c == a.Cells()[i];
    label written:
    WriteCell(c, how, v, mem);
    assert a.Cells() == old@written(a.Cells()) && b.Cells() == old@written(b.Cells());
  }

  lemma OnlyOne(cells: seq<Value>, i: nat, mem: Memory)
    requires Row(cells, mem) && i < |cells|
    ensures forall k :: 0 <= k < |cells| ==> cells[k] in mem.values && (k == i <==> cells[k] == cells[i])
  {
  }

  /** Both show the blueprint's values, in cells that belong to neither of the others. */
  method ActivateTwice(blueprint: Environment, mem: Memory) returns (a: Environment, b: Environment)
    requires mem.Valid() && Holds(blueprint.Cells(), mem)
    modifies mem, mem.objects
    ensures mem.Valid() && mem.objects == old(mem.objects) && old(mem.values) <= mem.values
    ensures fresh(a) && fresh(b) && (a.temp != null ==> fresh(a.temp)) && (b.temp != null ==> fresh(b.temp))
    ensures |a.Cells()| == |b.Cells()| == |blueprint.Cells()| && a.outer == b.outer == blueprint.outer
    ensures Row(a.Cells(), mem) && Holds(b.Cells(), mem)
    ensures forall k :: 0 <= k < |a.Cells()| ==> fresh(a.Cells()[k]) && a.Cells()[k] !in b.Cells()
    ensures forall k :: 0 <= k < |blueprint.Cells()| ==>
      && b.Cells()[k].Observed() == old(blueprint.Cells()[k].Observed())
      && a.Cells()[k].Observed() == old(blueprint.Cells()[k].Observed())
    ensures forall c :: c in old(mem.values) ==> c.Observed() == old(c.Observed())
  {
    hide Memory.Valid, Value.Observed;
    HoldsParts(blueprint, mem);
    a := blueprint.Activate(null, mem);
    label first:
    assert forall k :: 0 <= k < |a.Cells()| ==> a.Cells()[k] in mem.values;
    b := blueprint.Activate(null, mem);
    assert a.Cells() == old@first(a.Cells());
  }

  lemma HoldsParts(e: Environment, mem: Memory)
    requires Holds(e.Cells(), mem)
    ensures Holds(e.data, mem) && (e.temp != null ==> Holds(e.temp.data, mem))
  {
    forall i | 0 <= i < |e.data| ensures e.data[i] in mem.values {
      assert e.data[i] == e.Cells()[i];
    }
    if e.temp != null {
      forall i | 0 <= i < |e.temp.data| ensures e.temp.data[i] in mem.values {
        assert e.temp.data[i] == e.Cells()[|e.data| + i];
      }
    }
  }
}
