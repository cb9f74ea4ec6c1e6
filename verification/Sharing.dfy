/** Copy-on-write values: cells share reference-counted objects and update them in place only when nobody
    else can see them.

    `Memory` is a proof device without run-time content: it collects all cells and objects so that the
    invariant can relate every object's count to the cells that point at it. */
module Sharing {
  import opened Values

  /** A heap object.  The count starts at 1 for the cell that will hold it; at 0 the object is deleted. */
  class Object {
    var refs: nat
    var payload: Val
    var alive: bool
    ghost var users: set<Value>

    constructor (payload: Val, ghost user: Value)
      ensures refs == 1 && alive && this.payload == payload && users == {user}
    {
      this.payload := payload;
      refs, alive := 1, true;
      users := {user};
    }

    method AddRef(ghost user: Value)
      requires refs == |users| && user !in users
      modifies this
      ensures refs == |users| && users == old(users) + {user} && alive == old(alive) && payload == old(payload)
    {
      refs := refs + 1;
      users := users + {user};
    }

    method DelRef(ghost user: Value)
      requires refs == |users| && user in users && alive
      modifies this
      ensures refs == |users| && users == old(users) - {user} && alive == (refs > 0) && payload == old(payload)
    {
      refs := refs - 1;
      users := users - {user};
      if refs == 0 {
        alive := false;
      }
    }
  }

  /** All cells and objects. */
  class Memory {
    ghost var values: set<Value>
    ghost var objects: set<Object>

    constructor ()
      ensures Valid() && values == {} && objects == {}
    {
      values, objects := {}, {};
    }

    /** Counts are exact, an object is deleted exactly when nothing points at it, and no cell dangles. */
    ghost predicate Valid()
      reads this, values, objects
    {
      && (forall v :: v in values ==>
            && (v.isNull <==> v.data == null)
            && (v.data != null ==> v.data in objects && v in v.data.users && v.data.alive && !v.data.payload.Null?))
      && (forall o :: o in objects ==>
            && o.refs == |o.users| && (o.alive <==> o.refs > 0)
            && forall u :: u in o.users ==> u in values && u.data == o)
    }
  }

  /** The objects whose clone operation makes a copy; for all others it answers that there is none. */
  predicate Simple(v: Val) { v.Int? || v.Bool? }

  /** Payloads of one type can replace each other in place. */
  predicate SameType(a: Val, b: Val) { (a.Int? && b.Int?) || (a.Bool? && b.Bool?) }

  /** A cell: a type and a pointer, both absent for null.  The type is the payload's constructor. */
  class Value {
    var isNull: bool
    var data: Object?
    var isConst: bool

    constructor ()
      ensures isNull && data == null && !isConst
    {
      isNull, data, isConst := true, null, false;
    }

    /** What a program sees in the cell. */
    ghost function Observed(): Val
      reads this, data
    {
      if data == null then Null else data.payload
    }

    /** `copy`: shares the source's object.  Copying a cell onto itself would delete its object first when
        nobody shares it. */
    method Copy(value: Value, ghost mem: Memory)
      requires mem.Valid() && this in mem.values && value in mem.values
      requires value != this || data == null || data.refs > 1
      modifies this, mem.objects
      ensures mem.Valid()
      ensures Observed() == old(value.Observed()) && isConst == old(isConst) && data == old(value.data)
      ensures forall v :: v in mem.values && v != this ==> v.Observed() == old(v.Observed())
    {
      var empty, shared := value.isNull, value.data;
      SetNull(mem);
      if !empty && shared != null {
        Share(shared, mem);
      }
    }

    /** Points an empty cell at an object that is still alive. */
    method Share(shared: Object, ghost mem: Memory)
      requires mem.Valid() && this in mem.values && isNull && shared in mem.objects && shared.alive
               && !shared.payload.Null?
      modifies this, shared
      ensures mem.Valid()
      ensures Observed() == shared.payload && shared.payload == old(shared.payload) && isConst == old(isConst)
              && data == shared
      ensures forall v :: v in mem.values && v != this ==> v.Observed() == old(v.Observed())
    {
      isNull, data := false, shared;
      shared.AddRef(this);
    }

    /** Why `Copy` needs its condition: otherwise its first half leaves the cell pointing at a deleted object. */
    method StartCopyOntoSelf(ghost mem: Memory)
      requires mem.Valid() && this in mem.values && data != null && data.refs == 1
      modifies mem.objects
      ensures !data.alive
    {
      data.DelRef(this);
    }

    /** `setObj` with a new object. */
    method SetObject(payload: Val, ghost mem: Memory)
      requires mem.Valid() && this in mem.values && !payload.Null?
      modifies this, mem, mem.objects
      ensures mem.Valid() && mem.values == old(mem.values)
      ensures old(mem.objects) <= mem.objects && fresh(mem.objects - old(mem.objects))
      ensures data != null && fresh(data)
      ensures Observed() == payload && isConst == old(isConst)
      ensures forall v :: v in mem.values && v != this ==> v.Observed() == old(v.Observed())
    {
      if data != null {
        data.DelRef(this);
      }
      isNull := false;
      data := new Object(payload, this);
      mem.objects := mem.objects + {data};
    }

    /** Nobody else sees the object: updating it in place is not observable elsewhere. */
    lemma OnlyUser(mem: Memory)
      requires mem.Valid() && this in mem.values && data != null && data.refs == 1
      ensures data.users == {this}
      ensures forall v :: v in mem.values && v != this ==> v.data != data
    {
      var rest := data.users - {this};
      assert |rest| == 0;
      assert data.users == rest + {this};
    }

    /** `setInt` and `setBool`. */
    method SetSimple(payload: Val, ghost mem: Memory)
      requires mem.Valid() && this in mem.values && Simple(payload)
      modifies this, mem, mem.objects
      ensures mem.Valid() && mem.values == old(mem.values)
      ensures old(mem.objects) <= mem.objects && fresh(mem.objects - old(mem.objects))
      ensures Observed() == payload && isConst == old(isConst)
      ensures forall v :: v in mem.values && v != this ==> v.Observed() == old(v.Observed())
      ensures data == old(data) <==>
                old(data != null && data.refs == 1
                    && ((data.payload.Int? && payload.Int?) || (data.payload.Bool? && payload.Bool?)))
    {
      if data != null && SameType(data.payload, payload) && data.refs == 1 {
        OnlyUser(mem);
        data.payload := payload;
      } else {
        SetObject(payload, mem);
      }
    }

    method SetNull(ghost mem: Memory)
      requires mem.Valid() && this in mem.values
      modifies this, mem.objects
      ensures mem.Valid() && isNull
      ensures Observed() == Null && isConst == old(isConst)
      ensures forall o :: o in mem.objects && (o != old(data) || old(o.refs) > 1) ==>
                o.alive == old(o.alive) && o.payload == old(o.payload)
      ensures forall v :: v in mem.values && v != this ==> v.Observed() == old(v.Observed())
    {
      if data != null {
        data.DelRef(this);
      }
      isNull, data := true, null;
    }

    /** Updates in place when the object is not shared and both have the same simple type; otherwise takes a
        clone of the source's object, or shares it when it has none. */
    method DeepCopy(value: Value, ghost mem: Memory)
      requires mem.Valid() && this in mem.values && value in mem.values
      requires value != this || data == null || data.refs > 1 || Simple(data.payload)
      modifies this, mem, mem.objects
      ensures mem.Valid() && mem.values == old(mem.values)
      ensures old(mem.objects) <= mem.objects && fresh(mem.objects - old(mem.objects))
      ensures Observed() == old(value.Observed()) && isConst == old(isConst)
      ensures forall v :: v in mem.values && v != this ==> v.Observed() == old(v.Observed())
      ensures old(value.data != null && !value.data.payload.Int? && !value.data.payload.Bool?)
              ==> data == old(value.data)
      ensures old(value != this && value.data != null && (value.data.payload.Int? || value.data.payload.Bool?)) ==>
                data != old(value.data)
    {
      if data != null && data.refs == 1 && value.data != null && SameType(data.payload, value.data.payload) {
        OnlyUser(mem);
        data.payload := value.data.payload;
      } else if value.data != null && Simple(value.data.payload) {
        SetObject(value.data.payload, mem);
      } else {
        Copy(value, mem);
      }
    }

    /** A new cell with the same contents and constness. */
    method Clone(ghost mem: Memory) returns (val: Value)
      requires mem.Valid() && this in mem.values
      modifies mem, mem.objects
      ensures mem.Valid() && fresh(val) && mem.values == old(mem.values) + {val} && mem.objects == old(mem.objects)
      ensures val.Observed() == old(Observed()) && val.isConst == isConst
      ensures forall v :: v in old(mem.values) ==> v.Observed() == old(v.Observed())
    {
      hide Memory.Valid;
      val := NewCell(mem);
      val.Copy(this, mem);
      val.SetConst(isConst, mem);
    }

    method SetConst(c: bool, ghost mem: Memory)
      requires mem.Valid() && this in mem.values
      modifies this`isConst
      ensures mem.Valid() && isConst == c
      ensures forall v :: v in mem.values ==> v.Observed() == old(v.Observed())
    {
      isConst := c;
    }

    /** A null cell more. */
    static method NewCell(ghost mem: Memory) returns (val: Value)
      requires mem.Valid()
      modifies mem
      ensures mem.Valid() && fresh(val) && mem.values == old(mem.values) + {val} && mem.objects == old(mem.objects)
      ensures val.isNull && val.data == null
    {
      val := new Value();
      mem.values := mem.values + {val};
    }

    /** The destructor. */
    method Destroy(ghost mem: Memory)
      requires mem.Valid() && this in mem.values
      modifies mem, mem.objects
      ensures mem.Valid() && mem.values == old(mem.values) - {this} && mem.objects == old(mem.objects)
      ensures forall v :: v in mem.values ==> v.Observed() == old(v.Observed())
    {
      if data != null {
        data.DelRef(this);
      }
      mem.values := mem.values - {this};
    }
  }

  // ----- kinds of writes -----

  /** The ways a cell is written: assignment, parameters and exceptions, the array of surplus arguments, and
      the results of operators. */
  datatype Write = DeepCopyOf(value: Value) | CopyOf(value: Value) | NewObject(payload: Val) | SetSimple(payload: Val)

  /** The source of the write shows `v`. */
  ghost predicate Source(how: Write, v: Val, mem: Memory)
    requires mem.Valid()
    reads mem, mem.values, mem.objects
  {
    match how
    case NewObject(payload) => payload == v && !v.Null?
    case SetSimple(payload) => payload == v && Simple(v)
    case DeepCopyOf(value) => value in mem.values && value.Observed() == v
    case CopyOf(value) => value in mem.values && value.Observed() == v
  }

  /** A cell is copied onto itself only where that is safe. */
  ghost predicate CanWrite(c: Value, how: Write, v: Val, mem: Memory)
    requires mem.Valid()
    reads mem, mem.values, mem.objects
  {
    && Source(how, v, mem)
    && (how.CopyOf? && how.value == c ==> c.data == null || c.data.refs > 1)
    && (how.DeepCopyOf? && how.value == c ==> c.data == null || c.data.refs > 1 || Simple(c.data.payload))
  }

  method WriteCell(c: Value, how: Write, ghost v: Val, mem: Memory)
    requires mem.Valid() && c in mem.values && CanWrite(c, how, v, mem)
    modifies c, mem, mem.objects
    ensures mem.Valid() && mem.values == old(mem.values) && fresh(mem.objects - old(mem.objects))
    ensures c.Observed() == v && c.isConst == old(c.isConst)
    ensures forall k :: k in mem.values && k != c ==> k.Observed() == old(k.Observed())
  {
    hide Memory.Valid;
    match how {
      case DeepCopyOf(value) => c.DeepCopy(value, mem);
      case CopyOf(value) => c.Copy(value, mem);
      case NewObject(payload) => c.SetObject(payload, mem);
      case SetSimple(payload) => c.SetSimple(payload, mem);
    }
  }

  // ----- runs -----

  /** Operations on a row of cells; a clone is added at the end. */
  datatype Operation =
    | CopyFrom(to: nat, source: nat)
    | DeepCopyFrom(to: nat, source: nat)
    | SetTo(to: nat, simple: Val)
    | SetFresh(to: nat, payload: Val)
    | SetToNull(to: nat)
    | CloneOf(source: nat)
    | DestroyAt(to: nat)

  predicate Allowed(op: Operation, n: nat) {
    match op
    case CopyFrom(to, source) => to < n && source < n && to != source
    case DeepCopyFrom(to, source) => to < n && source < n && to != source
    case SetTo(to, v) => to < n && Simple(v)
    case SetFresh(to, v) => to < n && !v.Null?
    case SetToNull(to) => to < n
    case CloneOf(source) => source < n
    case DestroyAt(to) => to < n
  }

  /** The same operation on independent values. */
  function Meaning(op: Operation, m: seq<Val>): seq<Val>
    requires Allowed(op, |m|)
  {
    match op
    case CopyFrom(to, source) => m[to := m[source]]
    case DeepCopyFrom(to, source) => m[to := m[source]]
    case SetTo(to, v) => m[to := v]
    case SetFresh(to, v) => m[to := v]
    case SetToNull(to) => m[to := Null]
    case CloneOf(source) => m + [m[source]]
    case DestroyAt(to) => m[..to] + m[to + 1..]
  }

  predicate AllAllowed(ops: seq<Operation>, m: seq<Val>) {
    ops == [] || (Allowed(ops[0], |m|) && AllAllowed(ops[1..], Meaning(ops[0], m)))
  }

  function MeaningAll(ops: seq<Operation>, m: seq<Val>): seq<Val>
    requires AllAllowed(ops, m)
  {
    if ops == [] then m else MeaningAll(ops[1..], Meaning(ops[0], m))
  }

  /** A row of different cells of the memory. */
  ghost predicate Row(cells: seq<Value>, mem: Memory)
    reads mem
  {
    && (forall i :: 0 <= i < |cells| ==> cells[i] in mem.values)
    && forall i, j :: 0 <= i < j < |cells| ==> cells[i] != cells[j]
  }

  ghost predicate Shows(cells: seq<Value>, m: seq<Val>)
    reads set i | 0 <= i < |cells| :: cells[i]
    reads set i | 0 <= i < |cells| && cells[i].data != null :: cells[i].data
  {
    |m| == |cells| && forall i :: 0 <= i < |cells| ==> cells[i].Observed() == m[i]
  }

  /** An operation that writes one cell. */
  method Assign(op: Operation, cells: seq<Value>, ghost m: seq<Val>, mem: Memory)
    requires mem.Valid() && Row(cells, mem) && Shows(cells, m) && Allowed(op, |cells|) && !op.CloneOf? && !op.DestroyAt?
    modifies mem, mem.values, mem.objects
    ensures mem.Valid() && Row(cells, mem) && Shows(cells, Meaning(op, m))
    ensures mem.values == old(mem.values) && fresh(mem.objects - old(mem.objects))
  {
    match op
    case CopyFrom(to, source) => cells[to].Copy(cells[source], mem);
    case DeepCopyFrom(to, source) => cells[to].DeepCopy(cells[source], mem);
    case SetTo(to, v) => cells[to].SetSimple(v, mem);
    case SetFresh(to, v) => cells[to].SetObject(v, mem);
    case SetToNull(to) => cells[to].SetNull(mem);
  }

  method Perform(op: Operation, cells: seq<Value>, ghost m: seq<Val>, mem: Memory) returns (r: seq<Value>)
    requires mem.Valid() && Row(cells, mem) && Shows(cells, m) && Allowed(op, |cells|)
    modifies mem, mem.values, mem.objects
    ensures mem.Valid() && Row(r, mem) && Shows(r, Meaning(op, m))
    ensures fresh(mem.values - old(mem.values)) && fresh(mem.objects - old(mem.objects))
  {
    r := cells;
    if op.CloneOf? {
      var c := cells[op.source].Clone(mem);
      r := cells + [c];
    } else if op.DestroyAt? {
      cells[op.to].Destroy(mem);
      r := cells[..op.to] + cells[op.to + 1..];
    } else {
      Assign(op, cells, m, mem);
    }
  }

  /** Any sequence of operations shows exactly what it would on independent values, and leaves all counts
      exact. */
  method PerformAll(ops: seq<Operation>, cells: seq<Value>, ghost m: seq<Val>, mem: Memory) returns (r: seq<Value>)
    requires mem.Valid() && Row(cells, mem) && Shows(cells, m) && AllAllowed(ops, m)
    modifies mem, mem.values, mem.objects
    ensures mem.Valid() && Row(r, mem) && Shows(r, MeaningAll(ops, m))
  {
    r := cells;
    ghost var now := m;
    for i := 0 to |ops|
      invariant mem.Valid() && Row(r, mem) && Shows(r, now)
      invariant AllAllowed(ops[i..], now) && MeaningAll(ops[i..], now) == MeaningAll(ops, m)
      invariant fresh(mem.values - old(mem.values)) && fresh(mem.objects - old(mem.objects))
    {
      r := Perform(ops[i], r, now, mem);
      assert ops[i..][1..] == ops[i + 1..];
      now := Meaning(ops[i], now);
    }
  }
}
