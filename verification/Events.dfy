/** The events queue: clients enqueue signals, one handler dispatches them, all under one mutex.

    Every critical section and every `connect` is one method, so an interleaving of threads is a sequence of calls.  The
    handler's own section drains the queue; callbacks are recorded, not run. */
module Events {
  import opened Values

  type Fun = nat
  type Args = seq<Val>

  datatype Signal = Signal(name: string, args: Args)

  /** A callback with the requisitions that must hold for it. */
  datatype Action = Action(needs: map<string, int>, fun: Fun)

  datatype Called = Called(fun: Fun, args: Args)

  /** A call of `set`: the first key of its map, and the arguments for the callbacks. */
  datatype SetCall = SetCall(key: string, args: Args)

  function Sets(queue: seq<Signal>): nat {
    if queue == [] then 0 else (if queue[0].name == "set" then 1 else 0) + Sets(queue[1..])
  }

  lemma {:induction false} SetsAppend(a: seq<Signal>, b: seq<Signal>)
    ensures Sets(a + b) == Sets(a) + Sets(b)
    decreases |a|
  {
    if a == [] {
      assert a + b == b;
    } else {
      assert (a + b)[1..] == a[1..] + b;
      SetsAppend(a[1..], b);
    }
  }

  /** Signals up to the first "exit", that one included. */
  function UpToExit(signals: seq<Signal>): seq<Signal> {
    if signals == [] then []
    else if signals[0].name == "exit" then [signals[0]]
    else [signals[0]] + UpToExit(signals[1..])
  }

  predicate NoExit(signals: seq<Signal>) {
    forall i :: 0 <= i < |signals| ==> signals[i].name != "exit"
  }

  lemma {:induction false} UpToExitOf(a: seq<Signal>, e: Signal, b: seq<Signal>)
    requires NoExit(a) && e.name == "exit"
    ensures UpToExit(a + [e] + b) == a + [e]
    decreases |a|
  {
    if a == [] {
      assert a + [e] + b == [e] + b;
    } else {
      assert (a + [e] + b)[1..] == a[1..] + [e] + b;
      UpToExitOf(a[1..], e, b);
    }
  }

  /** The callbacks of one signal, in the order they were connected. */
  function Calls(funs: seq<Fun>, args: Args): seq<Called> {
    seq(|funs|, i requires 0 <= i < |funs| => Called(funs[i], args))
  }

  /** Requisitions are stored as 32-bit integers. */
  function Narrow(n: int): int {
    (n + 0x8000_0000) % 0x1_0000_0000 - 0x8000_0000
  }

  /** The truncation keeps the number modulo 2^32 and gives the only such number of 32 bits. */
  lemma NarrowIs(n: int, m: int)
    ensures -0x8000_0000 <= Narrow(n) < 0x8000_0000
    ensures Narrow(n) == m <==> (-0x8000_0000 <= m < 0x8000_0000 && (n - m) % 0x1_0000_0000 == 0)
  {
  }

  /** Requisitions nobody has set are 0. */
  function Current(req: map<string, int>, key: string): int {
    if key in req then req[key] else 0
  }

  predicate Holds(needs: map<string, int>, req: map<string, int>) {
    forall k :: k in needs ==> Current(req, k) == needs[k]
  }

  function Triggered(actions: seq<Action>, req: map<string, int>, args: Args): seq<Called> {
    if actions == [] then []
    else
      var before := Triggered(actions[..|actions| - 1], req, args);
      var a := actions[|actions| - 1];
      if Holds(a.needs, req) then before + [Called(a.fun, args)] else before
  }

  /** Every requisition has the value needed, one never set the value 0. */
  predicate Met(needs: map<string, int>, req: map<string, int>) {
    forall key :: key in needs ==> needs[key] == if key in req then req[key] else 0
  }

  /** Exactly the actions all of whose requisitions hold are called, with the arguments, in their order. */
  lemma TriggeredIs(actions: seq<Action>, req: map<string, int>, args: Args, i: nat)
    requires i <= |actions|
    ensures Triggered(actions, req, args) == Triggered(actions[..i], req, args) + Triggered(actions[i..], req, args)
    ensures forall c :: c in Triggered(actions, req, args) <==>
              exists k :: 0 <= k < |actions| && c == Called(actions[k].fun, args) && Met(actions[k].needs, req)
  {
    TriggeredInOrder(actions, req, args, i);
    TriggeredMembers(actions, req, args);
  }

  lemma {:induction false} TriggeredInOrder(actions: seq<Action>, req: map<string, int>, args: Args, i: nat)
    requires i <= |actions|
    ensures Triggered(actions, req, args) == Triggered(actions[..i], req, args) + Triggered(actions[i..], req, args)
    decreases |actions|
  {
    hide Holds;
    if i == |actions| {
      assert actions[..i] == actions && actions[i..] == [];
    } else {
      var n := |actions| - 1;
      TriggeredInOrder(actions[..n], req, args, i);
      assert actions[..n][..i] == actions[..i] && actions[..n][i..] == actions[i..][..n - i];
      assert actions[i..][n - i] == actions[n];
    }
  }

  lemma {:induction false} TriggeredMembers(actions: seq<Action>, req: map<string, int>, args: Args)
    ensures forall c :: c in Triggered(actions, req, args) <==>
              exists k :: 0 <= k < |actions| && c == Called(actions[k].fun, args) && Met(actions[k].needs, req)
    decreases |actions|
  {
    if actions != [] {
      var n := |actions| - 1;
      TriggeredMembers(actions[..n], req, args);
      assert Holds(actions[n].needs, req) <==> Met(actions[n].needs, req);
      assert forall k :: 0 <= k < n ==> actions[..n][k] == actions[k];
    }
  }

  function Registered(m: map<string, map<int, seq<Action>>>, key: string, value: int): seq<Action> {
    if key in m && value in m[key] then m[key][value] else []
  }

  function Register(m: map<string, map<int, seq<Action>>>, key: string, value: int, a: Action)
    : map<string, map<int, seq<Action>>>
  {
    var sub := if key in m then m[key] else map[];
    m[key := sub[value := (if value in sub then sub[value] else []) + [a]]]
  }

  lemma RegisteredAfter(m: map<string, map<int, seq<Action>>>, key: string, value: int, a: Action)
    ensures forall k, v :: Registered(Register(m, key, value, a), k, v) ==
              Registered(m, k, v) + if k == key && v == value then [a] else []
  {
    forall k, v
      ensures Registered(Register(m, key, value, a), k, v)
              == Registered(m, k, v) + if k == key && v == value then [a] else []
    {
      assert k != key || v != value ==> Registered(m, k, v) + [] == Registered(m, k, v);
    }
  }

  class EventData {
    var eventMap: map<string, seq<Fun>>
    var requisitions: map<string, int>
    var requisitionMap: map<string, map<int, seq<Action>>>
    var eventQueue: seq<Signal>
    var setsQueue: seq<string>
    var argsQueue: seq<Args>
    var running: bool
    /** A queue was read that is empty, or a map that is: undefined behaviour in the source. */
    var broken: bool
    var log: seq<Called>

    ghost var enqueued: seq<Signal>
    ghost var dispatched: seq<Signal>
    ghost var setCalls: seq<SetCall>
    ghost var setsTaken: nat
    /** "set" signals that did not come from `set`. */
    ghost var strays: nat
    ghost var emptySets: bool

    constructor ()
      ensures Valid() && running && !broken && strays == 0 && !emptySets && enqueued == dispatched == [] && log == []
      ensures requisitions == map[] && requisitionMap == map[]
    {
      eventMap, requisitions, requisitionMap := map[], map[], map[];
      eventQueue, setsQueue, argsQueue, log := [], [], [], [];
      running, broken, emptySets := true, false, false;
      enqueued, dispatched, setCalls := [], [], [];
      setsTaken, strays := 0, 0;
    }

    /** Whenever the mutex is free: signals are dispatched in the order they were enqueued, up to the first
        "exit"; and the side queues hold, in order, the calls of `set` that have not been taken. */
    ghost predicate Valid()
      reads this
    {
      InOrder() && Paired()
    }

    ghost predicate InOrder()
      reads this
    {
      && dispatched + eventQueue == enqueued
      && (if running then NoExit(dispatched)
          else
            var last := |dispatched| - 1;
            dispatched != [] && NoExit(dispatched[..last]) && dispatched[last].name == "exit")
    }

    ghost predicate Paired()
      reads this
    {
      && |setsQueue| == |argsQueue|
      && setsTaken + |setsQueue| == |setCalls|
      && (forall i :: 0 <= i < |setsQueue| ==> setCalls[setsTaken + i] == SetCall(setsQueue[i], argsQueue[i]))
      && (if broken then strays > 0 || emptySets else Sets(eventQueue) == |setsQueue| + strays && !emptySets)
    }

    method Enqueue(s: Signal)
      modifies this`eventQueue, this`enqueued
      ensures eventQueue == old(eventQueue) + [s] && enqueued == old(enqueued) + [s]
    {
      eventQueue := eventQueue + [s];
      enqueued := enqueued + [s];
    }

    method Emit(name: string, args: Args)
      requires Valid()
      modifies this`eventQueue, this`enqueued, this`strays
      ensures Valid() && enqueued == old(enqueued) + [Signal(name, args)]
      ensures strays == old(strays) + if name == "set" then 1 else 0
    {
      SetsAppend(eventQueue, [Signal(name, args)]);
      assert dispatched + (eventQueue + [Signal(name, args)]) == enqueued + [Signal(name, args)];
      Enqueue(Signal(name, args));
      strays := strays + if name == "set" then 1 else 0;
    }

    method Finalize()
      requires Valid()
      modifies this`eventQueue, this`enqueued, this`strays
      ensures Valid() && enqueued == old(enqueued) + [Signal("exit", [])] && strays == old(strays)
    {
      Emit("exit", []);
    }

    /** `set` with the entries of its map in key order. */
    method SetRequisitions(entries: seq<(string, int)>, args: Args)
      requires Valid()
      modifies this`requisitions, this`eventQueue, this`setsQueue, this`argsQueue, this`enqueued, this`setCalls,
          this`broken, this`emptySets
      ensures Valid() && enqueued == old(enqueued) + [Signal("set", [])]
      ensures emptySets == (old(emptySets) || entries == [])
      ensures entries != [] ==> setCalls == old(setCalls) + [SetCall(entries[0].0, args)] && broken == old(broken)
      ensures forall k :: Current(requisitions, k) == LastEntry(entries, k, Current(old(requisitions), k))
    {
      hide LastEntry, Current;
      UpdateRequisitions(entries);
      EnqueueSet(entries, args);
    }

    method UpdateRequisitions(entries: seq<(string, int)>)
      modifies this`requisitions
      ensures forall k :: Current(requisitions, k) == LastEntry(entries, k, Current(old(requisitions), k))
    {
      hide Narrow;
      for i := 0 to |entries|
        invariant forall k :: Current(requisitions, k) == LastEntry(entries[..i], k, Current(old(requisitions), k))
      {
        requisitions := requisitions[entries[i].0 := Narrow(entries[i].1)];
        assert entries[..i + 1][..i] == entries[..i];
      }
      assert entries[..|entries|] == entries;
    }

    /** The signal, and what goes to the side queues with it. */
    method EnqueueSet(entries: seq<(string, int)>, args: Args)
      requires Valid()
      modifies this`eventQueue, this`setsQueue, this`argsQueue, this`enqueued, this`setCalls, this`broken,
          this`emptySets
      ensures Valid() && enqueued == old(enqueued) + [Signal("set", [])]
      ensures emptySets == (old(emptySets) || entries == [])
      ensures entries != [] ==> setCalls == old(setCalls) + [SetCall(entries[0].0, args)] && broken == old(broken)
    {
      hide NoExit;
      SetsAppend(eventQueue, [Signal("set", [])]);
      assert dispatched + (eventQueue + [Signal("set", [])]) == enqueued + [Signal("set", [])];
      Enqueue(Signal("set", []));
      if entries == [] {
        broken := true;
        emptySets := true;
      } else {
        setsQueue := setsQueue + [entries[0].0];
        argsQueue := argsQueue + [args];
        setCalls := setCalls + [SetCall(entries[0].0, args)];
      }
    }

    method Connect(name: string, f: Fun)
      requires Valid()
      modifies this`eventMap
      ensures Valid()
      ensures eventMap == old(eventMap)[name := (if name in old(eventMap) then old(eventMap)[name] else []) + [f]]
    {
      eventMap := eventMap[name := (if name in eventMap then eventMap[name] else []) + [f]];
    }

    /** Registers an action under every requisition it needs. */
    method ConnectWhen(entries: seq<(string, int)>, f: Fun)
      requires Valid() && Distinct(entries)
      modifies this`requisitionMap
      ensures Valid()
      ensures forall k, v :: Registered(requisitionMap, k, v)
                == Registered(old(requisitionMap), k, v) + NewActions(entries, f, k, v)
    {
      hide Register, Registered, Narrow;
      var needs: map<string, int> := map[];
      for i := 0 to |entries|
        invariant needs == Needs(entries[..i])
      {
        needs := needs[entries[i].0 := Narrow(entries[i].1)];
        assert entries[..i + 1][..i] == entries[..i];
      }
      assert entries[..|entries|] == entries;
      var action := Action(needs, f);
      for i := 0 to |entries|
        invariant forall k, v :: Registered(requisitionMap, k, v) ==
                    Registered(old(requisitionMap), k, v) + Under(entries[..i], action, k, v)
        modifies this`requisitionMap
      {
        RegisteredAfter(requisitionMap, entries[i].0, Narrow(entries[i].1), action);
        UnderStep(entries, i, action);
        requisitionMap := Register(requisitionMap, entries[i].0, Narrow(entries[i].1), action);
      }
      UnderOnce(entries, f);
    }

    /** One critical section of the handler: dispatches until the queue is empty or "exit" has been handled. */
    method Handle()
      requires Valid() && running && !broken
      modifies this`eventQueue, this`setsQueue, this`argsQueue, this`running, this`broken, this`log, this`dispatched,
          this`setsTaken
      ensures Valid() && enqueued == old(enqueued)
      ensures !broken ==> (running ==> eventQueue == []) && (running <==> NoExit(enqueued))
      ensures !running && !broken ==> dispatched == UpToExit(enqueued)
    {
      while running && !broken && eventQueue != []
        invariant Valid()
        decreases |eventQueue| + (if broken then 0 else 1)
      {
        DispatchNext();
      }
      if !broken {
        if running {
          assert dispatched + [] == dispatched;
        } else {
          var last := |dispatched| - 1;
          assert dispatched == dispatched[..last] + [dispatched[last]];
          UpToExitOf(dispatched[..last], dispatched[last], eventQueue);
          assert enqueued[last].name == "exit";
        }
      }
    }

    /** Takes the first signal: its callbacks are called in order; a "set" signal also takes the oldest call of
        `set` and calls the actions registered for it whose requisitions all hold now. */
    method DispatchNext()
      requires Valid() && running && !broken && eventQueue != []
      modifies this`eventQueue, this`setsQueue, this`argsQueue, this`running, this`broken, this`log, this`dispatched,
          this`setsTaken
      ensures Valid() && eventQueue == old(eventQueue)[1..] && dispatched == old(dispatched) + [old(eventQueue)[0]]
      ensures var u := old(eventQueue)[0];
              var direct := Calls(if u.name in eventMap then eventMap[u.name] else [], u.args);
              if u.name != "set" then !broken && log == old(log) + direct
              else if broken then strays > 0
              else
                && old(setsTaken) < |setCalls| && setsTaken == old(setsTaken) + 1
                && (var c := setCalls[old(setsTaken)];
                    log == old(log) + direct
                           + Triggered(Registered(requisitionMap, c.key, Current(requisitions, c.key)), requisitions,
                                       c.args))
    {
      hide Calls, Triggered, Registered, Current, Sets;
      var u := TakeSignal();
      CallAll(if u.name in eventMap then eventMap[u.name] else [], u.args);
      if u.name == "exit" {
        running := false;
      } else if u.name == "set" {
        TakeSet();
      }
    }

    method TakeSignal() returns (u: Signal)
      requires dispatched + eventQueue == enqueued && eventQueue != []
      modifies this`eventQueue, this`dispatched
      ensures u == old(eventQueue)[0] && eventQueue == old(eventQueue)[1..]
      ensures dispatched == old(dispatched) + [u] && dispatched[..|dispatched| - 1] == old(dispatched)
      ensures dispatched + eventQueue == enqueued
      ensures Sets(old(eventQueue)) == Sets(eventQueue) + if u.name == "set" then 1 else 0
    {
      u := eventQueue[0];
      assert eventQueue == [u] + eventQueue[1..];
      eventQueue := eventQueue[1..];
      dispatched := dispatched + [u];
    }

    method CallAll(funs: seq<Fun>, args: Args)
      modifies this`log
      ensures log == old(log) + Calls(funs, args)
    {
      for i := 0 to |funs|
        invariant log == old(log) + Calls(funs[..i], args)
      {
        log := log + [Called(funs[i], args)];
        assert Calls(funs[..i + 1], args) == Calls(funs[..i], args) + [Called(funs[i], args)];
      }
      assert funs[..|funs|] == funs;
    }

    /** The part of the handler that a "set" signal adds. */
    method TakeSet()
      requires |setsQueue| == |argsQueue| && setsTaken + |setsQueue| == |setCalls| && !broken
      requires forall i :: 0 <= i < |setsQueue| ==> setCalls[setsTaken + i] == SetCall(setsQueue[i], argsQueue[i])
      modifies this`setsQueue, this`argsQueue, this`broken, this`log, this`setsTaken
      ensures |setsQueue| == |argsQueue| && setsTaken + |setsQueue| == |setCalls|
      ensures forall i :: 0 <= i < |setsQueue| ==> setCalls[setsTaken + i] == SetCall(setsQueue[i], argsQueue[i])
      ensures broken <==> old(setsQueue) == []
      ensures !broken ==>
        && |setsQueue| == |old(setsQueue)| - 1 && setsTaken == old(setsTaken) + 1
        && (var c := setCalls[old(setsTaken)];
            log == old(log) + Triggered(Registered(requisitionMap, c.key, Current(requisitions, c.key)), requisitions,
                                        c.args))
    {
      if setsQueue == [] {
        broken := true;
      } else {
        var key, args := setsQueue[0], argsQueue[0];
        setsQueue, argsQueue := setsQueue[1..], argsQueue[1..];
        setsTaken := setsTaken + 1;
        CallTriggered(key, args);
      }
    }

    method CallTriggered(key: string, args: Args)
      modifies this`log
      ensures log == old(log) + Triggered(Registered(requisitionMap, key, Current(requisitions, key)), requisitions,
                                          args)
    {
      var actions := Registered(requisitionMap, key, Current(requisitions, key));
      for i := 0 to |actions|
        invariant log == old(log) + Triggered(actions[..i], requisitions, args)
      {
        var exec := true;
        var left := actions[i].needs.Keys;
        while left != {} && exec
          invariant left <= actions[i].needs.Keys
          invariant exec ==> forall k :: k in actions[i].needs && k !in left ==>
                               Current(requisitions, k) == actions[i].needs[k]
          invariant !exec ==> !Holds(actions[i].needs, requisitions)
          decreases left
        {
          var k :| k in left;
          if Current(requisitions, k) != actions[i].needs[k] {
            exec := false;
          }
          left := left - {k};
        }
        if exec {
          log := log + [Called(actions[i].fun, args)];
        }
        assert actions[..i + 1][..i] == actions[..i];
      }
      assert actions[..|actions|] == actions;
    }
  }

  /** The keys of a map differ. */
  predicate Distinct(entries: seq<(string, int)>) {
    forall i, j :: 0 <= i < j < |entries| ==> entries[i].0 != entries[j].0
  }

  function Needs(entries: seq<(string, int)>): map<string, int> {
    if entries == [] then map[]
    else
      var last := entries[|entries| - 1];
      Needs(entries[..|entries| - 1])[last.0 := Narrow(last.1)]
  }

  /** Where a connected action is found: once under each of its own requisitions. */
  function NewActions(entries: seq<(string, int)>, f: Fun, key: string, value: int): seq<Action> {
    var needs := Needs(entries);
    if key in needs && needs[key] == value then [Action(needs, f)] else []
  }

  /** The registrations that the entries cause one after the other. */
  function Under(entries: seq<(string, int)>, a: Action, key: string, value: int): seq<Action> {
    if entries == [] then []
    else
      var last := entries[|entries| - 1];
      Under(entries[..|entries| - 1], a, key, value) + if last.0 == key && Narrow(last.1) == value then [a] else []
  }

  lemma UnderStep(entries: seq<(string, int)>, i: nat, a: Action)
    requires i < |entries|
    ensures forall k, v :: Under(entries[..i + 1], a, k, v) ==
              Under(entries[..i], a, k, v) + if entries[i].0 == k && Narrow(entries[i].1) == v then [a] else []
  {
    assert entries[..i + 1][..i] == entries[..i];
  }

  lemma {:induction false} NeedsKeys(entries: seq<(string, int)>, key: string)
    requires key in Needs(entries)
    ensures exists i :: 0 <= i < |entries| && entries[i].0 == key
    decreases |entries|
  {
    hide Narrow;
    var n := |entries| - 1;
    if entries[n].0 != key {
      NeedsKeys(entries[..n], key);
      var i :| 0 <= i < n && entries[..n][i].0 == key;
      assert entries[i].0 == key;
    }
  }

  lemma {:induction false} UnderKey(entries: seq<(string, int)>, a: Action, key: string, value: int)
    requires Distinct(entries)
    ensures Under(entries, a, key, value) == if key in Needs(entries) && Needs(entries)[key] == value then [a] else []
    decreases |entries|
  {
    hide Narrow;
    if entries != [] {
      var n := |entries| - 1;
      UnderKey(entries[..n], a, key, value);
      if entries[n].0 == key && key in Needs(entries[..n]) {
        NeedsKeys(entries[..n], key);
        assert false;
      }
    }
  }

  lemma UnderOnce(entries: seq<(string, int)>, f: Fun)
    requires Distinct(entries)
    ensures forall k, v :: Under(entries[..|entries|], Action(Needs(entries), f), k, v) == NewActions(entries, f, k, v)
  {
    assert entries[..|entries|] == entries;
    forall k, v ensures Under(entries, Action(Needs(entries), f), k, v) == NewActions(entries, f, k, v) {
      UnderKey(entries, Action(Needs(entries), f), k, v);
    }
  }

  /** The value a key ends up with. */
  function LastEntry(entries: seq<(string, int)>, key: string, before: int): int {
    if entries == [] then before
    else
      var last := entries[|entries| - 1];
      if last.0 == key then Narrow(last.1) else LastEntry(entries[..|entries| - 1], key, before)
  }

  // ----- runs -----

  /** What the threads do, in the order they get the mutex. */
  datatype Turn =
    | DoEmit(name: string, args: Args)
    | DoSet(entries: seq<(string, int)>, args: Args)
    | DoConnect(name: string, fun: Fun)
    | DoConnectWhen(needs: seq<(string, int)>, fun: Fun)
    | DoFinalize
    | DoHandle

  /** The signals a run enqueues. */
  function Enqueued(turns: seq<Turn>): seq<Signal> {
    if turns == [] then [] else Enqueued(turns[..|turns| - 1]) + EnqueuedBy(turns[|turns| - 1])
  }

  /** Clients neither emit "set" nor set an empty map. */
  predicate GoodTurn(t: Turn) {
    (t.DoEmit? ==> t.name != "set") && (t.DoSet? ==> t.entries != [])
  }

  /** Entries come from a map. */
  predicate Possible(t: Turn) {
    t.DoConnectWhen? ==> Distinct(t.needs)
  }

  /** The actions that turns register for a requisition, in the order they were connected. */
  function Actions(turns: seq<Turn>, key: string, value: int): seq<Action> {
    if turns == [] then []
    else Actions(turns[..|turns| - 1], key, value) + ActionsBy(turns[|turns| - 1], key, value)
  }

  function ActionsBy(t: Turn, key: string, value: int): seq<Action> {
    if t.DoConnectWhen? then NewActions(t.needs, t.fun, key, value) else []
  }

  /** The value that the last turn with an entry for the key gave it. */
  function Latest(turns: seq<Turn>, key: string): int {
    if turns == [] then 0 else LatestBy(turns[|turns| - 1], key, Latest(turns[..|turns| - 1], key))
  }

  function LatestBy(t: Turn, key: string, before: int): int {
    if t.DoSet? then LastEntry(t.entries, key, before) else before
  }

  predicate WellUsed(turns: seq<Turn>) {
    forall i :: 0 <= i < |turns| ==> GoodTurn(turns[i])
  }

  function EnqueuedBy(t: Turn): seq<Signal> {
    match t
    case DoEmit(name, args) => [Signal(name, args)]
    case DoSet(_, _) => [Signal("set", [])]
    case DoFinalize => [Signal("exit", [])]
    case _ => []
  }

  ghost predicate Ended(d: EventData)
    reads d
  {
    !d.running && !d.broken ==> d.dispatched == UpToExit(d.enqueued)
  }

  method Take(d: EventData, t: Turn)
    requires d.Valid() && Ended(d) && Possible(t)
    modifies d
    ensures d.Valid() && Ended(d) && d.enqueued == old(d.enqueued) + EnqueuedBy(t)
    ensures (d.strays == 0 && !d.emptySets) <==> (old(d.strays) == 0 && !old(d.emptySets) && GoodTurn(t))
    ensures forall k, v :: Registered(d.requisitionMap, k, v)
              == Registered(old(d.requisitionMap), k, v) + ActionsBy(t, k, v)
    ensures forall k :: Current(d.requisitions, k) == LatestBy(t, k, Current(old(d.requisitions), k))
  {
    hide Registered, NewActions, Current, LastEntry, EventData.InOrder, EventData.Paired, UpToExit;
    Unchanged(d.requisitionMap);
    match t {
      case DoEmit(name, args) => d.Emit(name, args);
      case DoSet(entries, args) => d.SetRequisitions(entries, args);
      case DoConnect(name, f) => d.Connect(name, f);
      case DoConnectWhen(needs, f) => d.ConnectWhen(needs, f);
      case DoFinalize => d.Finalize();
      case DoHandle =>
        if d.running && !d.broken {
          d.Handle();
        }
    }
    HasEnded(d);
  }

  lemma Unchanged(m: map<string, map<int, seq<Action>>>)
    ensures forall k, v :: Registered(m, k, v) + [] == Registered(m, k, v)
  {
  }

  lemma HasEnded(d: EventData)
    requires d.Valid()
    ensures Ended(d)
  {
    if !d.running {
      var last := |d.dispatched| - 1;
      assert d.dispatched == d.dispatched[..last] + [d.dispatched[last]];
      UpToExitOf(d.dispatched[..last], d.dispatched[last], d.eventQueue);
    }
  }

  /** Every run: while clients use the queue well nothing breaks and the number of queued "set" signals equals
      the lengths of both side queues; what has been dispatched is a prefix of what was enqueued, and once
      the handler has ended it is everything up to the first "exit", each signal once and in order.  A
      misuse, on the other hand, has broken the handler as soon as it has run the queue empty.  Every action is
      registered under each of its requisitions in the order of connection, and requisitions have the values
      they were last given. */
  method Run(turns: seq<Turn>) returns (d: EventData)
    requires forall i :: 0 <= i < |turns| ==> Possible(turns[i])
    ensures fresh(d) && d.Valid() && d.enqueued == Enqueued(turns)
    ensures WellUsed(turns) ==> !d.broken && Sets(d.eventQueue) == |d.setsQueue| == |d.argsQueue|
    ensures d.dispatched + d.eventQueue == Enqueued(turns)
    ensures !d.running && !d.broken ==> d.dispatched == UpToExit(Enqueued(turns))
    ensures d.running && d.eventQueue == [] ==> (d.broken <==> !WellUsed(turns))
    ensures forall k, v :: Registered(d.requisitionMap, k, v) == Actions(turns, k, v)
    ensures forall k :: Current(d.requisitions, k) == Latest(turns, k)
  {
    hide EventData.InOrder, GoodTurn, UpToExit, EnqueuedBy, ActionsBy, LatestBy;
    d := new EventData();
    for i := 0 to |turns|
      invariant fresh(d) && d.Valid() && Ended(d) && d.enqueued == Enqueued(turns[..i])
      invariant (d.strays == 0 && !d.emptySets) <==> WellUsed(turns[..i])
      invariant forall k, v :: Registered(d.requisitionMap, k, v) == Actions(turns[..i], k, v)
      invariant forall k :: Current(d.requisitions, k) == Latest(turns[..i], k)
    {
      EnqueuedStep(turns, i);
      RegisteredStep(turns, i);
      Take(d, turns[i]);
    }
    assert turns[..|turns|] == turns;
    AsEnqueued(d);
  }

  lemma RegisteredStep(turns: seq<Turn>, i: nat)
    requires i < |turns|
    ensures forall k, v :: Actions(turns[..i + 1], k, v) == Actions(turns[..i], k, v) + ActionsBy(turns[i], k, v)
    ensures forall k :: Latest(turns[..i + 1], k) == LatestBy(turns[i], k, Latest(turns[..i], k))
  {
    assert turns[..i + 1][..i] == turns[..i];
  }

  lemma EnqueuedStep(turns: seq<Turn>, i: nat)
    requires i < |turns|
    ensures Enqueued(turns[..i + 1]) == Enqueued(turns[..i]) + EnqueuedBy(turns[i])
    ensures WellUsed(turns[..i + 1]) <==> (WellUsed(turns[..i]) && GoodTurn(turns[i]))
  {
    var a, b := turns[..i], turns[..i + 1];
    assert b[..i] == a && b[i] == turns[i];
    if WellUsed(b) {
      forall k | 0 <= k < i ensures GoodTurn(a[k]) {
        assert a[k] == b[k];
      }
    }
  }

  lemma AsEnqueued(d: EventData)
    requires d.Valid()
    ensures d.dispatched + d.eventQueue == d.enqueued
    ensures d.running && d.eventQueue == [] && !d.broken ==> d.strays == 0
  {
  }
}
