/** Name resolution: scopes, symbols and the (hops, index) addresses computed for identifiers.

    Every scope knows its parent and the environment its symbols get their slots in.  A block shares its
    parent's environment, a function has its own, whose outer environment is the parent scope's. */
module Scopes {
  import opened Values
  import opened Store
  import opened Sharing
  import opened Environments

  class Symbol {
    const name: string
    const index: nat
    const scope: Scope
    /** The value it was declared with. */
    ghost const value: Value

    constructor (name: string, index: nat, scope: Scope, ghost value: Value)
      ensures this.name == name && this.index == index && this.scope == scope && this.value == value
    {
      this.name, this.index, this.scope, this.value := name, index, scope, value;
    }
  }

  /** Inserting into the symbol table never replaces an entry. */
  function Insert(table: map<string, nat>, name: string): map<string, nat> {
    if name in table then table else table[name := |table|]
  }

  /** The table maps every declared name to its place in the list of symbols. */
  predicate TableOk(names: seq<string>, table: map<string, nat>) {
    && |table| == |names|
    && (forall n :: n in table ==> table[n] < |names| && names[table[n]] == n)
    && forall i :: 0 <= i < |names| ==> names[i] in table && table[names[i]] == i
  }

  /** The table survives a declaration if and only if the name is new in the scope. */
  lemma PushKeepsTable(names: seq<string>, table: map<string, nat>, name: string)
    requires TableOk(names, table)
    ensures TableOk(names + [name], Insert(table, name)) <==> name !in table
  {
    var names', table' := names + [name], Insert(table, name);
    if name !in table {
      assert |table'| == |table| + 1;
      forall i | 0 <= i < |names'| ensures names'[i] in table' && table'[names'[i]] == i {
        if i < |names| {
          assert names[i] in table;
        }
      }
    } else {
      assert |table'| < |names'|;
    }
  }

  /** What goes wrong otherwise: the next new name is looked up as the redeclared one. */
  lemma RedeclarationMisleads(x: string, y: string)
    requires x != y
    ensures var table := Insert(Insert(Insert(map[], x), x), y);
            var names := [x, x, y];
            y in table && names[table[y]] == x
  {
    assert Insert(map[], x) == map[x := 0];
    assert Insert(map[x := 0], x) == map[x := 0];
    assert |map[x := 0]| == 1;
  }

  class Scope {
    const parent: Scope?
    const environment: Environment
    ghost const depth: nat
    var symbols: seq<Symbol>
    var table: map<string, nat>

    constructor (parent: Scope?, environment: Environment)
      ensures this.parent == parent && this.environment == environment && symbols == [] && table == map[]
      ensures depth == if parent == null then 0 else parent.depth + 1
    {
      this.parent, this.environment := parent, environment;
      depth := if parent == null then 0 else parent.depth + 1;
      symbols, table := [], map[];
    }

    ghost function Names(): seq<string>
      reads this
    {
      seq(|symbols|, i requires 0 <= i < |symbols| reads this => symbols[i].name)
    }

    /** Enters a declared value: a symbol, a table entry and a slot.  The scope tree stays right if and only if
        the scope did not have the name. */
    method PushValue(name: string, value: Value, ghost tree: Tree)
      requires tree.Valid() && this in tree.scopes
      modifies this, environment, tree
      ensures tree.Valid() <==> name !in old(table)
      ensures tree.scopes == old(tree.scopes) && tree.envs == old(tree.envs) && table == Insert(old(table), name)
      ensures |symbols| == |old(symbols)| + 1 && symbols[..|old(symbols)|] == old(symbols) && fresh(Last(symbols))
      ensures Last(symbols).name == name && Last(symbols).scope == this && Last(symbols).value == value
      ensures environment.data == old(environment.data) + [value] && environment.outer == old(environment.outer)
      ensures tree.owners == old(tree.owners)[environment := old(tree.owners)[environment] + [Last(symbols)]]
    {
      hide TableOk, Insert, Owned, Tree.Housed;
      PushKeepsTable(Names(), table, name);
      AddSymbol(name, value, tree);
      if name !in old(table) {
        assert tree.Listed(this);
        forall s | s in tree.scopes ensures tree.Linked(s) && tree.Listed(s) {
          assert old(tree.Linked(s) && tree.Listed(s));
          if s != this {
            assert s.Names() == old(s.Names()) && s.symbols == old(s.symbols);
          }
        }
      } else {
        assert !tree.Listed(this);
      }
    }

    method AddSymbol(name: string, value: Value, ghost tree: Tree)
      requires tree.Housed() && environment in tree.envs
      modifies this, environment, tree
      ensures tree.Housed() && tree.scopes == old(tree.scopes) && tree.envs == old(tree.envs)
      ensures table == Insert(old(table), name) && Names() == old(Names()) + [name]
      ensures |symbols| == |old(symbols)| + 1 && symbols[..|old(symbols)|] == old(symbols) && fresh(Last(symbols))
      ensures forall k :: k in symbols ==> k in old(symbols) || k == Last(symbols)
      ensures var sym := Last(symbols);
              && sym.name == name && sym.scope == this && sym.value == value
              && sym.index == |old(environment.data)| == |old(tree.owners)[environment]|
      ensures environment.data == old(environment.data) + [value] && environment.outer == old(environment.outer)
      ensures tree.owners == old(tree.owners)[environment := old(tree.owners)[environment] + [Last(symbols)]]
    {
      hide TableOk, Insert, Owned;
      ghost var names := Names();
      var offset := environment.PushValue(value);
      var sym := new Symbol(name, offset.idx, this, value);
      symbols := symbols + [sym];
      table := Insert(table, name);
      OwnedPush(tree.owners[environment], old(environment.data), sym);
      tree.owners := tree.owners[environment := tree.owners[environment] + [sym]];
      assert Names() == names + [name];
    }

    /** The symbol of this scope with the given name, if any. */
    method GetLocal(name: string, ghost tree: Tree) returns (sym: Symbol?)
      requires tree.Valid() && this in tree.scopes
      ensures sym == Declared(this, name)
    {
      if name !in table {
        assert forall i :: 0 <= i < |symbols| ==> Names()[i] == symbols[i].name;
        NotDeclared(symbols, name);
        return null;
      }
      sym := symbols[table[name]];
      assert Names()[table[name]] == sym.name;
      assert forall i :: 0 <= i < |symbols| ==> Names()[i] == symbols[i].name;
      OnlyDeclared(symbols, table[name]);
    }

    /** This scope first, then the enclosing ones from the inside out. */
    method GetAny(name: string, ghost tree: Tree) returns (sym: Symbol?)
      requires tree.Valid() && this in tree.scopes
      ensures sym == Innermost(this, name, tree)
    {
      sym := GetLocal(name, tree);
      if sym != null {
        return;
      }
      var v := parent;
      while v != null
        invariant sym == null && (v != null ==> v in tree.scopes)
        invariant Innermost(this, name, tree) == if v == null then null else Innermost(v, name, tree)
        decreases if v == null then 0 else v.depth + 1
      {
        sym := v.GetLocal(name, tree);
        if sym != null {
          return;
        }
        v := v.parent;
      }
    }

    /** The address of a symbol seen from this scope: counts the changes of environment on the way out. */
    method GetOffset(sym: Symbol, ghost tree: Tree) returns (offset: Off)
      requires tree.Valid() && this in tree.scopes && Encloses(sym.scope, this) && sym in sym.scope.symbols
      ensures offset.idx == sym.index
      ensures Hop(environment, offset.hops, tree.envs) == sym.scope.environment
    {
      hide Tree.Listed;
      var hops := 0;
      var scope := this;
      var lastEnv := environment;
      while true
        invariant scope in tree.scopes && Encloses(sym.scope, scope) && lastEnv in tree.envs
        invariant lastEnv == scope.environment || lastEnv.outer == scope.environment
        invariant Hop(environment, hops, tree.envs) == lastEnv
        decreases scope.depth
      {
        if scope.environment != lastEnv {
          HopFurther(environment, hops, tree.envs);
          hops := hops + 1;
        }
        if sym in scope.symbols {
          OwnScope(scope, sym, tree);
          return Off(hops, sym.index);
        }
        lastEnv := scope.environment;
        scope := scope.parent;
      }
    }
  }

  /** All scopes and environments of one compilation, and for every slot the symbol it was made for. */
  class Tree {
    ghost var scopes: set<Scope>
    ghost var envs: set<Environment>
    ghost var owners: map<Environment, seq<Symbol>>

    /** One scope with an empty environment. */
    constructor (s: Scope, e: Environment)
      requires s.parent == null && s.environment == e && s.symbols == [] && s.table == map[]
      requires e.data == [] && e.outer == null
      ensures Valid() && scopes == {s} && envs == {e}
    {
      scopes, envs, owners := {s}, {e}, map[e := []];
      new;
      assert s.Names() == [];
    }

    ghost predicate Valid()
      reads this, scopes, envs
    {
      Housed() && forall s :: s in scopes ==> Linked(s) && Listed(s)
    }

    /** Every environment knows the owners of its slots. */
    ghost predicate Housed()
      reads this, envs
    {
      && Closed(envs)
      && owners.Keys == envs
      && forall e :: e in envs ==> Owned(owners[e], e.data)
    }

    ghost method AddEnvironment(e: Environment)
      requires Valid() && e !in envs && e.data == [] && e.outer != null && e.outer in envs
      modifies this
      ensures Valid() && envs == old(envs) + {e} && scopes == old(scopes)
    {
      envs := envs + {e};
      owners := owners[e := []];
      forall s | s in scopes ensures Linked(s) && Listed(s) {
        assert old(Linked(s) && Listed(s));
      }
    }

    ghost method AddScope(s: Scope)
      requires Valid() && s !in scopes && s.symbols == [] && s.table == map[] && s.environment in envs
      requires s.parent != null && s.parent in scopes && s.parent.depth < s.depth
      requires s.environment == s.parent.environment || s.environment.outer == s.parent.environment
      modifies this
      ensures Valid() && scopes == old(scopes) + {s} && envs == old(envs)
    {
      assert s.Names() == [];
      scopes := scopes + {s};
      forall k | k in scopes ensures Linked(k) && Listed(k) {
        assert k != s ==> old(Linked(k) && Listed(k));
      }
    }

    ghost method AddFunction(s: Scope, e: Environment)
      requires Valid() && e !in envs && e.data == [] && e.outer != null && e.outer in envs
      requires s !in scopes && s.symbols == [] && s.table == map[] && s.environment == e
      requires s.parent != null && s.parent in scopes && s.parent.depth < s.depth && e.outer == s.parent.environment
      modifies this
      ensures Valid() && scopes == old(scopes) + {s} && envs == old(envs) + {e}
    {
      AddEnvironment(e);
      AddScope(s);
    }

    ghost predicate Linked(s: Scope)
      reads this, envs
    {
      && s.environment in envs
      && (s.parent != null ==>
            && s.parent in scopes && s.parent.depth < s.depth
            && (s.environment == s.parent.environment || s.environment.outer == s.parent.environment))
    }

    ghost predicate Listed(s: Scope)
      reads this, s
    {
      && TableOk(s.Names(), s.table)
      && s.environment in owners
      && forall sym :: sym in s.symbols ==>
           sym.scope == s && sym.index < |owners[s.environment]| && owners[s.environment][sym.index] == sym
    }
  }

  /** Every slot has the symbol it was made for, and holds the value that symbol was declared with. */
  ghost predicate Owned(symbols: seq<Symbol>, data: seq<Value>) {
    |symbols| == |data| && forall k :: 0 <= k < |symbols| ==> symbols[k].value == data[k]
  }

  lemma OwnedPush(symbols: seq<Symbol>, data: seq<Value>, sym: Symbol)
    requires Owned(symbols, data)
    ensures Owned(symbols + [sym], data + [sym.value]) && |symbols| == |data|
  {
  }

  /** The first symbol with the name. */
  function Find(symbols: seq<Symbol>, name: string): Symbol? {
    if symbols == [] then null else if symbols[0].name == name then symbols[0] else Find(symbols[1..], name)
  }

  function Declared(s: Scope, name: string): Symbol?
    reads s
  {
    Find(s.symbols, name)
  }

  /** The innermost declaration of a name that is visible from a scope. */
  ghost function Innermost(s: Scope, name: string, tree: Tree): Symbol?
    requires tree.Valid() && s in tree.scopes
    reads tree, tree.scopes, tree.envs
    decreases s.depth
  {
    if Declared(s, name) != null then Declared(s, name)
    else if s.parent == null then null
    else Innermost(s.parent, name, tree)
  }

  ghost predicate Encloses(outer: Scope, s: Scope)
    decreases s.depth
  {
    outer == s || (s.parent != null && s.parent.depth < s.depth && Encloses(outer, s.parent))
  }

  lemma OwnScope(s: Scope, sym: Symbol, tree: Tree)
    requires tree.Valid() && s in tree.scopes && sym in s.symbols
    ensures sym.scope == s
  {
  }

  lemma {:induction false} NotDeclared(symbols: seq<Symbol>, name: string)
    requires forall i :: 0 <= i < |symbols| ==> symbols[i].name != name
    ensures Find(symbols, name) == null
  {
    if symbols != [] {
      NotDeclared(symbols[1..], name);
    }
  }

  lemma {:induction false} OnlyDeclared(symbols: seq<Symbol>, k: nat)
    requires k < |symbols| && forall i :: 0 <= i < |symbols| && i != k ==> symbols[i].name != symbols[k].name
    ensures Find(symbols, symbols[k].name) == symbols[k]
  {
    if k > 0 {
      OnlyDeclared(symbols[1..], k - 1);
    }
  }

  lemma {:induction false} HopFurther(e: Environment, hops: nat, envs: set<Environment>)
    requires e in envs && Closed(envs) && Hop(e, hops, envs) != null
    ensures Hop(e, hops + 1, envs) == Hop(e, hops, envs).outer
    decreases hops
  {
    if hops > 0 {
      HopFurther(e.outer, hops - 1, envs);
    }
  }

  lemma {:induction false} FindIn(symbols: seq<Symbol>, name: string)
    ensures Find(symbols, name) != null ==> Find(symbols, name) in symbols && Find(symbols, name).name == name
  {
    if symbols != [] && symbols[0].name != name {
      FindIn(symbols[1..], name);
    }
  }

  lemma {:induction false} FindLast(symbols: seq<Symbol>)
    requires symbols != [] && forall i :: 0 <= i < |symbols| - 1 ==> symbols[i].name != Last(symbols).name
    ensures Find(symbols, Last(symbols).name) == Last(symbols)
  {
    OnlyDeclared(symbols, |symbols| - 1);
  }

  /** The innermost declaration belongs to an enclosing scope and owns its slot. */
  lemma {:induction false} InnermostOwns(s: Scope, name: string, tree: Tree)
    requires tree.Valid() && s in tree.scopes && Innermost(s, name, tree) != null
    ensures var sym := Innermost(s, name, tree);
            && sym.name == name && sym in sym.scope.symbols && sym.scope in tree.scopes && Encloses(sym.scope, s)
            && sym.index < |sym.scope.environment.data| && tree.owners[sym.scope.environment][sym.index] == sym
    decreases s.depth
  {
    if Declared(s, name) != null {
      FindIn(s.symbols, name);
    } else {
      InnermostOwns(s.parent, name, tree);
    }
  }

  // ----- the resolver's use of scopes -----

  /** The environments of the functions around a scope, outermost first. */
  ghost function Stack(s: Scope): (r: seq<Environment>)
    ensures r != [] && Last(r) == s.environment
    decreases s.depth
  {
    if s.parent == null || s.parent.depth >= s.depth then [s.environment]
    else if s.environment == s.parent.environment then Stack(s.parent)
    else Stack(s.parent) + [s.environment]
  }

  /** The current scope and a stack with one environment per enclosing function. */
  class Resolver {
    const tree: Tree
    var scope: Scope
    var stack: seq<Environment>

    ghost predicate Valid()
      reads this, tree, tree.scopes, tree.envs
    {
      tree.Valid() && scope in tree.scopes && stack == Stack(scope)
    }

    /** The global scope and its environment. */
    constructor ()
      ensures Valid() && fresh(tree) && fresh(scope) && scope.parent == null && scope.symbols == []
    {
      var e := new Environment(null);
      var s := new Scope(null, e);
      var t := new Tree(s, e);
      tree, scope, stack := t, s, [e];
    }

    /** A block's scope shares the environment on top of the stack. */
    method EnterBlock()
      requires Valid()
      modifies this, tree
      ensures Valid() && fresh(scope) && scope.parent == old(scope) && scope.environment == old(scope).environment
      ensures scope.symbols == [] && tree.envs == old(tree.envs)
      ensures forall s :: s in old(tree.scopes) ==> s in tree.scopes
    {
      var s := new Scope(scope, Last(stack));
      tree.AddScope(s);
      scope := s;
    }

    /** A function's scope gets an environment of its own inside the one on top of the stack. */
    method EnterFunction()
      requires Valid()
      modifies this, tree
      ensures Valid() && fresh(scope) && scope.parent == old(scope) && fresh(scope.environment)
      ensures scope.symbols == [] && scope.environment.data == [] && scope.environment.outer == old(scope).environment
      ensures forall s :: s in old(tree.scopes) ==> s in tree.scopes
    {
      hide Tree.Listed, TableOk;
      var e := new Environment(Last(stack));
      var s := new Scope(scope, e);
      tree.AddFunction(s, e);
      scope := s;
      stack := stack + [e];
    }

    /** Leaving restores the enclosing scope, and the environment stack with it. */
    method Leave(ofFunction: bool)
      requires Valid() && scope.parent != null && ofFunction == (scope.environment != scope.parent.environment)
      modifies this
      ensures Valid() && scope == old(scope).parent
    {
      hide Tree.Housed, Tree.Listed;
      scope := scope.parent;
      if ofFunction {
        stack := stack[..|stack| - 1];
      }
    }

    /** Declares a variable; a second declaration in the same scope is an error. */
    method Declare(name: string, value: Value) returns (ok: bool)
      requires Valid()
      modifies scope, scope.environment, tree
      ensures Valid()
      ensures ok == (old(Declared(scope, name)) == null)
      ensures ok ==> |scope.symbols| == |old(scope.symbols)| + 1
                     && scope.symbols[..|old(scope.symbols)|] == old(scope.symbols)
      ensures ok ==> Last(scope.symbols).name == name && Last(scope.symbols).value == value
      ensures ok ==> Innermost(scope, name, tree) == Last(scope.symbols)
      ensures !ok ==> scope.symbols == old(scope.symbols)
    {
      var sym := scope.GetLocal(name, tree);
      ok := sym == null;
      if ok {
        NewName(scope, name, tree);
        NotFound(scope.symbols, name);
        ghost var before := scope.symbols;
        scope.PushValue(name, value, tree);
        assert forall i :: 0 <= i < |before| ==> scope.symbols[i] == before[i];
        FindLast(scope.symbols);
      }
    }

    /** Resolves an identifier: the address of the innermost visible declaration, in bounds, or an error if
        and only if there is none. */
    method Resolve(name: string) returns (offset: Option<Off>)
      requires Valid()
      ensures offset.None? <==> Innermost(scope, name, tree) == null
      ensures offset.Some? ==> Addresses(scope.environment, offset.value, Innermost(scope, name, tree), tree)
    {
      var sym := scope.GetAny(name, tree);
      if sym == null {
        return None;
      }
      InnermostOwns(scope, name, tree);
      var o := scope.GetOffset(sym, tree);
      offset := Some(o);
    }

    /** `getValue(getOffset(getAny(name)))` is the value the innermost declaration was made with. */
    method Lookup(name: string) returns (v: Value?)
      requires Valid()
      ensures var sym := Innermost(scope, name, tree); v == if sym == null then null else sym.value
    {
      var offset := Resolve(name);
      if offset.None? {
        return null;
      }
      InnermostOwns(scope, name, tree);
      v := scope.environment.GetValue(offset.value, tree.envs);
    }
  }

  /** The address leads to the slot that was made for the symbol. */
  ghost predicate Addresses(from: Environment, offset: Off, sym: Symbol?, tree: Tree)
    requires tree.Valid() && from in tree.envs
    reads tree, tree.scopes, tree.envs
  {
    var e := Hop(from, offset.hops, tree.envs);
    && sym != null && e != null && e == sym.scope.environment
    && offset.idx == sym.index < |e.data| && tree.owners[e][offset.idx] == sym
  }

  lemma NewName(s: Scope, name: string, tree: Tree)
    requires tree.Valid() && s in tree.scopes && Declared(s, name) == null
    ensures name !in s.table
  {
    if name in s.table {
      var k := s.table[name];
      assert s.Names()[k] == s.symbols[k].name;
      Found(s.symbols, k);
    }
  }

  lemma {:induction false} Found(symbols: seq<Symbol>, k: nat)
    requires k < |symbols|
    ensures Find(symbols, symbols[k].name) != null
  {
    if k > 0 && symbols[0].name != symbols[k].name {
      Found(symbols[1..], k - 1);
    }
  }

  lemma {:induction false} NotFound(symbols: seq<Symbol>, name: string)
    requires Find(symbols, name) == null
    ensures forall i :: 0 <= i < |symbols| ==> symbols[i].name != name
  {
    if symbols != [] {
      NotFound(symbols[1..], name);
    }
  }

  /** Two addresses lead to the same slot only if they are addresses of the same declaration. */
  lemma DifferentSlots(from: Environment, o1: Off, s1: Symbol, o2: Off, s2: Symbol, tree: Tree)
    requires tree.Valid() && from in tree.envs
    requires Addresses(from, o1, s1, tree) && Addresses(from, o2, s2, tree)
    ensures Hop(from, o1.hops, tree.envs) == Hop(from, o2.hops, tree.envs) && o1.idx == o2.idx ==> s1 == s2
  {
  }
}
