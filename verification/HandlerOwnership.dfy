// The polymorphic handler wrapper: who owns which handler object, over every
// sequence of operations, and what a target finds when it runs.
module HandlerOwnership {
  import opened Basics

  type W = nat       // a wrapper object
  type Object = nat  // a handler object, in the order of creation
  type Kind = nat    // the handler type that a function table is for

  /** The two fields of a wrapper. */
  datatype Slot = Slot(table: Maybe<Kind>, impl: Maybe<Object>)

  const EMPTY := Slot(Nothing, Nothing)

  /** What happened to a handler object and its storage so far. */
  datatype Life = Life(kind: Kind, stored: nat, built: nat, destroyed: nat, freed: nat)

  /** A target that ran: the handler type whose call function ran it, its object, whether
      that was destroyed and its storage freed by then, and whether the wrapper it was
      called through was empty. */
  datatype Call = Call(kind: Maybe<Kind>, target: Object, released: bool, emptied: bool)

  datatype State = State(slots: map<W, Slot>, lives: seq<Life>, calls: seq<Call>)

  datatype Op =
    | Default(w: W)                              // also construction from nullptr
    | Construct(w: W, kind: Kind, throws: bool)  // whether the handler's own constructor throws
    | MoveConstruct(w: W, from: W)
    | MoveAssign(w: W, from: W)                  // w == from included
    | AssignNull(w: W)
    | Swap(w: W, other: W)
    | Invoke(w: W)
    | Destroy(w: W)

  predicate Enabled(st: State, op: Op) {
    match op
    case Default(w) => w !in st.slots
    case Construct(w, _, _) => w !in st.slots
    case MoveConstruct(w, from) => w !in st.slots && from in st.slots
    case MoveAssign(w, from) => w in st.slots && from in st.slots
    case AssignNull(w) => w in st.slots
    case Swap(w, other) => w in st.slots && other in st.slots
    case Invoke(w) => w in st.slots
    case Destroy(w) => w in st.slots
  }

  /** The deleter: destroy the object, then free its storage. */
  function Release(lives: seq<Life>, o: Object): seq<Life>
    requires o < |lives|
  {
    lives[o := lives[o].(destroyed := lives[o].destroyed + 1, freed := lives[o].freed + 1)]
  }

  /** A wrapper's destructor, for wrappers whose object exists. */
  function Drop(lives: seq<Life>, s: Slot): seq<Life> {
    if s.impl.Just? && s.impl.value < |lives| then Release(lives, s.impl.value) else lives
  }

  function Step(st: State, op: Op): State
    requires Enabled(st, op)
  {
    match op
    case Default(w) => st.(slots := st.slots[w := EMPTY])
    case Construct(w, kind, throws) =>
      // storage first; if the constructor throws, the guard frees it and no wrapper exists
      if throws then st.(lives := st.lives + [Life(kind, 1, 0, 0, 1)])
      else State(st.slots[w := Slot(Just(kind), Just(|st.lives|))], st.lives + [Life(kind, 1, 1, 0, 0)], st.calls)
    case MoveConstruct(w, from) => st.(slots := st.slots[w := st.slots[from]][from := EMPTY])
    case MoveAssign(w, from) =>
      if w == from then st
      else State(st.slots[w := st.slots[from]][from := EMPTY], Drop(st.lives, st.slots[w]), st.calls)
    case AssignNull(w) => State(st.slots[w := EMPTY], Drop(st.lives, st.slots[w]), st.calls)
    case Swap(w, other) => st.(slots := st.slots[w := st.slots[other]][other := st.slots[w]])
    case Invoke(w) =>
      var s := st.slots[w];
      if s.impl.Nothing? then st   // throws bad_function_call
      else
        var slots, lives := st.slots[w := s.(impl := Nothing)], Drop(st.lives, s);
        State(slots, lives, st.calls + [Call(s.table, s.impl.value, Released(lives, s.impl.value), slots[w].impl.Nothing?)])
    case Destroy(w) => State(st.slots - {w}, Drop(st.lives, st.slots[w]), st.calls)
  }

  predicate Released(lives: seq<Life>, o: Object) {
    o < |lives| && lives[o].destroyed == lives[o].built && lives[o].freed == lives[o].stored
  }

  // ----- ownership

  ghost predicate Owned(st: State, o: Object) {
    exists w <- st.slots :: st.slots[w].impl == Just(o)
  }

  /** Each object is owned by at most one wrapper, whose table is for its type. */
  ghost predicate OneOwner(st: State) {
    && (forall v <- st.slots, w <- st.slots :: v != w && st.slots[v].impl.Just? ==> st.slots[v].impl != st.slots[w].impl)
    && (forall w <- st.slots :: OwnsSoundly(st.slots[w], st.lives))
  }

  predicate OwnsSoundly(s: Slot, lives: seq<Life>) {
    s.impl.Just? ==> s.impl.value < |lives| && s.table == Just(lives[s.impl.value].kind)
  }

  predicate Alive(l: Life) {
    l.stored == 1 && l.built == 1 && l.destroyed == 0 && l.freed == 0
  }

  /** Released exactly once; of an object never built only the storage was freed. */
  predicate Gone(l: Life) {
    l.stored == 1 && l.freed == 1 && l.built <= 1 && l.destroyed == l.built
  }

  /** Owned objects are alive, all others are gone. */
  ghost predicate Accounted(st: State) {
    forall o :: 0 <= o < |st.lives| ==> if Owned(st, o) then Alive(st.lives[o]) else Gone(st.lives[o])
  }

  /** Every target ran at most once, as the type it is of, with its storage released and
      its wrapper empty. */
  ghost predicate CallsClean(st: State) {
    && (forall c <- st.calls :: c.released && c.emptied && c.target < |st.lives| && c.kind == Just(st.lives[c.target].kind) && !Owned(st, c.target))
    && (forall i, j :: 0 <= i < j < |st.calls| ==> st.calls[i].target != st.calls[j].target)
  }

  ghost predicate Inv(st: State) {
    OneOwner(st) && Accounted(st) && CallsClean(st)
  }

  /** Objects only change hands. */
  lemma Renamed(st: State, next: State)
    requires Inv(st) && OneOwner(next) && next.lives == st.lives && next.calls == st.calls
    requires forall o: Object :: Owned(next, o) <==> Owned(st, o)
    ensures Inv(next)
  {}

  /** The object of wrapper w, if any, is dropped; the rest change hands at most. */
  lemma Dropped(st: State, next: State, w: W)
    requires Inv(st) && w in st.slots && OneOwner(next)
    requires next.lives == Drop(st.lives, st.slots[w]) && next.calls == st.calls
    requires forall o: Object :: Owned(next, o) <==> Owned(st, o) && st.slots[w].impl != Just(o)
    ensures Inv(next)
  {}

  /** Wrapper w gives up its object; every other wrapper keeps its own. */
  lemma GivesUp(st: State, next: State, w: W)
    requires OneOwner(st) && w in st.slots && |next.lives| == |st.lives|
    requires forall o :: 0 <= o < |st.lives| ==> next.lives[o].kind == st.lives[o].kind
    requires next.slots.Keys <= st.slots.Keys && (w in next.slots ==> next.slots[w].impl.Nothing?)
    requires forall v <- st.slots :: v != w ==> v in next.slots && next.slots[v] == st.slots[v]
    ensures OneOwner(next)
    ensures forall o: Object :: Owned(next, o) <==> Owned(st, o) && st.slots[w].impl != Just(o)
  {}

  lemma DropKinds(lives: seq<Life>, s: Slot)
    ensures |Drop(lives, s)| == |lives| && forall o :: 0 <= o < |lives| ==> Drop(lives, s)[o].kind == lives[o].kind
  {}

  lemma DestroyKeeps(st: State, w: W)
    requires Inv(st) && w in st.slots
    ensures Inv(Step(st, Destroy(w)))
  {
    DropKinds(st.lives, st.slots[w]);
    GivesUp(st, Step(st, Destroy(w)), w);
    Dropped(st, Step(st, Destroy(w)), w);
  }

  lemma NullKeeps(st: State, w: W)
    requires Inv(st) && w in st.slots
    ensures Inv(Step(st, AssignNull(w)))
  {
    DropKinds(st.lives, st.slots[w]);
    GivesUp(st, Step(st, AssignNull(w)), w);
    Dropped(st, Step(st, AssignNull(w)), w);
  }

  lemma InvokeKeeps(st: State, w: W)
    requires Inv(st) && w in st.slots
    ensures Inv(Step(st, Invoke(w)))
  {
    var s := st.slots[w];
    if s.impl.Just? {
      var o := s.impl.value;
      var ran := State(st.slots[w := s.(impl := Nothing)], Drop(st.lives, s), st.calls);
      DropKinds(st.lives, s);
      GivesUp(st, ran, w);
      Dropped(st, ran, w);
      assert OwnsSoundly(s, st.lives) && Owned(st, o) && Alive(st.lives[o]);
      assert forall c <- st.calls :: c.target != o;
      var next := Step(st, Invoke(w));
      assert next == ran.(calls := st.calls + [Call(s.table, o, true, true)]);
      SameOwners(ran, next);
      forall i, j | 0 <= i < j < |next.calls| ensures next.calls[i].target != next.calls[j].target {
        assert next.calls[i] in st.calls;
      }
    }
  }

  /** Ownership is a matter of the slots. */
  lemma SameOwners(a: State, b: State)
    requires a.slots == b.slots
    ensures forall o: Object :: Owned(a, o) <==> Owned(b, o)
  {}

  /** A move takes the object from one wrapper to an empty one. */
  lemma MoveKeeps(st: State, w: W, from: W)
    requires Inv(st) && from in st.slots && w != from
    requires w in st.slots ==> st.slots[w].impl.Nothing?
    ensures Inv(st.(slots := st.slots[w := st.slots[from]][from := EMPTY]))
  {
    var next := st.(slots := st.slots[w := st.slots[from]][from := EMPTY]);
    MoveSound(st, next, w, from);
    forall o: Object ensures Owned(next, o) <==> Owned(st, o) {
      if Owned(st, o) {
        var v :| v in st.slots && st.slots[v].impl == Just(o);
        var u := if v == from then w else v;
        assert u in next.slots && next.slots[u].impl == Just(o);
      }
      if Owned(next, o) {
        var v :| v in next.slots && next.slots[v].impl == Just(o);
        var u := if v == w then from else v;
        assert u in st.slots && st.slots[u].impl == Just(o);
      }
    }
    Renamed(st, next);
  }

  lemma MoveSound(st: State, next: State, w: W, from: W)
    requires OneOwner(st) && from in st.slots && w != from && (w in st.slots ==> st.slots[w].impl.Nothing?)
    requires next == st.(slots := st.slots[w := st.slots[from]][from := EMPTY])
    ensures OneOwner(next)
  {}

  lemma SwapKeeps(st: State, w: W, other: W)
    requires Inv(st) && w in st.slots && other in st.slots
    ensures Inv(Step(st, Swap(w, other)))
  {
    var next := st.(slots := st.slots[w := st.slots[other]][other := st.slots[w]]);
    SwapSound(st, next, w, other);
    forall o: Object ensures Owned(next, o) <==> Owned(st, o) {
      if Owned(st, o) {
        var v :| v in st.slots && st.slots[v].impl == Just(o);
        var u := if v == w then other else if v == other then w else v;
        assert u in next.slots && next.slots[u].impl == Just(o);
      }
      if Owned(next, o) {
        var v :| v in next.slots && next.slots[v].impl == Just(o);
        var u := if v == w then other else if v == other then w else v;
        assert u in st.slots && st.slots[u].impl == Just(o);
      }
    }
    Renamed(st, next);
  }

  lemma SwapSound(st: State, next: State, w: W, other: W)
    requires OneOwner(st) && w in st.slots && other in st.slots
    requires next == st.(slots := st.slots[w := st.slots[other]][other := st.slots[w]])
    ensures OneOwner(next)
  {}

  lemma NewKeeps(st: State, w: W, kind: Kind, throws: bool)
    requires Inv(st) && w !in st.slots
    ensures Inv(Step(st, Construct(w, kind, throws)))
  {
    var next := Step(st, Construct(w, kind, throws));
    var n := |st.lives|;
    forall v <- st.slots ensures st.slots[v].impl != Just(n) { assert OwnsSoundly(st.slots[v], st.lives); }
    forall v <- next.slots ensures OwnsSoundly(next.slots[v], next.lives) {
      assert v != w ==> OwnsSoundly(st.slots[v], st.lives);
    }
    forall o: Object ensures Owned(next, o) <==> Owned(st, o) || (!throws && o == n) {
      if Owned(st, o) {
        var v :| v in st.slots && st.slots[v].impl == Just(o);
        assert v in next.slots;
      }
      if !throws && o == n { assert w in next.slots; }
    }
    forall o | 0 <= o < |next.lives|
      ensures if Owned(next, o) then Alive(next.lives[o]) else Gone(next.lives[o])
    {
      assert o < n ==> next.lives[o] == st.lives[o];
    }
  }

  lemma DefaultKeeps(st: State, w: W)
    requires Inv(st) && w !in st.slots
    ensures Inv(Step(st, Default(w)))
  {
    var next := Step(st, Default(w));
    forall v <- next.slots ensures OwnsSoundly(next.slots[v], next.lives) {
      assert v != w ==> OwnsSoundly(st.slots[v], st.lives);
    }
    forall o: Object ensures Owned(next, o) <==> Owned(st, o) {
      if Owned(st, o) {
        var v :| v in st.slots && st.slots[v].impl == Just(o);
        assert v in next.slots;
      }
    }
    Renamed(st, next);
  }

  /** Move assignment releases the target's object, then moves; onto itself it does nothing. */
  lemma AssignKeeps(st: State, w: W, from: W)
    requires Inv(st) && w in st.slots && from in st.slots
    ensures Inv(Step(st, MoveAssign(w, from)))
  {
    if w != from {
      var nulled := Step(st, AssignNull(w));
      NullKeeps(st, w);
      MoveKeeps(nulled, w, from);
      assert Step(st, MoveAssign(w, from)).slots == nulled.slots[w := nulled.slots[from]][from := EMPTY];
    }
  }

  lemma StepKeeps(st: State, op: Op)
    requires Inv(st) && Enabled(st, op)
    ensures Inv(Step(st, op))
  {
    match op
    case Default(w) => DefaultKeeps(st, w);
    case Construct(w, kind, throws) => NewKeeps(st, w, kind, throws);
    case MoveConstruct(w, from) => MoveKeeps(st, w, from);
    case MoveAssign(w, from) => AssignKeeps(st, w, from);
    case AssignNull(w) => NullKeeps(st, w);
    case Swap(w, other) => SwapKeeps(st, w, other);
    case Invoke(w) => InvokeKeeps(st, w);
    case Destroy(w) => DestroyKeeps(st, w);
  }

  // ----- runs

  ghost predicate IsRun(ops: seq<Op>)
    decreases |ops|, 0
  {
    ops == [] || (IsRun(ops[..|ops| - 1]) && Enabled(After(ops[..|ops| - 1]), ops[|ops| - 1]))
  }

  ghost function After(ops: seq<Op>): State
    requires IsRun(ops)
    decreases |ops|, 1
  {
    if ops == [] then State(map[], [], []) else Step(After(ops[..|ops| - 1]), ops[|ops| - 1])
  }

  lemma {:induction false} RunInv(ops: seq<Op>)
    requires IsRun(ops)
    ensures Inv(After(ops))
  {
    if ops != [] {
      RunInv(ops[..|ops| - 1]);
      StepKeeps(After(ops[..|ops| - 1]), ops[|ops| - 1]);
    }
  }

  /** Over every sequence of operations an object is never owned twice, nor released
      while owned, nor released twice; and once every wrapper is gone, all objects
      and all storage were released exactly once. */
  lemma ReleasedExactlyOnce(ops: seq<Op>, o: Object)
    requires IsRun(ops) && o < |After(ops).lives|
    ensures var st := After(ops);
            && st.lives[o].destroyed <= st.lives[o].built <= 1 && st.lives[o].freed <= st.lives[o].stored == 1
            && (st.slots == map[] ==> Gone(st.lives[o]))
  {
    RunInv(ops);
    assert if Owned(After(ops), o) then Alive(After(ops).lives[o]) else Gone(After(ops).lives[o]);
  }

  // ----- what a call runs

  /** The types of the handlers that a sequence of operations constructs, in order. */
  function Constructed(ops: seq<Op>): seq<Kind> {
    if ops == [] then []
    else Constructed(ops[..|ops| - 1]) + if ops[|ops| - 1].Construct? then [ops[|ops| - 1].kind] else []
  }

  lemma KindsStep(st: State, op: Op)
    requires Enabled(st, op)
    ensures var lives := Step(st, op).lives;
            && |lives| == |st.lives| + (if op.Construct? then 1 else 0)
            && (op.Construct? ==> lives[|st.lives|].kind == op.kind)
            && (op.Construct? && !op.throws ==> Step(st, op).slots[op.w] == Slot(Just(op.kind), Just(|st.lives|)))
            && forall o :: 0 <= o < |st.lives| ==> lives[o].kind == st.lives[o].kind
  {}

  /** An object is of the type it was constructed as, for good. */
  lemma {:induction false} KindsAre(ops: seq<Op>)
    requires IsRun(ops)
    ensures |After(ops).lives| == |Constructed(ops)|
    ensures forall o :: 0 <= o < |Constructed(ops)| ==> After(ops).lives[o].kind == Constructed(ops)[o]
  {
    if ops != [] {
      KindsAre(ops[..|ops| - 1]);
      KindsStep(After(ops[..|ops| - 1]), ops[|ops| - 1]);
    }
  }

  /** A call through a wrapper runs the object it owns, once, as the type of that object;
      through an empty wrapper nothing runs. */
  lemma InvokeRuns(st: State, w: W)
    requires Inv(st) && w in st.slots
    ensures OwnsSoundly(st.slots[w], st.lives)
    ensures var impl, calls := st.slots[w].impl, Step(st, Invoke(w)).calls;
            calls == st.calls + if impl.Just? then [Call(Just(st.lives[impl.value].kind), impl.value, true, true)] else []
    ensures Step(st, Invoke(w)).slots[w].impl.Nothing?
  {
    assert OwnsSoundly(st.slots[w], st.lives);
    var impl := st.slots[w].impl;
    if impl.Just? {
      assert Owned(st, impl.value) && Alive(st.lives[impl.value]);
    } else {
      assert st.calls + [] == st.calls;
    }
  }

  /** Over every sequence of operations, each call ran its object as the type that the
      object was constructed as. */
  lemma CallsRunTheirKind(ops: seq<Op>)
    requires IsRun(ops)
    ensures forall c <- After(ops).calls :: c.target < |Constructed(ops)| && c.kind == Just(Constructed(ops)[c.target])
  {
    RunInv(ops);
    KindsAre(ops);
  }

  // ----- the wrapper as it runs: fields that are nulled and swapped

  /** Storage for a type-erased handler object, and the object in it. */
  class Impl {
    const kind: Kind
    ghost const order: Object    // how many were allocated before it
    var built: nat
    var destroyed: nat
    var freed: nat

    constructor (kind: Kind, ghost order: Object)
      ensures this.kind == kind && this.order == order && built == destroyed == freed == 0
    {
      this.kind, this.order, built, destroyed, freed := kind, order, 0, 0, 0;
    }

    ghost predicate Alive()
      reads this
    {
      built == 1 && destroyed == 0 && freed == 0
    }

    /** Destroyed and freed, once each. */
    ghost predicate Gone()
      reads this
    {
      built == 1 && destroyed == 1 && freed == 1
    }

    /** Allocates and constructs; when the constructor throws, the guard on the
        storage frees it. */
    static method Create(kind: Kind, throws: bool, ghost order: Object) returns (impl: Impl?, ghost storage: Impl)
      ensures fresh(storage) && storage.kind == kind && storage.order == order
      ensures if throws then impl == null && storage.built == storage.destroyed == 0 && storage.freed == 1
              else impl == storage && storage.Alive()
    {
      var uninit := new Impl(kind, order);
      storage := uninit;
      if throws {
        uninit.freed := uninit.freed + 1;
        return null, storage;
      }
      uninit.built := uninit.built + 1;
      impl := uninit;
    }

    /** The deleter. */
    method Release()
      requires Alive()
      modifies this
      ensures Gone()
    {
      destroyed := destroyed + 1;
      freed := freed + 1;
    }
  }

  /** What a target finds when it runs. */
  datatype Run = Run(kind: Kind, released: bool, emptied: bool)

  class Wrapper {
    ghost const name: W
    var table: Maybe<Kind>
    var impl: Impl?

    /** An owned object is alive, and the table is for its type. */
    ghost predicate Valid()
      reads this, impl
    {
      impl != null ==> table == Just(impl.kind) && impl.Alive()
    }

    constructor Empty(ghost name: W)
      ensures Valid() && this.name == name && table == Nothing && impl == null
    {
      this.name, table, impl := name, Nothing, null;
    }

    /** Construction around a handler that was created. */
    constructor Of(ghost name: W, impl: Impl)
      requires impl.Alive()
      ensures Valid() && this.name == name && this.impl == impl && table == Just(impl.kind)
    {
      this.name, table, this.impl := name, Just(impl.kind), impl;
    }

    /** Move construction: the source is left empty. */
    constructor Move(ghost name: W, other: Wrapper)
      requires other.Valid()
      modifies other
      ensures Valid() && this.name == name && table == old(other.table) && impl == old(other.impl)
      ensures other.table == Nothing && other.impl == null
    {
      this.name, table, impl := name, other.table, other.impl;
      new;
      other.table, other.impl := Nothing, null;
    }

    method SwapWith(other: Wrapper)
      requires Valid() && other.Valid()
      modifies this, other
      ensures Valid() && other.Valid()
      ensures table == old(other.table) && impl == old(other.impl)
      ensures other.table == old(table) && other.impl == old(impl)
    {
      var t, i := table, impl;
      table, impl := other.table, other.impl;
      other.table, other.impl := t, i;
    }

    /** The destructor: the wrapper is not used again. */
    method Destruct()
      requires Valid()
      modifies impl
      ensures impl != null ==> impl.Gone()
    {
      if impl != null {
        impl.Release();
      }
    }

    /** Move assignment through a temporary: this wrapper's object is released once and
        the other's taken over; onto itself nothing changes and nothing is released. */
    method MoveAssign(other: Wrapper)
      requires Valid() && other.Valid()
      requires this != other && impl != null ==> impl != other.impl
      modifies this, other, impl
      ensures Valid() && other.Valid()
      ensures table == old(other.table) && impl == old(other.impl)
      ensures this != other ==> other.table == Nothing && other.impl == null
      ensures this != other && old(impl) != null ==> old(impl).Gone()
    {
      var temporary := new Wrapper.Move(name, other);
      temporary.SwapWith(this);
      temporary.Destruct();
    }

    method AssignNull()
      requires Valid()
      modifies this, impl
      ensures Valid() && table == Nothing && impl == null
      ensures old(impl) != null ==> old(impl).Gone()
    {
      var temporary := new Wrapper.Empty(name);
      temporary.SwapWith(this);
      temporary.Destruct();
    }

    /** The call operator: the target runs once, after its storage was released and
        this wrapper was emptied. An empty wrapper throws instead. */
    method Invoke() returns (ran: Maybe<Run>)
      requires Valid()
      modifies this, impl
      ensures Valid() && impl == null && table == old(table)
      ensures ran == if old(impl) == null then Nothing else Just(Run(old(impl).kind, true, true))
      ensures old(impl) != null ==> old(impl).Gone()
    {
      if impl == null {
        return Nothing;
      }
      var target := impl;
      impl := null;
      var handler := table.value;
      target.Release();
      ran := Just(Run(handler, target.destroyed == 1 && target.freed == 1, impl == null));
    }
  }
}
