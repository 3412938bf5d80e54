// The wrappers on the heap take the steps of the model: what is proved over
// sequences of operations holds of fields that are nulled and swapped.
module HandlerHeap {
  import opened Basics
  import opened HandlerOwnership

  ghost function SlotOf(x: Wrapper): Slot
    reads x
  {
    Slot(x.table, if x.impl == null then Nothing else Just(x.impl.order))
  }

  ghost function LifeOf(i: Impl): Life
    reads i
  {
    Life(i.kind, 1, i.built, i.destroyed, i.freed)
  }

  /** The wrappers of a program, every storage allocated for a handler, and the calls made. */
  class Heap {
    var wrappers: map<W, Wrapper>
    ghost var objects: seq<Impl>
    ghost var calls: seq<Call>

    ghost function Slots(): map<W, Slot>
      reads this, wrappers.Values
    {
      map w <- wrappers :: SlotOf(wrappers[w])
    }

    ghost function Lives(): (r: seq<Life>)
      reads this, objects
      ensures |r| == |objects|
    {
      seq(|objects|, k requires 0 <= k < |objects| reads this, objects => LifeOf(objects[k]))
    }

    ghost function Abs(): State
      reads this, wrappers.Values, objects
    {
      State(Slots(), Lives(), calls)
    }

    /** Objects are in the order of their allocation. */
    ghost predicate Ordered()
      reads this
    {
      forall k :: 0 <= k < |objects| ==> objects[k].order == k
    }

    /** Wrappers are apart. */
    ghost predicate Apart()
      reads this
    {
      forall w <- wrappers :: wrappers[w].name == w
    }

    /** Owned objects are among those allocated. */
    ghost predicate Known()
      reads this, wrappers.Values
    {
      forall w <- wrappers :: Has(wrappers[w].impl)
    }

    ghost predicate Has(i: Impl?)
      reads this
    {
      i != null ==> i.order < |objects| && objects[i.order] == i
    }

    ghost predicate Valid()
      reads this, wrappers.Values, objects
    {
      Ordered() && Apart() && Known() && Inv(Abs())
    }

    constructor ()
      ensures Valid() && Abs() == State(map[], [], [])
    {
      wrappers, objects, calls := map[], [], [];
    }

    /** What the invariant says of one wrapper. */
    lemma Holds(w: W)
      requires Valid() && w in wrappers
      ensures wrappers[w].Valid()
      ensures wrappers[w].impl != null ==> forall v <- wrappers :: v != w ==> wrappers[v].impl != wrappers[w].impl
    {
      var impl := wrappers[w].impl;
      if impl != null {
        var k := impl.order;
        assert Has(impl);
        assert Abs().slots[w].impl == Just(k) && OwnsSoundly(Abs().slots[w], Abs().lives) && Owned(Abs(), k);
        assert HandlerOwnership.Alive(Abs().lives[k]);
        forall v <- wrappers | v != w ensures wrappers[v].impl != impl {
          assert Abs().slots[v].impl != Abs().slots[w].impl;
        }
      }
    }

    method Default(w: W)
      requires Valid() && Enabled(Abs(), Op.Default(w))
      modifies this
      ensures Valid() && Abs() == Step(old(Abs()), Op.Default(w))
    {
      hide Inv;
      StepKeeps(Abs(), Op.Default(w));
      var x := new Wrapper.Empty(w);
      wrappers := wrappers[w := x];
      assert Slots() == Step(old(Abs()), Op.Default(w)).slots;
      assert Lives() == Step(old(Abs()), Op.Default(w)).lives;
    }

    /** Construction when the handler's own constructor throws: there is no wrapper. */
    method ConstructFails(w: W, kind: Kind)
      requires Valid() && Enabled(Abs(), Op.Construct(w, kind, true))
      modifies this
      ensures Valid() && Abs() == Step(old(Abs()), Op.Construct(w, kind, true))
    {
      hide Inv;
      StepKeeps(Abs(), Op.Construct(w, kind, true));
      ghost var _, storage := Impl.Create(kind, true, |objects|);
      objects := objects + [storage];
      assert Slots() == Step(old(Abs()), Op.Construct(w, kind, true)).slots;
      assert Lives() == Step(old(Abs()), Op.Construct(w, kind, true)).lives;
    }

    method Construct(w: W, kind: Kind)
      requires Valid() && Enabled(Abs(), Op.Construct(w, kind, false))
      modifies this
      ensures Valid() && Abs() == Step(old(Abs()), Op.Construct(w, kind, false))
      ensures w in wrappers && wrappers[w].impl != null && wrappers[w].impl.kind == kind && wrappers[w].table == Just(kind)
    {
      hide Inv;
      StepKeeps(Abs(), Op.Construct(w, kind, false));
      var impl, storage := Impl.Create(kind, false, |objects|);
      objects := objects + [storage];
      var x := new Wrapper.Of(w, impl);
      wrappers := wrappers[w := x];
      assert Slots() == Step(old(Abs()), Op.Construct(w, kind, false)).slots;
      assert Lives() == Step(old(Abs()), Op.Construct(w, kind, false)).lives;
    }

    method MoveConstruct(w: W, from: W)
      requires Valid() && Enabled(Abs(), Op.MoveConstruct(w, from))
      modifies this, wrappers.Values
      ensures Valid() && Abs() == Step(old(Abs()), Op.MoveConstruct(w, from))
    {
      hide Inv;
      StepKeeps(Abs(), Op.MoveConstruct(w, from));
      Holds(from);
      var x := new Wrapper.Move(w, wrappers[from]);
      wrappers := wrappers[w := x];
      assert Slots() == Step(old(Abs()), Op.MoveConstruct(w, from)).slots;
      assert Lives() == Step(old(Abs()), Op.MoveConstruct(w, from)).lives;
    }

    method MoveAssign(w: W, from: W)
      requires Valid() && Enabled(Abs(), Op.MoveAssign(w, from))
      modifies wrappers.Values, objects
      ensures Valid() && Abs() == Step(old(Abs()), Op.MoveAssign(w, from))
    {
      hide Inv;
      StepKeeps(Abs(), Op.MoveAssign(w, from));
      Holds(w);
      Holds(from);
      wrappers[w].MoveAssign(wrappers[from]);
      assert Slots() == Step(old(Abs()), Op.MoveAssign(w, from)).slots;
      assert Lives() == Step(old(Abs()), Op.MoveAssign(w, from)).lives;
    }

    method AssignNull(w: W)
      requires Valid() && Enabled(Abs(), Op.AssignNull(w))
      modifies wrappers.Values, objects
      ensures Valid() && Abs() == Step(old(Abs()), Op.AssignNull(w))
    {
      hide Inv;
      StepKeeps(Abs(), Op.AssignNull(w));
      Holds(w);
      wrappers[w].AssignNull();
      assert Slots() == Step(old(Abs()), Op.AssignNull(w)).slots;
      assert Lives() == Step(old(Abs()), Op.AssignNull(w)).lives;
    }

    method Swap(w: W, other: W)
      requires Valid() && Enabled(Abs(), Op.Swap(w, other))
      modifies wrappers.Values
      ensures Valid() && Abs() == Step(old(Abs()), Op.Swap(w, other))
    {
      hide Inv;
      StepKeeps(Abs(), Op.Swap(w, other));
      Holds(w);
      Holds(other);
      wrappers[w].SwapWith(wrappers[other]);
      assert Slots() == Step(old(Abs()), Op.Swap(w, other)).slots;
      assert Lives() == Step(old(Abs()), Op.Swap(w, other)).lives;
    }

    method Destroy(w: W)
      requires Valid() && Enabled(Abs(), Op.Destroy(w))
      modifies this, wrappers.Values, objects
      ensures Valid() && Abs() == Step(old(Abs()), Op.Destroy(w))
    {
      hide Inv;
      StepKeeps(Abs(), Op.Destroy(w));
      Holds(w);
      wrappers[w].Destruct();
      assert Slots() == old(Slots()) && Lives() == Drop(old(Lives()), old(Slots())[w]);
      wrappers := wrappers - {w};
      assert Slots() == Step(old(Abs()), Op.Destroy(w)).slots;
      assert Lives() == Step(old(Abs()), Op.Destroy(w)).lives;
    }

    method Invoke(w: W)
      requires Valid() && Enabled(Abs(), Op.Invoke(w))
      modifies this, wrappers.Values, objects
      ensures Valid() && Abs() == Step(old(Abs()), Op.Invoke(w))
    {
      hide Inv;
      StepKeeps(Abs(), Op.Invoke(w));
      Holds(w);
      ghost var impl := wrappers[w].impl;
      var ran := wrappers[w].Invoke();
      if ran.Just? {
        calls := calls + [Call(Just(ran.value.kind), impl.order, ran.value.released, ran.value.emptied)];
      }
      assert Slots() == Step(old(Abs()), Op.Invoke(w)).slots;
      assert Lives() == Step(old(Abs()), Op.Invoke(w)).lives;
    }
  }
}
