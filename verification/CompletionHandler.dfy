/** Ownership in the type-erased completion handler: wrappers that own, move, swap, call and free handler objects.

    A wrapper is a pair of pointers. A handler object is identified by the order of its creation; its type decides
    which function table may be used with it.
 */
module CompletionHandler {

  type WrapperId = nat
  type HandlerId = nat
  type TypeId = nat

  datatype Option<+T> = None | Some(value: T)

  /** `fn_table_` and `impl_`; the table is named by the handler type it was made for. */
  datatype Slot = Slot(fnTable: Option<TypeId>, impl: Option<HandlerId>)

  const EMPTY: Slot := Slot(None, None)

  /** A handler object's destructor ran and its storage was given back, through the table of type `via`. */
  datatype Free = Free(handler: HandlerId, via: TypeId)

  /** A handler was invoked when the first `after` entries of `freed` had happened. */
  datatype Invocation = Invocation(handler: HandlerId, after: nat)

  datatype World = World(slots: map<WrapperId, Slot>, types: seq<TypeId>, freed: seq<Free>, invoked: seq<Invocation>)

  datatype Op =
    | MakeEmpty(w: WrapperId)
    | Make(w: WrapperId, t: TypeId)
    | MoveMake(w: WrapperId, from: WrapperId)
    | MoveTo(w: WrapperId, from: WrapperId)
    | Clear(w: WrapperId)
    | Swap(w: WrapperId, with: WrapperId)
    | Call(w: WrapperId)
    | Destroy(w: WrapperId)

  /** Wrappers are constructed once, used only while they exist, and may be the same in `MoveTo` and `Swap`. */
  predicate Enabled(s: World, op: Op) {
    match op
    case MakeEmpty(w) => w !in s.slots
    case Make(w, _) => w !in s.slots
    case MoveMake(w, from) => w !in s.slots && from in s.slots
    case MoveTo(w, from) => w in s.slots && from in s.slots
    case Swap(w, with) => w in s.slots && with in s.slots
    case Clear(w) => w in s.slots
    case Call(w) => w in s.slots
    case Destroy(w) => w in s.slots
  }

  /** Destroying what a slot owns, if anything. */
  function Released(s: World, slot: Slot): World {
    if slot.impl.Some? && slot.fnTable.Some? then s.(freed := s.freed + [Free(slot.impl.value, slot.fnTable.value)]) else s
  }

  function With(s: World, w: WrapperId, slot: Slot): World {
    s.(slots := s.slots[w := slot])
  }

  /** What each operation is for, said directly. */
  function After(s: World, op: Op): World
    requires Enabled(s, op)
  {
    match op
    case MakeEmpty(w) => With(s, w, EMPTY)
    case Make(w, t) => With(s.(types := s.types + [t]), w, Slot(Some(t), Some(|s.types|)))
    case MoveMake(w, from) => With(With(s, w, s.slots[from]), from, EMPTY)
    case MoveTo(w, from) =>
      if w == from then s else With(With(Released(s, s.slots[w]), w, s.slots[from]), from, EMPTY)
    case Swap(w, with) => With(With(s, w, s.slots[with]), with, s.slots[w])
    case Clear(w) => With(Released(s, s.slots[w]), w, EMPTY)
    case Call(w) => if s.slots[w].impl.None? then s else Called(s, w)
    case Destroy(w) => var r := Released(s, s.slots[w]); r.(slots := r.slots - {w})
  }

  /** The object is freed first, then the handler (moved out of it) is invoked; the table pointer stays. */
  function Called(s: World, w: WrapperId): World
    requires w in s.slots && s.slots[w].impl.Some?
  {
    var r := With(Released(s, s.slots[w]), w, s.slots[w].(impl := None));
    r.(invoked := r.invoked + [Invocation(s.slots[w].impl.value, |r.freed|)])
  }

  // ---------------------------------------------------------------- the operations as the code performs them

  class Wrappers {
    var slots: map<WrapperId, Slot>
    var types: seq<TypeId>
    var freed: seq<Free>
    var invoked: seq<Invocation>

    ghost function Value(): World
      reads this
    {
      World(slots, types, freed, invoked)
    }

    constructor ()
      ensures Value() == World(map[], [], [], [])
    {
      slots, types, freed, invoked := map[], [], [], [];
    }

    /** The destructor, on a slot that is going away. */
    method DestroySlot(slot: Slot)
      requires slot.impl.Some? ==> slot.fnTable.Some?
      modifies this`freed
      ensures Value() == Released(old(Value()), slot)
    {
      if slot.impl.Some? {
        freed := freed + [Free(slot.impl.value, slot.fnTable.value)];
      }
    }

    method MakeEmpty(w: WrapperId)
      requires Enabled(Value(), Op.MakeEmpty(w))
      modifies this
      ensures Value() == After(old(Value()), Op.MakeEmpty(w))
    {
      slots := slots[w := EMPTY];
    }

    method Make(w: WrapperId, t: TypeId)
      requires Enabled(Value(), Op.Make(w, t))
      modifies this
      ensures Value() == After(old(Value()), Op.Make(w, t))
    {
      var impl := |types|;
      types := types + [t];
      slots := slots[w := Slot(Some(t), Some(impl))];
    }

    method MoveMake(w: WrapperId, from: WrapperId)
      requires Enabled(Value(), Op.MoveMake(w, from))
      modifies this
      ensures Value() == After(old(Value()), Op.MoveMake(w, from))
    {
      slots := slots[w := slots[from]];
      slots := slots[from := EMPTY];
    }

    method Swap(w: WrapperId, with: WrapperId)
      requires Enabled(Value(), Op.Swap(w, with))
      modifies this
      ensures Value() == After(old(Value()), Op.Swap(w, with))
    {
      var mine, other := slots[w], slots[with];
      slots := slots[w := Slot(other.fnTable, other.impl)];
      slots := slots[with := Slot(mine.fnTable, mine.impl)];
    }

    /** Move assignment through a temporary: move `from` into it, swap with `w`, destroy it. `from` may be `w`. */
    method MoveTo(w: WrapperId, from: WrapperId)
      requires Enabled(Value(), Op.MoveTo(w, from)) && Owned(Value())
      modifies this
      ensures Value() == After(old(Value()), Op.MoveTo(w, from))
    {
      TableKept(Value(), w);
      var temporary := slots[from];
      slots := slots[from := EMPTY];
      var mine := slots[w];
      slots := slots[w := temporary];
      temporary := mine;
      DestroySlot(temporary);
      if w == from {
        assert slots == old(slots);
      } else {
        assert slots == old(slots)[w := old(slots)[from]][from := EMPTY];
      }
    }

    /** Assigning null: an empty temporary is swapped in, and destroyed with the old content. */
    method Clear(w: WrapperId)
      requires Enabled(Value(), Op.Clear(w)) && Owned(Value())
      modifies this
      ensures Value() == After(old(Value()), Op.Clear(w))
    {
      TableKept(Value(), w);
      var temporary := EMPTY;
      var mine := slots[w];
      slots := slots[w := temporary];
      temporary := mine;
      DestroySlot(temporary);
    }

    /** The call operator; `ok` is false where the code throws `bad_function_call`. */
    method Call(w: WrapperId) returns (ok: bool)
      requires Enabled(Value(), Op.Call(w)) && Owned(Value())
      modifies this
      ensures Value() == After(old(Value()), Op.Call(w))
      ensures ok <==> old(slots)[w].impl.Some?
    {
      TableKept(Value(), w);
      var impl := slots[w].impl;
      if impl.Some? {
        slots := slots[w := slots[w].(impl := None)];
        freed := freed + [Free(impl.value, slots[w].fnTable.value)];
        invoked := invoked + [Invocation(impl.value, |freed|)];
        return true;
      }
      return false;
    }

    method Destroy(w: WrapperId)
      requires Enabled(Value(), Op.Destroy(w)) && Owned(Value())
      modifies this
      ensures Value() == After(old(Value()), Op.Destroy(w))
    {
      TableKept(Value(), w);
      DestroySlot(slots[w]);
      slots := slots - {w};
    }
  }

  // ---------------------------------------------------------------- the invariant

  ghost predicate Owns(s: World, w: WrapperId, h: HandlerId) {
    w in s.slots && s.slots[w].impl == Some(h)
  }

  ghost predicate IsFreed(s: World, h: HandlerId) {
    exists i :: 0 <= i < |s.freed| && s.freed[i].handler == h
  }

  /** Whoever owns an object has the table of its type, and nobody else owns it. */
  ghost predicate Owned(s: World) {
    && (forall w: WrapperId, h: HandlerId :: Owns(s, w, h) ==> h < |s.types| && s.slots[w].fnTable == Some(s.types[h]) && !IsFreed(s, h))
    && (forall v: WrapperId, w: WrapperId, h: HandlerId :: Owns(s, v, h) && Owns(s, w, h) ==> v == w)
  }

  lemma TableKept(s: World, w: WrapperId)
    requires Owned(s) && w in s.slots
    ensures s.slots[w].impl.Some? ==> s.slots[w].fnTable.Some?
  {
    if s.slots[w].impl.Some? {
      assert Owns(s, w, s.slots[w].impl.value);
    }
  }

  /** Every object that is not freed has an owner. */
  ghost predicate NoLeak(s: World) {
    forall h: HandlerId :: h < |s.types| ==> IsFreed(s, h) || exists w :: Owns(s, w, h)
  }

  /** Objects are freed at most once, through their own type's table. */
  ghost predicate FreedOnce(s: World) {
    && (forall i :: 0 <= i < |s.freed| ==> s.freed[i].handler < |s.types| && s.freed[i].via == s.types[s.freed[i].handler])
    && (forall i, j :: 0 <= i < j < |s.freed| ==> s.freed[i].handler != s.freed[j].handler)
  }

  /** Handlers are invoked at most once, and only after their object was freed. */
  ghost predicate InvokedOnce(s: World) {
    && (forall i :: 0 <= i < |s.invoked| ==>
          0 < s.invoked[i].after <= |s.freed| && s.freed[s.invoked[i].after - 1].handler == s.invoked[i].handler)
    && (forall i, j :: 0 <= i < j < |s.invoked| ==> s.invoked[i].handler != s.invoked[j].handler)
  }

  ghost predicate Inv(s: World) {
    Owned(s) && NoLeak(s) && FreedOnce(s) && InvokedOnce(s)
  }

  /** What is freed after freeing what `w` owns. */
  lemma ReleaseFreed(s: World, w: WrapperId, h: HandlerId, k: HandlerId)
    requires Owned(s) && Owns(s, w, h)
    ensures IsFreed(Released(s, s.slots[w]), k) <==> IsFreed(s, k) || k == h
  {
    var r := Released(s, s.slots[w]);
    assert r.freed[|s.freed|].handler == h;
    if IsFreed(s, k) {
      var i :| 0 <= i < |s.freed| && s.freed[i].handler == k;
      assert r.freed[i].handler == k;
    }
  }

  lemma ReleasedFreed(s: World, w: WrapperId, h: HandlerId, slot: Slot)
    requires Owned(s) && Owns(s, w, h)
    ensures forall k: HandlerId :: IsFreed(With(Released(s, s.slots[w]), w, slot), k) <==> IsFreed(s, k) || k == h
  {
    var r := With(Released(s, s.slots[w]), w, slot);
    forall k: HandlerId ensures IsFreed(r, k) <==> IsFreed(s, k) || k == h {
      ReleaseFreed(s, w, h, k);
      assert IsFreed(r, k) <==> IsFreed(Released(s, s.slots[w]), k);
    }
  }

  lemma ReleaseOwned(s: World, r: World, w: WrapperId, h: HandlerId)
    requires Owned(s) && NoLeak(s) && Owns(s, w, h) && r.types == s.types
    requires forall v: WrapperId, k: HandlerId :: Owns(r, v, k) <==> Owns(s, v, k) && v != w
    requires forall v: WrapperId, k: HandlerId :: Owns(r, v, k) ==> r.slots[v] == s.slots[v]
    requires forall k: HandlerId :: IsFreed(r, k) <==> IsFreed(s, k) || k == h
    ensures Owned(r) && NoLeak(r)
  {
    forall k: HandlerId | k < |r.types| ensures IsFreed(r, k) || exists v :: Owns(r, v, k) {
      if !IsFreed(s, k) && k != h {
        var v :| Owns(s, v, k);
        assert Owns(r, v, k);
      }
    }
  }

  lemma ReleaseOnce(s: World, w: WrapperId, h: HandlerId)
    requires Owned(s) && FreedOnce(s) && InvokedOnce(s) && Owns(s, w, h)
    ensures FreedOnce(Released(s, s.slots[w])) && InvokedOnce(Released(s, s.slots[w]))
  {
    assert !IsFreed(s, h);
  }

  /** Freeing what `w` owns and emptying `w` (keeping or dropping the table) keeps everything in order. */
  lemma ReleaseInv(s: World, w: WrapperId, slot: Slot)
    requires Inv(s) && w in s.slots && slot.impl.None?
    ensures Inv(With(Released(s, s.slots[w]), w, slot))
  {
    var r := With(Released(s, s.slots[w]), w, slot);
    if s.slots[w].impl.Some? {
      ReleaseOwner(s, w, s.slots[w].impl.value, slot);
    } else {
      SameOwners(s, r);
    }
  }

  lemma ReleaseOwner(s: World, w: WrapperId, h: HandlerId, slot: Slot)
    requires Inv(s) && Owns(s, w, h) && slot.impl.None?
    ensures Inv(With(Released(s, s.slots[w]), w, slot))
  {
    var r := With(Released(s, s.slots[w]), w, slot);
    ReleasedFreed(s, w, h, slot);
    ReleaseOwns(s, r, w);
    ReleaseOwned(s, r, w, h);
    ReleaseOnce(s, w, h);
  }

  /** Emptying `w` takes its ownership away and nobody else's. */
  lemma ReleaseOwns(s: World, r: World, w: WrapperId)
    requires w in s.slots && w in r.slots && r.slots == s.slots[w := r.slots[w]] && r.slots[w].impl.None?
    ensures forall v: WrapperId, k: HandlerId :: Owns(r, v, k) <==> Owns(s, v, k) && v != w
    ensures forall v: WrapperId, k: HandlerId :: Owns(r, v, k) ==> r.slots[v] == s.slots[v]
  {
  }

  /** Only ownership changed, and only in who is who. */
  lemma SameOwners(s: World, r: World)
    requires Inv(s) && r.types == s.types && r.freed == s.freed && r.invoked == s.invoked
    requires forall w: WrapperId, h: HandlerId :: Owns(r, w, h) <==> Owns(s, w, h)
    requires forall w: WrapperId, h: HandlerId :: Owns(r, w, h) ==> r.slots[w].fnTable == s.slots[w].fnTable
    ensures Inv(r)
  {
    forall h: HandlerId | h < |r.types| ensures IsFreed(r, h) || exists w :: Owns(r, w, h) {
      if !IsFreed(s, h) {
        var w :| Owns(s, w, h);
        assert Owns(r, w, h);
      }
    }
    assert forall h: HandlerId :: IsFreed(r, h) <==> IsFreed(s, h);
  }

  /** Exchanging the contents of two slots, one of which may not exist yet, keeps everything in order. */
  lemma ExchangeInv(s: World, r: World, a: WrapperId, b: WrapperId)
    requires Inv(s) && r.types == s.types && r.freed == s.freed && r.invoked == s.invoked
    requires forall w: WrapperId, h: HandlerId :: Owns(r, w, h) <==> Owns(s, Other(w, a, b), h)
    requires forall w: WrapperId, h: HandlerId :: Owns(r, w, h) ==> r.slots[w].fnTable == s.slots[Other(w, a, b)].fnTable
    ensures Inv(r)
  {
    assert forall h: HandlerId :: IsFreed(r, h) <==> IsFreed(s, h);
    forall w: WrapperId, h: HandlerId | Owns(r, w, h) ensures h < |r.types| && r.slots[w].fnTable == Some(r.types[h]) && !IsFreed(r, h) {
      assert Owns(s, Other(w, a, b), h);
    }
    forall h: HandlerId | h < |r.types| ensures IsFreed(r, h) || exists w :: Owns(r, w, h) {
      if !IsFreed(s, h) {
        var w :| Owns(s, w, h);
        assert Owns(r, Other(w, a, b), h);
      }
    }
    forall v: WrapperId, w: WrapperId, h: HandlerId | Owns(r, v, h) && Owns(r, w, h) ensures v == w {
      assert Owns(s, Other(v, a, b), h) && Owns(s, Other(w, a, b), h);
    }
  }

  function Other(w: WrapperId, a: WrapperId, b: WrapperId): WrapperId {
    if w == a then b else if w == b then a else w
  }

  lemma MakeInv(s: World, w: WrapperId, t: TypeId)
    requires Inv(s) && w !in s.slots
    ensures Inv(After(s, Make(w, t)))
  {
    var r := After(s, Make(w, t));
    var n := |s.types|;
    assert Owns(r, w, n);
    assert forall h: HandlerId :: IsFreed(r, h) <==> IsFreed(s, h);
    forall v: WrapperId, h: HandlerId | Owns(r, v, h) && v != w ensures Owns(s, v, h) {
    }
    forall h: HandlerId | h < |r.types| ensures IsFreed(r, h) || exists v :: Owns(r, v, h) {
      if h < n && !IsFreed(s, h) {
        var v :| Owns(s, v, h);
        assert Owns(r, v, h);
      }
    }
  }

  lemma CallInv(s: World, w: WrapperId)
    requires Inv(s) && w in s.slots && s.slots[w].impl.Some?
    ensures Inv(Called(s, w))
  {
    var r := With(Released(s, s.slots[w]), w, s.slots[w].(impl := None));
    var h := s.slots[w].impl.value;
    assert Owns(s, w, h);
    ReleaseInv(s, w, s.slots[w].(impl := None));
    var c := Called(s, w);
    forall i | 0 <= i < |s.invoked| ensures s.invoked[i].handler != h {
      assert s.freed[s.invoked[i].after - 1].handler == s.invoked[i].handler;
      assert IsFreed(s, s.invoked[i].handler);
    }
    SameButInvoked(r, c);
  }

  lemma SameButInvoked(r: World, c: World)
    requires Inv(r) && c.slots == r.slots && c.types == r.types && c.freed == r.freed && InvokedOnce(c)
    ensures Inv(c)
  {
    assert forall h: HandlerId :: IsFreed(c, h) <==> IsFreed(r, h);
    forall h: HandlerId | h < |c.types| ensures IsFreed(c, h) || exists w :: Owns(c, w, h) {
      if !IsFreed(r, h) {
        var w :| Owns(r, w, h);
        assert Owns(c, w, h);
      }
    }
    forall w: WrapperId, h: HandlerId | Owns(c, w, h) ensures h < |c.types| && c.slots[w].fnTable == Some(c.types[h]) && !IsFreed(c, h) {
      assert Owns(r, w, h);
    }
    forall v: WrapperId, w: WrapperId, h: HandlerId | Owns(c, v, h) && Owns(c, w, h) ensures v == w {
      assert Owns(r, v, h) && Owns(r, w, h);
    }
  }

  lemma MoveToInv(s: World, w: WrapperId, from: WrapperId)
    requires Inv(s) && w in s.slots && from in s.slots && w != from
    ensures Inv(After(s, MoveTo(w, from)))
  {
    var r := With(Released(s, s.slots[w]), w, EMPTY);
    ReleaseInv(s, w, EMPTY);
    ExchangeInv(r, After(s, MoveTo(w, from)), w, from);
  }

  lemma DestroyInv(s: World, w: WrapperId)
    requires Inv(s) && w in s.slots
    ensures Inv(After(s, Destroy(w)))
  {
    ReleaseInv(s, w, EMPTY);
    SameOwners(With(Released(s, s.slots[w]), w, EMPTY), After(s, Destroy(w)));
  }

  lemma AfterInv(s: World, op: Op)
    requires Inv(s) && Enabled(s, op)
    ensures Inv(After(s, op))
  {
    match op
    case MakeEmpty(w) => SameOwners(s, After(s, op));
    case Make(w, t) => MakeInv(s, w, t);
    case MoveMake(w, from) => ExchangeInv(s, After(s, op), w, from);
    case MoveTo(w, from) =>
      if w != from {
        MoveToInv(s, w, from);
      }
    case Swap(w, with) => ExchangeInv(s, After(s, op), w, with);
    case Clear(w) => ReleaseInv(s, w, EMPTY);
    case Call(w) =>
      if s.slots[w].impl.Some? {
        CallInv(s, w);
      }
    case Destroy(w) => DestroyInv(s, w);
  }

  // ---------------------------------------------------------------- what one operation does

  /** Wrapper `v` owns handler object `h` after an operation if, before it, ... */
  ghost predicate Inherits(s: World, op: Op, v: WrapperId, h: HandlerId) {
    match op
    case MakeEmpty(_) => Owns(s, v, h)
    case Make(w, _) => if v == w then h == |s.types| else Owns(s, v, h)
    case MoveMake(w, from) => if v == w then Owns(s, from, h) else v != from && Owns(s, v, h)
    case MoveTo(w, from) => if v == w then Owns(s, from, h) else v != from && Owns(s, v, h)
    case Swap(w, with) => if v == w then Owns(s, with, h) else if v == with then Owns(s, w, h) else Owns(s, v, h)
    case Clear(w) => v != w && Owns(s, v, h)
    case Call(w) => v != w && Owns(s, v, h)
    case Destroy(w) => v != w && Owns(s, v, h)
  }

  lemma OwnersAfter(s: World, op: Op)
    requires Enabled(s, op)
    ensures forall v: WrapperId, h: HandlerId :: Owns(After(s, op), v, h) <==> Inherits(s, op, v, h)
  {
    forall v: WrapperId, h: HandlerId ensures Owns(After(s, op), v, h) <==> Inherits(s, op, v, h) {
      OwnerAfter(s, op, v, h);
    }
  }

  lemma OwnerAfter(s: World, op: Op, v: WrapperId, h: HandlerId)
    requires Enabled(s, op)
    ensures Owns(After(s, op), v, h) <==> Inherits(s, op, v, h)
  {
  }

  /** A call, a clear, a destruction and a move onto another wrapper free what the wrapper owns, through its type's table. */
  ghost predicate Frees(s: World, op: Op, h: HandlerId) {
    (op.Call? || op.Clear? || op.Destroy? || (op.MoveTo? && op.from != op.w)) && Owns(s, op.w, h)
  }

  /** They free that object and nothing else, and a call invokes that handler and no other: exactly once, after the free. */
  lemma EffectsAfter(s: World, op: Op)
    requires Owned(s) && Enabled(s, op)
    ensures forall h: HandlerId :: Frees(s, op, h) ==> h < |s.types| && After(s, op).freed == s.freed + [Free(h, s.types[h])]
    ensures (forall h: HandlerId :: !Frees(s, op, h)) ==> After(s, op).freed == s.freed
    ensures forall h: HandlerId :: op.Call? && Owns(s, op.w, h) ==> After(s, op).invoked == s.invoked + [Invocation(h, |s.freed| + 1)]
    ensures !(op.Call? && s.slots[op.w].impl.Some?) ==> After(s, op).invoked == s.invoked
  {
    if op.w in s.slots && s.slots[op.w].impl.Some? {
      var h := s.slots[op.w].impl.value;
      assert Owns(s, op.w, h);
      assert Frees(s, op, h) <==> op.Call? || op.Clear? || op.Destroy? || (op.MoveTo? && op.from != op.w);
    }
  }

  // ---------------------------------------------------------------- any sequence of operations

  ghost predicate AllEnabled(ops: seq<Op>)
    decreases |ops|, 0
  {
    ops == [] || (AllEnabled(ops[..|ops| - 1]) && Enabled(Run(ops[..|ops| - 1]), ops[|ops| - 1]))
  }

  ghost function Run(ops: seq<Op>): World
    requires AllEnabled(ops)
    decreases |ops|, 1
  {
    if ops == [] then World(map[], [], [], []) else After(Run(ops[..|ops| - 1]), ops[|ops| - 1])
  }

  lemma {:induction false} RunInv(ops: seq<Op>)
    requires AllEnabled(ops)
    ensures Inv(Run(ops))
  {
    if ops == [] {
    } else {
      RunInv(ops[..|ops| - 1]);
      AfterInv(Run(ops[..|ops| - 1]), ops[|ops| - 1]);
    }
  }

  function FreeCount(freed: seq<Free>, h: HandlerId): nat {
    if freed == [] then 0
    else FreeCount(freed[..|freed| - 1], h) + if freed[|freed| - 1].handler == h then 1 else 0
  }

  lemma {:induction false} CountDistinct(freed: seq<Free>, h: HandlerId)
    requires forall i, j :: 0 <= i < j < |freed| ==> freed[i].handler != freed[j].handler
    ensures FreeCount(freed, h) == if exists i :: 0 <= i < |freed| && freed[i].handler == h then 1 else 0
  {
    if freed != [] {
      var init := freed[..|freed| - 1];
      CountDistinct(init, h);
      if i :| 0 <= i < |init| && init[i].handler == h {
        assert freed[i].handler == h;
      } else if freed[|freed| - 1].handler != h {
        assert forall i :: 0 <= i < |freed| && i < |freed| - 1 ==> freed[i] == init[i];
      }
    }
  }

  /** After any sequence of operations, a handler object has exactly one owner and has not been freed, or it has none
      and has been freed exactly once. When no wrapper is left, every object ever created has been freed exactly once. */
  lemma FreedExactlyOnce(ops: seq<Op>, h: HandlerId)
    requires AllEnabled(ops) && h < |Run(ops).types|
    ensures var s := Run(ops);
            FreeCount(s.freed, h) == if exists w :: Owns(s, w, h) then 0 else 1
    ensures Run(ops).slots == map[] ==> FreeCount(Run(ops).freed, h) == 1
  {
    RunInv(ops);
    var s := Run(ops);
    CountDistinct(s.freed, h);
    assert IsFreed(s, h) <==> !exists w :: Owns(s, w, h);
    if s.slots == map[] {
      assert !exists w :: Owns(s, w, h);
    }
  }

  /** After any sequence of operations each handler has been invoked at most once, and its object's storage had been
      given back by then. */
  lemma InvokedAfterFree(ops: seq<Op>, i: nat, j: nat)
    requires AllEnabled(ops) && i < |Run(ops).invoked| && j < |Run(ops).invoked|
    ensures var s := Run(ops);
            && (s.invoked[i].handler == s.invoked[j].handler ==> i == j)
            && 0 < s.invoked[i].after <= |s.freed| && s.freed[s.invoked[i].after - 1].handler == s.invoked[i].handler
  {
    RunInv(ops);
  }

  /** After any sequence of operations, calling a wrapper that owns a handler invokes it, once, with its storage given
      back first; calling one that owns none changes nothing. */
  lemma CallInvokes(ops: seq<Op>, w: WrapperId)
    requires AllEnabled(ops) && w in Run(ops).slots
    ensures AllEnabled(ops + [Call(w)])
    ensures var s, r := Run(ops), Run(ops + [Call(w)]);
            if s.slots[w].impl.None? then r == s
            else
              var h := s.slots[w].impl.value;
              && h < |s.types| && r.freed == s.freed + [Free(h, s.types[h])]
              && r.invoked == s.invoked + [Invocation(h, |r.freed|)] && forall v: WrapperId :: !Owns(r, v, h)
  {
    RunInv(ops);
    assert (ops + [Call(w)])[..|ops|] == ops;
    EffectsAfter(Run(ops), Call(w));
    OwnersAfter(Run(ops), Call(w));
    var s := Run(ops);
    if s.slots[w].impl.Some? {
      assert Owns(s, w, s.slots[w].impl.value);
    }
  }

  /** The two pointers of every wrapper are null together. */
  ghost predicate Agree(s: World) {
    forall w :: w in s.slots ==> (s.slots[w].fnTable.Some? <==> s.slots[w].impl.Some?)
  }

  /** From a state where the two pointers of every wrapper are null together, the operations that keep it so are all
      but the call of a wrapper that owns something, which leaves an empty wrapper with its table pointer set. */
  lemma AgreeKept(s: World, op: Op)
    requires Agree(s) && Enabled(s, op)
    ensures Agree(After(s, op)) <==> !(op.Call? && s.slots[op.w].impl.Some?)
  {
    if op.Call? && s.slots[op.w].impl.Some? {
      assert After(s, op).slots[op.w] == s.slots[op.w].(impl := None);
    }
  }
}
