/** The broadcast packer of rules.c: actions of different sizes share filters of at most 32 tc actions. */
module Broadcast {
  import opened Base

  type Id = nat
  type Act = Tc

  const MAX_ACT_PRIO := 32
  /** The last action of each filter is the continue action. */
  const SLOTS := MAX_ACT_PRIO - 1

  // ---------------------------------------------------------------- the slots of one filter

  type Slots = seq<Option<Id>>

  /** The number of tc actions of the occupants. */
  ghost function Load(slots: Slots, size: map<Id, nat>): nat
  {
    if slots == [] then 0
    else Load(slots[..|slots| - 1], size) + SizeOf(slots[|slots| - 1], size)
  }

  ghost function SizeOf(slot: Option<Id>, size: map<Id, nat>): nat
  {
    if slot.Some? && slot.value in size then size[slot.value] else 0
  }

  lemma {:induction false} LoadUpdate(slots: Slots, size: map<Id, nat>, i: nat, slot: Option<Id>)
    requires i < |slots|
    ensures Load(slots[i := slot], size) == Load(slots, size) - SizeOf(slots[i], size) + SizeOf(slot, size)
  {
    var n, slots' := |slots|, slots[i := slot];
    if i == n - 1 {
      assert slots'[..n - 1] == slots[..n - 1];
    } else {
      assert slots'[..n - 1] == slots[..n - 1][i := slot];
      LoadUpdate(slots[..n - 1], size, i, slot);
    }
  }

  lemma {:induction false} LoadFrame(slots: Slots, size: map<Id, nat>, size': map<Id, nat>)
    requires forall i :: 0 <= i < |slots| ==> SizeOf(slots[i], size') == SizeOf(slots[i], size)
    ensures Load(slots, size') == Load(slots, size)
  {
    if slots != [] { LoadFrame(slots[..|slots| - 1], size, size'); }
  }

  /** A filter without a free slot carries at least one tc action per slot. */
  lemma {:induction false} FullLoad(slots: Slots, size: map<Id, nat>)
    requires forall i :: 0 <= i < |slots| ==> slots[i].Some? && slots[i].value in size && size[slots[i].value] >= 1
    ensures Load(slots, size) >= |slots|
  {
    if slots != [] { FullLoad(slots[..|slots| - 1], size); }
  }

  lemma {:induction false} EmptyLoad(slots: Slots, size: map<Id, nat>)
    requires forall i :: 0 <= i < |slots| ==> slots[i] == None
    ensures Load(slots, size) == 0
  {
    if slots != [] { EmptyLoad(slots[..|slots| - 1], size); }
  }

  // ---------------------------------------------------------------- what a flush emits

  /** A tc action with its order in the filter. */
  datatype Numbered = Numbered(order: nat, act: Act) | Continue(order: nat)

  /** The callback of an action description numbers its tc actions from the order it is given. */
  function Emit(order: nat, acts: seq<Act>): (r: seq<Numbered>)
    ensures |r| == |acts| && forall i :: 0 <= i < |acts| ==> r[i] == Numbered(order + i, acts[i])
    decreases acts
  {
    if acts == [] then [] else [Numbered(order, acts[0])] + Emit(order + 1, acts[1..])
  }

  /** The tc actions of the occupants, slot by slot. */
  ghost function Payload(slots: Slots, descs: map<Id, seq<Act>>): seq<Act>
  {
    if slots == [] then []
    else Payload(slots[..|slots| - 1], descs) +
         (if slots[|slots| - 1].Some? && slots[|slots| - 1].value in descs then descs[slots[|slots| - 1].value] else [])
  }

  ghost function Sizes(descs: map<Id, seq<Act>>): map<Id, nat> { map a | a in descs :: |descs[a]| }

  lemma {:induction false} PayloadLoad(slots: Slots, descs: map<Id, seq<Act>>)
    ensures |Payload(slots, descs)| == Load(slots, Sizes(descs))
  {
    if slots != [] { PayloadLoad(slots[..|slots| - 1], descs); }
  }

  lemma {:induction false} PayloadFrame(slots: Slots, descs: map<Id, seq<Act>>, descs': map<Id, seq<Act>>)
    requires forall i :: 0 <= i < |slots| && slots[i].Some? ==>
               (slots[i].value in descs <==> slots[i].value in descs') && (slots[i].value in descs ==> descs'[slots[i].value] == descs[slots[i].value])
    ensures Payload(slots, descs') == Payload(slots, descs)
  {
    if slots != [] { PayloadFrame(slots[..|slots| - 1], descs, descs'); }
  }

  /** The action list that a filter has in the kernel: numbered from 1 without gap or overlap, then a continue. */
  ghost function FilterActions(slots: Slots, descs: map<Id, seq<Act>>): seq<Numbered>
  {
    var p := Payload(slots, descs);
    Emit(1, p) + [Continue(1 + |p|)]
  }

  lemma EmitSplit(order: nat, a: seq<Act>, b: seq<Act>)
    ensures Emit(order, a + b) == Emit(order, a) + Emit(order + |a|, b)
  {}

  // ---------------------------------------------------------------- filters

  /** `struct lsdn_broadcast_filter`; filters are known by their priority. */
  datatype Filter = Filter(free: nat, slots: Slots)

  /** Where an action sits (`struct lsdn_broadcast_action`). */
  datatype Place = Place(filter: nat, index: nat)

  /** The occupants of a filter fit, and each is where it says it is. */
  ghost predicate Packs(p: nat, f: Filter, places: map<Id, Place>, size: map<Id, nat>)
  {
    && |f.slots| == SLOTS && f.free + Load(f.slots, size) == SLOTS
    && forall i :: 0 <= i < SLOTS && f.slots[i].Some? ==> f.slots[i].value in places && places[f.slots[i].value] == Place(p, i)
  }

  ghost predicate Sits(filters: map<nat, Filter>, a: Id, at: Place)
  {
    at.filter in filters && at.index < |filters[at.filter].slots| && filters[at.filter].slots[at.index] == Some(a)
  }

  ghost predicate Packed(filters: map<nat, Filter>, places: map<Id, Place>, descs: map<Id, seq<Act>>)
  {
    && descs.Keys == places.Keys && (forall a :: a in descs ==> 1 <= |descs[a]| <= SLOTS)
    && (forall p :: p in filters ==> Packs(p, filters[p], places, Sizes(descs)))
    && (forall a :: a in places ==> Sits(filters, a, places[a]))
  }

  ghost predicate Flushed(filters: map<nat, Filter>, descs: map<Id, seq<Act>>, kernel: map<nat, seq<Numbered>>)
  {
    forall p :: p in filters ==> p in kernel && kernel[p] == FilterActions(filters[p].slots, descs)
  }

  /** An action moves into a free slot. */
  lemma OccupyPacked(filters: map<nat, Filter>, places: map<Id, Place>, descs: map<Id, seq<Act>>, p: nat, i: nat, a: Id, desc: seq<Act>)
    requires Packed(filters, places, descs) && p in filters && 1 <= |desc| <= filters[p].free && i < |filters[p].slots| && filters[p].slots[i] == None
    requires a !in places
    ensures Packed(filters[p := Filter(filters[p].free - |desc|, filters[p].slots[i := Some(a)])], places[a := Place(p, i)], descs[a := desc])
  {
    hide Load;
    var f, size, size' := filters[p], Sizes(descs), Sizes(descs[a := desc]);
    var places' := places[a := Place(p, i)];
    assert Packs(p, f, places, size);
    LoadUpdate(f.slots, size', i, Some(a));
    forall q | q in filters ensures Load(filters[q].slots, size') == Load(filters[q].slots, size) {
      assert Packs(q, filters[q], places, size);
      LoadFrame(filters[q].slots, size, size');
    }
    assert Packs(p, Filter(f.free - |desc|, f.slots[i := Some(a)]), places', size');
    forall q | q in filters && q != p ensures Packs(q, filters[q], places', size') { assert Packs(q, filters[q], places, size); }
  }

  /** An action leaves its slot. */
  lemma VacatePacked(filters: map<nat, Filter>, places: map<Id, Place>, descs: map<Id, seq<Act>>, a: Id)
    requires Packed(filters, places, descs) && a in places
    ensures Sits(filters, a, places[a])
    ensures var p, i := places[a].filter, places[a].index;
            Packed(filters[p := Filter(filters[p].free + |descs[a]|, filters[p].slots[i := None])], places - {a}, descs - {a})
  {
    hide Packs;
    var p, i := places[a].filter, places[a].index;
    var f' := Filter(filters[p].free + |descs[a]|, filters[p].slots[i := None]);
    assert Sits(filters, a, places[a]);
    VacateOne(filters[p], places, descs, a);
    forall q | q in filters && q != p ensures Packs(q, filters[q], places - {a}, Sizes(descs - {a})) {
      VacateOther(filters[q], places, descs, a, q);
    }
    forall b | b in places && b != a ensures Sits(filters[p := f'], b, places[b]) {
      assert Sits(filters, b, places[b]);
    }
  }

  lemma VacateOne(f: Filter, places: map<Id, Place>, descs: map<Id, seq<Act>>, a: Id)
    requires a in places && a in descs && places[a].index < |f.slots| && f.slots[places[a].index] == Some(a)
    requires Packs(places[a].filter, f, places, Sizes(descs))
    ensures Packs(places[a].filter, Filter(f.free + |descs[a]|, f.slots[places[a].index := None]), places - {a}, Sizes(descs - {a}))
  {
    hide Load;
    var i := places[a].index;
    LoadUpdate(f.slots, Sizes(descs), i, None);
    LoadFrame(f.slots[i := None], Sizes(descs), Sizes(descs - {a}));
  }

  lemma VacateOther(f: Filter, places: map<Id, Place>, descs: map<Id, seq<Act>>, a: Id, q: nat)
    requires a in places && places[a].filter != q && Packs(q, f, places, Sizes(descs))
    ensures Packs(q, f, places - {a}, Sizes(descs - {a}))
  {
    hide Load;
    LoadFrame(f.slots, Sizes(descs), Sizes(descs - {a}));
  }

  function FreshFilter(): (f: Filter)
    ensures f.free == SLOTS && |f.slots| == SLOTS && forall i :: 0 <= i < SLOTS ==> f.slots[i] == None
  {
    Filter(SLOTS, seq(SLOTS, _ => None))
  }

  lemma NewPacked(filters: map<nat, Filter>, places: map<Id, Place>, descs: map<Id, seq<Act>>, p: nat)
    requires Packed(filters, places, descs) && p !in filters
    ensures Packed(filters[p := FreshFilter()], places, descs)
  {
    hide Load, FreshFilter;
    EmptyLoad(FreshFilter().slots, Sizes(descs));
    forall b | b in places ensures Sits(filters[p := FreshFilter()], b, places[b]) { assert Sits(filters, b, places[b]); }
  }

  /** Where there is room for an action there is a slot for it. */
  lemma RoomMeansSlot(filters: map<nat, Filter>, places: map<Id, Place>, descs: map<Id, seq<Act>>, p: nat)
    requires Packed(filters, places, descs) && p in filters && filters[p].free >= 1
    ensures |filters[p].slots| == SLOTS && exists i :: 0 <= i < SLOTS && filters[p].slots[i] == None
  {
    var f := filters[p];
    assert Packs(p, f, places, Sizes(descs));
    if forall i :: 0 <= i < SLOTS ==> f.slots[i].Some? {
      FullLoad(f.slots, Sizes(descs));
      assert false;
    }
  }

  /** Filters that keep their slots keep their action lists. */
  lemma SamePayload(filters: map<nat, Filter>, places: map<Id, Place>, descs: map<Id, seq<Act>>, descs': map<Id, seq<Act>>, p: nat, a: Id)
    requires Packed(filters, places, descs) && p in filters && (a in places ==> places[a].filter != p)
    requires forall b :: b != a ==> (b in descs <==> b in descs') && (b in descs ==> descs'[b] == descs[b])
    ensures FilterActions(filters[p].slots, descs') == FilterActions(filters[p].slots, descs)
  {
    assert Packs(p, filters[p], places, Sizes(descs));
    hide Load;
    PayloadFrame(filters[p].slots, descs, descs');
  }

  lemma PayloadEmpty(slots: Slots, descs: map<Id, seq<Act>>)
    ensures Payload(slots[..0], descs) == [] && Emit(1, []) == []
  {}

  lemma PayloadNext(slots: Slots, descs: map<Id, seq<Act>>, i: nat)
    requires i < |slots| && (slots[i].Some? ==> slots[i].value in descs)
    ensures Payload(slots[..i + 1], descs) == Payload(slots[..i], descs) + (if slots[i].Some? then descs[slots[i].value] else [])
  {
    assert slots[..i + 1][..i] == slots[..i];
  }

  /** `lsdn_flush_action_list`: the orders that the loop hands out. */
  method Flush(slots: Slots, descs: map<Id, seq<Act>>) returns (r: seq<Numbered>)
    requires |slots| == SLOTS && forall i :: 0 <= i < SLOTS && slots[i].Some? ==> slots[i].value in descs
    ensures r == FilterActions(slots, descs)
  {
    hide Payload, Emit;
    PayloadEmpty(slots, descs);
    r := [];
    var order := 1;
    for i := 0 to SLOTS
      invariant order == 1 + |Payload(slots[..i], descs)| && r == Emit(1, Payload(slots[..i], descs))
    {
      PayloadNext(slots, descs, i);
      if slots[i].Some? {
        EmitSplit(1, Payload(slots[..i], descs), descs[slots[i].value]);
        r := r + Emit(order, descs[slots[i].value]);
        order := order + |descs[slots[i].value]|;
      }
    }
    assert slots[..SLOTS] == slots;
    r := r + [Continue(order)];
  }

  /** `struct lsdn_broadcast` */
  class Broadcast {
    /** The filters in the order of their list. */
    var list: seq<nat>
    var filters: map<nat, Filter>
    var freePrio: nat
    var places: map<Id, Place>
    var descs: map<Id, seq<Act>>
    /** The action list of each filter in the kernel, by priority. */
    ghost var kernel: map<nat, seq<Numbered>>

    ghost predicate Valid()
      reads this
    {
      && Packed(filters, places, descs) && Flushed(filters, descs, kernel) && kernel.Keys == filters.Keys
      && (forall p :: p in list <==> p in filters) && (forall p :: p in filters ==> p < freePrio)
    }

    /** `lsdn_broadcast_init` */
    constructor ()
      ensures Valid() && places == map[] && kernel == map[]
    {
      list, filters, freePrio, places, descs, kernel := [], map[], 1, map[], map[], map[];
    }

    /** `lsdn_find_free_action`: a free slot in the first filter with room, or in a new filter in front of the list.
        The abort after the inner loop is not reached. */
    method FindFreeAction(count: nat) returns (p: nat, i: nat)
      requires Valid() && 1 <= count <= SLOTS
      modifies this`list, this`filters, this`freePrio
      ensures Packed(filters, places, descs) && (forall q :: q in list <==> q in filters) && (forall q :: q in filters ==> q < freePrio)
      ensures p in filters && count <= filters[p].free && i < |filters[p].slots| && filters[p].slots[i] == None
      ensures forall j :: 0 <= j < i ==> filters[p].slots[j].Some?
      ensures p in old(filters) ==> list == old(list) && filters == old(filters)
      ensures p in old(filters) ==> exists k :: 0 <= k < |list| && list[k] == p && forall j :: 0 <= j < k ==> filters[list[j]].free < count
      ensures p !in old(filters) ==> p == old(freePrio) && list == [p] + old(list) && filters == old(filters)[p := FreshFilter()]
      ensures p !in old(filters) ==> filters[p].free == 31 && forall q :: q in old(filters) ==> old(filters)[q].free < count
    {
      hide Packed, Flushed;
      for k := 0 to |list|
        invariant forall j :: 0 <= j < k ==> filters[list[j]].free < count
        modifies {}
      {
        p := list[k];
        if filters[p].free >= count {
          RoomMeansSlot(filters, places, descs, p);
          i := 0;
          while i < SLOTS
            invariant 0 <= i <= SLOTS && forall j :: 0 <= j < i ==> filters[p].slots[j].Some?
            modifies {}
          {
            if filters[p].slots[i].None? {
              return;
            }
            i := i + 1;
          }
          assert false;
        }
      }
      p, i := freePrio, 0;
      NewPacked(filters, places, descs, p);
      list, freePrio := [p] + list, freePrio + 1;
      filters := filters[p := FreshFilter()];
    }

    /** `lsdn_broadcast_add` */
    method Add(a: Id, desc: seq<Act>)
      requires Valid() && a !in places && 1 <= |desc| <= SLOTS
      modifies this
      ensures Valid() && descs == old(descs)[a := desc]
      ensures places.Keys == old(places).Keys + {a} && forall b :: b in old(places) ==> places[b] == old(places)[b]
    {
      hide Packed, Flushed, FreshFilter;
      ghost var filters0 := filters;
      var p, i := FindFreeAction(|desc|);
      FlushedRest(filters0, filters, descs, kernel, p);
      Occupy(p, i, a, desc);
    }

    /** The part of `lsdn_broadcast_add` after the search. */
    method Occupy(p: nat, i: nat, a: Id, desc: seq<Act>)
      requires Packed(filters, places, descs) && a !in places && 1 <= |desc| <= SLOTS
      requires p in filters && |desc| <= filters[p].free && i < |filters[p].slots| && filters[p].slots[i] == None
      requires Flushed(filters - {p}, descs, kernel)
      modifies this`filters, this`places, this`descs, this`kernel
      ensures Packed(filters, places, descs) && Flushed(filters, descs, kernel)
      ensures filters.Keys == old(filters).Keys && kernel.Keys == old(kernel).Keys + {p}
      ensures descs == old(descs)[a := desc] && places == old(places)[a := Place(p, i)]
    {
      hide Packed, FilterActions;
      OccupyPacked(filters, places, descs, p, i, a, desc);
      forall q | q in filters && q != p ensures FilterActions(filters[q].slots, descs[a := desc]) == FilterActions(filters[q].slots, descs) {
        SamePayload(filters, places, descs, descs[a := desc], q, a);
      }
      filters := filters[p := Filter(filters[p].free - |desc|, filters[p].slots[i := Some(a)])];
      places, descs := places[a := Place(p, i)], descs[a := desc];
      FlushReady(filters, places, descs, p);
      var actions := Flush(filters[p].slots, descs);
      kernel := kernel[p := actions];
    }

    /** `lsdn_broadcast_remove` */
    method Remove(a: Id)
      requires Valid() && a in places
      modifies this`filters, this`places, this`descs, this`kernel
      ensures Valid() && descs == old(descs) - {a} && places == old(places) - {a}
    {
      hide Packed, FilterActions;
      var p, i := places[a].filter, places[a].index;
      VacatePacked(filters, places, descs, a);
      DescOf(filters, places, descs, a);
      forall q | q in filters && q != p ensures FilterActions(filters[q].slots, descs - {a}) == FilterActions(filters[q].slots, descs) {
        SamePayload(filters, places, descs, descs - {a}, q, a);
      }
      filters := filters[p := Filter(filters[p].free + |descs[a]|, filters[p].slots[i := None])];
      places, descs := places - {a}, descs - {a};
      FlushReady(filters, places, descs, p);
      var actions := Flush(filters[p].slots, descs);
      kernel := kernel[p := actions];
    }
  }

  lemma FlushedRest(filters0: map<nat, Filter>, filters: map<nat, Filter>, descs: map<Id, seq<Act>>, kernel: map<nat, seq<Numbered>>, p: nat)
    requires Flushed(filters0, descs, kernel) && p in filters && (filters == filters0 || filters == filters0[p := filters[p]])
    ensures Flushed(filters - {p}, descs, kernel)
  {
    hide FilterActions;
  }

  lemma FlushReady(filters: map<nat, Filter>, places: map<Id, Place>, descs: map<Id, seq<Act>>, p: nat)
    requires Packed(filters, places, descs) && p in filters
    ensures |filters[p].slots| == SLOTS && forall i :: 0 <= i < SLOTS && filters[p].slots[i].Some? ==> filters[p].slots[i].value in descs
  {
    hide Load;
    assert Packs(p, filters[p], places, Sizes(descs));
  }

  lemma DescOf(filters: map<nat, Filter>, places: map<Id, Place>, descs: map<Id, seq<Act>>, a: Id)
    requires Packed(filters, places, descs) && a in places
    ensures a in descs
  {}

  /** Every action list in the kernel numbers its actions from 1 without gap or overlap and continues at order 32 at the latest;
      it holds the tc actions of exactly the actions in the slots. */
  lemma WellNumbered(filters: map<nat, Filter>, places: map<Id, Place>, descs: map<Id, seq<Act>>, kernel: map<nat, seq<Numbered>>, p: nat)
    requires Packed(filters, places, descs) && Flushed(filters, descs, kernel) && p in filters
    ensures p in kernel && 1 <= |kernel[p]| <= 32
    ensures forall i :: 0 <= i < |kernel[p]| ==> kernel[p][i].order == i + 1 && (kernel[p][i].Continue? <==> i == |kernel[p]| - 1)
    ensures |kernel[p]| == Load(filters[p].slots, Sizes(descs)) + 1
  {
    assert Packs(p, filters[p], places, Sizes(descs));
    PayloadLoad(filters[p].slots, descs);
  }
}
