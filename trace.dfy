/**
 * The gateway's collaborators seen from outside: every call the gateway makes
 * into the module loader, the message bus, a module's own create/destroy
 * entry points, the event system and the registry vector is recorded, with
 * the answer it got, in one call trace. What the gateway owes its
 * collaborators (pair every load with an unload, every create with a destroy,
 * every bus link with an unlink attempt, every reference increment with a
 * decrement) is then a statement about the trace.
 */
module Trace {
  import opened Wrappers
  import opened Registry

  type Path = string
  /** The module configuration: never inspected by the gateway, only passed to Module_Create. */
  type Config = nat
  type EventHandle = nat
  type Callback = nat

  /** GATEWAY_EVENT */
  datatype Event = Created | ModuleListChanged | Destroyed

  /** The resources a gateway owns besides its modules. */
  datatype Resource = OwnedBus | OwnedRegistry | OwnedEvents

  datatype Call =
    | BusCreate(ok: bool)                                   // MessageBus_Create
    | BusDestroy                                            // MessageBus_Destroy
    | BusAttach(instance: Inst, ok: bool)                   // MessageBus_AddModule
    | BusDetach(instance: Inst, ok: bool)                   // MessageBus_RemoveModule
    | BusIncRef                                             // MessageBus_IncRef
    | BusDecRef                                             // MessageBus_DecRef
    | RegistryCreate(ok: bool)                              // VECTOR_create
    | RegistryPush(entry: ModuleData, ok: bool)             // VECTOR_push_back
    | RegistryErase(entry: ModuleData)                      // VECTOR_erase
    | RegistryDestroy                                       // VECTOR_destroy
    | Load(path: Path, result: Option<Lib>)                 // ModuleLoader_Load
    | Unload(library: Lib)                                  // ModuleLoader_Unload
    | ModuleCreate(library: Lib, config: Config, result: Option<Inst>)  // Module_Create of that library
    | ModuleDestroy(library: Lib, instance: Inst)           // Module_Destroy of that library
    | EventInit(result: Option<EventHandle>)                // EventSystem_Init
    | EventReport(handle: Option<EventHandle>, event: Event)  // EventSystem_ReportEvent
    | EventDestroy(handle: Option<EventHandle>)             // EventSystem_Destroy
    | EventAddCallback(handle: Option<EventHandle>, event: Event, callback: Callback)

  /** Something a call acquires and a later call must give back: a loaded
      library, a live module instance, an instance's link on the bus, one
      reference on the bus, or one of the gateway's own resources. */
  datatype Item = Library(lib: Lib) | Instance(inst: Inst) | Link(linked: Inst) | Ref | Owns(res: Resource)

  /** The bookkeeping of a stretch of calls: what it acquired and what it
      gave back. It adds up over concatenation of traces (SumConcat). */
  datatype Tally = Tally(acquired: multiset<Item>, released: multiset<Item>)

  const Zero := Tally(multiset{}, multiset{})

  function Plus(a: Tally, b: Tally): Tally
  {
    Tally(a.acquired + b.acquired, a.released + b.released)
  }

  function Gain(x: Item): Tally { Tally(multiset{x}, multiset{}) }
  function Lose(x: Item): Tally { Tally(multiset{}, multiset{x}) }

  /** What one call contributes. A failed load, create or attach acquires
      nothing; a bus detach gives the link back whatever the bus answers,
      since the gateway forgets the link either way; the event system handle
      is given back only when there is one. */
  function Of(c: Call): Tally
  {
    match c
    case BusCreate(ok) => if ok then Gain(Owns(OwnedBus)) else Zero
    case BusDestroy => Lose(Owns(OwnedBus))
    case BusAttach(i, ok) => if ok then Gain(Link(i)) else Zero
    case BusDetach(i, _) => Lose(Link(i))
    case BusIncRef => Gain(Ref)
    case BusDecRef => Lose(Ref)
    case RegistryCreate(ok) => if ok then Gain(Owns(OwnedRegistry)) else Zero
    case RegistryPush(_, _) => Zero
    case RegistryErase(_) => Zero
    case RegistryDestroy => Lose(Owns(OwnedRegistry))
    case Load(_, r) => if r.Some? then Gain(Library(r.value)) else Zero
    case Unload(l) => Lose(Library(l))
    case ModuleCreate(_, _, r) => if r.Some? then Gain(Instance(r.value)) else Zero
    case ModuleDestroy(_, i) => Lose(Instance(i))
    case EventInit(r) => if r.Some? then Gain(Owns(OwnedEvents)) else Zero
    case EventReport(_, _) => Zero
    case EventDestroy(h) => if h.Some? then Lose(Owns(OwnedEvents)) else Zero
    case EventAddCallback(_, _, _) => Zero
  }

  function Sum(cs: seq<Call>): Tally
  {
    if |cs| == 0 then Zero else Plus(Sum(cs[..|cs| - 1]), Of(cs[|cs| - 1]))
  }

  lemma PlusZero(t: Tally)
    ensures Plus(t, Zero) == t && Plus(Zero, t) == t
  {
  }

  lemma PlusAssoc(a: Tally, b: Tally, c: Tally)
    ensures Plus(Plus(a, b), c) == Plus(a, Plus(b, c))
  {
  }

  lemma SumOne(c: Call)
    ensures Sum([c]) == Of(c)
  {
    assert [c][..0] == [];
    PlusZero(Of(c));
  }

  /** One more call adds its own contribution. */
  lemma SumSnoc(cs: seq<Call>, c: Call)
    ensures Sum(cs + [c]) == Plus(Sum(cs), Of(c))
  {
    assert (cs + [c])[..|cs|] == cs;
  }

  /** The bookkeeping of a trace is the sum of the bookkeeping of its parts. */
  lemma {:induction false} SumConcat(a: seq<Call>, b: seq<Call>)
    ensures Sum(a + b) == Plus(Sum(a), Sum(b))
  {
    if b == [] {
      assert a + b == a;
      PlusZero(Sum(a));
    } else {
      var b' := b[..|b| - 1];
      var last := b[|b| - 1];
      assert b == b' + [last];
      assert a + b == (a + b') + [last];
      SumSnoc(a + b', last);
      SumSnoc(b', last);
      SumConcat(a, b');
      PlusAssoc(Sum(a), Sum(b'), Of(last));
    }
  }

  /** The trace takes a holder from holding `before` to holding `after`:
      what it acquired, added to what was held, is what is held afterwards
      plus what it gave back. */
  ghost predicate Moves(cs: seq<Call>, before: multiset<Item>, after: multiset<Item>)
  {
    before + Sum(cs).acquired == after + Sum(cs).released
  }

  /** Two steps of multiset bookkeeping add up. */
  lemma Chain(x: multiset<Item>, y: multiset<Item>, z: multiset<Item>,
              a1: multiset<Item>, r1: multiset<Item>, a2: multiset<Item>, r2: multiset<Item>)
    requires x + a1 == y + r1 && y + a2 == z + r2
    ensures x + (a1 + a2) == z + (r1 + r2)
  {
    forall e: Item
      ensures (x + (a1 + a2))[e] == (z + (r1 + r2))[e]
    {
      assert (x + a1)[e] == (y + r1)[e];
      assert (y + a2)[e] == (z + r2)[e];
    }
  }

  /** Moves composes along a trace. */
  lemma MovesConcat(a: seq<Call>, b: seq<Call>, x: multiset<Item>, y: multiset<Item>, z: multiset<Item>)
    requires Moves(a, x, y) && Moves(b, y, z)
    ensures Moves(a + b, x, z)
  {
    SumConcat(a, b);
    Chain(x, y, z, Sum(a).acquired, Sum(a).released, Sum(b).acquired, Sum(b).released);
  }

  /** What is not touched stays held. */
  lemma MovesFrame(cs: seq<Call>, x: multiset<Item>, y: multiset<Item>, z: multiset<Item>)
    requires Moves(cs, x, y)
    ensures Moves(cs, x + z, y + z)
  {
    var t := Sum(cs);
    forall e: Item
      ensures (x + z + t.acquired)[e] == (y + z + t.released)[e]
    {
      assert (x + t.acquired)[e] == (y + t.released)[e];
    }
  }

  /** A holder that held x + z, and then makes calls taking x to y, holds
      y + z. */
  lemma MovesExtend(h: seq<Call>, cs: seq<Call>, x: multiset<Item>, y: multiset<Item>, z: multiset<Item>)
    requires Moves(h, multiset{}, x + z) && Moves(cs, x, y)
    ensures Moves(h + cs, multiset{}, y + z)
  {
    MovesFrame(cs, x, y, z);
    MovesConcat(h, cs, multiset{}, x + z, y + z);
  }

  /** A call that acquires and gives back nothing leaves what is held. */
  lemma MovesIdle(h: seq<Call>, c: Call, held: multiset<Item>)
    requires Moves(h, multiset{}, held) && Of(c) == Zero
    ensures Moves(h + [c], multiset{}, held)
  {
    SumSnoc(h, c);
    PlusZero(Sum(h));
  }

  /** One call that acquires `x`. */
  lemma MovesGain(c: Call, x: Item, h: multiset<Item>)
    requires Of(c) == Gain(x)
    ensures Moves([c], h, h + multiset{x})
  {
    SumOne(c);
  }

  /** One call that gives back `x`. */
  lemma MovesLose(c: Call, x: Item, h: multiset<Item>)
    requires Of(c) == Lose(x)
    ensures Moves([c], h + multiset{x}, h)
  {
    SumOne(c);
  }

  /** One call that acquires and gives back nothing. */
  lemma MovesNone(c: Call, h: multiset<Item>)
    requires Of(c) == Zero
    ensures Moves([c], h, h)
  {
    SumOne(c);
  }

  lemma MovesEmpty(h: multiset<Item>)
    ensures Moves([], h, h)
  {
  }

  /** The events a stretch of calls reports: EventSystem_ReportEvent on a
      NULL event system reports nothing. */
  function Reported(cs: seq<Call>): seq<Event>
  {
    if |cs| == 0 then []
    else
      var c := cs[|cs| - 1];
      Reported(cs[..|cs| - 1]) + if c.EventReport? && c.handle.Some? then [c.event] else []
  }

  lemma {:induction false} ReportedConcat(a: seq<Call>, b: seq<Call>)
    ensures Reported(a + b) == Reported(a) + Reported(b)
  {
    if b == [] {
      assert a + b == a;
    } else {
      var b' := b[..|b| - 1];
      assert (a + b)[..|a + b| - 1] == a + b';
      ReportedConcat(a, b');
    }
  }

  /** What one registry entry holds: its library, its instance, the
      instance's bus link and one bus reference. */
  function Holds(m: ModuleData): multiset<Item>
  {
    multiset{Library(m.library), Instance(m.instance), Link(m.instance), Ref}
  }

  /** What the entries of a registry hold together. */
  function Holding(ms: seq<ModuleData>): multiset<Item>
  {
    if ms == [] then multiset{} else Holding(ms[..|ms| - 1]) + Holds(ms[|ms| - 1])
  }

  lemma {:induction false} HoldingConcat(a: seq<ModuleData>, b: seq<ModuleData>)
    ensures Holding(a + b) == Holding(a) + Holding(b)
  {
    if b == [] {
      assert a + b == a;
    } else {
      var b' := b[..|b| - 1];
      assert (a + b)[..|a + b| - 1] == a + b';
      HoldingConcat(a, b');
    }
  }

  lemma HoldingOne(m: ModuleData)
    ensures Holding([m]) == Holds(m)
  {
    assert [m][..0] == [];
  }

  /** Erasing one entry gives back exactly what that entry held. */
  lemma {:induction false} HoldingErase(ms: seq<ModuleData>, i: nat)
    requires i < |ms|
    ensures Holding(ms) == Holding(ms[..i] + ms[i + 1..]) + Holds(ms[i])
  {
    var front, back := ms[..i], ms[i + 1..];
    assert ms[i..] == [ms[i]] + back;
    assert ms == front + ms[i..];
    HoldingConcat(front, [ms[i]] + back);
    HoldingConcat([ms[i]], back);
    HoldingConcat(front, back);
    HoldingOne(ms[i]);
  }

  /** Every entry holds exactly one bus reference. */
  lemma {:induction false} HoldingRefs(ms: seq<ModuleData>)
    ensures Holding(ms)[Ref] == |ms|
  {
    if ms != [] {
      HoldingRefs(ms[..|ms| - 1]);
    }
  }

  /** Bus references are acquired only by MessageBus_IncRef and given back
      only by MessageBus_DecRef, one per call. */
  lemma {:induction false} SumRefs(cs: seq<Call>)
    ensures Sum(cs).acquired[Ref] == multiset(cs)[BusIncRef]
    ensures Sum(cs).released[Ref] == multiset(cs)[BusDecRef]
  {
    if cs != [] {
      var front, last := cs[..|cs| - 1], cs[|cs| - 1];
      assert cs == front + [last];
      assert multiset(cs) == multiset(front) + multiset{last};
      SumSnoc(front, last);
      SumRefs(front);
      OfRefs(last);
    }
  }

  lemma OfRefs(c: Call)
    ensures Of(c).acquired[Ref] == if c == BusIncRef then 1 else 0
    ensures Of(c).released[Ref] == if c == BusDecRef then 1 else 0
  {
  }

  /** The ModuleLoader_Load calls of a trace that returned `l`. */
  function LoadsOf(cs: seq<Call>, l: Lib): nat
  {
    if cs == [] then 0
    else
      var c := cs[|cs| - 1];
      LoadsOf(cs[..|cs| - 1], l) + if c.Load? && c.result == Some(l) then 1 else 0
  }

  /** The Module_Create calls of a trace that returned `i`. */
  function CreatesOf(cs: seq<Call>, i: Inst): nat
  {
    if cs == [] then 0
    else
      var c := cs[|cs| - 1];
      CreatesOf(cs[..|cs| - 1], i) + if c.ModuleCreate? && c.result == Some(i) then 1 else 0
  }

  /** The Module_Destroy calls of a trace on instance `i`, through whatever
      library. */
  function DestroysOf(cs: seq<Call>, i: Inst): nat
  {
    if cs == [] then 0
    else
      var c := cs[|cs| - 1];
      DestroysOf(cs[..|cs| - 1], i) + if c.ModuleDestroy? && c.instance == i then 1 else 0
  }

  lemma OfLibrary(c: Call, l: Lib)
    ensures Of(c).acquired[Library(l)] == if c.Load? && c.result == Some(l) then 1 else 0
    ensures Of(c).released[Library(l)] == if c == Unload(l) then 1 else 0
  {
  }

  lemma OfInstance(c: Call, i: Inst)
    ensures Of(c).acquired[Instance(i)] == if c.ModuleCreate? && c.result == Some(i) then 1 else 0
    ensures Of(c).released[Instance(i)] == if c.ModuleDestroy? && c.instance == i then 1 else 0
  {
  }

  /** A library is acquired only by a load that returned it and given back
      only by its unload. */
  lemma {:induction false} SumLibraries(cs: seq<Call>, l: Lib)
    ensures Sum(cs).acquired[Library(l)] == LoadsOf(cs, l)
    ensures Sum(cs).released[Library(l)] == multiset(cs)[Unload(l)]
  {
    if cs != [] {
      var front, last := cs[..|cs| - 1], cs[|cs| - 1];
      assert cs == front + [last];
      assert multiset(cs) == multiset(front) + multiset{last};
      SumSnoc(front, last);
      SumLibraries(front, l);
      OfLibrary(last, l);
    }
  }

  /** An instance is acquired only by the create that returned it and given
      back only by a destroy of it. */
  lemma {:induction false} SumInstances(cs: seq<Call>, i: Inst)
    ensures Sum(cs).acquired[Instance(i)] == CreatesOf(cs, i)
    ensures Sum(cs).released[Instance(i)] == DestroysOf(cs, i)
  {
    if cs != [] {
      var front, last := cs[..|cs| - 1], cs[|cs| - 1];
      SumSnoc(front, last);
      assert front + [last] == cs;
      SumInstances(front, i);
      OfInstance(last, i);
    }
  }

  /** A trace that leaves nothing held has made as many MessageBus_DecRef
      as MessageBus_IncRef calls, unloaded every library as often as a load
      returned it, and destroyed every instance as often as a create
      returned it. */
  lemma Balanced(cs: seq<Call>, l: Lib, i: Inst)
    requires Moves(cs, multiset{}, multiset{})
    ensures multiset(cs)[BusDecRef] == multiset(cs)[BusIncRef]
    ensures multiset(cs)[Unload(l)] == LoadsOf(cs, l)
    ensures DestroysOf(cs, i) == CreatesOf(cs, i)
  {
    SumRefs(cs);
    SumLibraries(cs, l);
    SumInstances(cs, i);
    assert (multiset{} + Sum(cs).acquired)[Ref] == (multiset{} + Sum(cs).released)[Ref];
    assert (multiset{} + Sum(cs).acquired)[Library(l)] == (multiset{} + Sum(cs).released)[Library(l)];
    assert (multiset{} + Sum(cs).acquired)[Instance(i)] == (multiset{} + Sum(cs).released)[Instance(i)];
  }

  lemma ConcatAssoc(a: seq<Call>, b: seq<Call>, c: seq<Call>)
    ensures (a + b) + c == a + (b + c)
  {
  }

  lemma ConcatAssoc4(a: seq<Call>, b: seq<Call>, c: seq<Call>, d: seq<Call>)
    ensures a + (b + c + d) == a + b + c + d
  {
  }

  /** A slice past the first part of a concatenation is a slice of the
      second part. */
  lemma SliceAfter(a: seq<Call>, b: seq<Call>, x: nat, y: nat)
    requires x <= y <= |b|
    ensures (a + b)[|a| + x .. |a| + y] == b[x..y]
  {
  }

  /** The external world as the gateway sees it: the calls made so far. */
  class Host {
    var calls: seq<Call>

    /** Makes one collaborator call; its answer is the one recorded in `c`. */
    method Record(c: Call)
      modifies this
      ensures calls == old(calls) + [c]
    {
      calls := calls + [c];
    }
  }
}
