/**
 * What each gateway operation does, as a function of the registry it starts
 * from and of how its collaborators answer: the calls it makes, in order, and
 * the registry it leaves. The class methods in gateway.dfy are proved to do
 * exactly this; the lemmas here prove what those calls amount to.
 */
module Lifecycle {
  import opened Wrappers
  import opened Registry
  import opened Trace

  /** GATEWAY_PROPERTIES_ENTRY: name and path may be NULL. */
  datatype PropertiesEntry = PropertiesEntry(name: Option<string>, path: Option<Path>, config: Config)

  /** How the collaborators answer during one module add: what the loader
      returns, what the module's create returns, whether the bus accepts the
      link, whether the registry can grow, and, if it cannot, whether the bus
      accepts the rollback unlink. */
  datatype AddOutcome = AddOutcome(load: Option<Lib>, create: Option<Inst>,
                                   linkOk: bool, pushOk: bool, unlinkOk: bool)

  /** An add succeeds when a path is given and every step succeeds. */
  predicate Succeeds(path: Option<Path>, o: AddOutcome)
  {
    path.Some? && o.load.Some? && o.create.Some? && o.linkOk && o.pushOk
  }

  /** The registry entry a successful add records. */
  function EntryOf(name: Option<string>, o: AddOutcome): ModuleData
    requires o.load.Some? && o.create.Some?
  {
    ModuleData(name, o.load.value, o.create.value)
  }

  /** What a module holds once created and before it is linked. */
  function Live(lib: Lib, inst: Inst): multiset<Item>
  {
    multiset{Library(lib), Instance(inst)}
  }

  /** The calls report no event. */
  ghost predicate Quiet(cs: seq<Call>)
  {
    forall c :: c in cs ==> !c.EventReport?
  }

  lemma {:induction false} QuietReported(cs: seq<Call>)
    requires Quiet(cs)
    ensures Reported(cs) == []
  {
    if |cs| > 0 {
      QuietReported(cs[..|cs| - 1]);
    }
  }

  // ---------------------------------------------------------------------
  // gateway_addmodule_internal, stage by stage

  /** Lines 320-325: destroy the instance, then unload its library. */
  function Rollback(lib: Lib, inst: Inst): seq<Call>
  {
    [ModuleDestroy(lib, inst), Unload(lib)]
  }

  /** Lines 293-317: take a bus reference and record the entry; if the
      registry cannot grow, give the reference back and try to unlink. */
  function RecordCalls(entry: ModuleData, o: AddOutcome): seq<Call>
  {
    [BusIncRef, RegistryPush(entry, o.pushOk)]
      + (if o.pushOk then [] else [BusDecRef, BusDetach(entry.instance, o.unlinkOk)])
  }

  /** Lines 286-318: link the instance on the bus and, once linked, record it. */
  function LinkCalls(entry: ModuleData, o: AddOutcome): seq<Call>
  {
    [BusAttach(entry.instance, o.linkOk)] + (if o.linkOk then RecordCalls(entry, o) else [])
  }

  /** Lines 280-325, once the instance exists: link it, and roll back unless
      linking and recording both succeeded. */
  function LinkedCalls(entry: ModuleData, o: AddOutcome): seq<Call>
  {
    LinkCalls(entry, o) + (if o.linkOk && o.pushOk then [] else Rollback(entry.library, entry.instance))
  }

  /** Lines 269-326: create the instance from the loaded library; on failure
      unload the library, otherwise go on with it. */
  function CreateCalls(name: Option<string>, lib: Lib, config: Config, o: AddOutcome): seq<Call>
  {
    [ModuleCreate(lib, config, o.create)]
      + (if o.create.Some? then LinkedCalls(ModuleData(name, lib, o.create.value), o) else [Unload(lib)])
  }

  /** gateway_addmodule_internal: the calls. No path, no call at all. */
  function AddCalls(name: Option<string>, path: Option<Path>, config: Config, o: AddOutcome): seq<Call>
  {
    if path.None? then []
    else
      [Load(path.value, o.load)]
        + (if o.load.None? then [] else CreateCalls(name, o.load.value, config, o))
  }

  datatype AddResult = AddResult(calls: seq<Call>, modules: seq<ModuleData>, result: Option<Inst>)

  /** gateway_addmodule_internal on a registry `ms`. */
  function AddSpec(ms: seq<ModuleData>, name: Option<string>, path: Option<Path>,
                   config: Config, o: AddOutcome): AddResult
  {
    var calls := AddCalls(name, path, config, o);
    if Succeeds(path, o) then AddResult(calls, ms + [EntryOf(name, o)], o.create)
    else AddResult(calls, ms, None)
  }

  lemma RollbackMoves(lib: Lib, inst: Inst)
    ensures Moves(Rollback(lib, inst), Live(lib, inst), multiset{})
  {
    var d, u := ModuleDestroy(lib, inst), Unload(lib);
    MovesLose(d, Instance(inst), multiset{Library(lib)});
    MovesLose(u, Library(lib), multiset{});
    assert multiset{Library(lib)} + multiset{Instance(inst)} == Live(lib, inst);
    MovesConcat([d], [u], Live(lib, inst), multiset{Library(lib)}, multiset{});
    assert [d] + [u] == Rollback(lib, inst);
  }

  /** A recorded entry holds its live module, its link and its reference. */
  lemma HoldsParts(entry: ModuleData)
    ensures Live(entry.library, entry.instance) + multiset{Link(entry.instance)} + multiset{Ref} == Holds(entry)
  {
  }

  /** Recording gives the linked module one bus reference, and takes it and
      the link back again when the registry cannot grow. */
  lemma RecordMoves(entry: ModuleData, o: AddOutcome)
    ensures Moves(RecordCalls(entry, o), Live(entry.library, entry.instance) + multiset{Link(entry.instance)},
                  if o.pushOk then Holds(entry) else Live(entry.library, entry.instance))
  {
    var live := Live(entry.library, entry.instance);
    var linked := live + multiset{Link(entry.instance)};
    var push := RegistryPush(entry, o.pushOk);
    var recorded := [BusIncRef, push];
    assert Moves(recorded, linked, Holds(entry)) by {
      HoldsParts(entry);
      MovesGain(BusIncRef, Ref, linked);
      MovesNone(push, Holds(entry));
      MovesConcat([BusIncRef], [push], linked, Holds(entry), Holds(entry));
      assert [BusIncRef] + [push] == recorded;
    }
    if o.pushOk {
      assert RecordCalls(entry, o) == recorded;
    } else {
      var detach := BusDetach(entry.instance, o.unlinkOk);
      assert Moves([BusDecRef, detach], Holds(entry), live) by {
        HoldsParts(entry);
        MovesLose(BusDecRef, Ref, linked);
        MovesLose(detach, Link(entry.instance), live);
        MovesConcat([BusDecRef], [detach], Holds(entry), linked, live);
        assert [BusDecRef] + [detach] == [BusDecRef, detach];
      }
      MovesConcat(recorded, [BusDecRef, detach], linked, Holds(entry), live);
    }
  }

  /** Linking leaves the module holding its bus link and one bus reference
      when it is recorded, and nothing more than it had otherwise. */
  lemma LinkMoves(entry: ModuleData, o: AddOutcome)
    ensures Moves(LinkCalls(entry, o), Live(entry.library, entry.instance),
                  if o.linkOk && o.pushOk then Holds(entry) else Live(entry.library, entry.instance))
  {
    var live := Live(entry.library, entry.instance);
    var attach := BusAttach(entry.instance, o.linkOk);
    if !o.linkOk {
      MovesNone(attach, live);
      assert LinkCalls(entry, o) == [attach];
    } else {
      MovesGain(attach, Link(entry.instance), live);
      RecordMoves(entry, o);
      MovesConcat([attach], RecordCalls(entry, o), live, live + multiset{Link(entry.instance)},
                  if o.pushOk then Holds(entry) else live);
    }
  }

  /** Once the instance exists, the rest of the add leaves it holding its
      link and reference when every step succeeds, and nothing otherwise. */
  lemma LinkedMoves(entry: ModuleData, o: AddOutcome)
    ensures Moves(LinkedCalls(entry, o), Live(entry.library, entry.instance),
                  if o.linkOk && o.pushOk then Holds(entry) else multiset{})
  {
    var live := Live(entry.library, entry.instance);
    LinkMoves(entry, o);
    if o.linkOk && o.pushOk {
      assert LinkedCalls(entry, o) == LinkCalls(entry, o);
    } else {
      RollbackMoves(entry.library, entry.instance);
      MovesConcat(LinkCalls(entry, o), Rollback(entry.library, entry.instance), live, live, multiset{});
    }
  }

  /** Creating and linking leaves the loaded library holding a linked
      instance when every step succeeds, and nothing otherwise. */
  lemma CreateMoves(name: Option<string>, lib: Lib, config: Config, o: AddOutcome)
    ensures Moves(CreateCalls(name, lib, config, o), multiset{Library(lib)},
                  if o.create.Some? && o.linkOk && o.pushOk
                  then Holds(ModuleData(name, lib, o.create.value)) else multiset{})
  {
    var create := ModuleCreate(lib, config, o.create);
    var loaded := multiset{Library(lib)};
    if o.create.None? {
      MovesNone(create, loaded);
      MovesLose(Unload(lib), Library(lib), multiset{});
      MovesConcat([create], [Unload(lib)], loaded, loaded, multiset{});
    } else {
      var entry := ModuleData(name, lib, o.create.value);
      MovesGain(create, Instance(entry.instance), loaded);
      assert loaded + multiset{Instance(entry.instance)} == Live(lib, entry.instance);
      LinkedMoves(entry, o);
      MovesConcat([create], LinkedCalls(entry, o), loaded, Live(lib, entry.instance),
                  if o.linkOk && o.pushOk then Holds(entry) else multiset{});
    }
  }

  /** The calls of an add leave behind exactly what the new entry holds when
      the add succeeds, and nothing when it fails. */
  lemma AddMoves(name: Option<string>, path: Option<Path>, config: Config, o: AddOutcome)
    ensures Moves(AddCalls(name, path, config, o), multiset{},
                  if Succeeds(path, o) then Holds(EntryOf(name, o)) else multiset{})
  {
    if path.Some? {
      var load := Load(path.value, o.load);
      if o.load.None? {
        MovesNone(load, multiset{});
        assert AddCalls(name, path, config, o) == [load];
      } else {
        var lib := o.load.value;
        MovesGain(load, Library(lib), multiset{});
        CreateMoves(name, lib, config, o);
        MovesConcat([load], CreateCalls(name, lib, config, o), multiset{}, multiset{Library(lib)},
                    if Succeeds(path, o) then Holds(EntryOf(name, o)) else multiset{});
      }
    }
  }

  /** An add reports no event. */
  lemma AddQuiet(name: Option<string>, path: Option<Path>, config: Config, o: AddOutcome)
    ensures Quiet(AddCalls(name, path, config, o))
  {
    if path.Some? && o.load.Some? {
      var lib := o.load.value;
      if o.create.Some? {
        var entry := ModuleData(name, lib, o.create.value);
        assert Quiet(RecordCalls(entry, o));
        assert Quiet(LinkCalls(entry, o));
        assert Quiet(LinkedCalls(entry, o));
      }
      assert Quiet(CreateCalls(name, lib, config, o));
    }
  }

  /** The calls of an add take the gateway from holding what the old
      registry holds to holding what the new registry holds, and report no
      event. */
  lemma AddKeeps(ms: seq<ModuleData>, name: Option<string>, path: Option<Path>,
                 config: Config, o: AddOutcome)
    ensures Moves(AddSpec(ms, name, path, config, o).calls, Holding(ms),
                  Holding(AddSpec(ms, name, path, config, o).modules))
    ensures Reported(AddSpec(ms, name, path, config, o).calls) == []
  {
    var r := AddSpec(ms, name, path, config, o);
    var left := if Succeeds(path, o) then Holds(EntryOf(name, o)) else multiset{};
    assert left + Holding(ms) == Holding(r.modules) by {
      if Succeeds(path, o) {
        HoldingConcat(ms, [EntryOf(name, o)]);
        HoldingOne(EntryOf(name, o));
      }
    }
    assert Moves(r.calls, multiset{} + Holding(ms), left + Holding(ms)) by {
      AddMoves(name, path, config, o);
      MovesFrame(r.calls, multiset{}, left, Holding(ms));
    }
    assert multiset{} + Holding(ms) == Holding(ms);
    AddQuiet(name, path, config, o);
    QuietReported(r.calls);
  }

  /** A gateway whose books balance before an add still balances after it. */
  lemma AddKeepsBooks(h: seq<Call>, owned: multiset<Item>, ms: seq<ModuleData>, name: Option<string>,
                      path: Option<Path>, config: Config, o: AddOutcome)
    requires Moves(h, multiset{}, Holding(ms) + owned)
    ensures var r := AddSpec(ms, name, path, config, o);
      Moves(h + r.calls, multiset{}, Holding(r.modules) + owned)
  {
    var r := AddSpec(ms, name, path, config, o);
    AddKeeps(ms, name, path, config, o);
    MovesExtend(h, r.calls, Holding(ms), Holding(r.modules), owned);
  }

  /** gateway_addmodule_internal, lines 249-336: the add returns an instance
      exactly when a path is given and loading, creating, linking and
      recording all succeed; then the registry gains exactly one entry, at
      the end, holding the loaded library and the created instance, and it is
      that instance that is returned. Otherwise the registry is unchanged.
      Either way the calls take the gateway from holding what the old
      registry holds to holding what the new registry holds, so a failing
      add gives back everything it acquired, and no event is reported. */
  lemma AddEffect(ms: seq<ModuleData>, name: Option<string>, path: Option<Path>,
                  config: Config, o: AddOutcome)
    ensures var r := AddSpec(ms, name, path, config, o);
      && (r.result.Some? <==> Succeeds(path, o))
      && (Succeeds(path, o) ==>
            && r.result == o.create
            && r.modules == ms + [ModuleData(name, o.load.value, o.create.value)])
      && (!Succeeds(path, o) ==> r.modules == ms)
      && Moves(r.calls, Holding(ms), Holding(r.modules))
      && Reported(r.calls) == []
  {
    AddKeeps(ms, name, path, config, o);
  }

  // ---------------------------------------------------------------------
  // gateway_removemodule_internal and gateway_destroy_internal

  /** gateway_removemodule_internal, lines 379-399: unlink from the bus
      (whatever the bus answers), give back the bus reference, destroy the
      instance, unload its library, and erase the entry. */
  function RemoveCalls(m: ModuleData, unlinkOk: bool): seq<Call>
  {
    [BusDetach(m.instance, unlinkOk), BusDecRef, ModuleDestroy(m.library, m.instance),
     Unload(m.library), RegistryErase(m)]
  }

  /** The registry after erasing entry i. */
  function Erase(ms: seq<ModuleData>, i: nat): (r: seq<ModuleData>)
    requires i < |ms|
    ensures |r| == |ms| - 1
    ensures forall j :: 0 <= j < i ==> r[j] == ms[j]
    ensures forall j :: i <= j < |r| ==> r[j] == ms[j + 1]
  {
    ms[..i] + ms[i + 1..]
  }

  lemma RemoveMovesOne(m: ModuleData, unlinkOk: bool)
    ensures Moves(RemoveCalls(m, unlinkOk), Holds(m), multiset{})
  {
    var live := Live(m.library, m.instance);
    var linked := live + multiset{Link(m.instance)};
    var detach := BusDetach(m.instance, unlinkOk);
    assert Moves([detach, BusDecRef], Holds(m), live) by {
      HoldsParts(m);
      assert Holds(m) == live + multiset{Ref} + multiset{Link(m.instance)};
      MovesLose(detach, Link(m.instance), live + multiset{Ref});
      MovesLose(BusDecRef, Ref, live);
      MovesConcat([detach], [BusDecRef], Holds(m), live + multiset{Ref}, live);
      assert [detach] + [BusDecRef] == [detach, BusDecRef];
    }
    RollbackMoves(m.library, m.instance);
    MovesConcat([detach, BusDecRef], Rollback(m.library, m.instance), Holds(m), live, multiset{});
    MovesNone(RegistryErase(m), multiset{});
    MovesConcat([detach, BusDecRef] + Rollback(m.library, m.instance), [RegistryErase(m)],
                Holds(m), multiset{}, multiset{});
    assert [detach, BusDecRef] + Rollback(m.library, m.instance) + [RegistryErase(m)]
        == RemoveCalls(m, unlinkOk);
  }

  /** Removing entry i gives back exactly what that entry held, whether or
      not the bus manages to unlink it, leaves the other entries in order,
      and reports no event. */
  lemma RemoveEffect(ms: seq<ModuleData>, i: nat, unlinkOk: bool)
    requires i < |ms|
    ensures Moves(RemoveCalls(ms[i], unlinkOk), Holding(ms), Holding(Erase(ms, i)))
    ensures multiset(Erase(ms, i)) + multiset{ms[i]} == multiset(ms)
    ensures Reported(RemoveCalls(ms[i], unlinkOk)) == []
  {
    var cs := RemoveCalls(ms[i], unlinkOk);
    var rest := Holding(Erase(ms, i));
    assert Holding(ms) == Holds(ms[i]) + rest by {
      HoldingErase(ms, i);
    }
    assert Moves(cs, Holds(ms[i]) + rest, rest) by {
      RemoveMovesOne(ms[i], unlinkOk);
      MovesFrame(cs, Holds(ms[i]), multiset{}, rest);
      assert multiset{} + rest == rest;
    }
    EraseMultiset(ms, i);
    RemoveQuiet(ms[i], unlinkOk);
  }

  lemma EraseMultiset(ms: seq<ModuleData>, i: nat)
    requires i < |ms|
    ensures multiset(Erase(ms, i)) + multiset{ms[i]} == multiset(ms)
  {
    assert ms == ms[..i] + [ms[i]] + ms[i + 1..];
  }

  lemma RemoveQuiet(m: ModuleData, unlinkOk: bool)
    ensures Reported(RemoveCalls(m, unlinkOk)) == []
  {
    QuietReported(RemoveCalls(m, unlinkOk));
  }

  /** Lines 358-364: remove the front entry until the registry is empty; the
      k-th removal is told by unlinks(k) whether the bus unlinks. */
  function DrainCalls(ms: seq<ModuleData>, unlinks: nat -> bool, k: nat): (r: seq<Call>)
    ensures |r| == 5 * |ms|
    decreases |ms|
  {
    if ms == [] then []
    else RemoveCalls(ms[0], unlinks(k)) + DrainCalls(ms[1..], unlinks, k + 1)
  }

  /** The drain neither destroys the bus nor reports an event. */
  lemma {:induction false} DrainQuiet(ms: seq<ModuleData>, unlinks: nat -> bool, k: nat)
    ensures forall c :: c in DrainCalls(ms, unlinks, k) ==> !c.BusDestroy? && !c.EventReport?
    decreases |ms|
  {
    if ms != [] {
      DrainQuiet(ms[1..], unlinks, k + 1);
    }
  }

  /** The drain removes the entries front to back: the j-th block of five
      calls is the removal of entry j. */
  lemma {:induction false} DrainOrder(ms: seq<ModuleData>, unlinks: nat -> bool, k: nat, j: nat)
    requires j < |ms|
    ensures DrainCalls(ms, unlinks, k)[5 * j .. 5 * j + 5] == RemoveCalls(ms[j], unlinks(k + j))
    decreases j
  {
    var first := RemoveCalls(ms[0], unlinks(k));
    var rest := DrainCalls(ms[1..], unlinks, k + 1);
    assert DrainCalls(ms, unlinks, k) == first + rest;
    if j == 0 {
      assert (first + rest)[0..5] == first;
    } else {
      DrainOrder(ms[1..], unlinks, k + 1, j - 1);
      SliceAfter(first, rest, 5 * (j - 1), 5 * (j - 1) + 5);
    }
  }

  /** The drain gives back everything the entries hold. */
  lemma {:induction false} DrainMoves(ms: seq<ModuleData>, unlinks: nat -> bool, k: nat)
    ensures Moves(DrainCalls(ms, unlinks, k), Holding(ms), multiset{})
    decreases |ms|
  {
    if ms == [] {
      MovesEmpty(multiset{});
    } else {
      var first := RemoveCalls(ms[0], unlinks(k));
      var rest := Holding(ms[1..]);
      RemoveMovesOne(ms[0], unlinks(k));
      MovesFrame(first, Holds(ms[0]), multiset{}, rest);
      assert Holding(ms) == Holds(ms[0]) + rest by {
        assert ms == [ms[0]] + ms[1..];
        HoldingConcat([ms[0]], ms[1..]);
        HoldingOne(ms[0]);
      }
      assert multiset{} + rest == rest;
      DrainMoves(ms[1..], unlinks, k + 1);
      MovesConcat(first, DrainCalls(ms[1..], unlinks, k + 1), Holding(ms), rest, multiset{});
    }
  }

  /** What a gateway owns besides its modules: the bus, the registry, and
      the event system when there is one. */
  function Owned(events: Option<EventHandle>): multiset<Item>
  {
    multiset{Owns(OwnedBus), Owns(OwnedRegistry)}
      + if events.Some? then multiset{Owns(OwnedEvents)} else multiset{}
  }

  /** gateway_destroy_internal, lines 343-377, on a gateway whose event
      system is `events` and whose registry is `ms`. */
  function DestroyCalls(events: Option<EventHandle>, ms: seq<ModuleData>, unlinks: nat -> bool): seq<Call>
  {
    DestroyedReportCalls(events) + DrainCalls(ms, unlinks, 0) + [RegistryDestroy, BusDestroy]
  }

  /** Lines 350-353: report GATEWAY_DESTROYED and give back the event system. */
  function DestroyedReportCalls(events: Option<EventHandle>): seq<Call>
  {
    [EventReport(events, Destroyed), EventDestroy(events)]
  }

  lemma DestroyedReportMoves(events: Option<EventHandle>, h: multiset<Item>)
    ensures Moves(DestroyedReportCalls(events), h + Owned(events), h + Owned(None))
  {
    var report, close := EventReport(events, Destroyed), EventDestroy(events);
    MovesNone(report, h + Owned(events));
    if events.Some? {
      assert h + Owned(events) == h + Owned(None) + multiset{Owns(OwnedEvents)};
      MovesLose(close, Owns(OwnedEvents), h + Owned(None));
    } else {
      assert h + Owned(events) == h + Owned(None);
      MovesNone(close, h + Owned(None));
    }
    MovesConcat([report], [close], h + Owned(events), h + Owned(events), h + Owned(None));
    assert [report] + [close] == DestroyedReportCalls(events);
  }

  lemma DestroyedReportEvents(events: Option<EventHandle>)
    ensures Reported(DestroyedReportCalls(events)) == if events.Some? then [Destroyed] else []
  {
    var report, close := EventReport(events, Destroyed), EventDestroy(events);
    assert DestroyedReportCalls(events) == [report] + [close];
    ReportedConcat([report], [close]);
    assert [report][..0] == [];
    assert [close][..0] == [];
  }

  lemma RegistryAndBusMoves()
    ensures Moves([RegistryDestroy, BusDestroy], Owned(None), multiset{})
  {
    assert Owned(None) == multiset{Owns(OwnedBus)} + multiset{Owns(OwnedRegistry)};
    MovesLose(RegistryDestroy, Owns(OwnedRegistry), multiset{Owns(OwnedBus)});
    MovesLose(BusDestroy, Owns(OwnedBus), multiset{});
    MovesConcat([RegistryDestroy], [BusDestroy], Owned(None), multiset{Owns(OwnedBus)}, multiset{});
    assert [RegistryDestroy] + [BusDestroy] == [RegistryDestroy, BusDestroy];
  }

  /** Destroying gives back every module and everything the gateway owns. */
  lemma DestroyMoves(events: Option<EventHandle>, ms: seq<ModuleData>, unlinks: nat -> bool)
    ensures Moves(DestroyCalls(events, ms, unlinks), Holding(ms) + Owned(events), multiset{})
  {
    var drain := DrainCalls(ms, unlinks, 0);
    DestroyedReportMoves(events, Holding(ms));
    assert Moves(drain, Holding(ms) + Owned(None), Owned(None)) by {
      DrainMoves(ms, unlinks, 0);
      MovesFrame(drain, Holding(ms), multiset{}, Owned(None));
      assert multiset{} + Owned(None) == Owned(None);
    }
    RegistryAndBusMoves();
    MovesConcat(DestroyedReportCalls(events), drain, Holding(ms) + Owned(events), Holding(ms) + Owned(None), Owned(None));
    MovesConcat(DestroyedReportCalls(events) + drain, [RegistryDestroy, BusDestroy], Holding(ms) + Owned(events), Owned(None), multiset{});
  }

  /** Destroying reports GATEWAY_DESTROYED first, and only when there is an
      event system; no other event is reported. */
  lemma DestroyReported(events: Option<EventHandle>, ms: seq<ModuleData>, unlinks: nat -> bool)
    ensures DestroyCalls(events, ms, unlinks)[0] == EventReport(events, Destroyed)
    ensures Reported(DestroyCalls(events, ms, unlinks)) == if events.Some? then [Destroyed] else []
  {
    var drain := DrainCalls(ms, unlinks, 0);
    var closing := [RegistryDestroy, BusDestroy];
    ReportedConcat(DestroyedReportCalls(events) + drain, closing);
    ReportedConcat(DestroyedReportCalls(events), drain);
    DrainQuiet(ms, unlinks, 0);
    QuietReported(drain);
    QuietReported(closing);
    DestroyedReportEvents(events);
  }

  /** Destroying destroys the bus last, after every module is gone, and at no
      other point. */
  lemma DestroyBusLast(events: Option<EventHandle>, ms: seq<ModuleData>, unlinks: nat -> bool)
    ensures var cs := DestroyCalls(events, ms, unlinks);
      && cs[|cs| - 1] == BusDestroy
      && forall i :: 0 <= i < |cs| - 1 ==> !cs[i].BusDestroy?
  {
    var drain := DrainCalls(ms, unlinks, 0);
    DrainQuiet(ms, unlinks, 0);
    var cs := DestroyCalls(events, ms, unlinks);
    forall i | 0 <= i < |cs| - 1
      ensures !cs[i].BusDestroy?
    {
      if 2 <= i < 2 + |drain| {
        assert cs[i] == drain[i - 2];
      }
    }
  }

  // ---------------------------------------------------------------------
  // Gateway_LL_Create

  /** The outcome of adding a list of entries: the calls, the registry built,
      and whether every add succeeded. */
  datatype Batch = Batch(calls: seq<Call>, modules: seq<ModuleData>, ok: bool)

  /** Lines 139-151: add the entries in order, the i-th answered by adds(i),
      stopping at the first that fails. The registry built is the entries'
      records in order, up to the first failure, and the failing add has
      given back what it acquired: the calls leave exactly that registry
      held. */
  function AddAll(entries: seq<PropertiesEntry>, adds: nat -> AddOutcome): (r: Batch)
    ensures |r.modules| <= |entries|
    ensures r.ok ==> |r.modules| == |entries|
    ensures !r.ok ==> |r.modules| < |entries|
  {
    if |entries| == 0 then Batch([], [], true)
    else
      var n := |entries| - 1;
      var front := AddAll(entries[..n], adds);
      if !front.ok then front
      else
        var e := entries[n];
        var a := AddSpec(front.modules, e.name, e.path, e.config, adds(n));
        Batch(front.calls + a.calls, a.modules, a.result.Some?)
  }

  /** Every add of the entries, the i-th answered by adds(i), succeeds. */
  predicate AllSucceed(entries: seq<PropertiesEntry>, adds: nat -> AddOutcome)
  {
    forall i :: 0 <= i < |entries| ==> Succeeds(entries[i].path, adds(i))
  }

  lemma AllSucceedSnoc(entries: seq<PropertiesEntry>, adds: nat -> AddOutcome)
    requires |entries| > 0
    ensures var n := |entries| - 1;
      AllSucceed(entries, adds) <==> AllSucceed(entries[..n], adds) && Succeeds(entries[n].path, adds(n))
  {
    var n := |entries| - 1;
    assert forall i :: 0 <= i < n ==> entries[..n][i] == entries[i];
  }

  /** AddAll succeeds exactly when every add succeeds. */
  lemma {:induction false} AddAllOk(entries: seq<PropertiesEntry>, adds: nat -> AddOutcome)
    ensures AddAll(entries, adds).ok <==> AllSucceed(entries, adds)
  {
    if |entries| == 0 {
      assert AddAll(entries, adds) == Batch([], [], true);
    } else {
      var n := |entries| - 1;
      var front := AddAll(entries[..n], adds);
      AddAllOk(entries[..n], adds);
      AllSucceedSnoc(entries, adds);
      if front.ok {
        var e := entries[n];
        var a := AddSpec(front.modules, e.name, e.path, e.config, adds(n));
        assert AddAll(entries, adds).ok == a.result.Some?;
      } else {
        assert AddAll(entries, adds) == front;
      }
    }
  }

  /** `ms` holds, in order, the records of the first |ms| entries, all of
      whose adds succeeded. */
  predicate Built(entries: seq<PropertiesEntry>, adds: nat -> AddOutcome, ms: seq<ModuleData>)
  {
    && |ms| <= |entries|
    && forall i :: 0 <= i < |ms| ==>
         Succeeds(entries[i].path, adds(i)) && ms[i] == EntryOf(entries[i].name, adds(i))
  }

  lemma BuiltPrefix(entries: seq<PropertiesEntry>, adds: nat -> AddOutcome, n: nat, ms: seq<ModuleData>)
    requires n <= |entries| && Built(entries[..n], adds, ms)
    ensures Built(entries, adds, ms)
  {
    assert forall i :: 0 <= i < |ms| ==> entries[..n][i] == entries[i];
  }

  lemma BuiltSnoc(entries: seq<PropertiesEntry>, adds: nat -> AddOutcome, ms: seq<ModuleData>)
    requires |entries| > 0 && |ms| == |entries| - 1
    requires Built(entries[..|ms|], adds, ms) && Succeeds(entries[|ms|].path, adds(|ms|))
    ensures Built(entries, adds, ms + [EntryOf(entries[|ms|].name, adds(|ms|))])
  {
    BuiltPrefix(entries, adds, |ms|, ms);
  }

  /** The registry AddAll builds holds the records of the entries before
      the first failing one, in order, and the entry just past them is the
      one that failed. */
  lemma {:induction false} AddAllBuilt(entries: seq<PropertiesEntry>, adds: nat -> AddOutcome)
    ensures var r := AddAll(entries, adds);
      && Built(entries, adds, r.modules)
      && (!r.ok ==> !Succeeds(entries[|r.modules|].path, adds(|r.modules|)))
  {
    if |entries| == 0 {
      assert AddAll(entries, adds) == Batch([], [], true);
    } else {
      var n := |entries| - 1;
      var front := AddAll(entries[..n], adds);
      AddAllBuilt(entries[..n], adds);
      if front.ok {
        var e := entries[n];
        var a := AddSpec(front.modules, e.name, e.path, e.config, adds(n));
        assert AddAll(entries, adds) == Batch(front.calls + a.calls, a.modules, a.result.Some?);
        if Succeeds(e.path, adds(n)) {
          assert a.modules == front.modules + [EntryOf(e.name, adds(n))];
          BuiltSnoc(entries, adds, front.modules);
        } else {
          assert a.modules == front.modules;
          BuiltPrefix(entries, adds, n, front.modules);
        }
      } else {
        assert AddAll(entries, adds) == front;
        BuiltPrefix(entries, adds, n, front.modules);
        assert entries[..n][|front.modules|] == entries[|front.modules|];
      }
    }
  }

  /** The calls of AddAll leave exactly the registry it built held, and
      report no event. */
  lemma {:induction false} AddAllMoves(entries: seq<PropertiesEntry>, adds: nat -> AddOutcome)
    ensures var r := AddAll(entries, adds);
      Moves(r.calls, multiset{}, Holding(r.modules)) && Reported(r.calls) == []
  {
    if |entries| == 0 {
      assert AddAll(entries, adds) == Batch([], [], true);
      MovesEmpty(multiset{});
    } else {
      var n := |entries| - 1;
      var front := AddAll(entries[..n], adds);
      AddAllMoves(entries[..n], adds);
      if front.ok {
        var e := entries[n];
        var a := AddSpec(front.modules, e.name, e.path, e.config, adds(n));
        AddStep(front.calls, front.modules, e.name, e.path, e.config, adds(n));
        assert AddAll(entries, adds) == Batch(front.calls + a.calls, a.modules, a.result.Some?);
      } else {
        assert AddAll(entries, adds) == front;
      }
    }
  }

  /** One add on top of a registry whose calls balance keeps them balanced. */
  lemma AddStep(calls: seq<Call>, ms: seq<ModuleData>, name: Option<string>, path: Option<Path>,
                config: Config, o: AddOutcome)
    requires Moves(calls, multiset{}, Holding(ms)) && Reported(calls) == []
    ensures var a := AddSpec(ms, name, path, config, o);
      Moves(calls + a.calls, multiset{}, Holding(a.modules)) && Reported(calls + a.calls) == []
  {
    var a := AddSpec(ms, name, path, config, o);
    AddKeeps(ms, name, path, config, o);
    MovesConcat(calls, a.calls, multiset{}, Holding(ms), Holding(a.modules));
    ReportedConcat(calls, a.calls);
  }

  /** One more entry, when the adds so far succeeded: it is made on the
      registry they built. */
  lemma AddAllNext(entries: seq<PropertiesEntry>, adds: nat -> AddOutcome, i: nat)
    requires i < |entries|
    requires AddAll(entries[..i], adds).ok
    ensures var b := AddAll(entries[..i], adds);
      var a := AddSpec(b.modules, entries[i].name, entries[i].path, entries[i].config, adds(i));
      AddAll(entries[..i + 1], adds) == Batch(b.calls + a.calls, a.modules, a.result.Some?)
  {
    var longer := entries[..i + 1];
    assert |longer| - 1 == i && longer[..i] == entries[..i];
  }

  /** One more entry, once an add has failed: nothing more happens. */
  lemma AddAllFailed(entries: seq<PropertiesEntry>, adds: nat -> AddOutcome, i: nat)
    requires i < |entries|
    requires !AddAll(entries[..i], adds).ok
    ensures AddAll(entries[..i + 1], adds) == AddAll(entries[..i], adds)
  {
    var longer := entries[..i + 1];
    assert |longer| - 1 == i && longer[..i] == entries[..i];
  }

  /** Lines 147-151: once an add has failed, the later entries are never
      attempted: the outcome stays that of the failing prefix. */
  lemma {:induction false} AddAllStops(entries: seq<PropertiesEntry>, adds: nat -> AddOutcome, i: nat, j: nat)
    requires i <= j <= |entries|
    requires !AddAll(entries[..i], adds).ok
    ensures AddAll(entries[..j], adds) == AddAll(entries[..i], adds)
    decreases j - i
  {
    if i < j {
      AddAllFailed(entries, adds, i);
      AddAllStops(entries, adds, i + 1, j);
    }
  }

  /** How the collaborators answer during a create: whether the gateway
      record can be allocated, whether the bus and the registry can be
      created, how each module add goes, what EventSystem_Init returns, and,
      should the gateway be torn down again, how the bus answers each
      unlink. */
  datatype CreateOracle = CreateOracle(allocOk: bool, busOk: bool, registryOk: bool,
                                       adds: nat -> AddOutcome, events: Option<EventHandle>,
                                       unlinks: nat -> bool)

  /** The entries to add; NULL properties or a NULL entry vector add none. */
  function Entries(properties: Option<seq<PropertiesEntry>>): seq<PropertiesEntry>
  {
    if properties.Some? then properties.value else []
  }

  /** The calls of a create, and the gateway it returns, if any: its
      registry and its event system. */
  datatype CreateResult = CreateResult(calls: seq<Call>, made: bool,
                                       modules: seq<ModuleData>, events: Option<EventHandle>)

  /** Lines 136-182 of Gateway_LL_Create, once the bus and the registry
      exist: add the entries, then start the event system and report; tear
      the gateway down again if either fails. */
  function StartSpec(entries: seq<PropertiesEntry>, o: CreateOracle): CreateResult
  {
    var added := AddAll(entries, o.adds);
    if !added.ok then
      CreateResult(added.calls + DestroyCalls(None, added.modules, o.unlinks), false, [], None)
    else if o.events.None? then
      CreateResult(added.calls + [EventInit(None)] + DestroyCalls(None, added.modules, o.unlinks), false, [], None)
    else
      CreateResult(added.calls + [EventInit(o.events), EventReport(o.events, Created),
                                  EventReport(o.events, ModuleListChanged)],
                   true, added.modules, o.events)
  }

  /** Gateway_LL_Create, lines 103-193. */
  function CreateSpec(properties: Option<seq<PropertiesEntry>>, o: CreateOracle): CreateResult
  {
    if !o.allocOk then CreateResult([], false, [], None)
    else if !o.busOk then CreateResult([BusCreate(false)], false, [], None)
    else if !o.registryOk then CreateResult([BusCreate(true), RegistryCreate(false), BusDestroy], false, [], None)
    else
      var started := StartSpec(Entries(properties), o);
      CreateResult([BusCreate(true), RegistryCreate(true)] + started.calls,
                   started.made, started.modules, started.events)
  }

  /** Lines 113-133: creating the bus and the registry, and undoing the bus
      when the registry cannot be created. */
  lemma StartMoves()
    ensures Moves([BusCreate(true), RegistryCreate(true)], multiset{}, Owned(None))
    ensures Moves([BusCreate(true), RegistryCreate(false), BusDestroy], multiset{}, multiset{})
    ensures Reported([BusCreate(true), RegistryCreate(true)]) == []
    ensures Reported([BusCreate(true), RegistryCreate(false), BusDestroy]) == []
  {
    QuietReported([BusCreate(true), RegistryCreate(true)]);
    QuietReported([BusCreate(true), RegistryCreate(false), BusDestroy]);
    var bus := multiset{Owns(OwnedBus)};
    MovesGain(BusCreate(true), Owns(OwnedBus), multiset{});
    assert multiset{} + bus == bus;
    MovesGain(RegistryCreate(true), Owns(OwnedRegistry), bus);
    assert bus + multiset{Owns(OwnedRegistry)} == Owned(None);
    MovesConcat([BusCreate(true)], [RegistryCreate(true)], multiset{}, bus, Owned(None));
    assert [BusCreate(true)] + [RegistryCreate(true)] == [BusCreate(true), RegistryCreate(true)];
    MovesNone(RegistryCreate(false), bus);
    MovesLose(BusDestroy, Owns(OwnedBus), multiset{});
    MovesConcat([BusCreate(true)], [RegistryCreate(false)], multiset{}, bus, bus);
    MovesConcat([BusCreate(true)] + [RegistryCreate(false)], [BusDestroy], multiset{}, bus, multiset{});
    assert [BusCreate(true)] + [RegistryCreate(false)] + [BusDestroy]
        == [BusCreate(true), RegistryCreate(false), BusDestroy];
  }

  /** Once bus, registry and modules exist, the create holds the modules
      built with the bus and the registry, and has reported nothing. */
  lemma BuiltMoves(entries: seq<PropertiesEntry>, adds: nat -> AddOutcome)
    ensures var start, added := [BusCreate(true), RegistryCreate(true)], AddAll(entries, adds);
      && Moves(start + added.calls, multiset{}, Holding(added.modules) + Owned(None))
      && Reported(start + added.calls) == []
  {
    var start, added := [BusCreate(true), RegistryCreate(true)], AddAll(entries, adds);
    AddAllMoves(entries, adds);
    StartMoves();
    MovesFrame(added.calls, multiset{}, Holding(added.modules), Owned(None));
    assert multiset{} + Owned(None) == Owned(None);
    MovesConcat(start, added.calls, multiset{}, Owned(None), Holding(added.modules) + Owned(None));
    ReportedConcat(start, added.calls);
  }

  /** A create that fails after the bus and registry exist tears the gateway
      down again, with no event system, reporting nothing. */
  lemma TornDownMoves(built: seq<Call>, ms: seq<ModuleData>, unlinks: nat -> bool)
    requires Moves(built, multiset{}, Holding(ms) + Owned(None))
    requires Reported(built) == []
    ensures Moves(built + DestroyCalls(None, ms, unlinks), multiset{}, multiset{})
    ensures Reported(built + DestroyCalls(None, ms, unlinks)) == []
  {
    var destroy := DestroyCalls(None, ms, unlinks);
    DestroyMoves(None, ms, unlinks);
    DestroyReported(None, ms, unlinks);
    MovesConcat(built, destroy, multiset{}, Holding(ms) + Owned(None), multiset{});
    ReportedConcat(built, destroy);
  }

  /** A create whose event system cannot be started tears the gateway down
      the same way. */
  lemma InitFailedMoves(built: seq<Call>, ms: seq<ModuleData>, unlinks: nat -> bool)
    requires Moves(built, multiset{}, Holding(ms) + Owned(None))
    requires Reported(built) == []
    ensures Moves(built + [EventInit(None)] + DestroyCalls(None, ms, unlinks), multiset{}, multiset{})
    ensures Reported(built + [EventInit(None)] + DestroyCalls(None, ms, unlinks)) == []
  {
    var held := Holding(ms) + Owned(None);
    var init := built + [EventInit(None)];
    MovesIdle(built, EventInit(None), held);
    assert Reported(init) == [] by {
      ReportedConcat(built, [EventInit(None)]);
      QuietReported([EventInit(None)]);
    }
    TornDownMoves(init, ms, unlinks);
  }

  /** A create that succeeds initialises the event system and reports
      GATEWAY_CREATED, then GATEWAY_MODULE_LIST_CHANGED. */
  lemma StartedMoves(built: seq<Call>, ms: seq<ModuleData>, events: EventHandle)
    requires Moves(built, multiset{}, Holding(ms) + Owned(None))
    requires Reported(built) == []
    ensures var tail := [EventInit(Some(events)), EventReport(Some(events), Created),
                         EventReport(Some(events), ModuleListChanged)];
      && Moves(built + tail, multiset{}, Holding(ms) + Owned(Some(events)))
      && Reported(built + tail) == [Created, ModuleListChanged]
  {
    var h := Some(events);
    var init, created, changed := EventInit(h), EventReport(h, Created), EventReport(h, ModuleListChanged);
    var held := Holding(ms) + Owned(None);
    var full := Holding(ms) + Owned(h);
    assert Moves([init, created, changed], held, full) by {
      assert held + multiset{Owns(OwnedEvents)} == full;
      MovesGain(init, Owns(OwnedEvents), held);
      MovesNone(created, full);
      MovesNone(changed, full);
      MovesConcat([init], [created], held, full, full);
      MovesConcat([init] + [created], [changed], held, full, full);
      assert [init] + [created] + [changed] == [init, created, changed];
    }
    assert Reported([init, created, changed]) == [Created, ModuleListChanged] by {
      assert [init, created, changed] == [init] + [created] + [changed];
      ReportedConcat([init] + [created], [changed]);
      ReportedConcat([init], [created]);
      assert [init][..0] == [];
      assert [created][..0] == [];
      assert [changed][..0] == [];
    }
    MovesConcat(built, [init, created, changed], multiset{}, held, full);
    ReportedConcat(built, [init, created, changed]);
  }

  /** Once the bus and the registry exist, the create goes on to succeed
      exactly when every module add and the event system succeed, holding
      then the entries in order; otherwise it gives everything back. */
  lemma StartEffect(entries: seq<PropertiesEntry>, o: CreateOracle)
    ensures var s := StartSpec(entries, o);
      var calls := [BusCreate(true), RegistryCreate(true)] + s.calls;
      && (s.made <==> o.events.Some? && AllSucceed(entries, o.adds))
      && (s.made ==>
            && s.events == o.events
            && |s.modules| == |entries|
            && Built(entries, o.adds, s.modules)
            && Moves(calls, multiset{}, Holding(s.modules) + Owned(s.events))
            && Reported(calls) == [Created, ModuleListChanged])
      && (!s.made ==> Moves(calls, multiset{}, multiset{}) && Reported(calls) == [])
  {
    var start := [BusCreate(true), RegistryCreate(true)];
    var added := AddAll(entries, o.adds);
    var built := start + added.calls;
    AddAllOk(entries, o.adds);
    AddAllBuilt(entries, o.adds);
    BuiltMoves(entries, o.adds);
    var destroy := DestroyCalls(None, added.modules, o.unlinks);
    if !added.ok {
      TornDownMoves(built, added.modules, o.unlinks);
      ConcatAssoc(start, added.calls, destroy);
    } else if o.events.None? {
      InitFailedMoves(built, added.modules, o.unlinks);
      ConcatAssoc4(start, added.calls, [EventInit(None)], destroy);
    } else {
      var tail := [EventInit(o.events), EventReport(o.events, Created), EventReport(o.events, ModuleListChanged)];
      StartedMoves(built, added.modules, o.events.value);
      ConcatAssoc(start, added.calls, tail);
    }
  }

  /** Gateway_LL_Create returns a gateway exactly when the record, the bus,
      the registry, every module add and the event system all succeed. Then
      its registry holds the entries' records in order, it holds them with
      the bus, the registry and its event system, and it has reported
      GATEWAY_CREATED and GATEWAY_MODULE_LIST_CHANGED, in that order.
      Otherwise everything acquired has been given back and no event has
      been reported. */
  lemma CreateEffect(properties: Option<seq<PropertiesEntry>>, o: CreateOracle)
    ensures var r := CreateSpec(properties, o);
      var entries := Entries(properties);
      && (r.made <==> o.allocOk && o.busOk && o.registryOk && o.events.Some? && AllSucceed(entries, o.adds))
      && (r.made ==>
            && r.events == o.events
            && |r.modules| == |entries|
            && Built(entries, o.adds, r.modules)
            && Moves(r.calls, multiset{}, Holding(r.modules) + Owned(r.events))
            && Reported(r.calls) == [Created, ModuleListChanged])
      && (!r.made ==> Moves(r.calls, multiset{}, multiset{}) && Reported(r.calls) == [])
  {
    if !o.allocOk {
      MovesEmpty(multiset{});
    } else if !o.busOk {
      MovesNone(BusCreate(false), multiset{});
      QuietReported([BusCreate(false)]);
    } else if !o.registryOk {
      StartMoves();
    } else {
      StartEffect(Entries(properties), o);
    }
  }

  // ---------------------------------------------------------------------
  // The books of a live gateway, operation by operation

  /** A gateway whose books balance before a removal still balances after it. */
  lemma RemoveKeepsBooks(h: seq<Call>, owned: multiset<Item>, ms: seq<ModuleData>, i: nat, unlinkOk: bool)
    requires i < |ms|
    requires Moves(h, multiset{}, Holding(ms) + owned)
    ensures Moves(h + RemoveCalls(ms[i], unlinkOk), multiset{}, Holding(Erase(ms, i)) + owned)
  {
    RemoveEffect(ms, i, unlinkOk);
    MovesExtend(h, RemoveCalls(ms[i], unlinkOk), Holding(ms), Holding(Erase(ms, i)), owned);
  }

  /** Giving back the event system leaves the gateway owning its bus and
      registry only. */
  lemma DestroyedReportKeepsBooks(h: seq<Call>, ms: seq<ModuleData>, events: Option<EventHandle>)
    requires Moves(h, multiset{}, Holding(ms) + Owned(events))
    ensures Moves(h + DestroyedReportCalls(events), multiset{}, Holding(ms) + Owned(None))
  {
    DestroyedReportMoves(events, Holding(ms));
    MovesConcat(h, DestroyedReportCalls(events), multiset{}, Holding(ms) + Owned(events), Holding(ms) + Owned(None));
  }

  /** Destroying the registry and the bus of a gateway with no modules left
      balances its books. */
  lemma RegistryAndBusKeepsBooks(h: seq<Call>)
    requires Moves(h, multiset{}, Holding([]) + Owned(None))
    ensures Moves(h + [RegistryDestroy, BusDestroy], multiset{}, multiset{})
  {
    assert Holding([]) + Owned(None) == Owned(None);
    RegistryAndBusMoves();
    MovesConcat(h, [RegistryDestroy, BusDestroy], multiset{}, Owned(None), multiset{});
  }

  /** A gateway whose books balance has made exactly one more
      MessageBus_IncRef than MessageBus_DecRef per registry entry: each
      module holds one outstanding bus reference and the gateway none. */
  lemma RefsOutstanding(h: seq<Call>, ms: seq<ModuleData>, events: Option<EventHandle>)
    requires Moves(h, multiset{}, Holding(ms) + Owned(events))
    ensures multiset(h)[BusIncRef] == multiset(h)[BusDecRef] + |ms|
  {
    SumRefs(h);
    HoldingRefs(ms);
    assert (multiset{} + Sum(h).acquired)[Ref] == (Holding(ms) + Owned(events) + Sum(h).released)[Ref];
  }
}
