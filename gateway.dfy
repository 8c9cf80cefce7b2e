/**
 * gateway_ll.c itself: the gateway record and its operations, written as
 * methods that make the collaborator calls one at a time, in the order the
 * C code makes them. Each method is proved to make exactly the calls the
 * Lifecycle functions describe and to keep the gateway's books (Valid).
 */
module GatewayLL {
  import opened Wrappers
  import opened Registry
  import opened Trace
  import opened Lifecycle

  /** GATEWAY_HANDLE_DATA: the registry of modules and the event system
      handle. The bus and the registry vector themselves are resources the
      gateway owns; Valid accounts for them. */
  class Gateway {
    var modules: seq<ModuleData>
    var eventSystem: Option<EventHandle>
    /** The calls made on this gateway's behalf since it was allocated. */
    ghost var history: seq<Call>

    /** The gateway's books: the calls made on its behalf have left exactly
        its modules, its bus, its registry and its event system held. */
    ghost predicate Valid()
      reads this
    {
      Moves(history, multiset{}, Holding(modules) + Owned(eventSystem))
    }

    /** The zeroed allocation of lines 106-111. */
    constructor()
      ensures modules == [] && eventSystem == None && history == []
    {
      modules := [];
      eventSystem := None;
      history := [];
    }

    /** Lines 280-325 of gateway_addmodule_internal, once the instance
        exists: link it on the bus, take a reference and record it, undoing
        what fails. */
    method AttachCreated(host: Host, entry: ModuleData, o: AddOutcome) returns (result: Option<Inst>)
      modifies host, this`modules
      ensures host.calls == old(host.calls) + LinkedCalls(entry, o)
      ensures modules == if o.linkOk && o.pushOk then old(modules) + [entry] else old(modules)
      ensures result == if o.linkOk && o.pushOk then Some(entry.instance) else None
    {
      ghost var created := host.calls;
      host.Record(BusAttach(entry.instance, o.linkOk));
      if !o.linkOk {
        result := None;
      } else {
        ghost var linked := host.calls;
        host.Record(BusIncRef);
        host.Record(RegistryPush(entry, o.pushOk));
        if !o.pushOk {
          host.Record(BusDecRef);
          result := None;
          host.Record(BusDetach(entry.instance, o.unlinkOk));
        } else {
          modules := modules + [entry];
          result := Some(entry.instance);
        }
        assert host.calls == linked + RecordCalls(entry, o);
      }
      assert host.calls == created + LinkCalls(entry, o);
      if result.None? {
        host.Record(ModuleDestroy(entry.library, entry.instance));
        host.Record(Unload(entry.library));
      }
    }

    /** gateway_addmodule_internal, lines 249-336, as calls and registry:
        load the library, create the instance, then link and record it. */
    method AddInternal(host: Host, name: Option<string>, path: Option<Path>, config: Config, o: AddOutcome)
      returns (result: Option<Inst>)
      modifies host, this`modules
      ensures var r := AddSpec(old(modules), name, path, config, o);
        && host.calls == old(host.calls) + r.calls
        && modules == r.modules
        && result == r.result
    {
      ghost var calls0, modules0 := host.calls, modules;
      if path.None? {
        result := None;
      } else {
        host.Record(Load(path.value, o.load));
        if o.load.None? {
          result := None;
        } else {
          var lib := o.load.value;
          ghost var loaded := host.calls;
          host.Record(ModuleCreate(lib, config, o.create));
          if o.create.None? {
            result := None;
            host.Record(Unload(lib));
          } else {
            var entry := ModuleData(name, lib, o.create.value);
            result := AttachCreated(host, entry, o);
            ConcatAssoc(loaded, [ModuleCreate(lib, config, o.create)], LinkedCalls(entry, o));
          }
          assert host.calls == loaded + CreateCalls(name, lib, config, o);
          ConcatAssoc(calls0, [Load(path.value, o.load)], CreateCalls(name, lib, config, o));
        }
      }
      assert host.calls == calls0 + AddCalls(name, path, config, o);
    }

    /** gateway_addmodule_internal, lines 249-336, on the gateway: the add,
        recorded in its history, keeping its books. */
    method Attach(host: Host, name: Option<string>, path: Option<Path>, config: Config, o: AddOutcome)
      returns (result: Option<Inst>)
      modifies host, this
      ensures var r := AddSpec(old(modules), name, path, config, o);
        && host.calls == old(host.calls) + r.calls
        && history == old(history) + r.calls
        && modules == r.modules
        && result == r.result
      ensures eventSystem == old(eventSystem)
      ensures old(Valid()) ==> Valid()
    {
      ghost var wasValid := Valid();
      ghost var r := AddSpec(modules, name, path, config, o);
      if wasValid {
        AddKeepsBooks(history, Owned(eventSystem), modules, name, path, config, o);
      }
      result := AddInternal(host, name, path, config, o);
      history := history + r.calls;
    }

    /** Lines 144 and 150 of Gateway_LL_Create: add entry i on top of the
        registry the earlier entries built. */
    method AttachNext(host: Host, entries: seq<PropertiesEntry>, adds: nat -> AddOutcome, i: nat)
      returns (handle: Option<Inst>)
      requires i < |entries|
      requires AddAll(entries[..i], adds).ok && modules == AddAll(entries[..i], adds).modules
      modifies host, this
      ensures var b, c := AddAll(entries[..i], adds), AddAll(entries[..i + 1], adds);
        && |b.calls| <= |c.calls|
        && c.calls == b.calls + c.calls[|b.calls|..]
        && host.calls == old(host.calls) + c.calls[|b.calls|..]
        && history == old(history) + c.calls[|b.calls|..]
        && modules == c.modules
        && (handle.Some? <==> c.ok)
      ensures eventSystem == old(eventSystem)
    {
      AddAllNext(entries, adds, i);
      ghost var b := AddAll(entries[..i], adds);
      ghost var a := AddSpec(b.modules, entries[i].name, entries[i].path, entries[i].config, adds(i));
      handle := Attach(host, entries[i].name, entries[i].path, entries[i].config, adds(i));
      assert (b.calls + a.calls)[|b.calls|..] == a.calls;
    }

    /** Lines 136-161 of Gateway_LL_Create: add the entries in order, the
        i-th answered by adds(i), until one fails. */
    method AttachAll(host: Host, entries: seq<PropertiesEntry>, adds: nat -> AddOutcome) returns (ok: bool)
      requires modules == []
      modifies host, this
      ensures var b := AddAll(entries, adds);
        && host.calls == old(host.calls) + b.calls
        && history == old(history) + b.calls
        && modules == b.modules
        && ok == b.ok
      ensures eventSystem == old(eventSystem)
    {
      assert AddAll(entries[..0], adds) == Batch([], [], true) by {
        assert entries[..0] == [];
      }
      ok := true;
      if |entries| > 0 {
        var handle := AttachNext(host, entries, adds, 0);
        var i := 1;
        while i < |entries| && handle.Some?
          invariant 1 <= i <= |entries|
          invariant host.calls == old(host.calls) + AddAll(entries[..i], adds).calls
          invariant history == old(history) + AddAll(entries[..i], adds).calls
          invariant modules == AddAll(entries[..i], adds).modules
          invariant handle.Some? <==> AddAll(entries[..i], adds).ok
          invariant eventSystem == old(eventSystem)
          decreases |entries| - i
        {
          ghost var b, c := AddAll(entries[..i], adds), AddAll(entries[..i + 1], adds);
          handle := AttachNext(host, entries, adds, i);
          ConcatAssoc(old(host.calls), b.calls, c.calls[|b.calls|..]);
          ConcatAssoc(old(history), b.calls, c.calls[|b.calls|..]);
          i := i + 1;
        }
        if handle.None? {
          AddAllStops(entries, adds, i, |entries|);
        }
        assert entries[..|entries|] == entries;
        ok := handle.Some?;
      }
    }

    /** Lines 163-182 of Gateway_LL_Create: start the event system and
        report GATEWAY_CREATED and GATEWAY_MODULE_LIST_CHANGED, or tear the
        gateway down when the event system cannot be started. */
    method StartEventSystem(host: Host, o: CreateOracle) returns (ok: bool)
      requires eventSystem == None
      modifies host, this
      ensures ok <==> o.events.Some?
      ensures !ok ==>
        var calls := [EventInit(None)] + DestroyCalls(None, old(modules), o.unlinks);
        && host.calls == old(host.calls) + calls && history == old(history) + calls
        && modules == [] && eventSystem == None
      ensures ok ==>
        var calls := [EventInit(o.events), EventReport(o.events, Created), EventReport(o.events, ModuleListChanged)];
        && host.calls == old(host.calls) + calls && history == old(history) + calls
        && modules == old(modules) && eventSystem == o.events
    {
      ghost var calls0, history0 := host.calls, history;
      eventSystem := o.events;
      host.Record(EventInit(o.events));
      history := history + [EventInit(o.events)];
      if o.events.None? {
        ghost var destroy := DestroyCalls(None, modules, o.unlinks);
        TearDown(host, o.unlinks);
        ConcatAssoc(calls0, [EventInit(None)], destroy);
        ConcatAssoc(history0, [EventInit(None)], destroy);
        return false;
      }
      host.Record(EventReport(o.events, Created));
      host.Record(EventReport(o.events, ModuleListChanged));
      history := history0 + [EventInit(o.events), EventReport(o.events, Created), EventReport(o.events, ModuleListChanged)];
      ok := true;
    }

    /** Lines 136-182 of Gateway_LL_Create, once the bus and the registry
        exist. */
    method Start(host: Host, entries: seq<PropertiesEntry>, o: CreateOracle) returns (ok: bool)
      requires modules == [] && eventSystem == None
      requires history == [BusCreate(true), RegistryCreate(true)]
      modifies host, this
      ensures var s := StartSpec(entries, o);
        && host.calls == old(host.calls) + s.calls
        && history == old(history) + s.calls
        && ok == s.made
        && modules == s.modules && eventSystem == s.events
        && (ok ==> Valid())
    {
      ghost var calls0, history0 := host.calls, history;
      var added := AttachAll(host, entries, o.adds);
      ghost var b := AddAll(entries, o.adds);
      if !added {
        ghost var destroy := DestroyCalls(None, b.modules, o.unlinks);
        TearDown(host, o.unlinks);
        ConcatAssoc(calls0, b.calls, destroy);
        ConcatAssoc(history0, b.calls, destroy);
        return false;
      }
      ghost var calls1, history1 := host.calls, history;
      ok := StartEventSystem(host, o);
      ghost var rest := host.calls[|calls1|..];
      assert host.calls == calls1 + rest && history == history1 + rest;
      ConcatAssoc(calls0, b.calls, rest);
      ConcatAssoc(history0, b.calls, rest);
      assert b.calls + rest == StartSpec(entries, o).calls;
      StartEffect(entries, o);
    }

    /** gateway_removemodule_internal, lines 379-399, on entry i. */
    method Detach(host: Host, i: nat, unlinkOk: bool)
      requires i < |modules|
      modifies host, this
      ensures host.calls == old(host.calls) + RemoveCalls(old(modules)[i], unlinkOk)
      ensures history == old(history) + RemoveCalls(old(modules)[i], unlinkOk)
      ensures modules == Erase(old(modules), i)
      ensures eventSystem == old(eventSystem)
      ensures old(Valid()) ==> Valid()
    {
      ghost var wasValid := Valid();
      ghost var calls0 := host.calls;
      var m := modules[i];
      host.Record(BusDetach(m.instance, unlinkOk));
      host.Record(BusDecRef);
      host.Record(ModuleDestroy(m.library, m.instance));
      host.Record(Unload(m.library));
      host.Record(RegistryErase(m));
      assert host.calls == calls0 + RemoveCalls(m, unlinkOk);
      if wasValid {
        RemoveKeepsBooks(history, Owned(eventSystem), modules, i, unlinkOk);
      }
      modules := modules[..i] + modules[i + 1..];
      history := history + RemoveCalls(m, unlinkOk);
    }

    /** The loop of lines 358-364: remove the front entry until none is
        left, the k-th removal answered by unlinks(k). */
    method Drain(host: Host, unlinks: nat -> bool)
      modifies host, this
      ensures host.calls == old(host.calls) + DrainCalls(old(modules), unlinks, 0)
      ensures history == old(history) + DrainCalls(old(modules), unlinks, 0)
      ensures modules == [] && eventSystem == old(eventSystem)
      ensures old(Valid()) ==> Valid()
    {
      ghost var wasValid := Valid();
      ghost var calls0, history0, modules0 := host.calls, history, modules;
      var k: nat := 0;
      while |modules| > 0
        invariant k <= |modules0| && modules == modules0[k..]
        invariant host.calls + DrainCalls(modules, unlinks, k) == calls0 + DrainCalls(modules0, unlinks, 0)
        invariant history + DrainCalls(modules, unlinks, k) == history0 + DrainCalls(modules0, unlinks, 0)
        invariant eventSystem == old(eventSystem)
        invariant wasValid ==> Valid()
        decreases |modules|
      {
        ghost var before, hbefore, rest := host.calls, history, modules[1..];
        ghost var removal := RemoveCalls(modules[0], unlinks(k));
        assert DrainCalls(modules, unlinks, k) == removal + DrainCalls(rest, unlinks, k + 1);
        Detach(host, 0, unlinks(k));
        ConcatAssoc(before, removal, DrainCalls(rest, unlinks, k + 1));
        ConcatAssoc(hbefore, removal, DrainCalls(rest, unlinks, k + 1));
        k := k + 1;
      }
    }

    /** Lines 347-356 of gateway_destroy_internal: report GATEWAY_DESTROYED
        and give back the event system. */
    method ReportDestroyedAndCloseEvents(host: Host)
      modifies host, this
      ensures host.calls == old(host.calls) + DestroyedReportCalls(old(eventSystem))
      ensures history == old(history) + DestroyedReportCalls(old(eventSystem))
      ensures modules == old(modules) && eventSystem == None
      ensures old(Valid()) ==> Valid()
    {
      ghost var wasValid := Valid();
      ghost var events0 := eventSystem;
      host.Record(EventReport(eventSystem, Destroyed));
      host.Record(EventDestroy(eventSystem));
      eventSystem := None;
      if wasValid {
        DestroyedReportKeepsBooks(history, modules, events0);
      }
      history := history + DestroyedReportCalls(events0);
    }

    /** Lines 366-376 of gateway_destroy_internal: destroy the registry and
        then the bus. */
    method DestroyRegistryAndBus(host: Host)
      requires modules == [] && eventSystem == None
      modifies host, this
      ensures host.calls == old(host.calls) + [RegistryDestroy, BusDestroy]
      ensures history == old(history) + [RegistryDestroy, BusDestroy]
      ensures modules == [] && eventSystem == None
      ensures old(Valid()) ==> Moves(history, multiset{}, multiset{})
    {
      ghost var wasValid := Valid();
      host.Record(RegistryDestroy);
      host.Record(BusDestroy);
      if wasValid {
        RegistryAndBusKeepsBooks(history);
      }
      history := history + [RegistryDestroy, BusDestroy];
    }

    /** gateway_destroy_internal, lines 343-377, on a gateway: report
        GATEWAY_DESTROYED, give back the event system, remove every entry,
        then destroy the registry and the bus. A gateway whose books
        balanced has then given back everything it ever acquired. */
    method TearDown(host: Host, unlinks: nat -> bool)
      modifies host, this
      ensures host.calls == old(host.calls) + DestroyCalls(old(eventSystem), old(modules), unlinks)
      ensures history == old(history) + DestroyCalls(old(eventSystem), old(modules), unlinks)
      ensures modules == [] && eventSystem == None
      ensures old(Valid()) ==> Moves(history, multiset{}, multiset{})
    {
      ghost var calls0, history0, modules0, events0 := host.calls, history, modules, eventSystem;
      ReportDestroyedAndCloseEvents(host);
      Drain(host, unlinks);
      DestroyRegistryAndBus(host);
      ghost var drain := DrainCalls(modules0, unlinks, 0);
      ConcatAssoc4(calls0, DestroyedReportCalls(events0), drain, [RegistryDestroy, BusDestroy]);
      ConcatAssoc4(history0, DestroyedReportCalls(events0), drain, [RegistryDestroy, BusDestroy]);
    }
  }

  /** GATEWAY_MODULE_INFO: what Gateway_GetModuleList reports of a module. */
  datatype ModuleInfo = ModuleInfo(name: Option<string>)

  /** Gateway_LL_Create, lines 103-193: allocate the record, create the bus
      and the registry, add the entries in order until one fails, then start
      the event system and report GATEWAY_CREATED and
      GATEWAY_MODULE_LIST_CHANGED; whatever fails after the registry exists
      tears the gateway down again. */
  method Create(host: Host, properties: Option<seq<PropertiesEntry>>, o: CreateOracle) returns (gw: Gateway?)
    modifies host
    ensures var r := CreateSpec(properties, o);
      && host.calls == old(host.calls) + r.calls
      && (gw != null <==> r.made)
      && (gw != null ==> && fresh(gw) && gw.modules == r.modules && gw.eventSystem == r.events
                         && gw.history == r.calls && gw.Valid())
  {
    ghost var calls0 := host.calls;
    if !o.allocOk {
      assert CreateSpec(properties, o).calls == [];
      return null;
    }
    var gateway := new Gateway();
    host.Record(BusCreate(o.busOk));
    if !o.busOk {
      assert CreateSpec(properties, o).calls == [BusCreate(false)];
      return null;
    }
    host.Record(RegistryCreate(o.registryOk));
    if !o.registryOk {
      host.Record(BusDestroy);
      assert CreateSpec(properties, o).calls == [BusCreate(true), RegistryCreate(false), BusDestroy];
      return null;
    }
    ghost var start := [BusCreate(true), RegistryCreate(true)];
    ghost var s := StartSpec(Entries(properties), o);
    assert CreateSpec(properties, o) == CreateResult(start + s.calls, s.made, s.modules, s.events);
    assert host.calls == calls0 + start;
    gateway.history := start;
    var started := gateway.Start(host, Entries(properties), o);
    ConcatAssoc(calls0, start, s.calls);
    gw := if started then gateway else null;
  }

  /** Gateway_LL_Destroy, lines 195-198: a NULL gateway is left alone. */
  method Destroy(host: Host, gw: Gateway?, unlinks: nat -> bool)
    modifies host, gw
    ensures gw == null ==> host.calls == old(host.calls)
    ensures gw != null ==>
      && host.calls == old(host.calls) + DestroyCalls(old(gw.eventSystem), old(gw.modules), unlinks)
      && gw.history == old(gw.history) + DestroyCalls(old(gw.eventSystem), old(gw.modules), unlinks)
      && gw.modules == [] && gw.eventSystem == None
      && (old(gw.Valid()) ==> Moves(gw.history, multiset{}, multiset{}))
  {
    if gw != null {
      gw.TearDown(host, unlinks);
    }
  }

  /** Gateway_LL_AddModule, lines 200-220: nothing happens without a gateway
      and an entry. */
  method AddModule(host: Host, gw: Gateway?, entry: Option<PropertiesEntry>, o: AddOutcome)
    returns (handle: Option<Inst>)
    modifies host, gw
    ensures gw == null || entry.None? ==> handle.None? && host.calls == old(host.calls)
    ensures gw != null && entry.None? ==>
      gw.modules == old(gw.modules) && gw.history == old(gw.history)
    ensures gw != null && entry.Some? ==>
      var r := AddSpec(old(gw.modules), entry.value.name, entry.value.path, entry.value.config, o);
      && host.calls == old(host.calls) + r.calls
      && gw.history == old(gw.history) + r.calls
      && gw.modules == r.modules
      && handle == r.result
    ensures gw != null ==> gw.eventSystem == old(gw.eventSystem) && (old(gw.Valid()) ==> gw.Valid())
  {
    if gw != null && entry.Some? {
      handle := gw.Attach(host, entry.value.name, entry.value.path, entry.value.config, o);
    } else {
      handle := None;
    }
  }

  /** Gateway_LL_RemoveModule, lines 222-245: remove the first entry holding
      `handle`, if there is one. A NULL handle matches no entry, since every
      entry holds a created instance. */
  method RemoveModule(host: Host, gw: Gateway?, handle: Option<Inst>, unlinkOk: bool)
    modifies host, gw
    ensures gw == null ==> host.calls == old(host.calls)
    ensures gw != null ==>
      var found := if handle.Some? then FindModule(old(gw.modules), handle.value) else None;
      && (found.None? ==>
            && host.calls == old(host.calls)
            && gw.modules == old(gw.modules) && gw.history == old(gw.history))
      && (found.Some? ==>
            && host.calls == old(host.calls) + RemoveCalls(old(gw.modules)[found.value], unlinkOk)
            && gw.history == old(gw.history) + RemoveCalls(old(gw.modules)[found.value], unlinkOk)
            && gw.modules == Erase(old(gw.modules), found.value))
      && gw.eventSystem == old(gw.eventSystem)
      && (old(gw.Valid()) ==> gw.Valid())
  {
    if gw != null {
      var found := if handle.Some? then FindModule(gw.modules, handle.value) else None;
      if found.Some? {
        gw.Detach(host, found.value, unlinkOk);
      }
    }
  }

  /** Gateway_GetModuleList, lines 42-82: a snapshot of the modules' names,
      in registry order, or nothing without a gateway or when the result
      vector cannot be created or filled. */
  method GetModuleList(gw: Gateway?, vectorOk: bool, pushOk: bool) returns (r: Option<seq<ModuleInfo>>)
    ensures r.Some? <==> gw != null && vectorOk && pushOk
    ensures r.Some? ==> |r.value| == |gw.modules|
                        && forall i :: 0 <= i < |gw.modules| ==> r.value[i].name == gw.modules[i].name
  {
    if gw == null || !vectorOk {
      return None;
    }
    var count := |gw.modules|;
    var info := new ModuleInfo[count];
    for i := 0 to count
      invariant forall j :: 0 <= j < i ==> info[j].name == gw.modules[j].name
    {
      info[i] := ModuleInfo(gw.modules[i].name);
    }
    if !pushOk {
      return None;
    }
    r := Some(info[..]);
  }

  /** Gateway_AddEventCallback, lines 84-95: hand the callback to the event
      system; without a gateway, do nothing. */
  method AddEventCallback(host: Host, gw: Gateway?, event: Event, callback: Callback)
    modifies host, gw
    ensures gw == null ==> host.calls == old(host.calls)
    ensures gw != null ==>
      && host.calls == old(host.calls) + [EventAddCallback(gw.eventSystem, event, callback)]
      && gw.history == old(gw.history) + [EventAddCallback(gw.eventSystem, event, callback)]
      && gw.modules == old(gw.modules) && gw.eventSystem == old(gw.eventSystem)
      && (old(gw.Valid()) ==> gw.Valid())
  {
    if gw != null {
      ghost var wasValid := gw.Valid();
      ghost var history0 := gw.history;
      var c := EventAddCallback(gw.eventSystem, event, callback);
      host.Record(c);
      gw.history := gw.history + [c];
      if wasValid {
        MovesIdle(history0, c, Holding(gw.modules) + Owned(gw.eventSystem));
      }
    }
  }
}
