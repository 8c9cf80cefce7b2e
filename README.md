# Gateway lifecycle (gateway_ll.c) in Dafny

This project models the lifecycle manager of the IoT Edge gateway, `core/src/gateway_ll.c`. A gateway
owns three things:

- a message bus;
- a registry: the vector of MODULE_DATA records, one per attached module, each holding the module's
  optional name, the library it was loaded from and its live instance;
- optionally, an event system.

The file creates a gateway from a list of properties entries, adds and removes modules one at a time,
lists the modules, registers event callbacks, and destroys the gateway.

The collaborators are the module loader, a module's own create and destroy entry points, the message
bus, the event system and the vector library. The model never looks inside them. Every call the
gateway makes to them is appended to a call trace (`Trace.Host.calls`), together with the answer it
got. How the collaborators answer is a parameter of each operation:

- `Lifecycle.AddOutcome` for one module add;
- `Lifecycle.CreateOracle` for a whole create;
- an `unlinks` function for the bus's answers to the unlinks made during a destroy.

The properties are stated about that trace:

- **Resource balance (`Trace.Moves`).** Each call acquires or gives back tracked items: a loaded
  library, a live instance, a bus link, a bus reference, the bus, the registry and the event system.
  `Moves(cs, before, after)` says that the calls `cs` take a holder from holding `before` to holding
  `after`. The gateway's invariant (`GatewayLL.Gateway.Valid`) is that everything its history
  acquired is still held by its registry entries or by the gateway itself. A destroy of a valid
  gateway therefore gives back everything it ever acquired. A failed add or a failed create gives
  back all it took. A bus link counts as given back once the gateway has asked the bus to remove
  it, whatever the bus answers (see "Left out").
- **Events (`Trace.Reported`).** This is the sequence of events actually reported: reports made on a
  NULL event system report nothing.

## Structure

- `wrappers.dfy`: `Option`.
- `registry.dfy`: MODULE_DATA, `module_data_find`, and the `VECTOR_find_if` search built on it.
- `trace.dfy`: the collaborator calls, the item accounting, `Moves`, `Reported` and their algebra,
  and the `Host` object that records calls.
- `lifecycle.dfy`: for every operation, a function giving the calls it makes and the registry it
  leaves, as a function of the starting registry and the oracle answers, with lemmas about what
  those calls amount to. This covers the add (stage by stage), the remove, the drain, the destroy,
  the add-all loop of create, and create itself.
- `gateway.dfy`: the gateway record as a class, with `modules` and `eventSystem` updated in place and
  a ghost `history` of the calls made on its behalf. The public entry points are module-level
  methods taking a possibly-null gateway, as the C functions do. Each method makes the collaborator
  calls one at a time, in the C code's order. It is proved to make exactly the calls the function in
  `lifecycle.dfy` describes and to keep `Valid`.

## Model

| member | source | states |
|---|---|---|
| Registry.ModuleDataFind | core/src/gateway_ll.c:338-341 | An entry matches a searched-for handle exactly when it holds that instance. |
| Registry.FindModule | core/src/gateway_ll.c:229-232 | The index found holds an entry whose instance is the one searched for, and no earlier entry holds it; nothing is found exactly when no entry holds it. |
| Lifecycle.Rollback | core/src/gateway_ll.c:320-325 | The rollback of a created module: Module_Destroy of its instance through its own library, then ModuleLoader_Unload of that library. |
| Lifecycle.RecordCalls | core/src/gateway_ll.c:293-317 | MessageBus_IncRef, then VECTOR_push_back of the entry; if the push fails, MessageBus_DecRef and then MessageBus_RemoveModule, whatever the bus answers. |
| Lifecycle.LinkCalls | core/src/gateway_ll.c:284-318 | MessageBus_AddModule of the instance, and the recording calls only when the bus accepts it. |
| Lifecycle.LinkedCalls | core/src/gateway_ll.c:280-325 | The linking calls, followed by the rollback unless both linking and recording succeeded. |
| Lifecycle.CreateCalls | core/src/gateway_ll.c:268-326 | Module_Create with the entry's configuration; when it returns NULL, ModuleLoader_Unload of the library, otherwise the linking calls on the new instance. |
| Lifecycle.AddCalls | core/src/gateway_ll.c:249-336 | No call at all when the entry has no module path; otherwise ModuleLoader_Load, and the create calls only when a library was loaded. |
| Lifecycle.AddSpec | core/src/gateway_ll.c:249-336 | The add's calls; the registry with the new entry (name, library, instance) appended at the end and the instance returned when every step succeeds, otherwise the unchanged registry and NULL. |
| Lifecycle.RollbackMoves | core/src/gateway_ll.c:320-325 | Destroying the instance and then unloading its library gives back both. |
| Lifecycle.RecordMoves | core/src/gateway_ll.c:293-317 | Recording a linked module takes one bus reference. If the registry cannot grow, the reference is given back and the link is paired with an unlink attempt, whatever the bus answers. |
| Lifecycle.LinkMoves | core/src/gateway_ll.c:284-318 | A failed link acquires nothing. A successful link followed by a successful record leaves the module holding its link and one reference; otherwise only the live module remains. |
| Lifecycle.LinkedMoves | core/src/gateway_ll.c:280-325 | Once the instance exists, the rest of the add leaves library, instance, link and reference held when linking and recording succeed, and nothing at all otherwise. |
| Lifecycle.CreateMoves | core/src/gateway_ll.c:268-326 | A failed Module_Create unloads the library. Otherwise the loaded library ends up held by a fully linked entry, or everything is given back. |
| Lifecycle.AddMoves | core/src/gateway_ll.c:249-336 | An add leaves held exactly what the new entry holds when it succeeds, and nothing when it fails (NULL path, failed load, create, link or record). |
| Lifecycle.AddQuiet | core/src/gateway_ll.c:249-336 | An add reports no event. |
| Lifecycle.AddKeeps | core/src/gateway_ll.c:249-336 | An add takes the gateway from holding what the old registry holds to holding what the new one holds, and reports nothing. |
| Lifecycle.AddEffect | core/src/gateway_ll.c:249-336 | The add returns an instance iff a path is given and load, create, link and record all succeed. Then the returned handle is the created instance and the registry gains exactly that entry, at the end. Otherwise the registry is unchanged. Either way the books balance and nothing is reported. |
| Lifecycle.AddKeepsBooks | core/src/gateway_ll.c:249-336 | An add on a gateway whose books balance keeps them balanced. |
| Lifecycle.RemoveCalls | core/src/gateway_ll.c:379-399 | MessageBus_RemoveModule (whatever the bus answers), MessageBus_DecRef, Module_Destroy through the entry's own library, ModuleLoader_Unload, VECTOR_erase, in that order. |
| Lifecycle.Erase | core/src/gateway_ll.c:398 | Erasing entry i keeps the entries before i and shifts those after it down by one. |
| Lifecycle.RemoveMovesOne | core/src/gateway_ll.c:379-399 | Removing an entry gives back its reference, instance and library, and pairs its link with an unlink attempt, whatever the bus answers. |
| Lifecycle.RemoveEffect | core/src/gateway_ll.c:379-399 | Removing entry i gives back exactly what that entry held. The registry loses exactly that entry, as a multiset, and nothing is reported. |
| Lifecycle.EraseMultiset | core/src/gateway_ll.c:398 | The erased registry plus the erased entry is the old registry, as a multiset. |
| Lifecycle.RemoveKeepsBooks | core/src/gateway_ll.c:379-399 | A removal on a gateway whose books balance keeps them balanced. |
| Lifecycle.RefsOutstanding | core/src/gateway_ll.c:294-392 | On a gateway whose books balance, the history holds exactly one more MessageBus_IncRef than MessageBus_DecRef per registry entry: each module keeps one outstanding bus reference. |
| Trace.LoadsOf | core/src/gateway_ll.c:255 | The number of ModuleLoader_Load calls in a trace that returned a given library. |
| Trace.CreatesOf | core/src/gateway_ll.c:269 | The number of Module_Create calls in a trace that returned a given instance. |
| Trace.DestroysOf | core/src/gateway_ll.c:323-394 | The number of Module_Destroy calls in a trace on a given instance. |
| Trace.SumRefs | core/src/gateway_ll.c:294-392 | Bus references are taken only by MessageBus_IncRef and given back only by MessageBus_DecRef, one per call. |
| Trace.SumLibraries | core/src/gateway_ll.c:255-396 | A library is acquired once per load that returned it and given back once per ModuleLoader_Unload of it. |
| Trace.SumInstances | core/src/gateway_ll.c:269-394 | An instance is acquired once per Module_Create that returned it and given back once per Module_Destroy of it. |
| Trace.Balanced | core/src/gateway_ll.c:255-396 | A trace that leaves nothing held, such as the history of a destroyed gateway that was Valid, has as many MessageBus_DecRef as MessageBus_IncRef calls, unloads each library as often as a load returned it, and destroys each instance as often as a create returned it. |
| Lifecycle.DrainCalls | core/src/gateway_ll.c:358-364 | The removal calls of every entry, front entry first, the k-th removal answered by the k-th unlink outcome; five calls per entry. |
| Lifecycle.DrainOrder | core/src/gateway_ll.c:358-364 | The destroy loop removes the entries front to back: the j-th block of five calls is the removal of entry j, answered by the j-th unlink outcome. |
| Lifecycle.DrainMoves | core/src/gateway_ll.c:358-364 | The loop gives back everything the registry's entries hold. |
| Lifecycle.DrainQuiet | core/src/gateway_ll.c:358-364 | The loop neither destroys the bus nor reports an event. |
| Lifecycle.Owned | core/src/gateway_ll.c:17-26 | What a gateway owns besides its modules: the bus, the registry, and the event system when its handle is non-NULL. |
| Lifecycle.DestroyedReportCalls | core/src/gateway_ll.c:349-353 | EventSystem_ReportEvent of GATEWAY_DESTROYED, then EventSystem_Destroy, both on the gateway's event system handle, NULL or not. |
| Lifecycle.DestroyCalls | core/src/gateway_ll.c:343-377 | gateway_destroy_internal: the DESTROYED report and event system destroy, the removal of every entry from the front, then VECTOR_destroy and MessageBus_Destroy. |
| Lifecycle.DestroyedReportMoves | core/src/gateway_ll.c:350-353 | Reporting GATEWAY_DESTROYED and destroying the event system gives back the event system, if there is one. |
| Lifecycle.DestroyedReportEvents | core/src/gateway_ll.c:349-350 | GATEWAY_DESTROYED is reported iff there is an event system. |
| Lifecycle.RegistryAndBusMoves | core/src/gateway_ll.c:366-369 | Destroying the registry and then the bus gives both back. |
| Lifecycle.DestroyMoves | core/src/gateway_ll.c:343-377 | Destroying gives back every module and everything the gateway owns. |
| Lifecycle.DestroyReported | core/src/gateway_ll.c:345-353 | The first call of a destroy is the GATEWAY_DESTROYED report. The only event reported is GATEWAY_DESTROYED, and only when an event system exists. |
| Lifecycle.DestroyBusLast | core/src/gateway_ll.c:366-369 | The bus is destroyed by the last call and by no other call of a destroy. |
| Lifecycle.AddAll | core/src/gateway_ll.c:139-151 | The create loop: the adds of the entries in order, the i-th answered by the i-th outcome, stopping after the first failure; the registry built, and whether every add succeeded. |
| Lifecycle.AddAllOk | core/src/gateway_ll.c:139-159 | Adding the entries in order succeeds iff every add succeeds. |
| Lifecycle.AddAllBuilt | core/src/gateway_ll.c:139-151 | The registry built holds, in order, the records of the entries before the first failure, each with its own library and instance. When an add failed, it is the entry just past them. |
| Lifecycle.AddAllStops | core/src/gateway_ll.c:147-151 | Once an add has failed, no later entry is attempted: the outcome stays that of the failing prefix. |
| Lifecycle.AddAllMoves | core/src/gateway_ll.c:139-159 | After the adds, exactly the registry built is held, and no event is reported. |
| Lifecycle.StartSpec | core/src/gateway_ll.c:136-182 | After bus and registry exist: the adds; on a failed add, a destroy with a NULL event system; on a NULL EventSystem_Init, that call and the same destroy; otherwise EventSystem_Init and the CREATED and MODULE_LIST_CHANGED reports, and the gateway is made. |
| Lifecycle.CreateSpec | core/src/gateway_ll.c:103-193 | Gateway_LL_Create: nothing without the record; MessageBus_Create; on a failed VECTOR_create, MessageBus_Destroy; otherwise the rest of the create as StartSpec says. |
| Lifecycle.StartMoves | core/src/gateway_ll.c:113-133 | Creating bus and registry acquires them. When the registry cannot be created, the bus is destroyed again and nothing stays held. |
| Lifecycle.BuiltMoves | core/src/gateway_ll.c:113-151 | After the bus, the registry and the adds, the modules built are held together with the bus and the registry, and nothing has been reported. |
| Lifecycle.TornDownMoves | core/src/gateway_ll.c:153-159 | A create whose module add failed tears the gateway down, giving back everything and reporting nothing. |
| Lifecycle.InitFailedMoves | core/src/gateway_ll.c:167-174 | A create whose event system cannot be initialised tears the gateway down, giving back everything and reporting nothing. |
| Lifecycle.StartedMoves | core/src/gateway_ll.c:175-181 | A started event system is held, and GATEWAY_CREATED then GATEWAY_MODULE_LIST_CHANGED are reported. |
| Lifecycle.StartEffect | core/src/gateway_ll.c:136-182 | Once bus and registry exist, the create succeeds iff every add and the event system succeed. It then holds the entries' records in order, reports CREATED then MODULE_LIST_CHANGED, and otherwise gives everything back. |
| Lifecycle.CreateEffect | core/src/gateway_ll.c:103-193 | Create returns a gateway iff allocation, bus, registry, every add and the event system succeed. On success there is one entry per properties entry, in order, the books balance and exactly CREATED, MODULE_LIST_CHANGED are reported. On failure everything acquired is given back and nothing is reported. |
| GatewayLL.Gateway.Valid | core/src/gateway_ll.c:17-37 | The gateway's books: everything its history acquired is still held, by its registry entries (library, instance, link, one bus reference each) or by the gateway (bus, registry, event system when there is one). |
| GatewayLL.Gateway.constructor | core/src/gateway_ll.c:106-111 | A new record has no modules, no event system and no history. |
| GatewayLL.Gateway.AttachCreated | core/src/gateway_ll.c:280-325 | Makes the link, reference, record and rollback calls in order. It appends the entry to the registry exactly when linking and recording succeed. |
| GatewayLL.Gateway.AddInternal | core/src/gateway_ll.c:249-336 | Makes the load, create, link and record calls of the add in order. It leaves exactly the registry and the result AddSpec describes. |
| GatewayLL.Gateway.Attach | core/src/gateway_ll.c:249-336 | Makes exactly the calls of the add and leaves the registry and the result AddEffect describes. It keeps the books and leaves the event system alone. |
| GatewayLL.Gateway.AttachNext | core/src/gateway_ll.c:144-150 | One step of the create loop: adds entry i on top of the registry the earlier entries built. |
| GatewayLL.Gateway.AttachAll | core/src/gateway_ll.c:139-151 | The create loop makes exactly the AddAll calls. It stops at the first failing add and leaves the registry AddAll builds. |
| GatewayLL.Gateway.StartEventSystem | core/src/gateway_ll.c:162-182 | Initialises the event system and reports CREATED then MODULE_LIST_CHANGED, keeping the registry and holding the new handle. When initialisation fails it makes exactly the EventSystem_Init call and the destroy calls, leaving no modules and no event system. |
| GatewayLL.Gateway.Start | core/src/gateway_ll.c:136-182 | Everything after the registry exists: the calls, the outcome, the registry and the event system are those of StartSpec, so a failed start leaves no modules and no event system. A started gateway satisfies Valid. |
| GatewayLL.Gateway.Detach | core/src/gateway_ll.c:379-399 | Makes exactly the five removal calls for entry i and erases that entry. It keeps the books and leaves the event system alone. |
| GatewayLL.Gateway.Drain | core/src/gateway_ll.c:358-364 | Removes the front entry until the registry is empty, making exactly the drain calls and keeping the books. |
| GatewayLL.Gateway.ReportDestroyedAndCloseEvents | core/src/gateway_ll.c:349-353 | Reports GATEWAY_DESTROYED, destroys the event system and sets the handle to NULL, keeping the books. |
| GatewayLL.Gateway.DestroyRegistryAndBus | core/src/gateway_ll.c:366-369 | Destroys the registry and then the bus. On a gateway with nothing else left, this balances its books completely. |
| GatewayLL.Gateway.TearDown | core/src/gateway_ll.c:343-377 | Makes exactly the destroy calls and leaves no modules and no event system. A gateway whose books balanced has then given back everything it ever acquired. |
| GatewayLL.Create | core/src/gateway_ll.c:103-193 | Makes exactly the create calls. It returns a fresh gateway iff CreateSpec says the create succeeds, and that gateway holds the registry and event system it describes and satisfies Valid. |
| GatewayLL.Destroy | core/src/gateway_ll.c:195-198 | A NULL gateway is left alone. Otherwise the gateway makes exactly the destroy calls, ends with no modules and no event system, and, if its books balanced, has given back everything it ever acquired. |
| GatewayLL.AddModule | core/src/gateway_ll.c:200-220 | With no gateway or no entry, NULL is returned and no call is made; a gateway's registry and history then stay as they were. Otherwise it is the add of that entry: its calls, recorded in the history, its registry and its result. The event system is never changed and the books stay balanced. |
| GatewayLL.RemoveModule | core/src/gateway_ll.c:222-245 | Removes the first entry holding the given instance, if there is one, making exactly the removal calls and recording them in the history; otherwise no call is made and registry and history stay as they were. A NULL handle matches no entry. The event system is never changed and the books stay balanced. A NULL gateway is left alone. |
| GatewayLL.GetModuleList | core/src/gateway_ll.c:42-82 | Returns a list iff a gateway is given and the result vector can be created and filled. The list has one element per module, in registry order, carrying that module's name. |
| GatewayLL.AddEventCallback | core/src/gateway_ll.c:84-95 | With a gateway, makes exactly one EventSystem_AddEventCallback call on its event system and changes nothing else. Without one, makes no call. |

## Left out

- The `UWP_BINDING` branch (lines 401 to the end): it is compiled instead of lines 97-400 on one
  platform and is not part of this model.
- The collaborators' own behaviour (module loader, message bus, event system, vector library): each
  call's answer is a parameter. Event callbacks are not run.
- Logging (`LogError`): it has no effect on state.
- Concurrency: the comment at lines 40-41 claims thread safety; nothing here is concurrent.
- Memory: `malloc` of the gateway record is a flag (`allocOk`), and `free` is not traced. The record
  is a Dafny object.
- GetModuleList: the `info` buffer of line 63 is used without checking the `malloc` result. The
  model assumes it succeeds.
- GetModuleList: the result vector's own create, push and destroy calls (lines 54, 72, 75) are two
  flags, not trace entries.
- `ModuleLoader_GetModuleAPIs` (lines 266 and 394) and the MODULE_APIS/MODULE records are not
  traced. Module_Create and Module_Destroy appear as calls on the library that provides them.
- A refused bus unlink (lines 309 and 389) is booked as the link's return: `Trace.Of` pairs a
  link with the unlink attempt, as the gateway forgets the link either way. The link the bus keeps
  afterwards is not tracked, so the balance lemmas (`RecordMoves`, `RemoveMovesOne`, `DrainMoves`,
  `DestroyMoves` and the books of a destroyed gateway) count unlink attempts, not links the bus
  actually released.
- Instance handles are not assumed distinct: RemoveModule removes the first match, as
  `VECTOR_find_if` does.
- Gateway_LL_RemoveModule: the comment at line 224 says a NULL module makes the function return.
  The code only checks the gateway and searches for the NULL handle. The model follows the code,
  and no entry matches NULL because every entry holds a successfully created instance.
- Gateway_LL_Destroy: the `modules != NULL` test of line 358 is always true in the model, since a
  gateway's registry always exists once the gateway does.
- GatewayLL.Destroy, GatewayLL.Gateway.TearDown: the record is not freed. The model's object
  stays allocated with an empty registry.
