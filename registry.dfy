/**
 * The gateway's module registry: the vector of MODULE_DATA records that
 * gateway_ll.c keeps, one per attached module, in insertion order.
 */
module Registry {
  import opened Wrappers

  /** MODULE_LIBRARY_HANDLE: the handle of a loaded code unit; the gateway never looks inside it. */
  type Lib = nat
  /** MODULE_HANDLE: the handle of a module instance; the gateway never looks inside it. */
  type Inst = nat

  /** One registry entry: an optional display name, the library the module
      was loaded from, and the instance living on the message bus. */
  datatype ModuleData = ModuleData(name: Option<string>, library: Lib, instance: Inst)

  /** module_data_find: the VECTOR_find_if predicate matching an entry by instance. */
  predicate ModuleDataFind(element: ModuleData, value: Inst)
  {
    element.instance == value
  }

  /** VECTOR_find_if with ModuleDataFind: the index of the first entry whose
      instance is `value`, or None when no entry holds it. */
  function FindModule(ms: seq<ModuleData>, value: Inst): (r: Option<nat>)
    ensures r.Some? ==> r.value < |ms| && ModuleDataFind(ms[r.value], value)
    ensures r.Some? ==> forall j :: 0 <= j < r.value ==> !ModuleDataFind(ms[j], value)
    ensures r.None? <==> forall j :: 0 <= j < |ms| ==> !ModuleDataFind(ms[j], value)
  {
    if ms == [] then None
    else if ModuleDataFind(ms[0], value) then Some(0)
    else match FindModule(ms[1..], value)
      case None => None
      case Some(j) => Some(j + 1)
  }
}
