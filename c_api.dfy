/**
 * Gas selection and import registration of the svm C API (`api.rs`):
 * `max_gas!`, `maybe_gas!`, the result of `svm_estimate_*`, and the
 * capacity-bounded import list filled by `svm_imports_alloc` and
 * `svm_import_func_new`.
 */
module CApi {
  import opened Ints
  import opened Wrappers
  import opened Utf8
  import opened HostImport

  /** `svm_result_t` */
  datatype SvmResult = Success | Failure

  /** `svm_gas::Gas`: an exact estimate, or a range up to `max`. */
  datatype Gas = Fixed(gas: u64) | Range(min: u64, max: u64)

  /** The costs an estimate allows for. */
  predicate Admits(g: Gas, cost: u64)
  {
    match g
    case Fixed(x) => cost == x
    case Range(lo, hi) => lo <= cost <= hi
  }

  /** `max_gas!`: `Fixed(g)` gives `g`, `Range { max, .. }` gives `max`. */
  function MaxGas(g: Gas): (r: u64)
    ensures g.Fixed? ==> r == g.gas
    ensures g.Range? ==> r == g.max
  {
    match g
    case Fixed(x) => x
    case Range(_, hi) => hi
  }

  /** `max_gas!` bounds every cost the estimate allows for, and is one of them when the range is not empty. */
  lemma MaxGasIsLeastUpperBound(g: Gas, cost: u64)
    ensures Admits(g, cost) ==> cost <= MaxGas(g)
    ensures (g.Fixed? || g.min <= g.max) ==> Admits(g, MaxGas(g))
  {
  }

  /** `svm_types::gas::MaybeGas`: no limit, or a limit. */
  datatype MaybeGas = Unlimited | Limited(limit: u64)

  /** `maybe_gas!`: a limit exactly when metering is on. */
  function MaybeGasOf(metering: bool, limit: u64): (r: MaybeGas)
    ensures r.Limited? <==> metering
    ensures r.Limited? ==> r.limit == limit
  {
    if metering then Limited(limit) else Unlimited
  }

  /** A C out-parameter (`*mut T`). */
  class Cell<T> {
    var value: T

    constructor (init: T)
      ensures value == init
    {
      value := init;
    }
  }

  /**
   * The common body of `svm_estimate_deploy_template`, `svm_estimate_spawn_app`
   * and `svm_estimate_exec_app`, given the runtime's estimate: on success the
   * estimation is `max_gas!` of it; on failure the estimation is untouched and
   * the error is reported.
   */
  method Estimate<E>(estimation: Cell<u64>, error: Cell<Option<E>>, estimate: Result<Gas, E>) returns (r: SvmResult)
    requires estimation as object != error
    modifies estimation, error
    ensures estimate.Ok? ==> r == Success && estimation.value == MaxGas(estimate.value) && error.value == old(error.value)
    ensures estimate.Err? ==> r == Failure && estimation.value == old(estimation.value) && error.value == Some(estimate.error)
  {
    match estimate
    case Ok(est) =>
      estimation.value := MaxGas(est);
      r := Success;
    case Err(e) =>
      error.value := Some(e);
      r := Failure;
  }

  // ---------------------------------------------------------------------
  // Imports

  /** Why `svm_import_func_new` fails, in the order it checks. */
  datatype ImportError =
    | NullHostEnv         // "`host_env` parameter must not be NULL"
    | InvalidParams       // the parameter types did not decode
    | InvalidReturns      // the return types did not decode
    | ImportNameNotUtf8
    | NamespaceNotUtf8

  /** The `Vec<ExternImport>` behind `svm_imports_alloc`: its length never exceeds its capacity. */
  class Imports {
    var items: seq<ExternImport>
    const capacity: nat

    ghost predicate Valid()
      reads this
    {
      |items| <= capacity
    }

    /** `svm_imports_alloc(count)`: empty, with room for `count` imports. */
    constructor Alloc(count: u32)
      ensures Valid() && items == [] && capacity == count
    {
      items := [];
      capacity := count;
    }
  }

  /**
   * The checks of `svm_import_func_new`, in order: a null host environment,
   * parameter types, return types (each `None` when its bytes did not
   * decode), then the import name and the namespace as UTF-8.
   */
  function ImportCheck(namespace: seq<byte>, importName: seq<byte>, func: nat, hostEnv: nat,
                       params: Option<seq<WasmType>>, returnTypes: Option<seq<WasmType>>): (r: Result<ExternImport, ImportError>)
    ensures r.Ok? <==> hostEnv != 0 && params.Some? && returnTypes.Some? && ValidUtf8(importName) && ValidUtf8(namespace)
    ensures r.Ok? ==> r.value == New(importName, namespace, params.value, returnTypes.value, func, hostEnv)
    ensures hostEnv == 0 ==> r == Err(NullHostEnv)
    ensures hostEnv != 0 && params.None? ==> r == Err(InvalidParams)
  {
    if hostEnv == 0 then Err(NullHostEnv)
    else if params.None? then Err(InvalidParams)
    else if returnTypes.None? then Err(InvalidReturns)
    else if !ValidUtf8(importName) then Err(ImportNameNotUtf8)
    else if !ValidUtf8(namespace) then Err(NamespaceNotUtf8)
    else Ok(New(importName, namespace, params.value, returnTypes.value, func, hostEnv))
  }

  /**
   * `svm_import_func_new`: the list must have room (the source asserts it);
   * on success exactly one import is appended, on failure the list is
   * unchanged and the error is reported.
   */
  method ImportFuncNew(imports: Imports, namespace: seq<byte>, importName: seq<byte>, func: nat, hostEnv: nat,
                       params: Option<seq<WasmType>>, returnTypes: Option<seq<WasmType>>, error: Cell<Option<ImportError>>)
    returns (r: SvmResult)
    requires imports.Valid() && |imports.items| < imports.capacity
    modifies imports, error
    ensures imports.Valid()
    ensures var check := ImportCheck(namespace, importName, func, hostEnv, params, returnTypes);
      match check
      case Ok(imp) => r == Success && imports.items == old(imports.items) + [imp] && error.value == old(error.value)
      case Err(e) => r == Failure && imports.items == old(imports.items) && error.value == Some(e)
  {
    if hostEnv == 0 {
      error.value := Some(NullHostEnv);
      return Failure;
    }
    if params.None? {
      error.value := Some(InvalidParams);
      return Failure;
    }
    if returnTypes.None? {
      error.value := Some(InvalidReturns);
      return Failure;
    }
    if !ValidUtf8(importName) {
      error.value := Some(ImportNameNotUtf8);
      return Failure;
    }
    if !ValidUtf8(namespace) {
      error.value := Some(NamespaceNotUtf8);
      return Failure;
    }
    var imp := New(importName, namespace, params.value, returnTypes.value, func, hostEnv);
    imports.items := imports.items + [imp];
    r := Success;
  }

  /** A registration that passes the checks keeps the import name and namespace as given. */
  lemma RegisteredImportKeepsNames(namespace: RustString, importName: RustString, func: nat, hostEnv: nat,
                                   params: seq<WasmType>, returnTypes: seq<WasmType>)
    requires hostEnv != 0
    ensures var r := ImportCheck(namespace, importName, func, hostEnv, Some(params), Some(returnTypes));
      r.Ok? && Name(r.value) == importName && Namespace(r.value) == namespace
  {
  }
}
