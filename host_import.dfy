/**
 * Host-import marshalling of svm-runtime (`import.rs`): an imported host
 * function's record, and the conversions between wasmer's values and types
 * and svm's, as used by the import's callback.
 */
module HostImport {
  import opened Ints
  import opened Wrappers
  import opened Utf8
  import opened Trap

  /** `svm_types::WasmType`: only 32- and 64-bit integers. */
  datatype WasmType = I32 | I64

  /** `svm_types::WasmValue`: unsigned payloads. */
  datatype WasmValue = I32Value(u32) | I64Value(u64)
  {
    /** `WasmValue::ty` */
    function Ty(): WasmType
    {
      match this
      case I32Value(_) => I32
      case I64Value(_) => I64
    }
  }

  /** `wasmer::Type` */
  datatype WasmerType = WI32 | WI64 | WF32 | WF64 | WV128 | WExternRef | WFuncRef

  /** `wasmer::Val`: signed integer payloads; float, vector and reference payloads are not modelled. */
  datatype Val = ValI32(i32) | ValI64(i64) | ValF32 | ValF64 | ValV128 | ValExternRef | ValFuncRef

  /** `wasmer::RuntimeError` with its message. */
  datatype RuntimeError = RuntimeError(message: RustString)

  /** `ExternImport`: the callback and the host environment are opaque handles (0 is null). */
  datatype ExternImport = ExternImport(
    name: RustString,
    namespace: RustString,
    params: seq<WasmType>,
    returnTypes: seq<WasmType>,
    func: nat,
    hostEnv: nat)

  /** `ExternImport::new`: every argument is kept unchanged. */
  function New(name: RustString, namespace: RustString, params: seq<WasmType>, returnTypes: seq<WasmType>,
               func: nat, hostEnv: nat): (imp: ExternImport)
    ensures imp.name == name && imp.namespace == namespace
    ensures imp.params == params && imp.returnTypes == returnTypes
    ensures imp.func == func && imp.hostEnv == hostEnv
  {
    ExternImport(name, namespace, params, returnTypes, func, hostEnv)
  }

  /** `ExternImport::name` */
  function Name(imp: ExternImport): RustString { imp.name }

  /** `ExternImport::namespace` */
  function Namespace(imp: ExternImport): RustString { imp.namespace }

  lemma NewAccessors(name: RustString, namespace: RustString, params: seq<WasmType>, returnTypes: seq<WasmType>,
                     func: nat, hostEnv: nat)
    ensures Name(New(name, namespace, params, returnTypes, func, hostEnv)) == name
    ensures Namespace(New(name, namespace, params, returnTypes, func, hostEnv)) == namespace
  {
  }

  // ---------------------------------------------------------------------
  // Bit casts (`as u32`, `as i32`, `as u64`, `as i64`)

  function I32AsU32(v: i32): (r: u32)
    ensures r % 0x1_0000_0000 == v % 0x1_0000_0000
  {
    v % 0x1_0000_0000
  }

  function U32AsI32(v: u32): (r: i32)
    ensures r % 0x1_0000_0000 == v
  {
    if v < 0x8000_0000 then v else v - 0x1_0000_0000
  }

  function I64AsU64(v: i64): (r: u64)
    ensures r % 0x1_0000_0000_0000_0000 == v % 0x1_0000_0000_0000_0000
  {
    v % 0x1_0000_0000_0000_0000
  }

  function U64AsI64(v: u64): (r: i64)
    ensures r % 0x1_0000_0000_0000_0000 == v
  {
    if v < 0x8000_0000_0000_0000 then v else v - 0x1_0000_0000_0000_0000
  }

  /** The casts are mutually inverse, so no bits are lost in either direction. */
  lemma BitCastsInverse(a: i32, b: u32, c: i64, d: u64)
    ensures U32AsI32(I32AsU32(a)) == a && I32AsU32(U32AsI32(b)) == b
    ensures U64AsI64(I64AsU64(c)) == c && I64AsU64(U64AsI64(d)) == d
  {
  }

  // ---------------------------------------------------------------------
  // Types and values

  function ToWasmerType(t: WasmType): WasmerType
  {
    match t
    case I32 => WI32
    case I64 => WI64
  }

  /** `to_wasmer_types`: position by position, I32 to I32 and I64 to I64. */
  function ToWasmerTypes(types: seq<WasmType>): (r: seq<WasmerType>)
    ensures |r| == |types|
    ensures forall i :: 0 <= i < |types| ==> (r[i] == WI32 <==> types[i] == I32)
    ensures forall i :: 0 <= i < |types| ==> (r[i] == WI64 <==> types[i] == I64)
  {
    seq(|types|, i requires 0 <= i < |types| => ToWasmerType(types[i]))
  }

  /** The wasmer type of a wasmer value. */
  function ValType(v: Val): WasmerType
  {
    match v
    case ValI32(_) => WI32
    case ValI64(_) => WI64
    case ValF32 => WF32
    case ValF64 => WF64
    case ValV128 => WV128
    case ValExternRef => WExternRef
    case ValFuncRef => WFuncRef
  }

  function ToWasmerVal(v: WasmValue): Val
  {
    match v
    case I32Value(n) => ValI32(U32AsI32(n))
    case I64Value(n) => ValI64(U64AsI64(n))
  }

  /** `wasm_vals_to_wasmer_vals`: the signed bit cast of each value, in order. */
  function WasmValsToWasmerVals(vals: seq<WasmValue>): (r: seq<Val>)
    ensures |r| == |vals|
    ensures forall i :: 0 <= i < |vals| ==> ValType(r[i]) == ToWasmerType(vals[i].Ty())
  {
    seq(|vals|, i requires 0 <= i < |vals| => ToWasmerVal(vals[i]))
  }

  predicate IsIntVal(v: Val) { v.ValI32? || v.ValI64? }

  function FromWasmerVal(v: Val): WasmValue
    requires IsIntVal(v)
  {
    match v
    case ValI32(n) => I32Value(I32AsU32(n))
    case ValI64(n) => I64Value(I64AsU64(n))
  }

  function InvalidArgumentType(): RustString
  {
    assert IsAscii("Invalid argument type");
    FromAscii("Invalid argument type")
  }

  function InvalidWasmValues(): RustString
  {
    assert IsAscii("Invalid WASM values");
    FromAscii("Invalid WASM values")
  }

  /** What `wasmer_vals_to_wasm_vals` returns: every value an integer, or the argument-type error. */
  function WasmerValsSpec(vals: seq<Val>): Result<seq<WasmValue>, RuntimeError>
  {
    if forall i :: 0 <= i < |vals| ==> IsIntVal(vals[i])
    then Ok(seq(|vals|, i requires 0 <= i < |vals| => FromWasmerVal(vals[i])))
    else Err(RuntimeError(InvalidArgumentType()))
  }

  /** `wasmer_vals_to_wasm_vals`: pushes the unsigned bit cast of each value; stops at the first non-integer. */
  method WasmerValsToWasmVals(vals: seq<Val>) returns (r: Result<seq<WasmValue>, RuntimeError>)
    ensures r == WasmerValsSpec(vals)
  {
    var values: seq<WasmValue> := [];
    var i := 0;
    while i < |vals|
      invariant 0 <= i <= |vals|
      invariant forall j :: 0 <= j < i ==> IsIntVal(vals[j])
      invariant |values| == i && forall j :: 0 <= j < i ==> values[j] == FromWasmerVal(vals[j])
    {
      var value;
      match vals[i] {
        case ValI32(v) => value := I32Value(I32AsU32(v));
        case ValI64(v) => value := I64Value(I64AsU64(v));
        case _ =>
          assert !IsIntVal(vals[i]);
          return Err(RuntimeError(InvalidArgumentType()));
      }
      values := values + [value];
      i := i + 1;
    }
    assert values == seq(|vals|, j requires 0 <= j < |vals| => FromWasmerVal(vals[j]));
    r := Ok(values);
  }

  lemma ValueRoundTrip(w: WasmValue, v: Val)
    ensures IsIntVal(ToWasmerVal(w)) && FromWasmerVal(ToWasmerVal(w)) == w
    ensures IsIntVal(v) ==> ToWasmerVal(FromWasmerVal(v)) == v
  {
    match w
    case I32Value(n) => BitCastsInverse(0, n, 0, 0);
    case I64Value(n) => BitCastsInverse(0, 0, 0, n);
    match v
    case ValI32(n) => BitCastsInverse(n, 0, 0, 0);
    case ValI64(n) => BitCastsInverse(0, 0, n, 0);
    case _ =>
  }

  /** svm values survive the trip to wasmer and back. */
  lemma {:induction false} WasmValsRoundTrip(vals: seq<WasmValue>)
    ensures WasmerValsSpec(WasmValsToWasmerVals(vals)) == Ok(vals)
  {
    var ws := WasmValsToWasmerVals(vals);
    forall i | 0 <= i < |vals|
      ensures IsIntVal(ws[i]) && FromWasmerVal(ws[i]) == vals[i]
    {
      ValueRoundTrip(vals[i], ValF32);
    }
    assert seq(|ws|, i requires 0 <= i < |ws| => FromWasmerVal(ws[i])) == vals;
  }

  /** Integer wasmer values survive the trip to svm and back. */
  lemma {:induction false} WasmerValsRoundTrip(vals: seq<Val>)
    requires forall i :: 0 <= i < |vals| ==> IsIntVal(vals[i])
    ensures WasmerValsSpec(vals).Ok? && WasmValsToWasmerVals(WasmerValsSpec(vals).value) == vals
  {
    var vs := seq(|vals|, i requires 0 <= i < |vals| => FromWasmerVal(vals[i]));
    assert WasmerValsSpec(vals) == Ok(vs);
    var back := WasmValsToWasmerVals(vs);
    forall i | 0 <= i < |vals|
      ensures back[i] == vals[i]
    {
      ValueRoundTrip(I32Value(0), vals[i]);
    }
    assert back == vals;
  }

  /** What `to_wasm_values` returns for the decoded results buffer (`None` if it did not decode). */
  function ToWasmValuesSpec(decoded: Option<seq<WasmValue>>, types: seq<WasmType>): (r: Option<seq<WasmValue>>)
    ensures r.Some? ==> r == decoded
  {
    if decoded.Some? && |decoded.value| == |types|
       && forall i :: 0 <= i < |types| ==> decoded.value[i].Ty() == types[i]
    then decoded
    else Option.None
  }

  /** `to_wasm_values`: the decoded values if their count and each position's type match the declared returns. */
  method ToWasmValues(decoded: Option<seq<WasmValue>>, types: seq<WasmType>) returns (r: Option<seq<WasmValue>>)
    ensures r == ToWasmValuesSpec(decoded, types)
  {
    if decoded.None? {
      return Option.None;
    }
    var results := decoded.value;
    if |results| != |types| {
      return Option.None;
    }
    var i := 0;
    while i < |results|
      invariant 0 <= i <= |results|
      invariant forall j :: 0 <= j < i ==> results[j].Ty() == types[j]
    {
      if results[i].Ty() != types[i] {
        return Option.None;
      }
      i := i + 1;
    }
    r := Some(results);
  }

  /**
   * `to_wasm_values` accepts exactly the decoded results whose count is the
   * declared one and whose wasmer values have the declared wasmer types.
   */
  lemma AcceptedResultsHaveDeclaredTypes(decoded: Option<seq<WasmValue>>, types: seq<WasmType>)
    ensures ToWasmValuesSpec(decoded, types).Some? <==>
      && decoded.Some? && |decoded.value| == |types|
      && forall i :: 0 <= i < |types| ==>
           ValType(WasmValsToWasmerVals(decoded.value)[i]) == ToWasmerTypes(types)[i]
  {
    if decoded.Some? && |decoded.value| == |types| {
      var ws := WasmValsToWasmerVals(decoded.value);
      forall i | 0 <= i < |types|
        ensures ValType(ws[i]) == ToWasmerTypes(types)[i] <==> decoded.value[i].Ty() == types[i]
      {
      }
    }
  }

  // ---------------------------------------------------------------------
  // The callback

  /** What the host function leaves: a trap (or null), and its results buffer decoded (or `None`). */
  datatype HostReturn = HostReturn(trap: Option<SvmTrap>, results: Option<seq<WasmValue>>)

  /**
   * The body of `inner_callback`: convert the arguments, call the host
   * function, turn a trap into a runtime error with the trap's message
   * (discarding the results), and otherwise check the results against the
   * declared returns.
   */
  method InnerCallback(returnTypes: seq<WasmType>, host: seq<WasmValue> -> HostReturn, args: seq<Val>)
    returns (r: Result<seq<Val>, RuntimeError>)
    ensures WasmerValsSpec(args).Err? ==> r == Err(RuntimeError(InvalidArgumentType()))
    ensures WasmerValsSpec(args).Ok? ==>
      var out := host(WasmerValsSpec(args).value);
      if out.trap.Some? then r == Err(RuntimeError(TrapToString(out.trap.value)))
      else if ToWasmValuesSpec(out.results, returnTypes).None? then r == Err(RuntimeError(InvalidWasmValues()))
      else r == Ok(WasmValsToWasmerVals(out.results.value))
  {
    var svmArgs :- WasmerValsToWasmVals(args);
    assert WasmerValsSpec(args) == Ok(svmArgs);
    var out := host(svmArgs);
    if out.trap.Some? {
      var errMsg := TrapToString(out.trap.value);
      return Err(RuntimeError(errMsg));
    }
    var vals := ToWasmValues(out.results, returnTypes);
    if vals.Some? {
      r := Ok(WasmValsToWasmerVals(vals.value));
    } else {
      r := Err(RuntimeError(InvalidWasmValues()));
    }
  }
}
