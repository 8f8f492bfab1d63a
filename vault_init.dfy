/**
 * The `initialize` action of the vault sample app (`initialize.rs`): it reads
 * its calldata in order (vault type flag, master keys, optional spending
 * limit, optional spending account) and writes the vault's storage.
 *
 * The calldata is the sequence of already decoded values; a value of the
 * wrong shape, or a missing one, is `CalldataMismatch` (the decoder panics).
 * An `ensure!` that fails is `MastersNotDistinct`. The mapping from the flag
 * to a vault type is a parameter.
 */
module VaultInit {
  import opened Wrappers
  import V = SdkValue

  datatype VaultType = Simple | MultiSig

  datatype InitError = CalldataMismatch | MastersNotDistinct

  function Message(e: InitError): string
  {
    match e
    case CalldataMismatch => "calldata does not match the expected type"
    case MastersNotDistinct => "Master Keys must be different from one another."
  }

  /** The vault's storage slots. */
  datatype Vault = Vault(
    vaultType: Option<VaultType>,
    masters: map<nat, V.Address>,
    spendingLimit: Option<V.Amount>,
    spendingAccount: Option<V.Address>)

  // ---------------------------------------------------------------------
  // Decoding single calldata values

  /** `bool` from a value. */
  function DecodeFlag(v: V.Value): (r: Option<bool>)
    ensures r.Some? <==> v.Primitive? && v.prim.Bool?
    ensures match v
      case Primitive(Bool(b)) => r == Some(b)
      case _ => r == None
  {
    match V.FromValue(V.BoolKind, v)
    case Some(x) => Some(x.flag)
    case None => None
  }

  /** `[Address; n]` from a value: an owned array of exactly `n` addresses. */
  function DecodeMasters(n: nat, v: V.Value): (r: Option<seq<V.Address>>)
    ensures r.Some? ==> |r.value| == n && v == MastersValue(r.value)
  {
    match V.ToArraySpec(V.AddressKind, n, v)
    case Some(xs) =>
      var r := seq(n, i requires 0 <= i < n => xs[i].address);
      assert v.comp.items == MastersValue(r).comp.items by {
        forall i | 0 <= i < n
          ensures v.comp.items[i] == V.IntoValue(V.RustAddress(r[i]))
        {
          V.FromValueExactlyImages(V.AddressKind, v.comp.items[i]);
        }
      }
      Some(r)
    case None => None
  }

  /** The calldata value that carries the master keys `ms`. */
  function MastersValue(ms: seq<V.Address>): V.Value
  {
    V.VecIntoValue(seq(|ms|, i requires 0 <= i < |ms| => V.IntoValue(V.RustAddress(ms[i]))))
  }

  /** Decoding the value that carries some master keys gives those keys. */
  lemma MastersRoundTrip(ms: seq<V.Address>)
    ensures DecodeMasters(|ms|, MastersValue(ms)) == Some(ms)
  {
    var xs := seq(|ms|, i requires 0 <= i < |ms| => V.RustAddress(ms[i]));
    V.ArrayRoundTrip(V.AddressKind, xs);
    assert seq(|xs|, i requires 0 <= i < |xs| => V.IntoValue(xs[i]))
        == seq(|ms|, i requires 0 <= i < |ms| => V.IntoValue(V.RustAddress(ms[i])));
    assert V.ToArraySpec(V.AddressKind, |ms|, MastersValue(ms)) == Some(xs);
    assert seq(|ms|, i requires 0 <= i < |ms| => xs[i].address) == ms;
  }

  /** `Option<Amount>` from a value: `None` for `Primitive::None`. */
  function DecodeLimit(v: V.Value): (r: Option<Option<V.Amount>>)
    ensures r == Some(None) <==> v == V.Primitive(V.Primitive.None)
    ensures r.Some? && r.value.Some? ==> v == V.Primitive(V.Primitive.Amount(r.value.value))
    ensures match v
      case Primitive(Amount(a)) => r == Some(Some(a))
      case Primitive(None) => r == Some(None)
      case _ => r == None
  {
    match V.OptionFromValue(V.AmountKind, v)
    case Some(Some(x)) => Some(Some(x.amount))
    case Some(None) => Some(None)
    case None => None
  }

  /** `Option<Address>` from a value, in the way `DecodeLimit` treats `Option<Amount>`. */
  function DecodeAccount(v: V.Value): (r: Option<Option<V.Address>>)
    ensures r == Some(None) <==> v == V.Primitive(V.Primitive.None)
    ensures r.Some? && r.value.Some? ==> v == V.Primitive(V.Primitive.Address(r.value.value))
    ensures match v
      case Primitive(Address(a)) => r == Some(Some(a))
      case Primitive(None) => r == Some(None)
      case _ => r == None
  {
    if v == V.Primitive(V.Primitive.None) then Some(None)
    else
      match V.FromValue(V.AddressKind, v)
      case Some(x) => Some(Some(x.address))
      case None => None
  }

  /** The position after reading one value at `pos`. */
  function Advance(values: seq<V.Value>, pos: nat): nat
  {
    if pos < |values| then pos + 1 else pos
  }

  // ---------------------------------------------------------------------
  // The calldata cursor

  /** `CallData`: the decoded values and how many have been consumed. */
  class CallData {
    const values: seq<V.Value>
    var pos: nat

    constructor (values: seq<V.Value>)
      ensures this.values == values && pos == 0
    {
      this.values := values;
      pos := 0;
    }

    /** The next raw value; `None` once they are used up. */
    method Next() returns (v: Option<V.Value>)
      modifies this
      ensures pos == Advance(values, old(pos))
      ensures v == if old(pos) < |values| then Some(values[old(pos)]) else None
    {
      if pos < |values| {
        v := Some(values[pos]);
        pos := pos + 1;
      } else {
        v := None;
      }
    }

    method NextFlag() returns (r: Option<bool>)
      modifies this
      ensures pos == Advance(values, old(pos))
      ensures r == if old(pos) < |values| then DecodeFlag(values[old(pos)]) else None
    {
      var v := Next();
      r := if v.Some? then DecodeFlag(v.value) else None;
    }

    /** `next_1::<[Address; n]>()`, through the array conversion of the SDK. */
    method NextMasters(n: nat) returns (r: Option<seq<V.Address>>)
      requires 1 <= n <= 10
      modifies this
      ensures pos == Advance(values, old(pos))
      ensures r == if old(pos) < |values| then DecodeMasters(n, values[old(pos)]) else None
    {
      var v := Next();
      if v.None? {
        return None;
      }
      var xs := V.ToArray(V.AddressKind, n, v.value);
      r := match xs
        case Some(ys) => Some(seq(n, i requires 0 <= i < n => ys[i].address))
        case None => None;
    }

    method NextLimit() returns (r: Option<Option<V.Amount>>)
      modifies this
      ensures pos == Advance(values, old(pos))
      ensures r == if old(pos) < |values| then DecodeLimit(values[old(pos)]) else None
    {
      var v := Next();
      r := if v.Some? then DecodeLimit(v.value) else None;
    }

    method NextAccount() returns (r: Option<Option<V.Address>>)
      modifies this
      ensures pos == Advance(values, old(pos))
      ensures r == if old(pos) < |values| then DecodeAccount(values[old(pos)]) else None
    {
      var v := Next();
      r := if v.Some? then DecodeAccount(v.value) else None;
    }
  }

  // ---------------------------------------------------------------------
  // Storage

  /** `VaultData`: the storage the action writes through. */
  class VaultData {
    var vaultType: Option<VaultType>
    var masters: map<nat, V.Address>
    var spendingLimit: Option<V.Amount>
    var spendingAccount: Option<V.Address>

    ghost function State(): Vault
      reads this
    {
      Vault(vaultType, masters, spendingLimit, spendingAccount)
    }

    constructor ()
      ensures State() == Vault(None, map[], None, None)
    {
      vaultType, masters, spendingLimit, spendingAccount := None, map[], None, None;
    }

    method StoreType(t: VaultType)
      modifies this
      ensures State() == old(State()).(vaultType := Some(t))
    {
      vaultType := Some(t);
    }

    method StoreMasterAccount(a: V.Address, index: nat)
      modifies this
      ensures State() == old(State()).(masters := old(masters)[index := a])
    {
      masters := masters[index := a];
    }

    method StoreSpendingLimit(limit: V.Amount)
      modifies this
      ensures State() == old(State()).(spendingLimit := Some(limit))
    {
      spendingLimit := Some(limit);
    }

    method StoreSpendingAccount(account: V.Address)
      modifies this
      ensures State() == old(State()).(spendingAccount := Some(account))
    {
      spendingAccount := Some(account);
    }
  }

  // ---------------------------------------------------------------------
  // The action, as a function of the calldata and the storage before it

  /** Where a step left the result, the calldata position and the storage. */
  datatype Outcome = Outcome(result: Result<(), InitError>, pos: nat, vault: Vault)

  /** `assert_not_same` */
  function AssertNotSame(a: V.Address, b: V.Address): (r: Result<(), InitError>)
    ensures r.Ok? <==> a != b
    ensures r.Err? ==> Message(r.error) == "Master Keys must be different from one another."
  {
    if a != b then Ok(()) else Err(MastersNotDistinct)
  }

  /** `simple_initialize`: one master key, stored at index 1. */
  function SimpleSpec(values: seq<V.Value>, pos: nat, s: Vault): Outcome
  {
    var masters := if pos < |values| then DecodeMasters(1, values[pos]) else None;
    if masters.None? then Outcome(Err(CalldataMismatch), Advance(values, pos), s)
    else Outcome(Ok(()), Advance(values, pos),
                 s.(vaultType := Some(Simple), masters := s.masters[1 := masters.value[0]]))
  }

  /** `multisig_initialize`: three pairwise distinct master keys, at indices 1, 2, 3. */
  function MultisigSpec(values: seq<V.Value>, pos: nat, s: Vault): Outcome
  {
    var masters := if pos < |values| then DecodeMasters(3, values[pos]) else None;
    if masters.None? then Outcome(Err(CalldataMismatch), Advance(values, pos), s)
    else
      var a, b, c := masters.value[0], masters.value[1], masters.value[2];
      var check := AssertNotSame(a, b);
      var check := if check.Err? then check else AssertNotSame(a, c);
      var check := if check.Err? then check else AssertNotSame(b, c);
      if check.Err? then Outcome(check, Advance(values, pos), s)
      else Outcome(Ok(()), Advance(values, pos),
                   s.(vaultType := Some(MultiSig), masters := s.masters[1 := a][2 := b][3 := c]))
  }

  /** `initialize`, from fresh calldata. */
  function InitializeSpec(values: seq<V.Value>, typeOf: bool -> VaultType, s: Vault): Outcome
  {
    var flag := if 0 < |values| then DecodeFlag(values[0]) else None;
    if flag.None? then Outcome(Err(CalldataMismatch), Advance(values, 0), s)
    else
      var o := if typeOf(flag.value) == Simple then SimpleSpec(values, 1, s) else MultisigSpec(values, 1, s);
      if o.result.Err? then o
      else
        var limit := if o.pos < |values| then DecodeLimit(values[o.pos]) else None;
        if limit.None? then Outcome(Err(CalldataMismatch), Advance(values, o.pos), o.vault)
        else
          var s2 := if limit.value.Some? then o.vault.(spendingLimit := limit.value) else o.vault;
          var p2 := Advance(values, o.pos);
          var account := if p2 < |values| then DecodeAccount(values[p2]) else None;
          if account.None? then Outcome(Err(CalldataMismatch), Advance(values, p2), s2)
          else
            var s3 := if account.value.Some? then s2.(spendingAccount := account.value) else s2;
            Outcome(Ok(()), Advance(values, p2), s3)
  }

  // ---------------------------------------------------------------------
  // The action, step by step

  method SimpleInitialize(calldata: CallData, store: VaultData) returns (r: Result<(), InitError>)
    requires calldata as object != store
    modifies calldata, store
    ensures Outcome(r, calldata.pos, store.State()) == SimpleSpec(calldata.values, old(calldata.pos), old(store.State()))
  {
    var masters := calldata.NextMasters(1);
    if masters.None? {
      return Err(CalldataMismatch);
    }
    store.StoreType(Simple);
    store.StoreMasterAccount(masters.value[0], 1);
    r := Ok(());
  }

  method MultisigInitialize(calldata: CallData, store: VaultData) returns (r: Result<(), InitError>)
    requires calldata as object != store
    modifies calldata, store
    ensures Outcome(r, calldata.pos, store.State()) == MultisigSpec(calldata.values, old(calldata.pos), old(store.State()))
  {
    var masters := calldata.NextMasters(3);
    if masters.None? {
      return Err(CalldataMismatch);
    }
    var a, b, c := masters.value[0], masters.value[1], masters.value[2];
    r := AssertNotSame(a, b);
    if r.Err? {
      return;
    }
    r := AssertNotSame(a, c);
    if r.Err? {
      return;
    }
    r := AssertNotSame(b, c);
    if r.Err? {
      return;
    }
    store.StoreType(MultiSig);
    store.StoreMasterAccount(a, 1);
    store.StoreMasterAccount(b, 2);
    store.StoreMasterAccount(c, 3);
  }

  /** `initialize`: type flag, masters, optional limit, optional account, in that order. */
  method Initialize(values: seq<V.Value>, typeOf: bool -> VaultType, store: VaultData) returns (r: Result<(), InitError>)
    modifies store
    ensures var o := InitializeSpec(values, typeOf, old(store.State()));
      r == o.result && store.State() == o.vault
  {
    var calldata := new CallData(values);
    var flag := calldata.NextFlag();
    if flag.None? {
      return Err(CalldataMismatch);
    }
    if typeOf(flag.value) == Simple {
      r := SimpleInitialize(calldata, store);
    } else {
      r := MultisigInitialize(calldata, store);
    }
    if r.Err? {
      return;
    }
    var limit := calldata.NextLimit();
    if limit.None? {
      return Err(CalldataMismatch);
    }
    if limit.value.Some? {
      store.StoreSpendingLimit(limit.value.value);
    }
    var account := calldata.NextAccount();
    if account.None? {
      return Err(CalldataMismatch);
    }
    if account.value.Some? {
      store.StoreSpendingAccount(account.value.value);
    }
  }

  // ---------------------------------------------------------------------
  // What the action accepts and what it stores

  function MasterCount(t: VaultType): nat
  {
    if t == Simple then 1 else 3
  }

  predicate Distinct(ms: seq<V.Address>)
  {
    forall i, j :: 0 <= i < j < |ms| ==> ms[i] != ms[j]
  }

  /** The master keys the calldata carries for the vault type its flag selects. */
  function MastersOf(values: seq<V.Value>, typeOf: bool -> VaultType): Option<seq<V.Address>>
    requires 2 <= |values| && DecodeFlag(values[0]).Some?
  {
    DecodeMasters(MasterCount(typeOf(DecodeFlag(values[0]).value)), values[1])
  }

  /**
   * Calldata `initialize` accepts: a flag, then as many master keys as its
   * vault type needs, all different, then an optional limit and an optional
   * account.
   */
  predicate Accepted(values: seq<V.Value>, typeOf: bool -> VaultType)
  {
    && |values| >= 4
    && DecodeFlag(values[0]).Some?
    && MastersOf(values, typeOf).Some?
    && Distinct(MastersOf(values, typeOf).value)
    && DecodeLimit(values[2]).Some?
    && DecodeAccount(values[3]).Some?
  }

  /** Master key `k` (counting from 1) in slot `k`. */
  function MasterSlots(ms: seq<V.Address>): (m: map<nat, V.Address>)
  {
    if ms == [] then map[] else MasterSlots(ms[..|ms| - 1])[|ms| := ms[|ms| - 1]]
  }

  lemma {:induction false} MasterSlotsAt(ms: seq<V.Address>, k: nat)
    ensures k in MasterSlots(ms) <==> 1 <= k <= |ms|
    ensures 1 <= k <= |ms| ==> MasterSlots(ms)[k] == ms[k - 1]
  {
    if ms != [] {
      MasterSlotsAt(ms[..|ms| - 1], k);
    }
  }

  /**
   * The storage after a successful `initialize`: the type, the master keys in
   * slots 1.., and the limit and account only when given.
   */
  function Stored(s: Vault, t: VaultType, ms: seq<V.Address>, limit: Option<V.Amount>, account: Option<V.Address>): Vault
  {
    Vault(Some(t),
          s.masters + MasterSlots(ms),
          if limit.Some? then limit else s.spendingLimit,
          if account.Some? then account else s.spendingAccount)
  }

  lemma MultisigDistinct(ms: seq<V.Address>)
    requires |ms| == 3
    ensures Distinct(ms) <==> ms[0] != ms[1] && ms[0] != ms[2] && ms[1] != ms[2]
  {
  }

  /** `initialize` succeeds exactly on accepted calldata, having read exactly four values. */
  lemma InitializeAccepts(values: seq<V.Value>, typeOf: bool -> VaultType, s: Vault)
    ensures InitializeSpec(values, typeOf, s).result.Ok? <==> Accepted(values, typeOf)
    ensures InitializeSpec(values, typeOf, s).result.Ok? ==> InitializeSpec(values, typeOf, s).pos == 4
  {
    if 2 <= |values| && DecodeFlag(values[0]).Some? && typeOf(DecodeFlag(values[0]).value) == MultiSig {
      var ms := DecodeMasters(3, values[1]);
      if ms.Some? {
        MultisigDistinct(ms.value);
      }
    }
  }

  /** The masters step of an accepted calldata stores its keys in slots 1.. and the vault type. */
  lemma MastersStepWrites(values: seq<V.Value>, typeOf: bool -> VaultType, s: Vault)
    requires Accepted(values, typeOf)
    ensures var t := typeOf(DecodeFlag(values[0]).value);
      var o := if t == Simple then SimpleSpec(values, 1, s) else MultisigSpec(values, 1, s);
      o.result.Ok? && o.pos == 2 && o.vault == s.(vaultType := Some(t), masters := s.masters + MasterSlots(MastersOf(values, typeOf).value))
  {
    var t := typeOf(DecodeFlag(values[0]).value);
    var ms := MastersOf(values, typeOf).value;
    var m := if t == Simple then SimpleSpec(values, 1, s).vault.masters else MultisigSpec(values, 1, s).vault.masters;
    forall k: nat
      ensures k in m <==> k in s.masters + MasterSlots(ms)
      ensures k in m ==> m[k] == (s.masters + MasterSlots(ms))[k]
    {
      MasterSlotsAt(ms, k);
    }
    if t == MultiSig {
      MultisigDistinct(ms);
    }
    assert m == s.masters + MasterSlots(ms);
  }

  /** What a successful `initialize` stores, and that nothing else changes. */
  lemma InitializeWrites(values: seq<V.Value>, typeOf: bool -> VaultType, s: Vault)
    requires Accepted(values, typeOf)
    ensures InitializeSpec(values, typeOf, s).vault
      == Stored(s, typeOf(DecodeFlag(values[0]).value), MastersOf(values, typeOf).value,
                DecodeLimit(values[2]).value, DecodeAccount(values[3]).value)
  {
    MastersStepWrites(values, typeOf, s);
  }

  /**
   * The distinctness check fails only for a multisig vault with a repeated
   * key, and then nothing has been stored.
   */
  lemma RepeatedMastersStoreNothing(values: seq<V.Value>, typeOf: bool -> VaultType, s: Vault)
    ensures InitializeSpec(values, typeOf, s).result == Err(MastersNotDistinct) ==>
      InitializeSpec(values, typeOf, s).vault == s
    ensures InitializeSpec(values, typeOf, s).result == Err(MastersNotDistinct) <==>
      && 2 <= |values| && DecodeFlag(values[0]).Some?
      && typeOf(DecodeFlag(values[0]).value) == MultiSig
      && DecodeMasters(3, values[1]).Some? && !Distinct(DecodeMasters(3, values[1]).value)
  {
    if 2 <= |values| && DecodeFlag(values[0]).Some? && typeOf(DecodeFlag(values[0]).value) == MultiSig {
      var ms := DecodeMasters(3, values[1]);
      if ms.Some? {
        MultisigDistinct(ms.value);
      }
    }
  }
}
