/**
 * The attribute checks of the svm SDK's function macro (`function.rs`):
 * three passes over a function's parsed attributes (no duplicates, allowed
 * combinations, order), the signature check for `#[before_fund]`, and the
 * dispatch of `rewrite_func`. Token generation is not modelled: a rewrite
 * yields only which expansion it chose.
 */
module EndpointAttrs {
  import opened Wrappers

  /** `FuncAttrKind` */
  datatype FuncAttrKind = Endpoint | BeforeFund | Fundable | Other

  /** `FuncAttribute`, as produced by the attribute parser. */
  datatype FuncAttribute =
    | EndpointAttr
    | BeforeFundAttr
    | FundableAttr(hook: string)
    | OtherAttr(text: string)
  {
    function Kind(): FuncAttrKind
    {
      match this
      case EndpointAttr => Endpoint
      case BeforeFundAttr => BeforeFund
      case FundableAttr(_) => Fundable
      case OtherAttr(_) => Other
    }
  }

  /** The errors the checks report; `Message` gives their exact text. */
  datatype AttrError =
    | EndpointTwice
    | BeforeFundTwice
    | FundableTwice
    | EndpointWithBeforeFund
    | BeforeFundWithFundable
    | FundableWithoutEndpoint
    | FundableAfterEndpoint
    | BadBeforeFundSig

  function Message(e: AttrError): string
  {
    match e
    case EndpointTwice => "Each function can be annotated with `#[endpoint]` exactly once."
    case BeforeFundTwice => "Each function can be annotated with `#[before_fund]` exactly once."
    case FundableTwice => "Each function can be annotated with `#[fundable(..)]` exactly once."
    case EndpointWithBeforeFund => "#[endpoint]` and `#[before_fund]` can't co-exist."
    case BeforeFundWithFundable => "#[before_fund]` and `#[fundable(..)]` can't co-exist."
    case FundableWithoutEndpoint => "#[fundable(..)] can't be used without `#[endpoint]`"
    case FundableAfterEndpoint => "`#[fundable(..)]` should be placed above `#[endpoint]`"
    case BadBeforeFundSig => "`#[before_fund]` annotated function should have signature of `fn(value: svm_sdk::Amount) -> ()`"
  }

  // ---------------------------------------------------------------------
  // Queries

  /** `has_attr`: some attribute has kind `k`. */
  predicate HasAttr(attrs: seq<FuncAttribute>, k: FuncAttrKind)
  {
    attrs != [] && (HasAttr(attrs[..|attrs| - 1], k) || attrs[|attrs| - 1].Kind() == k)
  }

  /** `has_attr` agrees with "some index holds an attribute of kind `k`". */
  lemma {:induction false} HasIffExists(attrs: seq<FuncAttribute>, k: FuncAttrKind)
    ensures HasAttr(attrs, k) <==> exists i :: 0 <= i < |attrs| && attrs[i].Kind() == k
  {
    if attrs != [] {
      var n := |attrs| - 1;
      var init := attrs[..n];
      HasIffExists(init, k);
      if HasAttr(init, k) {
        var i :| 0 <= i < |init| && init[i].Kind() == k;
        assert attrs[i] == init[i];
      }
      if exists i :: 0 <= i < |attrs| && attrs[i].Kind() == k {
        var i :| 0 <= i < |attrs| && attrs[i].Kind() == k;
        if i < n {
          assert init[i] == attrs[i];
        }
      }
    }
  }

  /** Number of attributes of kind `k`. */
  function Count(attrs: seq<FuncAttribute>, k: FuncAttrKind): (n: nat)
    ensures n <= |attrs|
  {
    if attrs == [] then 0
    else Count(attrs[..|attrs| - 1], k) + (if attrs[|attrs| - 1].Kind() == k then 1 else 0)
  }

  lemma {:induction false} HasIffCount(attrs: seq<FuncAttribute>, k: FuncAttrKind)
    ensures HasAttr(attrs, k) <==> Count(attrs, k) > 0
  {
    if attrs != [] {
      HasIffCount(attrs[..|attrs| - 1], k);
    }
  }

  /** `has_attr` over the prefix `attrs[..i+1]`, from the prefix `attrs[..i]`. */
  lemma HasStep(attrs: seq<FuncAttribute>, i: nat, k: FuncAttrKind)
    requires i < |attrs|
    ensures HasAttr(attrs[..i + 1], k) <==> HasAttr(attrs[..i], k) || attrs[i].Kind() == k
  {
    assert attrs[..i + 1][..i] == attrs[..i];
  }

  /**
   * `find_attr`: the first attribute of kind `k`; `None` where the source's
   * `unwrap` would panic.
   */
  function FindAttr(attrs: seq<FuncAttribute>, k: FuncAttrKind): (r: Option<FuncAttribute>)
    ensures r.Some? <==> exists i :: 0 <= i < |attrs| && attrs[i].Kind() == k
    ensures r.Some? ==> exists i :: 0 <= i < |attrs| && attrs[i] == r.value && r.value.Kind() == k
                                    && forall j :: 0 <= j < i ==> attrs[j].Kind() != k
  {
    if attrs == [] then None
    else if attrs[0].Kind() == k then Some(attrs[0])
    else
      var r := FindAttr(attrs[1..], k);
      assert (exists i :: 0 <= i < |attrs| && attrs[i].Kind() == k) ==>
             (exists i :: 0 <= i < |attrs[1..]| && attrs[1..][i].Kind() == k) by {
        if exists i :: 0 <= i < |attrs| && attrs[i].Kind() == k {
          var i :| 0 <= i < |attrs| && attrs[i].Kind() == k;
          assert attrs[1..][i - 1] == attrs[i];
        }
      }
      if r.Some? then
        var i :| 0 <= i < |attrs[1..]| && attrs[1..][i] == r.value && r.value.Kind() == k
                 && forall j :: 0 <= j < i ==> attrs[1..][j].Kind() != k;
        assert attrs[i + 1] == r.value;
        assert forall j :: 0 <= j < i + 1 ==> attrs[j].Kind() != k by {
          forall j | 0 <= j < i + 1
            ensures attrs[j].Kind() != k
          {
            if j > 0 {
              assert attrs[j] == attrs[1..][j - 1];
            }
          }
        }
        r
      else
        r
  }

  /** `find_attr` finds an attribute exactly when `has_attr` holds. */
  lemma FindAttrIffHasAttr(attrs: seq<FuncAttribute>, k: FuncAttrKind)
    ensures FindAttr(attrs, k).Some? <==> HasAttr(attrs, k)
    ensures FindAttr(attrs, k).Some? ==> FindAttr(attrs, k).value.Kind() == k
  {
    HasIffExists(attrs, k);
  }

  // ---------------------------------------------------------------------
  // No duplicates

  function DupError(k: FuncAttrKind): AttrError
    requires k != Other
  {
    match k
    case Endpoint => EndpointTwice
    case BeforeFund => BeforeFundTwice
    case Fundable => FundableTwice
  }

  /**
   * What `validate_attrs_no_dups` reports: scanning left to right, the first
   * attribute (other than `Other`) whose kind already occurred before it.
   */
  function NoDupsSpec(attrs: seq<FuncAttribute>): Result<(), AttrError>
  {
    if attrs == [] then Ok(())
    else
      var init := attrs[..|attrs| - 1];
      var k := attrs[|attrs| - 1].Kind();
      var prev := NoDupsSpec(init);
      if prev.Err? then prev
      else if k != Other && HasAttr(init, k) then Err(DupError(k))
      else Ok(())
  }

  /** An error found in a prefix is the error of the whole list. */
  lemma {:induction false} NoDupsErrPersists(attrs: seq<FuncAttribute>, n: nat)
    requires n <= |attrs|
    requires NoDupsSpec(attrs[..n]).Err?
    ensures NoDupsSpec(attrs) == NoDupsSpec(attrs[..n])
    decreases |attrs| - n
  {
    if n < |attrs| {
      assert attrs[..n + 1][..n] == attrs[..n];
      NoDupsErrPersists(attrs, n + 1);
    } else {
      assert attrs[..n] == attrs;
    }
  }

  /** `validate_attrs_no_dups` */
  method ValidateAttrsNoDups(attrs: seq<FuncAttribute>) returns (r: Result<(), AttrError>)
    ensures r == NoDupsSpec(attrs)
  {
    var seenEndpoint, seenFundable, seenBeforeFund := false, false, false;
    var i := 0;
    while i < |attrs|
      invariant 0 <= i <= |attrs|
      invariant NoDupsSpec(attrs[..i]) == Ok(())
      invariant seenEndpoint == HasAttr(attrs[..i], Endpoint)
      invariant seenBeforeFund == HasAttr(attrs[..i], BeforeFund)
      invariant seenFundable == HasAttr(attrs[..i], Fundable)
    {
      assert attrs[..i + 1][..i] == attrs[..i];
      HasStep(attrs, i, Endpoint);
      HasStep(attrs, i, BeforeFund);
      HasStep(attrs, i, Fundable);
      match attrs[i].Kind() {
        case Endpoint =>
          if seenEndpoint {
            NoDupsErrPersists(attrs, i + 1);
            return Err(EndpointTwice);
          }
          seenEndpoint := true;
        case BeforeFund =>
          if seenBeforeFund {
            NoDupsErrPersists(attrs, i + 1);
            return Err(BeforeFundTwice);
          }
          seenBeforeFund := true;
        case Fundable =>
          if seenFundable {
            NoDupsErrPersists(attrs, i + 1);
            return Err(FundableTwice);
          }
          seenFundable := true;
        case Other =>
      }
      i := i + 1;
    }
    assert attrs[..|attrs|] == attrs;
    r := Ok(());
  }

  /** The pass succeeds exactly when each of the three kinds occurs at most once. */
  lemma {:induction false} NoDupsIffAtMostOnce(attrs: seq<FuncAttribute>)
    ensures NoDupsSpec(attrs).Ok? <==>
      Count(attrs, Endpoint) <= 1 && Count(attrs, BeforeFund) <= 1 && Count(attrs, Fundable) <= 1
  {
    if attrs != [] {
      var init := attrs[..|attrs| - 1];
      NoDupsIffAtMostOnce(init);
      HasIffCount(init, Endpoint);
      HasIffCount(init, BeforeFund);
      HasIffCount(init, Fundable);
    }
  }

  /** A reported duplicate names a kind that occurs at least twice. */
  lemma {:induction false} NoDupsErrorIsDuplicate(attrs: seq<FuncAttribute>)
    ensures NoDupsSpec(attrs) == Err(EndpointTwice) ==> Count(attrs, Endpoint) >= 2
    ensures NoDupsSpec(attrs) == Err(BeforeFundTwice) ==> Count(attrs, BeforeFund) >= 2
    ensures NoDupsSpec(attrs) == Err(FundableTwice) ==> Count(attrs, Fundable) >= 2
    ensures NoDupsSpec(attrs).Err? ==> NoDupsSpec(attrs).error in {EndpointTwice, BeforeFundTwice, FundableTwice}
  {
    if attrs != [] {
      var init := attrs[..|attrs| - 1];
      NoDupsErrorIsDuplicate(init);
      HasIffCount(init, Endpoint);
      HasIffCount(init, BeforeFund);
      HasIffCount(init, Fundable);
    }
  }

  // ---------------------------------------------------------------------
  // Usage

  /** What `validate_attrs_usage` reports, from which kinds are present. */
  function UsageSpec(attrs: seq<FuncAttribute>): Result<(), AttrError>
  {
    var e, b, f := HasAttr(attrs, Endpoint), HasAttr(attrs, BeforeFund), HasAttr(attrs, Fundable);
    if e && b then Err(EndpointWithBeforeFund)
    else if f && b then Err(BeforeFundWithFundable)
    else if f && !e then Err(FundableWithoutEndpoint)
    else Ok(())
  }

  /** `validate_attrs_usage`: one pass collecting which kinds occur, then the checks. */
  method ValidateAttrsUsage(attrs: seq<FuncAttribute>) returns (r: Result<(), AttrError>)
    ensures r == UsageSpec(attrs)
  {
    var seenEndpoint, seenFundable, seenBeforeFund := false, false, false;
    var i := 0;
    while i < |attrs|
      invariant 0 <= i <= |attrs|
      invariant seenEndpoint == HasAttr(attrs[..i], Endpoint)
      invariant seenBeforeFund == HasAttr(attrs[..i], BeforeFund)
      invariant seenFundable == HasAttr(attrs[..i], Fundable)
    {
      HasStep(attrs, i, Endpoint);
      HasStep(attrs, i, BeforeFund);
      HasStep(attrs, i, Fundable);
      match attrs[i].Kind() {
        case Endpoint => seenEndpoint := true;
        case BeforeFund => seenBeforeFund := true;
        case Fundable => seenFundable := true;
        case Other =>
      }
      i := i + 1;
    }
    assert attrs[..|attrs|] == attrs;
    if seenEndpoint && seenBeforeFund {
      return Err(EndpointWithBeforeFund);
    }
    if seenFundable && seenBeforeFund {
      return Err(BeforeFundWithFundable);
    }
    if seenFundable && !seenEndpoint {
      return Err(FundableWithoutEndpoint);
    }
    r := Ok(());
  }

  // ---------------------------------------------------------------------
  // Order

  /** What `validate_attrs_order` reports: the first `Fundable` that follows an `Endpoint`. */
  function OrderSpec(attrs: seq<FuncAttribute>): Result<(), AttrError>
  {
    if attrs == [] then Ok(())
    else
      var init := attrs[..|attrs| - 1];
      var prev := OrderSpec(init);
      if prev.Err? then prev
      else if attrs[|attrs| - 1].Kind() == Fundable && HasAttr(init, Endpoint) then Err(FundableAfterEndpoint)
      else Ok(())
  }

  lemma {:induction false} OrderErrPersists(attrs: seq<FuncAttribute>, n: nat)
    requires n <= |attrs|
    requires OrderSpec(attrs[..n]).Err?
    ensures OrderSpec(attrs) == OrderSpec(attrs[..n])
    decreases |attrs| - n
  {
    if n < |attrs| {
      assert attrs[..n + 1][..n] == attrs[..n];
      OrderErrPersists(attrs, n + 1);
    } else {
      assert attrs[..n] == attrs;
    }
  }

  /** `validate_attrs_order` */
  method ValidateAttrsOrder(attrs: seq<FuncAttribute>) returns (r: Result<(), AttrError>)
    ensures r == OrderSpec(attrs)
  {
    var seenEndpoint := false;
    var i := 0;
    while i < |attrs|
      invariant 0 <= i <= |attrs|
      invariant OrderSpec(attrs[..i]) == Ok(())
      invariant seenEndpoint == HasAttr(attrs[..i], Endpoint)
    {
      assert attrs[..i + 1][..i] == attrs[..i];
      HasStep(attrs, i, Endpoint);
      match attrs[i].Kind() {
        case Endpoint => seenEndpoint := true;
        case BeforeFund =>
        case Fundable =>
          if seenEndpoint {
            OrderErrPersists(attrs, i + 1);
            return Err(FundableAfterEndpoint);
          }
        case Other =>
      }
      i := i + 1;
    }
    assert attrs[..|attrs|] == attrs;
    r := Ok(());
  }

  /** Fundable after endpoint: some endpoint sits at an earlier index than some fundable. */
  predicate FundableFollowsEndpoint(attrs: seq<FuncAttribute>)
  {
    exists i, j :: 0 <= i < j < |attrs| && attrs[i].Kind() == Endpoint && attrs[j].Kind() == Fundable
  }

  /** The order pass fails exactly when some `Fundable` comes after some `Endpoint`. */
  lemma {:induction false} OrderIffFundableFirst(attrs: seq<FuncAttribute>)
    ensures OrderSpec(attrs).Ok? <==> !FundableFollowsEndpoint(attrs)
    ensures OrderSpec(attrs).Err? ==> OrderSpec(attrs).error == FundableAfterEndpoint
  {
    if attrs != [] {
      var n := |attrs| - 1;
      var init := attrs[..n];
      OrderIffFundableFirst(init);
      if FundableFollowsEndpoint(init) {
        var i, j :| 0 <= i < j < |init| && init[i].Kind() == Endpoint && init[j].Kind() == Fundable;
        assert attrs[i] == init[i] && attrs[j] == init[j];
      }
      HasIffExists(init, Endpoint);
      if attrs[n].Kind() == Fundable && HasAttr(init, Endpoint) {
        var i :| 0 <= i < |init| && init[i].Kind() == Endpoint;
        assert attrs[i] == init[i];
      }
      if FundableFollowsEndpoint(attrs) {
        var i, j :| 0 <= i < j < |attrs| && attrs[i].Kind() == Endpoint && attrs[j].Kind() == Fundable;
        if j < n {
          assert init[i] == attrs[i] && init[j] == attrs[j];
        } else {
          assert init[i] == attrs[i];
        }
      }
    }
  }

  // ---------------------------------------------------------------------
  // All three passes

  /** `validate_attrs`: the three passes in order; the first error wins. */
  function ValidateAttrsSpec(attrs: seq<FuncAttribute>): Result<(), AttrError>
  {
    var d := NoDupsSpec(attrs);
    if d.Err? then d
    else
      var u := UsageSpec(attrs);
      if u.Err? then u else OrderSpec(attrs)
  }

  /** `validate_attrs` */
  method ValidateAttrs(attrs: seq<FuncAttribute>) returns (r: Result<(), AttrError>)
    ensures r == ValidateAttrsSpec(attrs)
  {
    r := ValidateAttrsNoDups(attrs);
    if r.Err? {
      return;
    }
    r := ValidateAttrsUsage(attrs);
    if r.Err? {
      return;
    }
    r := ValidateAttrsOrder(attrs);
  }

  /**
   * The accepted attribute lists: each kind at most once, `before_fund` with
   * neither `endpoint` nor `fundable`, `fundable` only with `endpoint` and
   * placed before it.
   */
  lemma ValidateAttrsAccepts(attrs: seq<FuncAttribute>)
    ensures ValidateAttrsSpec(attrs).Ok? <==>
      && Count(attrs, Endpoint) <= 1 && Count(attrs, BeforeFund) <= 1 && Count(attrs, Fundable) <= 1
      && (HasAttr(attrs, BeforeFund) ==> !HasAttr(attrs, Endpoint) && !HasAttr(attrs, Fundable))
      && (HasAttr(attrs, Fundable) ==> HasAttr(attrs, Endpoint))
      && !FundableFollowsEndpoint(attrs)
  {
    NoDupsIffAtMostOnce(attrs);
    OrderIffFundableFirst(attrs);
  }

  // ---------------------------------------------------------------------
  // The `#[before_fund]` signature

  /** `syn::FnArg`: `self`, or a typed pattern with its attributes and the token text of its type. */
  datatype FnArg = Receiver | Typed(attrs: seq<string>, ty: string)

  /** `syn::ReturnType`: none written, or `-> ty`. */
  datatype ReturnType = DefaultReturn | TypeReturn(ty: string)

  datatype Signature = Signature(inputs: seq<FnArg>, output: ReturnType)

  /** `validate_before_fund_func_sig` */
  function ValidateBeforeFundFuncSig(sig: Signature): (r: Result<(), AttrError>)
    ensures r.Ok? <==>
      && |sig.inputs| == 1 && sig.output.DefaultReturn?
      && sig.inputs[0].Typed? && sig.inputs[0].attrs == []
      && sig.inputs[0].ty in {"svm_sdk :: Amount", "Amount"}
    ensures r.Err? ==> r.error == BadBeforeFundSig
  {
    if |sig.inputs| != 1 || !sig.output.DefaultReturn? then Err(BadBeforeFundSig)
    else
      match sig.inputs[0]
      case Typed(attrs, ty) =>
        if attrs != [] then Err(BadBeforeFundSig)
        else if ty == "svm_sdk :: Amount" || ty == "Amount" then Ok(())
        else Err(BadBeforeFundSig)
      case Receiver => Err(BadBeforeFundSig)
  }

  // ---------------------------------------------------------------------
  // Dispatch

  /** Which expansion `rewrite_func` chose. */
  datatype Expansion = EndpointExpansion | BeforeFundExpansion | PlainExpansion

  /**
   * `rewrite_func`: validate the attributes, then expand as an endpoint if one
   * is present, otherwise as a `before_fund` hook (checking its signature),
   * otherwise as a plain function.
   */
  function RewriteFunc(attrs: seq<FuncAttribute>, sig: Signature): (r: Result<Expansion, AttrError>)
    ensures ValidateAttrsSpec(attrs).Err? ==> r == Err(ValidateAttrsSpec(attrs).error)
    ensures r == Ok(EndpointExpansion) <==> ValidateAttrsSpec(attrs).Ok? && HasAttr(attrs, Endpoint)
    ensures r == Ok(BeforeFundExpansion) <==>
      ValidateAttrsSpec(attrs).Ok? && HasAttr(attrs, BeforeFund) && ValidateBeforeFundFuncSig(sig).Ok?
    ensures r == Ok(PlainExpansion) <==>
      ValidateAttrsSpec(attrs).Ok? && !HasAttr(attrs, Endpoint) && !HasAttr(attrs, BeforeFund)
  {
    var v := ValidateAttrsSpec(attrs);
    if v.Err? then Err(v.error)
    else if HasAttr(attrs, Endpoint) then Ok(EndpointExpansion)
    else if HasAttr(attrs, BeforeFund) then
      var s := ValidateBeforeFundFuncSig(sig);
      if s.Err? then Err(s.error) else Ok(BeforeFundExpansion)
    else Ok(PlainExpansion)
  }

  // ---------------------------------------------------------------------
  // The unit tests of `function.rs`

  /** The three passes on a single attribute. */
  lemma SingleSpecs(a: FuncAttribute)
    ensures forall k :: HasAttr([a], k) <==> a.Kind() == k
    ensures NoDupsSpec([a]) == Ok(()) && OrderSpec([a]) == Ok(())
  {
    assert [a][..0] == [];
  }

  /** The three passes on two attributes. */
  lemma PairSpecs(a: FuncAttribute, b: FuncAttribute)
    ensures forall k :: HasAttr([a, b], k) <==> a.Kind() == k || b.Kind() == k
    ensures NoDupsSpec([a, b]) ==
      if a.Kind() == b.Kind() && a.Kind() != Other then Err(DupError(a.Kind())) else Ok(())
    ensures OrderSpec([a, b]) ==
      if a.Kind() == Endpoint && b.Kind() == Fundable then Err(FundableAfterEndpoint) else Ok(())
  {
    assert [a, b][..1] == [a];
    SingleSpecs(a);
  }

  const AmountArg := Typed([], "svm_sdk :: Amount")
  const NoArgs := Signature([], DefaultReturn)

  lemma FundableCanNotLiveAlone()
    ensures RewriteFunc([FundableAttr("deny")], NoArgs) == Err(FundableWithoutEndpoint)
  {
    SingleSpecs(FundableAttr("deny"));
  }

  lemma EndpointAndFundableWrongOrder()
    ensures RewriteFunc([EndpointAttr, FundableAttr("deny")], NoArgs) == Err(FundableAfterEndpoint)
  {
    PairSpecs(EndpointAttr, FundableAttr("deny"));
  }

  lemma EndpointAndBeforeFundFails()
    ensures RewriteFunc([BeforeFundAttr, EndpointAttr], NoArgs) == Err(EndpointWithBeforeFund)
  {
    PairSpecs(BeforeFundAttr, EndpointAttr);
  }

  /** `before_fund` with `fundable` is refused by the second co-existence rule (no unit test covers it). */
  lemma FundableAndBeforeFundFails()
    ensures RewriteFunc([FundableAttr("allow"), BeforeFundAttr], Signature([AmountArg], DefaultReturn))
         == Err(BeforeFundWithFundable)
  {
    PairSpecs(FundableAttr("allow"), BeforeFundAttr);
  }

  lemma EndpointUsedTwiceFails()
    ensures RewriteFunc([EndpointAttr, EndpointAttr], NoArgs) == Err(EndpointTwice)
  {
    PairSpecs(EndpointAttr, EndpointAttr);
  }

  lemma BeforeFundUsedTwiceFails()
    ensures RewriteFunc([BeforeFundAttr, BeforeFundAttr], Signature([AmountArg], DefaultReturn)) == Err(BeforeFundTwice)
  {
    PairSpecs(BeforeFundAttr, BeforeFundAttr);
  }

  lemma FundableUsedTwiceFails()
    ensures RewriteFunc([FundableAttr("allow"), FundableAttr("allow"), EndpointAttr],
                        Signature([AmountArg], DefaultReturn)) == Err(FundableTwice)
  {
    var l := [FundableAttr("allow"), FundableAttr("allow"), EndpointAttr];
    assert l[..2] == [FundableAttr("allow"), FundableAttr("allow")];
    PairSpecs(FundableAttr("allow"), FundableAttr("allow"));
    NoDupsErrPersists(l, 2);
  }

  lemma BeforeFundWithNoArgsFails()
    ensures RewriteFunc([BeforeFundAttr], NoArgs) == Err(BadBeforeFundSig)
  {
    SingleSpecs(BeforeFundAttr);
  }

  lemma BeforeFundWithTwoArgsFails()
    ensures RewriteFunc([BeforeFundAttr], Signature([AmountArg, AmountArg], DefaultReturn)) == Err(BadBeforeFundSig)
  {
    SingleSpecs(BeforeFundAttr);
  }

  lemma BeforeFundWithReturnTypeFails()
    ensures RewriteFunc([BeforeFundAttr], Signature([AmountArg], TypeReturn("u32"))) == Err(BadBeforeFundSig)
  {
    SingleSpecs(BeforeFundAttr);
  }

  lemma ValidSignaturesAccepted()
    ensures RewriteFunc([EndpointAttr], Signature([AmountArg], DefaultReturn)) == Ok(EndpointExpansion)
    ensures RewriteFunc([EndpointAttr], Signature([AmountArg], TypeReturn("(u32, svm_sdk :: Address)"))) == Ok(EndpointExpansion)
    ensures RewriteFunc([FundableAttr("allow"), EndpointAttr], Signature([Typed([], "svm_sdk :: Address")], DefaultReturn))
         == Ok(EndpointExpansion)
    ensures RewriteFunc([BeforeFundAttr], Signature([AmountArg], DefaultReturn)) == Ok(BeforeFundExpansion)
    ensures RewriteFunc([BeforeFundAttr], Signature([Typed([], "Amount")], DefaultReturn)) == Ok(BeforeFundExpansion)
  {
    SingleSpecs(EndpointAttr);
    PairSpecs(FundableAttr("allow"), EndpointAttr);
    SingleSpecs(BeforeFundAttr);
  }
}
