/** intermediary.narrow: the child's caveats, before Attenuate decides whether to sign them. */
module Narrowing {
  import opened Prelude
  import opened Caveats
  import opened Svpdt
  import opened CoinText
  import opened Text
  import Decimal

  datatype NarrowSpec = NarrowSpec(
    actions: seq<string>,
    subaccounts: seq<uint32>,
    budget: Option<WireCoin>,
    svcBudget: Option<WireCoin>,
    ttlSeconds: int64)

  datatype NarrowError = BadActions | BadBudget | BadSvcBudget

  /** The expiry a child gets, in Go's wrapping int64 addition. */
  function ChildExpiry(parentExpires: int64, ttlSeconds: int64, now: int64): int64 {
    if ttlSeconds > 0 && Wrap64(now + ttlSeconds) < parentExpires
    then Wrap64(now + ttlSeconds) else parentExpires
  }

  function BudgetOr(lib: Library, named: Option<WireCoin>, inherited: Coins): Option<Coins> {
    match named case None => Some(inherited) case Some(c) => ToDTCoins(lib, c)
  }

  function Narrowed(lib: Library, parent: Caveats, spec: NarrowSpec, now: int64): Result<Caveats, NarrowError> {
    var actions := if spec.actions == [] then Some(parent.actions) else lib.newStringSet(spec.actions);
    var budget := BudgetOr(lib, spec.budget, parent.budget);
    var svcBudget := BudgetOr(lib, spec.svcBudget, parent.svcBudget);
    if actions.None? then Failure(BadActions)
    else if budget.None? then Failure(BadBudget)
    else if svcBudget.None? then Failure(BadSvcBudget)
    else Success(Caveats(
      parent.principal,
      actions.value,
      if spec.subaccounts == [] then parent.subaccounts else (set s | s in spec.subaccounts),
      budget.value,
      svcBudget.value,
      parent.settlement,
      false,
      Only({}),
      parent.maxDepth,
      parent.notBefore,
      ChildExpiry(parent.expires, spec.ttlSeconds, now)))
  }

  method Narrow(lib: Library, parent: Caveats, spec: NarrowSpec, now: int64)
    returns (r: Result<Caveats, NarrowError>)
    ensures r == Narrowed(lib, parent, spec, now)
    ensures r == Failure(BadActions) <==> spec.actions != [] && lib.newStringSet(spec.actions).None?
    ensures r == Failure(BadBudget) <==>
            r != Failure(BadActions) && spec.budget.Some? && ToDTCoins(lib, spec.budget.value).None?
    ensures r == Failure(BadSvcBudget) <==>
            && r != Failure(BadActions) && r != Failure(BadBudget)
            && spec.svcBudget.Some? && ToDTCoins(lib, spec.svcBudget.value).None?
    ensures r.Success? && BuildsWhatItIsGiven(lib) ==> HoldsWhatWasNamed(r.value, parent, spec, now)
  {
    if Narrowed(lib, parent, spec, now).Success? && BuildsWhatItIsGiven(lib) {
      NamedIsHeld(lib, parent, spec, now);
    }
    var child := parent;
    child := child.(redelegable := false);
    child := child.(redelegateTo := Only({}));
    if |spec.actions| > 0 {
      var actions := lib.newStringSet(spec.actions);
      if actions.None? {
        return Failure(BadActions);
      }
      child := child.(actions := actions.value);
    }
    if |spec.subaccounts| > 0 {
      child := child.(subaccounts := set s | s in spec.subaccounts);
    }
    if spec.budget.Some? {
      var coins := ToDTCoins(lib, spec.budget.value);
      if coins.None? {
        return Failure(BadBudget);
      }
      child := child.(budget := coins.value);
    }
    if spec.svcBudget.Some? {
      var coins := ToDTCoins(lib, spec.svcBudget.value);
      if coins.None? {
        return Failure(BadSvcBudget);
      }
      child := child.(svcBudget := coins.value);
    }
    if spec.ttlSeconds > 0 {
      var exp := Wrap64(now + spec.ttlSeconds);
      if exp < child.expires {
        child := child.(expires := exp);
      }
    }
    return Success(child);
  }

  /** Whatever the clock and the lifetime asked for, wrap-around included, a child never outlives
      its parent. Under a live parent it gets the expiry asked for, and is itself alive when
      minted, exactly when the addition does not wrap. */
  lemma ExpiryExact(parentExpires: int64, ttlSeconds: int64, now: int64)
    requires 0 <= now
    ensures ChildExpiry(parentExpires, ttlSeconds, now) <= parentExpires
    ensures now < parentExpires ==>
              ((ChildExpiry(parentExpires, ttlSeconds, now)
                == if ttlSeconds > 0 then Min(parentExpires, now + ttlSeconds) else parentExpires)
               <==> (ttlSeconds <= 0 || now + ttlSeconds < TWO_63))
    ensures now < parentExpires ==>
              (now < ChildExpiry(parentExpires, ttlSeconds, now)
               <==> (ttlSeconds <= 0 || now + ttlSeconds < TWO_63))
  {}

  /** These coins are just the named one: its parsed amount in its trimmed denomination, and
      nothing in any other. */
  ghost predicate JustNamed(coins: Coins, named: WireCoin) {
    && Decimal.ParseInt(TrimSpace(named.amount)).Some?
    && forall d: string ::
         Amount(coins, d) == if d == TrimSpace(named.denom) then Decimal.ParseInt(TrimSpace(named.amount)).value else 0
  }

  /** What a child holds under its parent: what was named exactly where something was, and the
      parent's own everywhere else. */
  ghost predicate HoldsWhatWasNamed(child: Caveats, parent: Caveats, spec: NarrowSpec, now: int64) {
    && (spec.actions != [] ==> forall a :: a in child.actions <==> a in spec.actions)
    && (spec.actions == [] ==> child.actions == parent.actions)
    && (spec.subaccounts != [] ==> forall s :: s in child.subaccounts <==> s in spec.subaccounts)
    && (spec.subaccounts == [] ==> child.subaccounts == parent.subaccounts)
    && (if spec.budget.Some? then JustNamed(child.budget, spec.budget.value) else child.budget == parent.budget)
    && (if spec.svcBudget.Some? then JustNamed(child.svcBudget, spec.svcBudget.value)
        else child.svcBudget == parent.svcBudget)
    && child.expires <= parent.expires
    && (spec.ttlSeconds <= 0 ==> child.expires == parent.expires)
    && (0 <= now && 0 < spec.ttlSeconds && now + spec.ttlSeconds < TWO_63 ==>
          child.expires == Min(parent.expires, now + spec.ttlSeconds))
    && child.principal == parent.principal && child.settlement == parent.settlement
    && child.maxDepth == parent.maxDepth && child.notBefore == parent.notBefore
    && !child.redelegable && child.redelegateTo == Only({})
  }

  /** Naming a field replaces it: nothing of the parent's stays in it, nothing named is lost. */
  lemma NamedIsHeld(lib: Library, parent: Caveats, spec: NarrowSpec, now: int64)
    requires BuildsWhatItIsGiven(lib) && Narrowed(lib, parent, spec, now).Success?
    ensures HoldsWhatWasNamed(Narrowed(lib, parent, spec, now).value, parent, spec, now)
  {
    ExpiryExact(parent.expires, spec.ttlSeconds, if now < 0 then 0 else now);
    if spec.budget.Some? {
      BuiltIsJustNamed(lib, spec.budget.value);
    }
    if spec.svcBudget.Some? {
      BuiltIsJustNamed(lib, spec.svcBudget.value);
    }
  }

  lemma BuiltIsJustNamed(lib: Library, named: WireCoin)
    requires BuildsWhatItIsGiven(lib) && ToDTCoins(lib, named).Some?
    ensures JustNamed(ToDTCoins(lib, named).value, named)
  {
    var n := Decimal.ParseInt(TrimSpace(named.amount)).value;
    assert lib.newCoins(TrimSpace(named.denom), n).Some?;
  }

  predicate BudgetInside(lib: Library, named: Option<WireCoin>, parent: Coins) {
    named.Some? ==>
      && ToDTCoins(lib, named.value).Some?
      && Decimal.ParseInt(TrimSpace(named.value.amount)).value <= Amount(parent, TrimSpace(named.value.denom))
  }

  /** Every field the caller names is one the library can build, inside the parent's. */
  predicate NamesSubset(lib: Library, parent: Caveats, spec: NarrowSpec) {
    && (spec.actions != [] ==>
          lib.newStringSet(spec.actions).Some? && forall a | a in spec.actions :: a in parent.actions)
    && (forall s | s in spec.subaccounts :: s in parent.subaccounts)
    && BudgetInside(lib, spec.budget, parent.budget)
    && BudgetInside(lib, spec.svcBudget, parent.svcBudget)
  }

  lemma BudgetInsideMeans(lib: Library, named: Option<WireCoin>, parent: Coins)
    requires BuildsWhatItIsGiven(lib)
    ensures BudgetInside(lib, named, parent) <==>
            BudgetOr(lib, named, parent).Some? && CoinsWithin(BudgetOr(lib, named, parent).value, parent)
  {
    if named.Some? && ToDTCoins(lib, named.value).Some? {
      var coins := ToDTCoins(lib, named.value).value;
      var denom := TrimSpace(named.value.denom);
      var n := Decimal.ParseInt(TrimSpace(named.value.amount)).value;
      assert lib.newCoins(denom, n).Some?;
      assert Amount(coins, denom) == n;
      if CoinsWithin(coins, parent) {
        CoinsWithinAt(coins, parent, denom);
      }
    } else {
      CoinsWithinMeans(parent, parent);
    }
  }

  /** The narrowed caveats lie under the parent's exactly when every named field is a subset of
      the parent's: neither the lifetime nor anything inherited can spoil it. */
  lemma NarrowedWithin(lib: Library, parent: Caveats, spec: NarrowSpec, now: int64)
    requires BuildsWhatItIsGiven(lib)
    ensures NamesSubset(lib, parent, spec) <==>
            Narrowed(lib, parent, spec, now).Success? && AtMost(Narrowed(lib, parent, spec, now).value, parent)
  {
    BudgetInsideMeans(lib, spec.budget, parent.budget);
    BudgetInsideMeans(lib, spec.svcBudget, parent.svcBudget);
    if Narrowed(lib, parent, spec, now).Success? {
      var child := Narrowed(lib, parent, spec, now).value;
      assert child.expires <= parent.expires;
      if spec.actions != [] {
        assert child.actions == set a | a in spec.actions;
        assert child.actions <= parent.actions <==> forall a | a in spec.actions :: a in parent.actions;
      }
      if spec.subaccounts != [] {
        assert child.subaccounts <= parent.subaccounts <==> forall s | s in spec.subaccounts :: s in parent.subaccounts;
      }
    }
  }

  /** Whatever is named, the rest is the parent's own: always the account, the escrow order, the
      depth and the start, and every field left out; only the right to pass on is spent. */
  lemma UnnamedIsInherited(lib: Library, parent: Caveats, spec: NarrowSpec, now: int64)
    requires Narrowed(lib, parent, spec, now).Success?
    ensures var child := Narrowed(lib, parent, spec, now).value;
            child == parent.(redelegable := false, redelegateTo := Only({}),
                             actions := child.actions, subaccounts := child.subaccounts,
                             budget := child.budget, svcBudget := child.svcBudget, expires := child.expires)
            && (spec.actions == [] ==> child.actions == parent.actions)
            && (spec.subaccounts == [] ==> child.subaccounts == parent.subaccounts)
            && (spec.budget.None? ==> child.budget == parent.budget)
            && (spec.svcBudget.None? ==> child.svcBudget == parent.svcBudget)
            && (spec.ttlSeconds <= 0 ==> child.expires == parent.expires)
  {}
}
