/** What a credential grants, and the order "grants no more than". */
module Caveats {
  import opened Prelude

  datatype Coin = Coin(denom: string, amount: nat)
  type Coins = seq<Coin>

  /** The amount of one denomination; an absent one counts as zero. */
  function Amount(cs: Coins, denom: string): nat {
    if cs == [] then 0
    else if cs[0].denom == denom then cs[0].amount
    else Amount(cs[1..], denom)
  }

  predicate CoinsWithin(x: Coins, y: Coins) {
    forall i | 0 <= i < |x| :: Amount(x, x[i].denom) <= Amount(y, x[i].denom)
  }

  /** redelegate_to: the zero value constrains nothing, which is the widest set. */
  datatype Targets = Anyone | Only(dids: set<string>) {
    predicate Allows(did: string) {
      Anyone? || did in dids
    }

    predicate Within(parent: Targets) {
      parent.Anyone? || (Only? && dids <= parent.dids)
    }
  }

  datatype Caveats = Caveats(
    principal: string,
    actions: set<string>,
    subaccounts: set<uint32>,
    budget: Coins,
    svcBudget: Coins,
    settlement: string,
    redelegable: bool,
    redelegateTo: Targets,
    maxDepth: nat,
    notBefore: int64,
    expires: int64)

  predicate AtMost(child: Caveats, parent: Caveats) {
    && child.principal == parent.principal
    && child.settlement == parent.settlement
    && child.actions <= parent.actions
    && child.subaccounts <= parent.subaccounts
    && CoinsWithin(child.budget, parent.budget)
    && CoinsWithin(child.svcBudget, parent.svcBudget)
    && (child.redelegable ==> parent.redelegable)
    && child.redelegateTo.Within(parent.redelegateTo)
    && child.maxDepth <= parent.maxDepth
    && parent.notBefore <= child.notBefore
    && child.expires <= parent.expires
  }

  /** Two grants of the same capability, however their coins are listed. */
  predicate SameGrant(a: Caveats, b: Caveats) {
    AtMost(a, b) && AtMost(b, a)
  }

  lemma {:induction false} AbsentIsZero(cs: Coins, denom: string)
    requires forall i :: 0 <= i < |cs| ==> cs[i].denom != denom
    ensures Amount(cs, denom) == 0
  {
    if cs != [] {
      AbsentIsZero(cs[1..], denom);
    }
  }

  /** The first coin of a denomination is its amount. */
  lemma {:induction false} AmountOfListed(cs: Coins, i: nat)
    requires i < |cs| && forall j :: 0 <= j < i ==> cs[j].denom != cs[i].denom
    ensures Amount(cs, cs[i].denom) == cs[i].amount
  {
    if i > 0 {
      AmountOfListed(cs[1..], i - 1);
    }
  }

  lemma CoinsWithinAt(x: Coins, y: Coins, denom: string)
    requires CoinsWithin(x, y)
    ensures Amount(x, denom) <= Amount(y, denom)
  {
    if i :| 0 <= i < |x| && x[i].denom == denom {
    } else {
      AbsentIsZero(x, denom);
    }
  }

  /** The listed comparison is the pointwise one over every denomination. */
  lemma CoinsWithinMeans(x: Coins, y: Coins)
    ensures CoinsWithin(x, y) <==> forall d: string :: Amount(x, d) <= Amount(y, d)
  {
    if CoinsWithin(x, y) {
      forall d: string ensures Amount(x, d) <= Amount(y, d) {
        CoinsWithinAt(x, y, d);
      }
    } else {
      var i :| 0 <= i < |x| && Amount(x, x[i].denom) > Amount(y, x[i].denom);
      var d := x[i].denom;
      assert !(Amount(x, d) <= Amount(y, d));
    }
  }

  lemma CoinsWithinTransitive(x: Coins, y: Coins, z: Coins)
    requires CoinsWithin(x, y) && CoinsWithin(y, z)
    ensures CoinsWithin(x, z)
  {
    CoinsWithinMeans(x, y);
    CoinsWithinMeans(y, z);
  }

  lemma AtMostTransitive(a: Caveats, b: Caveats, c: Caveats)
    requires AtMost(a, b) && AtMost(b, c)
    ensures AtMost(a, c)
  {
    CoinsWithinTransitive(a.budget, b.budget, c.budget);
    CoinsWithinTransitive(a.svcBudget, b.svcBudget, c.svcBudget);
  }

  // -- the meet ----------------------------------------------------------------

  function MeetCoins(x: Coins, y: Coins): Coins {
    if x == [] then []
    else [Coin(x[0].denom, Min(x[0].amount, Amount(y, x[0].denom)))] + MeetCoins(x[1..], y)
  }

  lemma {:induction false} MeetCoinsAmount(x: Coins, y: Coins, denom: string)
    ensures Amount(MeetCoins(x, y), denom) == Min(Amount(x, denom), Amount(y, denom))
  {
    if x != [] {
      MeetCoinsAmount(x[1..], y, denom);
      assert MeetCoins(x, y)[1..] == MeetCoins(x[1..], y);
    }
  }

  lemma MeetCoinsGreatest(x: Coins, y: Coins, z: Coins)
    ensures CoinsWithin(z, MeetCoins(x, y)) <==> CoinsWithin(z, x) && CoinsWithin(z, y)
  {
    forall d: string
      ensures Amount(MeetCoins(x, y), d) == Min(Amount(x, d), Amount(y, d))
    {
      MeetCoinsAmount(x, y, d);
    }
  }

  function MeetTargets(a: Targets, b: Targets): Targets {
    if a.Anyone? then b
    else if b.Anyone? then a
    else Only(a.dids * b.dids)
  }

  /** The widest grant inside both, for grants on one account and one escrow order. */
  function Meet(a: Caveats, b: Caveats): Caveats {
    Caveats(
      a.principal,
      a.actions * b.actions,
      a.subaccounts * b.subaccounts,
      MeetCoins(a.budget, b.budget),
      MeetCoins(a.svcBudget, b.svcBudget),
      a.settlement,
      a.redelegable && b.redelegable,
      MeetTargets(a.redelegateTo, b.redelegateTo),
      Min(a.maxDepth, b.maxDepth),
      Max(a.notBefore, b.notBefore),
      Min(a.expires, b.expires))
  }

  lemma MeetIsGreatestLowerBound(a: Caveats, b: Caveats, x: Caveats)
    requires a.principal == b.principal && a.settlement == b.settlement
    ensures AtMost(x, Meet(a, b)) <==> AtMost(x, a) && AtMost(x, b)
  {
    MeetCoinsGreatest(a.budget, b.budget, x.budget);
    MeetCoinsGreatest(a.svcBudget, b.svcBudget, x.svcBudget);
  }

  /** The order, field by field and element by element. */
  lemma AtMostMeans(child: Caveats, parent: Caveats)
    ensures AtMost(child, parent) <==>
            && child.principal == parent.principal && child.settlement == parent.settlement
            && (forall a :: a in child.actions ==> a in parent.actions)
            && (forall s :: s in child.subaccounts ==> s in parent.subaccounts)
            && (forall d: string :: Amount(child.budget, d) <= Amount(parent.budget, d))
            && (forall d: string :: Amount(child.svcBudget, d) <= Amount(parent.svcBudget, d))
            && (child.redelegable ==> parent.redelegable)
            && (parent.redelegateTo.Only? ==>
                  && child.redelegateTo.Only?
                  && forall did :: did in child.redelegateTo.dids ==> did in parent.redelegateTo.dids)
            && child.maxDepth <= parent.maxDepth
            && parent.notBefore <= child.notBefore && child.expires <= parent.expires
  {
    CoinsWithinMeans(child.budget, parent.budget);
    CoinsWithinMeans(child.svcBudget, parent.svcBudget);
  }

  lemma AtMostReflexive(a: Caveats)
    ensures AtMost(a, a)
  {}

  // -- what the order means ----------------------------------------------------

  /** One thing a holder may ask for. */
  datatype Request = Request(
    principal: string, settlement: string, action: string, subaccount: uint32,
    denom: string, amount: nat, svcDenom: string, svcAmount: nat, at: int64)

  predicate Permits(c: Caveats, q: Request) {
    && q.principal == c.principal
    && q.settlement == c.settlement
    && q.action in c.actions
    && q.subaccount in c.subaccounts
    && q.amount <= Amount(c.budget, q.denom)
    && q.svcAmount <= Amount(c.svcBudget, q.svcDenom)
    && c.notBefore <= q.at < c.expires
  }

  /** A grant lower in the order permits no request the higher one refuses. */
  lemma AtMostPermitsLess(child: Caveats, parent: Caveats, q: Request)
    requires AtMost(child, parent) && Permits(child, q)
    ensures Permits(parent, q)
  {
    CoinsWithinAt(child.budget, parent.budget, q.denom);
    CoinsWithinAt(child.svcBudget, parent.svcBudget, q.svcDenom);
  }

  /** The converse: only what is spendable can be compared by requests, so for a grant that is
      usable at all, permitting less on every request bounds every spendable field. */
  lemma PermitsLessBounds(child: Caveats, parent: Caveats, action: string, sub: uint32)
    requires action in child.actions && sub in child.subaccounts && child.notBefore < child.expires
    requires forall q :: Permits(child, q) ==> Permits(parent, q)
    ensures child.principal == parent.principal && child.settlement == parent.settlement
    ensures child.actions <= parent.actions && child.subaccounts <= parent.subaccounts
    ensures CoinsWithin(child.budget, parent.budget) && CoinsWithin(child.svcBudget, parent.svcBudget)
    ensures parent.notBefore <= child.notBefore && child.expires <= parent.expires
  {
    var ask := Request(child.principal, child.settlement, action, sub, "", 0, "", 0, child.notBefore);
    assert Permits(child, ask);
    assert Permits(child, ask.(at := child.expires - 1));
    forall a | a in child.actions ensures a in parent.actions {
      assert Permits(child, ask.(action := a));
    }
    forall s | s in child.subaccounts ensures s in parent.subaccounts {
      assert Permits(child, ask.(subaccount := s));
    }
    forall d: string ensures Amount(child.budget, d) <= Amount(parent.budget, d) {
      assert Permits(child, ask.(denom := d, amount := Amount(child.budget, d)));
    }
    forall d: string ensures Amount(child.svcBudget, d) <= Amount(parent.svcBudget, d) {
      assert Permits(child, ask.(svcDenom := d, svcAmount := Amount(child.svcBudget, d)));
    }
  }
}
