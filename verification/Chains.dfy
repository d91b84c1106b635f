/** What every accepted chain guarantees, however long it is and whoever built its tokens. */
module Chains {
  import opened Prelude
  import opened Caveats
  import opened Svpdt
  import opened Verification

  // -- no widening ---------------------------------------------------------------

  /** A later token grants no more than any earlier one, on the same account and escrow. */
  lemma {:induction false} NeverWidens(lib: Library, res: Resolver, opts: VerifyOpts, raw: seq<Bytes>, i: nat, j: nat)
    requires ChainValid(lib, res, opts, raw) && i <= j < |raw|
    ensures AtMost(Tokens(lib, raw)[j].payload.caveats, Tokens(lib, raw)[i].payload.caveats)
    decreases j - i
  {
    var ts := Tokens(lib, raw);
    if i == j {
      AtMostReflexive(ts[i].payload.caveats);
    } else {
      NeverWidens(lib, res, opts, raw, i, j - 1);
      assert Linked(lib, raw[j - 1], ts[j - 1], ts[j]);
      AtMostTransitive(ts[j].payload.caveats, ts[j - 1].payload.caveats, ts[i].payload.caveats);
    }
  }

  /** No request the chain's effective grant permits is refused by any token above it, and each
      hop was addressed to someone its parent allowed and signed for by that someone's id. */
  lemma AcceptedChainIsAuthorized(lib: Library, res: Resolver, opts: VerifyOpts, raw: seq<Bytes>, i: nat, q: Request)
    requires AcceptsRaw(lib, res, opts, raw) && i < |raw|
    ensures var ts := Tokens(lib, raw); var verified := Summary(lib, raw);
            && (Permits(verified.effective, q) ==> Permits(ts[i].payload.caveats, q))
            && verified.principal == ts[i].payload.caveats.principal
            && verified.effective.settlement == ts[i].payload.caveats.settlement
            && verified.root == ts[i].payload.root && verified.rootEpoch == ts[i].payload.rootEpoch
            && verified.leafExp <= ts[i].payload.caveats.expires
            && (0 < i ==> ts[i - 1].payload.caveats.redelegateTo.Allows(ts[i].payload.audience)
                          && ts[i].payload.issuer == ts[i - 1].payload.audience)
            && Last(ts).payload.audience == opts.audience
  {
    var ts := Tokens(lib, raw);
    NeverWidens(lib, res, opts, raw, i, |raw| - 1);
    if Permits(Last(ts).payload.caveats, q) {
      AtMostPermitsLess(Last(ts).payload.caveats, ts[i].payload.caveats, q);
    }
    SameRoot(lib, res, opts, raw, i);
    if 0 < i {
      assert Linked(lib, raw[i - 1], ts[i - 1], ts[i]);
    }
  }

  /** The right to pass on is only ever spent: whoever a later token may be passed to, every earlier
      one could have been; none is re-delegable, or deeper, beyond one above it. */
  lemma PassingOnNeverWidens(lib: Library, res: Resolver, opts: VerifyOpts, raw: seq<Bytes>, i: nat, j: nat,
                             did: string)
    requires ChainValid(lib, res, opts, raw) && i <= j < |raw|
    ensures var above, below := Tokens(lib, raw)[i].payload.caveats, Tokens(lib, raw)[j].payload.caveats;
            && (below.redelegateTo.Anyone? || did in below.redelegateTo.dids ==>
                  above.redelegateTo.Anyone? || did in above.redelegateTo.dids)
            && (below.redelegateTo.Anyone? ==> above.redelegateTo.Anyone?)
            && (below.redelegable ==> above.redelegable)
            && below.maxDepth <= above.maxDepth
  {
    NeverWidens(lib, res, opts, raw, i, j);
  }

  /** The account and the escrow order are the same all the way up. */
  lemma BindingIsShared(lib: Library, res: Resolver, opts: VerifyOpts, raw: seq<Bytes>, i: nat)
    requires ChainValid(lib, res, opts, raw) && i < |raw|
    ensures Summary(lib, raw).principal == Tokens(lib, raw)[i].payload.caveats.principal
    ensures Summary(lib, raw).effective.settlement == Tokens(lib, raw)[i].payload.caveats.settlement
  {
    NeverWidens(lib, res, opts, raw, i, |raw| - 1);
  }

  lemma {:induction false} SameRoot(lib: Library, res: Resolver, opts: VerifyOpts, raw: seq<Bytes>, i: nat)
    requires ChainValid(lib, res, opts, raw) && i < |raw|
    ensures Last(Tokens(lib, raw)).payload.root == Tokens(lib, raw)[i].payload.root
    ensures Last(Tokens(lib, raw)).payload.rootEpoch == Tokens(lib, raw)[i].payload.rootEpoch
    decreases |raw| - i
  {
    if i < |raw| - 1 {
      SameRoot(lib, res, opts, raw, i + 1);
      assert Linked(lib, raw[i], Tokens(lib, raw)[i], Tokens(lib, raw)[i + 1]);
    }
  }

  // -- time ------------------------------------------------------------------------

  function AsOf(opts: VerifyOpts, now: int64): VerifyOpts {
    opts.(now := now)
  }

  /** Once accepted, a chain stays acceptable under the same ceilings and keys exactly until its
      leaf expires: no earlier token can expire first, whatever the chain's length. */
  lemma StaysAcceptedUntilLeafExpires(lib: Library, res: Resolver, opts: VerifyOpts, raw: seq<Bytes>, later: int64)
    requires AcceptsRaw(lib, res, opts, raw) && opts.now <= later
    ensures AcceptsRaw(lib, res, AsOf(opts, later), raw) <==> later < Summary(lib, raw).leafExp
  {
    var ts := Tokens(lib, raw);
    if later < Summary(lib, raw).leafExp {
      forall i | 0 <= i < |ts| ensures TokenValid(lib, res, AsOf(opts, later), i + 1, ts[i]) {
        assert TokenValid(lib, res, opts, i + 1, ts[i]);
        NeverWidens(lib, res, opts, raw, i, |raw| - 1);
      }
      assert AllValid(lib, res, AsOf(opts, later), ts);
    } else {
      assert !TokenValid(lib, res, AsOf(opts, later), |ts| - 1 + 1, ts[|ts| - 1]);
    }
  }

  /** An accepted chain is for this chain and within every depth; it is alive, and has at most the
      ceiling's lifetime left. */
  lemma AcceptedChainIsTimely(lib: Library, res: Resolver, opts: VerifyOpts, raw: seq<Bytes>, i: nat)
    requires ChainValid(lib, res, opts, raw) && i < |raw|
    ensures var p := Tokens(lib, raw)[i].payload;
            p.chainID == opts.chainID && p.depth == i + 1 && |raw| <= Min(p.caveats.maxDepth, opts.maxDepth)
    ensures opts.now < Summary(lib, raw).leafExp
    ensures opts.maxTTLSeconds > 0 ==> Summary(lib, raw).leafExp <= opts.now + opts.maxTTLSeconds
  {
    var ts := Tokens(lib, raw);
    assert TokenValid(lib, res, opts, i + 1, ts[i]);
    assert TokenValid(lib, res, opts, |raw| - 1 + 1, ts[|raw| - 1]);
    NeverWidens(lib, res, opts, raw, i, |raw| - 1);
  }

  // -- the effective grant is the meet of the whole chain --------------------------

  function MeetAll(ts: seq<Token>): Caveats
    requires ts != []
  {
    if |ts| == 1 then ts[0].payload.caveats
    else Meet(MeetAll(ts[..|ts| - 1]), Last(ts).payload.caveats)
  }

  lemma {:induction false} MeetAllBelow(ts: seq<Token>)
    requires ts != []
    requires forall i | 0 < i < |ts| :: AtMost(ts[i].payload.caveats, ts[i - 1].payload.caveats)
    ensures SameGrant(MeetAll(ts), Last(ts).payload.caveats)
  {
    if |ts| > 1 {
      var front := ts[..|ts| - 1];
      MeetAllBelow(front);
      var leaf, above := Last(ts).payload.caveats, MeetAll(front);
      assert AtMost(leaf, ts[|ts| - 2].payload.caveats);
      AtMostTransitive(leaf, Last(front).payload.caveats, above);
      MeetIsGreatestLowerBound(above, leaf, leaf);
      MeetIsGreatestLowerBound(above, leaf, Meet(above, leaf));
      AtMostReflexive(leaf);
      AtMostReflexive(Meet(above, leaf));
    }
  }

  /** Reading only the leaf loses nothing: it is the meet of every grant in the chain. */
  lemma EffectiveIsMeet(lib: Library, res: Resolver, opts: VerifyOpts, raw: seq<Bytes>)
    requires ChainValid(lib, res, opts, raw)
    ensures SameGrant(MeetAll(Tokens(lib, raw)), Summary(lib, raw).effective)
  {
    var ts := Tokens(lib, raw);
    forall i | 0 < i < |ts| ensures AtMost(ts[i].payload.caveats, ts[i - 1].payload.caveats) {
      assert Linked(lib, raw[i - 1], ts[i - 1], ts[i]);
    }
    MeetAllBelow(ts);
  }

  // -- a leaf fixes its whole ancestry -----------------------------------------------

  lemma {:induction false} AncestryAgrees(lib: Library, a: seq<Bytes>, b: seq<Bytes>,
                                          resA: Resolver, resB: Resolver, optsA: VerifyOpts, optsB: VerifyOpts, i: nat)
    requires CollisionFree(lib)
    requires ChainValid(lib, resA, optsA, a) && ChainValid(lib, resB, optsB, b)
    requires |a| == |b| && Last(a) == Last(b) && i < |a|
    ensures a[i] == b[i]
    decreases |a| - i
  {
    if i < |a| - 1 {
      AncestryAgrees(lib, a, b, resA, resB, optsA, optsB, i + 1);
      assert Linked(lib, a[i], Tokens(lib, a)[i], Tokens(lib, a)[i + 1]);
      assert Linked(lib, b[i], Tokens(lib, b)[i], Tokens(lib, b)[i + 1]);
      assert lib.sha256(a[i]) == lib.sha256(b[i]);
    }
  }

  /** Two chains that any verifiers accept at any times, ending in the same token bytes, are the
      same chain: no ancestor can be swapped, added or dropped under a leaf. */
  lemma LeafFixesChain(lib: Library, a: seq<Bytes>, b: seq<Bytes>,
                       resA: Resolver, resB: Resolver, optsA: VerifyOpts, optsB: VerifyOpts)
    requires CollisionFree(lib)
    requires ChainValid(lib, resA, optsA, a) && ChainValid(lib, resB, optsB, b)
    requires Last(a) == Last(b)
    ensures a == b
  {
    assert TokenValid(lib, resA, optsA, |a| - 1 + 1, Tokens(lib, a)[|a| - 1]);
    assert TokenValid(lib, resB, optsB, |b| - 1 + 1, Tokens(lib, b)[|b| - 1]);
    assert |a| == |b|;
    forall i | 0 <= i < |a| ensures a[i] == b[i] {
      AncestryAgrees(lib, a, b, resA, resB, optsA, optsB, i);
    }
  }

  // -- extending a chain by one token --------------------------------------------------

  function Addressed(opts: VerifyOpts, audience: string): VerifyOpts {
    opts.(audience := audience)
  }

  lemma ValidSnoc(lib: Library, res: Resolver, opts: VerifyOpts, ts: seq<Token>, child: Token, audience: string)
    ensures AllValid(lib, res, opts, ts + [child]) <==>
            AllValid(lib, res, Addressed(opts, audience), ts) && TokenValid(lib, res, opts, |ts| + 1, child)
  {
    var us := ts + [child];
    var here := Addressed(opts, audience);
    forall i | 0 <= i < |ts|
      ensures TokenValid(lib, res, here, i + 1, ts[i]) == TokenValid(lib, res, opts, i + 1, us[i])
    {}
    if AllValid(lib, res, opts, us) {
      forall i | 0 <= i < |ts| ensures TokenValid(lib, res, here, i + 1, ts[i]) {
        assert TokenValid(lib, res, opts, i + 1, us[i]);
      }
      assert TokenValid(lib, res, opts, |ts| + 1, us[|ts|]);
    }
  }

  lemma LinkedSnoc(lib: Library, raw: seq<Bytes>, ts: seq<Token>, x: Bytes, child: Token)
    requires |raw| == |ts| > 0
    ensures AllLinked(lib, raw + [x], ts + [child]) <==>
            AllLinked(lib, raw, ts) && Linked(lib, Last(raw), Last(ts), child)
  {
    var longer, us := raw + [x], ts + [child];
    if AllLinked(lib, longer, us) {
      forall i | 0 < i < |ts| ensures Linked(lib, raw[i - 1], ts[i - 1], ts[i]) {
        assert Linked(lib, longer[i - 1], us[i - 1], us[i]);
      }
      assert Linked(lib, longer[|ts| - 1], us[|ts| - 1], us[|ts|]);
    }
  }

  lemma TargetsSnoc(ts: seq<Token>, child: Token)
    requires ts != []
    ensures TargetsAllowed(ts + [child]) <==>
            TargetsAllowed(ts) && Last(ts).payload.caveats.redelegateTo.Allows(child.payload.audience)
  {
    var us := ts + [child];
    if TargetsAllowed(us) {
      forall i | 0 < i < |ts| ensures ts[i - 1].payload.caveats.redelegateTo.Allows(ts[i].payload.audience) {
        assert us[i - 1].payload.caveats.redelegateTo.Allows(us[i].payload.audience);
      }
      assert us[|ts| - 1].payload.caveats.redelegateTo.Allows(us[|ts|].payload.audience);
    }
  }

  /** Exactly when one more token keeps a chain acceptable: the chain without it is acceptable to
      its own addressee, there is depth left, and the token is valid, linked and allowed. */
  lemma AcceptsExtension(lib: Library, res: Resolver, opts: VerifyOpts, raw: seq<Bytes>, x: Bytes)
    requires raw != [] && Parses(lib, raw) && lib.unmarshal(x).Some?
    ensures AcceptsRaw(lib, res, opts, raw + [x]) <==>
            var parent := Last(Tokens(lib, raw));
            var child := lib.unmarshal(x).value;
            && AcceptsRaw(lib, res, Addressed(opts, parent.payload.audience), raw)
            && |raw| + 1 <= opts.maxDepth
            && TokenValid(lib, res, opts, |raw| + 1, child)
            && Linked(lib, Last(raw), parent, child)
            && parent.payload.caveats.redelegateTo.Allows(child.payload.audience)
            && child.payload.audience == opts.audience
  {
    var ts := Tokens(lib, raw);
    var child := lib.unmarshal(x).value;
    assert Parses(lib, raw + [x]);
    assert Tokens(lib, raw + [x]) == ts + [child];
    ValidSnoc(lib, res, opts, ts, child, Last(ts).payload.audience);
    LinkedSnoc(lib, raw, ts, x, child);
    TargetsSnoc(ts, child);
  }

  /** What a parent's holder mints is accepted under its parent by exactly one agent, the one it
      is addressed to, exactly while the parent's chain is acceptable to the holder, there is
      depth left and the child has not expired. The holder signs with a key of its own, and
      the caveats are within the parent's, with its start. */
  lemma MintedAcceptedExactly(lib: Library, res: Resolver, opts: VerifyOpts, raw: seq<Bytes>, sign: Signer,
                              audience: string, caveats: Caveats, nonce: Bytes)
    requires RoundTrips(lib) && raw != [] && Parses(lib, raw)
    requires var parent := Last(Tokens(lib, raw)).payload;
             && SignsFor(lib, res, sign, parent.audience)
             && parent.caveats.redelegable && parent.caveats.notBefore == caveats.notBefore
             && Attenuate(lib, sign, Last(raw), parent.audience, audience, caveats, nonce).Some?
    ensures var parent := Last(Tokens(lib, raw)).payload;
            var minted := Attenuate(lib, sign, Last(raw), parent.audience, audience, caveats, nonce).value;
            AcceptsRaw(lib, res, opts, raw + [minted.1]) <==>
            && opts.audience == audience
            && AcceptsRaw(lib, res, Addressed(opts, parent.audience), raw)
            && |raw| + 1 <= opts.maxDepth && |raw| + 1 <= caveats.maxDepth
            && opts.now < caveats.expires
  {
    var ts := Tokens(lib, raw);
    var parent := Last(ts).payload;
    var (child, encoded) := Attenuate(lib, sign, Last(raw), parent.audience, audience, caveats, nonce).value;
    AcceptsExtension(lib, res, opts, raw, encoded);
    var keys := res(parent.audience).value;
    var k :| k in keys && forall p :: lib.sigValid(k, p, sign(p));
    assert lib.sigValid(k, child.payload, child.sig);
    assert Signed(lib, res, child);
    var here := Addressed(opts, parent.audience);
    if AcceptsRaw(lib, res, here, raw) {
      assert TokenValid(lib, res, here, |raw| - 1 + 1, ts[|raw| - 1]);
    }
  }

  // -- the end of the line ----------------------------------------------------------------

  /** A token whose target set is constrained to nothing ends every accepted chain it is in. */
  lemma NothingFollowsAClosedToken(lib: Library, res: Resolver, opts: VerifyOpts, raw: seq<Bytes>, i: nat)
    requires AcceptsRaw(lib, res, opts, raw) && i < |raw|
    requires Tokens(lib, raw)[i].payload.caveats.redelegateTo == Only({})
    ensures i == |raw| - 1
  {
    var ts := Tokens(lib, raw);
    assert i + 1 < |ts| ==> ts[i + 1 - 1].payload.caveats.redelegateTo.Allows(ts[i + 1].payload.audience);
  }

  // -- what VerifyChain alone lets through -------------------------------------------------

  /** The library rules alone accept a hand-built child addressed outside its parent's targets;
      the service does not. The two-token chain, and a clock, under which this happens: */
  lemma LibraryAloneMissesTargets() returns (lib: Library, res: Resolver, opts: VerifyOpts, raw: seq<Bytes>)
    ensures VerifyChain(lib, res, opts, raw).Some?
    ensures !AcceptsRaw(lib, res, opts, raw)
  {
    var parentCaveats := Caveats("user", {"query.account"}, {0}, [], [], "", true, Only({"someone else"}), 2, 0, 900);
    var parent := Token(Payload("chain", [], 1, "user", "middle", [], 1, parentCaveats, []), []);
    var child := Token(Payload("chain", [], 1, "middle", "agent", [1], 2,
                               parentCaveats.(redelegable := false, redelegateTo := Only({})), []), []);
    lib := Library(
      b => if b == [1] then Some(parent) else Some(child), _ => [], b => b, (k, p, s) => true,
      _ => [], xs => None, (d, n) => None, true);
    res := id => Some([[7]]);
    opts := VerifyOpts("chain", 100, 4, 900, "agent");
    raw := [[1], [2]];
    var ts := Tokens(lib, raw);
    assert ts == [parent, child];
    var keys := res("user").value;
    assert keys[0] in keys;
    assert Signed(lib, res, parent) && Signed(lib, res, child);
    assert !ts[0].payload.caveats.redelegateTo.Allows(ts[1].payload.audience);
    assert !TargetsAllowed(ts);
  }
}
