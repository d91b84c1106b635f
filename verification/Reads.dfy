/** delegated.Service.AuthorizeRead: a delegated read, pinned to the credential's account. */
module Reads {
  import opened Prelude
  import opened Caveats
  import opened Svpdt
  import opened Verification
  import opened RootStates
  import opened ReadTenants
  import Chains

  const ACTION_QUERY_ACCOUNT := "query.account"
  const SUBACCOUNT_FIELD := "subaccount_number"

  datatype ReadSpec = ReadSpec(ownerField: string, hasSubaccount: bool)

  const READ_SPECS: map<string, ReadSpec> := map[
    "get_subaccount" := ReadSpec("address", true),
    "get_live_subaccount" := ReadSpec("owner", true),
    "get_balance" := ReadSpec("owner", false),
    "get_orders" := ReadSpec("address", true),
    "get_fills" := ReadSpec("address", true),
    "get_transfers" := ReadSpec("address", true),
    "get_pnl" := ReadSpec("address", true),
    "get_historical_pnl" := ReadSpec("address", true),
    "get_funding_payments" := ReadSpec("address", true)]

  /** A tool's arguments by exact key; anything but a string or an integer is kept as it came. */
  datatype Json = Null | Text(s: string) | Number(n: int) | Other(raw: string)
  type Fields = map<string, Json>
  datatype RawArgs = NoArgs | Object(fields: Fields) | NullLiteral | NotAnObject

  /** NilMapWrite: decoding the literal null leaves a nil map, and writing the owner to it is a
      run-time panic, not an error return. */
  datatype PinError = BadArgs | NilMapWrite | BadOwner | OtherOwner | BadSubaccount | SubaccountNotGranted

  /** The owner the caller names; absent, null and empty all mean none. */
  function NamedOwner(m: Fields, ownerField: string): Option<string> {
    if ownerField !in m || m[ownerField].Null? then Some("")
    else if m[ownerField].Text? then Some(m[ownerField].s) else None
  }

  /** The subaccount asked about; absent and null mean zero. */
  function AskedSubaccount(m: Fields): Option<uint32> {
    if SUBACCOUNT_FIELD !in m || m[SUBACCOUNT_FIELD].Null? then Some(0)
    else if m[SUBACCOUNT_FIELD].Number? && 0 <= m[SUBACCOUNT_FIELD].n < 0x1_0000_0000
    then Some(m[SUBACCOUNT_FIELD].n) else None
  }

  function FieldsOf(args: RawArgs): Fields
    requires args.NoArgs? || args.Object?
  {
    if args.NoArgs? then map[] else args.fields
  }

  /** Which arguments a credential may carry to a tool. */
  predicate MayPin(args: RawArgs, spec: ReadSpec, principal: string, granted: set<uint32>) {
    && (args.NoArgs? || args.Object?)
    && NamedOwner(FieldsOf(args), spec.ownerField) in {Some(""), Some(principal)}
    && (spec.hasSubaccount ==>
          && AskedSubaccount(FieldsOf(args)).Some?
          && AskedSubaccount(FieldsOf(args)).value in granted)
  }

  method PinArgsToPrincipal(args: RawArgs, spec: ReadSpec, verified: Verified) returns (r: Result<Fields, PinError>)
    requires spec.ownerField in {"address", "owner"}
    ensures r.Success? <==> MayPin(args, spec, verified.principal, verified.effective.subaccounts)
    ensures r.Success? ==> r.value == FieldsOf(args)[spec.ownerField := Text(verified.principal)]
    ensures r == Failure(BadArgs) <==> args.NotAnObject?
    ensures r == Failure(NilMapWrite) <==> args.NullLiteral?
    ensures r == Failure(BadOwner) <==>
            (args.NoArgs? || args.Object?) && NamedOwner(FieldsOf(args), spec.ownerField).None?
    ensures r == Failure(OtherOwner) <==>
            && (args.NoArgs? || args.Object?)
            && NamedOwner(FieldsOf(args), spec.ownerField) !in {None, Some(""), Some(verified.principal)}
  {
    var m: Fields := map[];
    match args {
      case NoArgs =>
      case Object(fields) => m := fields;
      case NullLiteral => return Failure(NilMapWrite);
      case NotAnObject => return Failure(BadArgs);
    }
    var owner := "";
    if spec.ownerField in m && !m[spec.ownerField].Null? {
      if !m[spec.ownerField].Text? {
        return Failure(BadOwner);
      }
      owner := m[spec.ownerField].s;
    }
    if owner == "" {
      m := m[spec.ownerField := Text(verified.principal)];
    } else if owner != verified.principal {
      return Failure(OtherOwner);
    }
    if spec.hasSubaccount {
      var sub: uint32 := 0;
      if SUBACCOUNT_FIELD in m && !m[SUBACCOUNT_FIELD].Null? {
        var value := m[SUBACCOUNT_FIELD];
        if !value.Number? || value.n < 0 || value.n >= 0x1_0000_0000 {
          return Failure(BadSubaccount);
        }
        sub := value.n;
      }
      if sub !in verified.effective.subaccounts {
        return Failure(SubaccountNotGranted);
      }
    }
    return Success(m);
  }

  /** The arguments a successful pin answers with. */
  function Pinned(args: RawArgs, spec: ReadSpec, principal: string): Fields
    requires args.NoArgs? || args.Object?
  {
    FieldsOf(args)[spec.ownerField := Text(principal)]
  }

  /** Pinned arguments name the credential's own account, keep every other field, pin again to
      themselves, and ask about no subaccount outside the grant. */
  lemma PinnedIsStable(args: RawArgs, spec: ReadSpec, principal: string, granted: set<uint32>)
    requires spec.ownerField in {"address", "owner"} && MayPin(args, spec, principal, granted)
    ensures var m := Pinned(args, spec, principal);
            && NamedOwner(m, spec.ownerField) == Some(principal)
            && (forall key :: key != spec.ownerField ==>
                  (key in m <==> key in FieldsOf(args)) && (key in m ==> m[key] == FieldsOf(args)[key]))
            && MayPin(Object(m), spec, principal, granted)
            && Pinned(Object(m), spec, principal) == m
            && (spec.hasSubaccount ==> AskedSubaccount(m).Some? && AskedSubaccount(m).value in granted)
  {}

  datatype ReadError =
    | UncoveredTool
    | BadCredential(error: ProofError)
    | ActionNotGranted
    | RootRefused(verdict: Verdict)
    | ArgsRefused(pinError: PinError)

  datatype Authorized = Authorized(verified: Verified, args: Fields)

  /** The chain's answers and the clock readings during one read. */
  datatype ReadWorld = ReadWorld(
    params: Option<Params>, verifyNow: int64, lookAt: int, reply: Option<RootState>, stampAt: int)

  /** Every condition a delegated read has to meet. */
  ghost predicate MayRead(v: Verifier, cache: Cache, tool: string, proof: seq<string>, args: RawArgs, w: ReadWorld) {
    && tool in READ_SPECS
    && w.params.Some? && Accepts(v, w.params.value, w.verifyNow, proof)
    && var verified := Summary(v.lib, DecodeAll(proof));
       && ACTION_QUERY_ACCOUNT in verified.effective.actions
       && CheckVerdict(cache, verified.root, verified.rootEpoch, w.lookAt, w.reply, w.stampAt) == Passed
       && MayPin(args, READ_SPECS[tool], verified.principal, verified.effective.subaccounts)
  }

  class ReadService {
    const verifier: Verifier
    const roots: EpochCache

    constructor (verifier: Verifier, roots: EpochCache)
      ensures this.verifier == verifier && this.roots == roots
    {
      this.verifier := verifier;
      this.roots := roots;
    }

    method AuthorizeRead(tool: string, proof: seq<string>, args: RawArgs, w: ReadWorld)
      returns (r: Result<Authorized, ReadError>)
      modifies roots
      ensures r.Success? <==> MayRead(verifier, old(roots.epochCache), tool, proof, args, w)
      ensures r.Success? ==>
                && r.value.verified == Summary(verifier.lib, DecodeAll(proof))
                && r.value.args == Pinned(args, READ_SPECS[tool], r.value.verified.principal)
      ensures tool !in READ_SPECS ==> r == Failure(UncoveredTool) && roots.epochCache == old(roots.epochCache)
    {
      if tool !in READ_SPECS {
        return Failure(UncoveredTool);
      }
      var spec := READ_SPECS[tool];
      VerdictMeans(verifier, w.params, w.verifyNow, proof);
      var checked := VerifyProof(verifier, w.params, w.verifyNow, proof);
      if checked.Failure? {
        return Failure(BadCredential(checked.error));
      }
      var verified := checked.value.verified;
      if ACTION_QUERY_ACCOUNT !in verified.effective.actions {
        return Failure(ActionNotGranted);
      }
      var verdict := roots.CheckRootState(verified.root, verified.rootEpoch, w.lookAt, w.reply, w.stampAt);
      if verdict != Passed {
        return Failure(RootRefused(verdict));
      }
      assert spec.ownerField in {"address", "owner"};
      var pinned := PinArgsToPrincipal(args, spec, verified);
      if pinned.Failure? {
        return Failure(ArgsRefused(pinned.error));
      }
      return Success(Authorized(verified, pinned.value));
    }
  }

  /** The argument in which a tool names whose data it reads. */
  function OwnerArgument(tool: string): string {
    if tool in {"get_live_subaccount", "get_balance"} then "owner" else "address"
  }

  /** The tool's owner argument is absent, null, empty or the account itself; the subaccount it
      reads, 0 when none is given, is one of these. */
  predicate AsksOnlyFor(tool: string, fields: Fields, principal: string, granted: set<uint32>) {
    && (OwnerArgument(tool) in fields ==> fields[OwnerArgument(tool)] in {Null, Text(""), Text(principal)})
    && (tool != "get_balance" ==>
          if "subaccount_number" !in fields || fields["subaccount_number"] == Null then 0 in granted
          else exists n: uint32 :: n in granted && fields["subaccount_number"] == Number(n))
  }

  /** The chain's answer about the root, or one less than ten seconds old, says live at this epoch. */
  predicate RootIsLive(cache: Cache, verified: Verified, w: ReadWorld) {
    if verified.root in cache && w.lookAt - cache[verified.root].fetched < 10
    then !cache[verified.root].paused && cache[verified.root].epoch == verified.rootEpoch
    else w.reply == Some(RootState(verified.rootEpoch, false))
  }

  /** A read is authorized exactly for one of nine tools, on an accepted credential that grants
      reading, under a live root, asking for the credential's own account and subaccounts. */
  lemma ReadsExactlyWhen(v: Verifier, cache: Cache, tool: string, proof: seq<string>, args: RawArgs, w: ReadWorld)
    ensures MayRead(v, cache, tool, proof, args, w) <==>
            && tool in {"get_subaccount", "get_live_subaccount", "get_balance", "get_orders", "get_fills",
                        "get_transfers", "get_pnl", "get_historical_pnl", "get_funding_payments"}
            && w.params.Some? && Accepts(v, w.params.value, w.verifyNow, proof)
            && var verified := Summary(v.lib, DecodeAll(proof));
               && "query.account" in verified.effective.actions
               && RootIsLive(cache, verified, w)
               && (args.NoArgs? || args.Object?)
               && AsksOnlyFor(tool, FieldsOf(args), verified.principal, verified.effective.subaccounts)
  {
    if tool in READ_SPECS && (args.NoArgs? || args.Object?)
       && w.params.Some? && Accepts(v, w.params.value, w.verifyNow, proof) {
      var verified := Summary(v.lib, DecodeAll(proof));
      PinsExactlyItsOwn(tool, args, verified.principal, verified.effective.subaccounts);
      PassesExactlyWhenLive(cache, verified, w);
    }
  }

  lemma PassesExactlyWhenLive(cache: Cache, verified: Verified, w: ReadWorld)
    ensures CheckVerdict(cache, verified.root, verified.rootEpoch, w.lookAt, w.reply, w.stampAt) == Passed
            <==> RootIsLive(cache, verified, w)
  {}

  lemma PinsExactlyItsOwn(tool: string, args: RawArgs, principal: string, granted: set<uint32>)
    requires tool in READ_SPECS && (args.NoArgs? || args.Object?)
    ensures READ_SPECS[tool] == ReadSpec(OwnerArgument(tool), tool != "get_balance")
    ensures MayPin(args, READ_SPECS[tool], principal, granted)
            <==> AsksOnlyFor(tool, FieldsOf(args), principal, granted)
  {}

  /** What an authorized read asks for, every token of the chain grants, back to the user's own;
      and the owner its arguments then name is the account they all are for. */
  lemma EveryTokenGrantsTheRead(v: Verifier, cache: Cache, tool: string, proof: seq<string>, args: RawArgs,
                                w: ReadWorld, i: nat)
    requires MayRead(v, cache, tool, proof, args, w) && i < |proof|
    ensures var c := Tokens(v.lib, DecodeAll(proof))[i].payload.caveats;
            && "query.account" in c.actions
            && AsksOnlyFor(tool, FieldsOf(args), c.principal, c.subaccounts)
            && Pinned(args, READ_SPECS[tool], Summary(v.lib, DecodeAll(proof)).principal)
               == FieldsOf(args)[OwnerArgument(tool) := Text(c.principal)]
  {
    ReadsExactlyWhen(v, cache, tool, proof, args, w);
    var raw := DecodeAll(proof);
    var verified := Summary(v.lib, raw);
    var c := Tokens(v.lib, raw)[i].payload.caveats;
    assert AtMost(verified.effective, c) && verified.principal == c.principal by {
      Chains.NeverWidens(v.lib, v.resolver, Opts(v, w.params.value, w.verifyNow), raw, i, |raw| - 1);
    }
    PinsExactlyItsOwn(tool, args, c.principal, c.subaccounts);
    AsksForMoreToo(tool, FieldsOf(args), c.principal, verified.effective.subaccounts, c.subaccounts);
  }

  lemma AsksForMoreToo(tool: string, fields: Fields, principal: string, granted: set<uint32>, more: set<uint32>)
    requires AsksOnlyFor(tool, fields, principal, granted) && granted <= more
    ensures AsksOnlyFor(tool, fields, principal, more)
  {}

  /** Until its leaf expires, an admitted credential's tenant is for the credential's account and
      for just the subaccounts it grants; every token of the chain grants each of them. */
  lemma TenantServesJustTheGrant(v: Verifier, params: Params, now: int64, proof: seq<string>,
                                 t: Table, admitAt: int64, ops: seq<Op>, later: int64, i: nat)
    requires Accepts(v, params, now, proof) && i < |proof|
    requires var verified := Summary(v.lib, DecodeAll(proof));
             && |verified.chainHash| == 32
             && var id := TenantID(verified.chainHash);
                && (Live(t, id, admitAt) || |Swept(t, admitAt)| < MAX_READ_TENANTS)
                && Monotone(ops, admitAt) && Untouched(ops, id)
                && later < verified.leafExp && (forall op | op in ops :: op.at <= later)
    ensures var verified := Summary(v.lib, DecodeAll(proof));
            var c := Tokens(v.lib, DecodeAll(proof))[i].payload.caveats;
            var id := TenantID(verified.chainHash);
            var found := LookedUp(TableAfter(Admitted(t, admitAt, id, TenantOf(verified)), ops), later, id);
            && found.Some? && found.value.tenantID == id
            && found.value.owner == verified.principal == c.principal
            && (forall n :: n in found.value.allowedSubaccounts <==> n in verified.effective.subaccounts)
            && (forall n :: n in found.value.allowedSubaccounts ==> n in c.subaccounts)
  {
    var verified := Summary(v.lib, DecodeAll(proof));
    var id := TenantID(verified.chainHash);
    TenantAnswersUntilExpiry(Admitted(t, admitAt, id, TenantOf(verified)), ops, id, admitAt, later);
    Chains.NeverWidens(v.lib, v.resolver, Opts(v, params, now), DecodeAll(proof), i, |proof| - 1);
  }

  /** The tenant admitted from an authorized read serves that read: until the leaf expires it
      answers with the owner the arguments name and allows the subaccount they ask about,
      whatever happens to other tenants meanwhile. */
  lemma ReadAgreesWithTenant(v: Verifier, cache: Cache, tool: string, proof: seq<string>, args: RawArgs, w: ReadWorld,
                             t: Table, admitAt: int64, ops: seq<Op>, later: int64)
    requires MayRead(v, cache, tool, proof, args, w)
    requires var verified := Summary(v.lib, DecodeAll(proof));
             && |verified.chainHash| == 32
             && var id := TenantID(verified.chainHash);
                && (Live(t, id, admitAt) || |Swept(t, admitAt)| < MAX_READ_TENANTS)
                && Monotone(ops, admitAt) && Untouched(ops, id)
                && later < verified.leafExp && (forall op | op in ops :: op.at <= later)
    ensures var verified := Summary(v.lib, DecodeAll(proof));
            var spec := READ_SPECS[tool];
            var pinned := Pinned(args, spec, verified.principal);
            var id := TenantID(verified.chainHash);
            var found := LookedUp(TableAfter(Admitted(t, admitAt, id, TenantOf(verified)), ops), later, id);
            && found.Some?
            && NamedOwner(pinned, spec.ownerField) == Some(found.value.owner)
            && (spec.hasSubaccount ==>
                  AskedSubaccount(pinned).Some? && AskedSubaccount(pinned).value in found.value.allowedSubaccounts)
  {
    var verified := Summary(v.lib, DecodeAll(proof));
    var id := TenantID(verified.chainHash);
    assert READ_SPECS[tool].ownerField in {"address", "owner"};
    PinnedIsStable(args, READ_SPECS[tool], verified.principal, verified.effective.subaccounts);
    TenantAnswersUntilExpiry(Admitted(t, admitAt, id, TenantOf(verified)), ops, id, admitAt, later);
  }

  /** The tenant lives exactly as long as its credential: from its admission on, which may come
      after the credential was verified, it answers at a given time if and only if the same proof
      would still be accepted then. */
  lemma TenantLivesAsLongAsCredential(v: Verifier, params: Params, now: int64, proof: seq<string>,
                                      t: Table, admitAt: int64, ops: seq<Op>, later: int64)
    requires Accepts(v, params, now, proof) && now <= admitAt <= later
    requires var verified := Summary(v.lib, DecodeAll(proof));
             && |verified.chainHash| == 32
             && var id := TenantID(verified.chainHash);
                && (Live(t, id, admitAt) || |Swept(t, admitAt)| < MAX_READ_TENANTS)
                && Monotone(ops, admitAt) && Untouched(ops, id)
    requires forall op | op in ops :: op.at <= later
    ensures var verified := Summary(v.lib, DecodeAll(proof));
            var id := TenantID(verified.chainHash);
            LookedUp(TableAfter(Admitted(t, admitAt, id, TenantOf(verified)), ops), later, id).Some?
            <==> Accepts(v, params, later, proof)
  {
    var verified := Summary(v.lib, DecodeAll(proof));
    var id := TenantID(verified.chainHash);
    TenantAnswersUntilExpiry(Admitted(t, admitAt, id, TenantOf(verified)), ops, id, admitAt, later);
    Chains.StaysAcceptedUntilLeafExpires(v.lib, v.resolver, Opts(v, params, now), DecodeAll(proof), later);
    assert Chains.AsOf(Opts(v, params, now), later) == Opts(v, params, later);
  }
}
