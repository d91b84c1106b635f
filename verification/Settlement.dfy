/** delegated.Service.ExecuteRecordSpend: an agent's spend against the escrow order its
    credential names. */
module Settlement {
  import opened Prelude
  import opened Caveats
  import opened Svpdt
  import opened Verification
  import opened CoinText
  import Chains

  const ACTION_RECORD_SPEND := "settlement.record_spend"

  datatype SdkCoin = SdkCoin(denom: string, amount: int)

  datatype MsgRecordSpend = MsgRecordSpend(
    principal: string, settlementId: Bytes, agentId: string, amount: SdkCoin)

  /** The chain module's own functions, which are not part of this model. */
  datatype SettlementModule = SettlementModule(
    parseId: string -> Option<Bytes>,
    parseInt: string -> Option<int>,
    validateBasic: MsgRecordSpend -> bool)

  datatype RecordError =
    | BadProof(error: ProofError)
    | NotGranted
    | Unbound
    | OtherOrder
    | BadId
    | BadAmount
    | Invalid
    | NotExecuted

  function ToSDK(m: SettlementModule, c: WireCoin): Option<SdkCoin> {
    match m.parseInt(c.amount)
    case None => None
    case Some(n) => if c.denom == "" then None else Some(SdkCoin(c.denom, n))
  }

  /** What one call asks for; the order id is optional. */
  datatype RecordParams = RecordParams(settlementID: string, amount: WireCoin)

  /** The message a verified credential may record with these parameters. */
  ghost predicate MayRecord(m: SettlementModule, agentID: string, verified: Verified, p: RecordParams,
                            msg: MsgRecordSpend) {
    var bound := verified.effective.settlement;
    && "settlement.record_spend" in verified.effective.actions && 0 in verified.effective.subaccounts
    && bound != ""
    && (p.settlementID == "" || p.settlementID == bound)
    && m.parseId(bound) == Some(msg.settlementId)
    && p.amount.denom != "" && msg.amount.denom == p.amount.denom
    && m.parseInt(p.amount.amount) == Some(msg.amount.amount)
    && msg.principal == verified.principal
    && msg.agentId == agentID
    && m.validateBasic(msg)
  }

  function Message(m: SettlementModule, agentID: string, verified: Verified, p: RecordParams)
    : Result<MsgRecordSpend, RecordError>
  {
    var bound := verified.effective.settlement;
    if !Preflight(verified, ACTION_RECORD_SPEND, 0) then Failure(NotGranted)
    else if bound == "" then Failure(Unbound)
    else if p.settlementID !in {"", bound} then Failure(OtherOrder)
    else
      match (m.parseId(bound), ToSDK(m, p.amount))
      case (None, _) => Failure(BadId)
      case (_, None) => Failure(BadAmount)
      case (Some(id), Some(amount)) =>
        var msg := MsgRecordSpend(verified.principal, id, agentID, amount);
        if m.validateBasic(msg) then Success(msg) else Failure(Invalid)
  }

  /** The outcome of a whole call; executed says that execute returned no error. */
  function Recorded(m: SettlementModule, v: Verifier, params: Option<Params>, now: int64,
                    proof: seq<string>, p: RecordParams, executed: bool): Result<MsgRecordSpend, RecordError>
  {
    match Verdict(v, params, now, proof)
    case Failure(e) => Failure(BadProof(e))
    case Success(accepted) =>
      match Message(m, v.agentID, accepted.verified, p)
      case Failure(e) => Failure(e)
      case Success(msg) => if executed then Success(msg) else Failure(NotExecuted)
  }

  method ExecuteRecordSpend(m: SettlementModule, v: Verifier, params: Option<Params>, now: int64,
                            proof: seq<string>, p: RecordParams, executed: bool)
    returns (r: Result<MsgRecordSpend, RecordError>)
    ensures r == Recorded(m, v, params, now, proof, p, executed)
    ensures r.Success? ==>
              && executed && params.Some? && Accepts(v, params.value, now, proof)
              && MayRecord(m, v.agentID, Summary(v.lib, DecodeAll(proof)), p, r.value)
  {
    VerdictMeans(v, params, now, proof);
    var checked := VerifyProof(v, params, now, proof);
    if checked.Failure? {
      return Failure(BadProof(checked.error));
    }
    var verified := checked.value.verified;
    if !Preflight(verified, ACTION_RECORD_SPEND, 0) {
      return Failure(NotGranted);
    }
    var bound := verified.effective.settlement;
    if bound == "" {
      return Failure(Unbound);
    }
    var idHex := p.settlementID;
    if idHex == "" {
      idHex := bound;
    }
    if idHex != bound {
      return Failure(OtherOrder);
    }
    var id := m.parseId(idHex);
    if id.None? {
      return Failure(BadId);
    }
    var amount := ToSDK(m, p.amount);
    if amount.None? {
      return Failure(BadAmount);
    }
    var inner := MsgRecordSpend(verified.principal, id.value, v.agentID, amount.value);
    if !m.validateBasic(inner) {
      return Failure(Invalid);
    }
    if !executed {
      return Failure(NotExecuted);
    }
    return Success(inner);
  }

  lemma MessageMeans(m: SettlementModule, agentID: string, verified: Verified, p: RecordParams, msg: MsgRecordSpend)
    ensures Message(m, agentID, verified, p) == Success(msg) <==> MayRecord(m, agentID, verified, p, msg)
  {}

  /** Which reason is given when nothing goes out: the first that applies. */
  lemma FirstReasonNotToRecord(m: SettlementModule, agentID: string, verified: Verified, p: RecordParams)
    ensures var granted := "settlement.record_spend" in verified.effective.actions
                           && 0 in verified.effective.subaccounts;
            var bound := verified.effective.settlement;
            var r := Message(m, agentID, verified, p);
            && (r == Failure(NotGranted) <==> !granted)
            && (r == Failure(Unbound) <==> granted && bound == "")
            && (r == Failure(OtherOrder) <==> granted && bound != "" && p.settlementID != "" && p.settlementID != bound)
            && (r == Failure(BadId) ==> m.parseId(bound).None?)
            && (r == Failure(BadAmount) ==> p.amount.denom == "" || m.parseInt(p.amount.amount).None?)
  {}

  /** A spend goes out exactly for an accepted credential that grants it. */
  lemma RecordsExactlyWhen(m: SettlementModule, v: Verifier, params: Params, now: int64,
                           proof: seq<string>, p: RecordParams, msg: MsgRecordSpend)
    ensures Recorded(m, v, Some(params), now, proof, p, true) == Success(msg) <==>
            && Accepts(v, params, now, proof)
            && MayRecord(m, v.agentID, Summary(v.lib, DecodeAll(proof)), p, msg)
  {
    VerdictMeans(v, Some(params), now, proof);
    var verdict := Verdict(v, Some(params), now, proof);
    if verdict.Success? {
      MessageMeans(m, v.agentID, verdict.value.verified, p, msg);
    }
  }

  /** Every token of the credential's chain, back to the user's own, names the order and the
      account a recorded spend is charged to. */
  lemma RecordsOnlyTheBoundOrder(m: SettlementModule, v: Verifier, params: Params, now: int64,
                                 proof: seq<string>, p: RecordParams, msg: MsgRecordSpend, i: nat)
    requires Accepts(v, params, now, proof) && i < |proof|
    requires Recorded(m, v, Some(params), now, proof, p, true) == Success(msg)
    ensures m.parseId(Tokens(v.lib, DecodeAll(proof))[i].payload.caveats.settlement) == Some(msg.settlementId)
    ensures msg.principal == Tokens(v.lib, DecodeAll(proof))[i].payload.caveats.principal
    ensures msg.agentId == v.agentID
    ensures msg.amount.denom == p.amount.denom && m.parseInt(p.amount.amount) == Some(msg.amount.amount)
  {
    assert MayRecord(m, v.agentID, Summary(v.lib, DecodeAll(proof)), p, msg) by {
      RecordsExactlyWhen(m, v, params, now, proof, p, msg);
    }
    Chains.BindingIsShared(v.lib, v.resolver, Opts(v, params, now), DecodeAll(proof), i);
  }

  /** Every token of the chain, back to the user's own, grants recording a spend on subaccount 0;
      a credential that was given for anything else is never charged. */
  lemma RecordsOnlyWhatIsGranted(m: SettlementModule, v: Verifier, params: Params, now: int64,
                                 proof: seq<string>, p: RecordParams, msg: MsgRecordSpend, i: nat)
    requires Accepts(v, params, now, proof) && i < |proof|
    requires Recorded(m, v, Some(params), now, proof, p, true) == Success(msg)
    ensures var c := Tokens(v.lib, DecodeAll(proof))[i].payload.caveats;
            "settlement.record_spend" in c.actions && 0 in c.subaccounts
  {
    assert MayRecord(m, v.agentID, Summary(v.lib, DecodeAll(proof)), p, msg) by {
      RecordsExactlyWhen(m, v, params, now, proof, p, msg);
    }
    Chains.NeverWidens(v.lib, v.resolver, Opts(v, params, now), DecodeAll(proof), i, |proof| - 1);
  }
}
