/** Inputs on which the code does less, or other, than its comments say; and one on which a run
    charges and sends, so that what is proved of sending runs is about something. */
module Instances {
  import opened Prelude
  import opened Text
  import opened Caveats
  import opened Svpdt
  import opened Verification
  import opened CoinText
  import opened Narrowing
  import opened Settlement
  import opened Intermediary
  import opened Forwards
  import Base64
  import Decimal

  const USDC_1 := WireCoin("usdc", "1")

  /** The user's own credential for the agent, bound to the order "ab". */
  function Grant(targets: Targets): Payload {
    Payload("chain", [], 1, "user", "agent", [], 1,
            Caveats("user", {ACTION_RECORD_SPEND}, {0}, [], [], "ab", true, targets, 4, 0, 900), [])
  }

  /** One key speaks for every id, and the recorder takes what it is given. */
  function Wiring(lib: Library, key: Bytes, sign: Signer): Config {
    Config("agent", sign, Verifier(lib, id => Some([key]), "chain", "agent"),
           Some(SettlementModule(text => Some([]), text => Some(1), msg => true)))
  }

  /** Pass the credential on to a downstream, for a fee, naming nothing narrower. */
  function Hop(lib: Library, sign: Signer, targets: Targets, downstream: string): ForwardInput {
    var encoded := lib.marshal(Token(Grant(targets), sign(Grant(targets))));
    ForwardInput([Base64.Encode(encoded)], downstream, "https", [1], NarrowSpec([], [], None, None, 0), Some(USDC_1))
  }

  function Moment(nonce: Option<Bytes>): World {
    World(Some(Params(4, 0)), 100, Some(Params(4, 0)), 100, true, 100, nonce, Some(Reply("t", "done", "ok")))
  }

  lemma HopIsAccepted(lib: Library, key: Bytes, sign: Signer, targets: Targets, downstream: string)
    requires RoundTrips(lib) && forall p :: lib.sigValid(key, p, sign(p))
    ensures var input := Hop(lib, sign, targets, downstream);
            && Accepts(Wiring(lib, key, sign).verifier, Params(4, 0), 100, input.proof)
            && Tokens(lib, DecodeAll(input.proof)) == [Token(Grant(targets), sign(Grant(targets)))]
  {
    var token := Token(Grant(targets), sign(Grant(targets)));
    var v := Wiring(lib, key, sign).verifier;
    var proof := Hop(lib, sign, targets, downstream).proof;
    Base64.RoundTrip(lib.marshal(token));
    assert AllBase64(proof);
    var raw := DecodeAll(proof);
    assert raw == [lib.marshal(token)];
    assert Tokens(lib, raw) == [token];
    var keys := v.resolver("user").value;
    assert keys[0] == key && key in keys;
    assert Signed(lib, v.resolver, token);
  }

  /** Such a hop is charged for whenever the name as spelled is a target; it is sent exactly when
      there is a nonce and the trimmed name is one too. */
  lemma HopCharges(lib: Library, key: Bytes, sign: Signer, targets: Targets, downstream: string, nonce: Option<Bytes>)
    requires RoundTrips(lib) && BuildsWhatItIsGiven(lib) && forall p :: lib.sigValid(key, p, sign(p))
    requires TrimSpace(downstream) != "" && targets.Allows(downstream)
    ensures var run := Forwarding(Wiring(lib, key, sign), Hop(lib, sign, targets, downstream), Moment(nonce));
            && run.effects != [] && run.effects[0].Record? && run.effects[0].outcome.Success?
            && (Sent(run) <==> nonce.Some? && targets.Allows(TrimSpace(downstream)))
            && (if Sent(run) then run.result.Success? else |run.effects| == 1 && run.result.Failure?)
  {
    var cfg, input, w := Wiring(lib, key, sign), Hop(lib, sign, targets, downstream), Moment(nonce);
    HopIsAccepted(lib, key, sign, targets, downstream);
    TrimSpaceFixedPoint("https");
    assert MayCharge(cfg, input, w);
    HopIsRecorded(lib, key, sign, targets, downstream, nonce);
    SendsExactlyWhen(cfg, input, w);
    FeeKeptWithoutSending(cfg, input, w);
    EffectOrder(cfg, input, w);
    if Sent(Forwarding(cfg, input, w)) {
      AnsweredWhenSent(cfg, input, w);
    }
  }

  lemma AnsweredWhenSent(cfg: Config, input: ForwardInput, w: World)
    requires w.reply.Some? && Sent(Forwarding(cfg, input, w))
    ensures Forwarding(cfg, input, w).result.Success?
  {
    ReachesCharging(cfg, input, w);
  }

  lemma HopIsRecorded(lib: Library, key: Bytes, sign: Signer, targets: Targets, downstream: string,
                      nonce: Option<Bytes>)
    requires RoundTrips(lib) && forall p :: lib.sigValid(key, p, sign(p))
    ensures FeePaid(Wiring(lib, key, sign), Hop(lib, sign, targets, downstream), Moment(nonce))
  {
    var cfg, input := Wiring(lib, key, sign), Hop(lib, sign, targets, downstream);
    HopIsAccepted(lib, key, sign, targets, downstream);
    var msg := MsgRecordSpend("user", [], "agent", SdkCoin("usdc", 1));
    RecordsExactlyWhen(cfg.recorder.value, cfg.verifier, Params(4, 0), 100, input.proof, RecordParams("", USDC_1), msg);
  }

  /** Over every library that loses nothing: a run that charges and sends, under every hypothesis
      the results about sent chains make. Without a nonce, the same run keeps the fee and sends
      nothing. */
  lemma ChargesThenSendsOrKeepsTheFee(lib: Library, key: Bytes, sign: Signer) returns (cfg: Config, input: ForwardInput)
    requires RoundTrips(lib) && BuildsWhatItIsGiven(lib) && forall p :: lib.sigValid(key, p, sign(p))
    ensures cfg.verifier.lib == lib && WiredAsOne(cfg)
    ensures Sent(Forwarding(cfg, input, Moment(Some([7])))) && Forwarding(cfg, input, Moment(Some([7]))).result.Success?
    ensures var kept := Forwarding(cfg, input, Moment(None));
            kept.result.Failure? && |kept.effects| == 1 && kept.effects[0].Record? && kept.effects[0].outcome.Success?
  {
    cfg, input := Wiring(lib, key, sign), Hop(lib, sign, Only({"down"}), "down");
    TrimSpaceFixedPoint("down");
    HopCharges(lib, key, sign, Only({"down"}), "down", Some([7]));
    HopCharges(lib, key, sign, Only({"down"}), "down", None);
    WiredToOneKey(lib, key, sign);
  }

  lemma WiredToOneKey(lib: Library, key: Bytes, sign: Signer)
    requires forall p :: lib.sigValid(key, p, sign(p))
    ensures WiredAsOne(Wiring(lib, key, sign))
  {
    var keys := Wiring(lib, key, sign).verifier.resolver("agent").value;
    assert keys[0] == key && key in keys;
  }

  /** A target listed and spelled with a blank at its end is charged for and never sent to,
      whatever the nonce. */
  lemma BlankEndedTargetIsChargedOnly(lib: Library, key: Bytes, sign: Signer, nonce: Option<Bytes>)
    requires RoundTrips(lib) && BuildsWhatItIsGiven(lib) && forall p :: lib.sigValid(key, p, sign(p))
    ensures var run := Forwarding(Wiring(lib, key, sign), Hop(lib, sign, Only({"down "}), "down "), Moment(nonce));
            run.result.Failure? && |run.effects| == 1 && run.effects[0].Record? && run.effects[0].outcome.Success?
  {
    assert "down "[..4] == "down" && TrimSpace("down ") == "down";
    HopCharges(lib, key, sign, Only({"down "}), "down ", nonce);
  }

  /** The longest lifetime there is, asked for one second after the epoch, wraps around: the child
      has already expired when it is minted, though its parent is alive. */
  lemma LongestLifetimeIsNone(lib: Library, parent: Caveats)
    requires parent.expires == 100
    ensures var child := Narrowed(lib, parent, NarrowSpec([], [], None, None, TWO_63 - 1), 1);
            child.Success? && child.value.expires == -TWO_63
  {
    assert 1 + (TWO_63 - 1) == TWO_63;
  }

  /** Five of a denomination that ends in a blank print to text that reads back as none of it. */
  lemma BlankEndedCoinIsLost(lib: Library)
    requires BuildsWhatItIsGiven(lib) && lib.newCoins("usdc", 5).Some?
    ensures ToDTCoins(lib, View(Coin("usdc ", 5))).Some?
    ensures Amount([Coin("usdc ", 5)], "usdc ") == 5
            && Amount(ToDTCoins(lib, View(Coin("usdc ", 5))).value, "usdc ") == 0
  {
    assert "usdc "[..4] == "usdc" && TrimSpace("usdc ") == "usdc";
    PrintedIsTrimmed(5);
    TrimSpaceFixedPoint(Decimal.PrintInt(5));
    Decimal.RoundTrip(5);
  }
}
