/** delegated.GRPCResolver: which keys may sign for an agent id. */
module Resolver {
  import opened Prelude
  import opened Caveats
  import opened Svpdt
  import opened Verification

  const DID_PREFIX := "did:svp:"
  const PUB_KEY_LEN := 33

  datatype KeyKind = Secp256k1 | EthSecp256k1 | OtherKind

  /** A published account key: its kind, its bytes and the address it hashes to. */
  datatype PubKey = PubKey(kind: KeyKind, key: Bytes, address: Bytes)

  /** The chain state the resolver asks: the agent registry, the account store and bech32. */
  datatype Directory = Directory(
    agentKey: string -> Option<Bytes>,
    fallback: bool,
    parseBech32: string -> Option<Bytes>,
    accountKey: string -> Option<Option<PubKey>>)

  /** authKeyClient.AccountPubKey: only a known kind of key that hashes to its own account. */
  function AccountPubKey(d: Directory, address: string): Option<Bytes> {
    match (d.parseBech32(address), d.accountKey(address))
    case (Some(addr), Some(Some(pub))) =>
      if pub.kind.OtherKind? || pub.address != addr then None else Some(pub.key)
    case _ => None
  }

  function CutPrefix(s: string, prefix: string): Option<string> {
    if prefix <= s then Some(s[|prefix|..]) else None
  }

  predicate Registered(d: Directory, agentID: string) {
    d.agentKey(agentID).Some? && d.agentKey(agentID).value != []
  }

  function PublicKeys(d: Directory, agentID: string): Option<seq<Bytes>> {
    if Registered(d, agentID) then Some([d.agentKey(agentID).value])
    else if !d.fallback || CutPrefix(agentID, DID_PREFIX).None? then None
    else
      match AccountPubKey(d, CutPrefix(agentID, DID_PREFIX).value)
      case Some(key) => if |key| == PUB_KEY_LEN then Some([key]) else None
      case None => None
  }

  function AsResolver(d: Directory): Resolver {
    id => PublicKeys(d, id)
  }

  /** The one key that speaks for an id: the registered one, else the account's own. */
  ghost predicate SpeaksFor(d: Directory, agentID: string, key: Bytes) {
    if d.agentKey(agentID).Some? && |d.agentKey(agentID).value| > 0 then d.agentKey(agentID) == Some(key)
    else exists address: string, pub: PubKey ::
      && d.fallback
      && agentID == "did:svp:" + address
      && d.accountKey(address) == Some(Some(pub))
      && d.parseBech32(address) == Some(pub.address)
      && !pub.kind.OtherKind?
      && pub.key == key && |key| == 33
  }

  /** Resolution never offers a choice: it answers the one key that speaks for the id, or none. */
  lemma PublicKeysMeans(d: Directory, agentID: string, key: Bytes)
    ensures SpeaksFor(d, agentID, key) <==> PublicKeys(d, agentID) == Some([key])
  {
    if !Registered(d, agentID) {
      if SpeaksFor(d, agentID, key) {
        var address: string, pub: PubKey :|
          && d.fallback
          && agentID == "did:svp:" + address
          && d.accountKey(address) == Some(Some(pub))
          && d.parseBech32(address) == Some(pub.address)
          && !pub.kind.OtherKind?
          && pub.key == key && |key| == 33;
        assert agentID[|DID_PREFIX|..] == address;
      }
      if PublicKeys(d, agentID) == Some([key]) {
        var address := CutPrefix(agentID, DID_PREFIX).value;
        assert agentID == DID_PREFIX + address;
        var pub := d.accountKey(address).value.value;
        assert [key][0] == pub.key;
      }
    }
  }

  /** A registered key is the only answer, whatever the account store holds and whether or not it
      is consulted; an id registered with an empty key, or not at all, has just its account. */
  lemma RegisteredKeyComesFirst(d: Directory, agentID: string, key: Bytes, accounts: string -> Option<Option<PubKey>>)
    requires d.agentKey(agentID) == Some(key)
    ensures key != [] ==> PublicKeys(d, agentID) == Some([key])
                          && PublicKeys(d.(accountKey := accounts, fallback := !d.fallback), agentID) == Some([key])
    ensures key == [] ==> PublicKeys(d, agentID) == PublicKeys(d.(agentKey := id => None), agentID)
  {
    if key != [] {
      assert SpeaksFor(d, agentID, key);
      PublicKeysMeans(d, agentID, key);
    }
  }

  /** In an accepted chain of any length every token carries a signature by the key that speaks
      for its issuer; for a registered issuer no account key can stand in. */
  lemma AcceptedSignersSpeakForThemselves(d: Directory, lib: Library, opts: VerifyOpts, raw: seq<Bytes>, i: nat)
    returns (key: Bytes)
    requires ChainValid(lib, AsResolver(d), opts, raw) && i < |raw|
    ensures var t := Tokens(lib, raw)[i];
            && SpeaksFor(d, t.payload.issuer, key)
            && lib.sigValid(key, t.payload, t.sig)
            && (forall other :: SpeaksFor(d, t.payload.issuer, other) ==> other == key)
  {
    var t := Tokens(lib, raw)[i];
    assert TokenValid(lib, AsResolver(d), opts, i + 1, t);
    var keys := PublicKeys(d, t.payload.issuer);
    assert keys == AsResolver(d)(t.payload.issuer);
    key :| key in keys.value && lib.sigValid(key, t.payload, t.sig);
    assert keys == Some([key]);
    PublicKeysMeans(d, t.payload.issuer, key);
    forall other | SpeaksFor(d, t.payload.issuer, other) ensures other == key {
      PublicKeysMeans(d, t.payload.issuer, other);
      assert [other][0] == [key][0];
    }
  }
}
