/** The credential library as its callers in this repository know it: a token's fields, and the
    rules this repository's code, comments and test files attribute to VerifyChain and Attenuate.
    Encoding, hashing and signatures are arbitrary total functions; lemmas name the laws they need. */
module Svpdt {
  import opened Prelude
  import opened Caveats

  datatype Payload = Payload(
    chainID: string,
    root: Bytes,
    rootEpoch: nat,
    issuer: string,
    audience: string,
    proof: Bytes,
    depth: nat,
    caveats: Caveats,
    nonce: Bytes)

  datatype Token = Token(payload: Payload, sig: Bytes)

  datatype Library = Library(
    unmarshal: Bytes -> Option<Token>,
    marshal: Token -> Bytes,
    sha256: Bytes -> Bytes,
    sigValid: (Bytes, Payload, Bytes) -> bool,
    chainHash: seq<Bytes> -> Bytes,
    newStringSet: seq<string> -> Option<set<string>>,
    newCoins: (string, int) -> Option<Coins>,
    // Whether VerifyChain itself also refuses to extend a token that is not re-delegable.
    // Its callers do not say, so every result here holds either way.
    refusesUnredelegable: bool)

  /** Encoding loses nothing. */
  ghost predicate RoundTrips(lib: Library) {
    forall t :: lib.unmarshal(lib.marshal(t)) == Some(t)
  }

  /** No two token encodings share a hash. */
  ghost predicate CollisionFree(lib: Library) {
    forall a, b :: lib.sha256(a) == lib.sha256(b) ==> a == b
  }

  /** The set and coin constructors build what they were given, when they build anything. */
  ghost predicate BuildsWhatItIsGiven(lib: Library) {
    && (forall xs :: lib.newStringSet(xs).Some? ==> lib.newStringSet(xs).value == set x | x in xs)
    && (forall d, n :: lib.newCoins(d, n).Some? ==>
          n >= 0 && forall e: string :: Amount(lib.newCoins(d, n).value, e) == if e == d then n else 0)
  }

  /** svpdt.Resolver: an agent id to the keys that may sign for it. */
  type Resolver = string -> Option<seq<Bytes>>

  datatype VerifyOpts = VerifyOpts(
    chainID: string, now: int64, maxDepth: nat, maxTTLSeconds: nat, audience: string)

  datatype Verified = Verified(
    tokens: seq<Token>,
    effective: Caveats,
    principal: string,
    root: Bytes,
    rootEpoch: nat,
    leafExp: int64,
    chainHash: Bytes)

  predicate Signed(lib: Library, res: Resolver, t: Token) {
    var keys := res(t.payload.issuer);
    keys.Some? && exists k | k in keys.value :: lib.sigValid(k, t.payload, t.sig)
  }

  predicate InWindow(c: Caveats, now: int64) {
    c.notBefore <= now < c.expires
  }

  predicate TTLWithin(c: Caveats, maxTTLSeconds: nat) {
    maxTTLSeconds == 0 || c.expires - c.notBefore <= maxTTLSeconds
  }

  /** One token on its own: chain, position, window, lifetime and signature. */
  predicate TokenValid(lib: Library, res: Resolver, opts: VerifyOpts, position: nat, t: Token) {
    && t.payload.chainID == opts.chainID
    && t.payload.depth == position
    && position <= t.payload.caveats.maxDepth
    && InWindow(t.payload.caveats, opts.now)
    && TTLWithin(t.payload.caveats, opts.maxTTLSeconds)
    && Signed(lib, res, t)
  }

  /** A child and the exact parent bytes it commits to. */
  predicate Linked(lib: Library, parentRaw: Bytes, parent: Token, child: Token) {
    && child.payload.proof == lib.sha256(parentRaw)
    && child.payload.issuer == parent.payload.audience
    && child.payload.root == parent.payload.root
    && child.payload.rootEpoch == parent.payload.rootEpoch
    && AtMost(child.payload.caveats, parent.payload.caveats)
    && (lib.refusesUnredelegable ==> parent.payload.caveats.redelegable)
  }

  predicate Parses(lib: Library, raw: seq<Bytes>) {
    forall i | 0 <= i < |raw| :: lib.unmarshal(raw[i]).Some?
  }

  function Tokens(lib: Library, raw: seq<Bytes>): (ts: seq<Token>)
    requires Parses(lib, raw)
    ensures |ts| == |raw|
    ensures forall i :: 0 <= i < |raw| ==> ts[i] == lib.unmarshal(raw[i]).value
  {
    seq(|raw|, i requires 0 <= i < |raw| => lib.unmarshal(raw[i]).value)
  }

  predicate AllValid(lib: Library, res: Resolver, opts: VerifyOpts, ts: seq<Token>) {
    forall i | 0 <= i < |ts| :: TokenValid(lib, res, opts, i + 1, ts[i])
  }

  predicate AllLinked(lib: Library, raw: seq<Bytes>, ts: seq<Token>)
    requires |raw| == |ts|
  {
    forall i | 0 < i < |ts| :: Linked(lib, raw[i - 1], ts[i - 1], ts[i])
  }

  predicate ChainValid(lib: Library, res: Resolver, opts: VerifyOpts, raw: seq<Bytes>) {
    && 0 < |raw| <= opts.maxDepth
    && Parses(lib, raw)
    && var ts := Tokens(lib, raw);
       && AllValid(lib, res, opts, ts)
       && AllLinked(lib, raw, ts)
       && Last(ts).payload.audience == opts.audience
  }

  function Summary(lib: Library, raw: seq<Bytes>): Verified
    requires raw != [] && Parses(lib, raw)
  {
    var ts := Tokens(lib, raw);
    var leaf := Last(ts).payload;
    Verified(ts, leaf.caveats, leaf.caveats.principal, leaf.root, leaf.rootEpoch,
             leaf.caveats.expires, lib.chainHash(raw))
  }

  function VerifyChain(lib: Library, res: Resolver, opts: VerifyOpts, raw: seq<Bytes>): Option<Verified> {
    if ChainValid(lib, res, opts, raw) then Some(Summary(lib, raw)) else None
  }

  /** A signer: the signature its key makes over a payload. */
  type Signer = Payload -> Bytes

  /** The signer's key is one that the id resolves to. */
  ghost predicate SignsFor(lib: Library, res: Resolver, sign: Signer, id: string) {
    var keys := res(id);
    keys.Some? && exists k | k in keys.value :: forall p :: lib.sigValid(k, p, sign(p))
  }

  /** Mint a child of the token encoded in parentRaw, or refuse anything wider than it. */
  function Attenuate(lib: Library, sign: Signer, parentRaw: Bytes, issuer: string, audience: string,
                     caveats: Caveats, nonce: Bytes): Option<(Token, Bytes)> {
    if lib.unmarshal(parentRaw).None? then None
    else
      var parent := lib.unmarshal(parentRaw).value.payload;
      if !parent.caveats.redelegateTo.Allows(audience) then None
      else if caveats.redelegateTo.Anyone? then None
      else if !AtMost(caveats, parent.caveats) then None
      else
        var payload := Payload(parent.chainID, parent.root, parent.rootEpoch, issuer, audience,
                               lib.sha256(parentRaw), parent.depth + 1, caveats, nonce);
        var child := Token(payload, sign(payload));
        Some((child, lib.marshal(child)))
  }

  /** A child is signed exactly under a token that parses, for someone its targets name, with
      targets of its own that are constrained, and nothing wider than the parent's; it then sits
      right under those bytes with the caveats asked for. */
  lemma AttenuatesExactlyWhen(lib: Library, sign: Signer, parentRaw: Bytes, issuer: string, audience: string,
                              caveats: Caveats, nonce: Bytes)
    ensures var minted := Attenuate(lib, sign, parentRaw, issuer, audience, caveats, nonce);
            && (minted.Some? <==>
                  && lib.unmarshal(parentRaw).Some?
                  && (lib.unmarshal(parentRaw).value.payload.caveats.redelegateTo.Anyone?
                      || audience in lib.unmarshal(parentRaw).value.payload.caveats.redelegateTo.dids)
                  && caveats.redelegateTo.Only?
                  && AtMost(caveats, lib.unmarshal(parentRaw).value.payload.caveats))
            && (minted.Some? ==>
                  var parent, p := lib.unmarshal(parentRaw).value.payload, minted.value.0.payload;
                  && p.proof == lib.sha256(parentRaw) && p.depth == parent.depth + 1
                  && p.chainID == parent.chainID && p.root == parent.root && p.rootEpoch == parent.rootEpoch
                  && p.issuer == issuer && p.audience == audience && p.caveats == caveats && p.nonce == nonce
                  && minted.value.0.sig == sign(p) && minted.value.1 == lib.marshal(minted.value.0))
  {}
}
