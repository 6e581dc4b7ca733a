/**
 Issuing and verifying access tokens over a key set that rotates. A signature is modelled as
 the pair of the signer's public key and what was signed; times are nanoseconds, and the
 token's own dates are whole seconds as NumericDate stores them.
 */
module Tokens {
  import opened KeySet

  const SECOND: int := 1_000_000_000
  const EDDSA := "EdDSA"

  datatype Claims = Claims(
    sub: string, iss: string, aud: seq<string>, jti: string,
    iat: int, nbf: int, exp: int,
    sid: string, sv: int, scope: seq<string>)

  datatype Signed = Signed(alg: string, kid: string, claims: Claims)

  datatype Signature = Signature(signer: Bytes, over: Signed)

  /** `kid` is "" when the header carries none. */
  datatype Token = Token(body: Signed, signature: Signature)

  datatype Request = Request(user: string, sid: string, sv: int, scope: seq<string>, aud: seq<string>)

  datatype Config = Config(issuer: string, audience: seq<string>, ttl: int, skew: int)

  datatype VerifyError = ErrExpired | ErrInvalidToken | ErrMissingKID | ErrUnknownKid

  datatype Verified = Valid(claims: Claims) | Rejected(error: VerifyError)

  /** jwt.NewNumericDate drops the fraction of a second. */
  function NumericDate(t: int): (d: int)
    ensures t - SECOND < d <= t && d % SECOND == 0
  {
    t - t % SECOND
  }

  function ClaimsFor(cfg: Config, req: Request, now: int, jti: string): Claims
  {
    Claims(req.user, cfg.issuer, if req.aud == [] then cfg.audience else req.aud, jti,
           NumericDate(now), NumericDate(now), NumericDate(now + cfg.ttl), req.sid, req.sv, req.scope)
  }

  /** `Issue` with the active key. */
  function Issued(c: Crypto, r: Ring, cfg: Config, req: Request, now: int, jti: string): Token
    requires r.active in r.keys
  {
    var body := Signed(EDDSA, r.keys[r.active].id, ClaimsFor(cfg, req, now, jti));
    Token(body, Signature(c.publicOf(r.keys[r.active].priv), body))
  }

  /** Some of what this service accepts is among what the token is for. */
  predicate AudienceOk(cfg: Config, claims: Claims)
  {
    |cfg.audience| == 0 || exists i :: 0 <= i < |cfg.audience| && cfg.audience[i] in claims.aud
  }

  /** `checkAudience`. */
  method CheckAudience(cfg: Config, claims: Claims) returns (ok: bool)
    ensures ok <==> AudienceOk(cfg, claims)
  {
    if |cfg.audience| == 0 {
      return true;
    }
    for i := 0 to |cfg.audience|
      invariant forall j :: 0 <= j < i ==> cfg.audience[j] !in claims.aud
    {
      if cfg.audience[i] in claims.aud {
        return true;
      }
    }
    return false;
  }

  predicate Expired(cfg: Config, claims: Claims, now: int) { now >= claims.exp + cfg.skew }

  predicate TooEarly(cfg: Config, claims: Claims, now: int) { now < claims.nbf - cfg.skew }

  /** `Verify`, with the library's order of checks and `translate`. */
  function Verify(r: Ring, cfg: Config, token: Token, now: int): Verified
  {
    var claims := token.body.claims;
    if token.body.alg != EDDSA then Rejected(ErrInvalidToken)
    else if token.body.kid == "" then Rejected(ErrMissingKID)
    else if token.body.kid !in r.keys then Rejected(ErrUnknownKid)
    else if token.signature != Signature(r.keys[token.body.kid].pub, token.body) then Rejected(ErrInvalidToken)
    else if Expired(cfg, claims, now) then Rejected(ErrExpired)
    else if TooEarly(cfg, claims, now) || (cfg.issuer != "" && claims.iss != cfg.issuer) then Rejected(ErrInvalidToken)
    else if !AudienceOk(cfg, claims) then Rejected(ErrInvalidToken)
    else Valid(claims)
  }

  // ----- rotation -----

  /** The issuing service over time: its keys and every token it has minted. */
  datatype Service = Service(ring: Ring, issued: seq<Token>)

  datatype Op =
    | AddKey(key: Key)
    | Activate(kid: string)
    | Mint(req: Request, now: int, jti: string)

  /** A stored private half belongs to the stored public one, as the parsers guarantee. */
  predicate Paired(c: Crypto, key: Key) { key.CanSign() ==> key.pub == c.publicOf(key.priv) }

  predicate Allowed(c: Crypto, s: Service, op: Op)
  {
    match op
    case AddKey(key) => |key.pub| == PUBLIC_KEY_SIZE && Paired(c, key) && NameOf(c, key) !in s.ring.keys
    case Activate(_) => true
    case Mint(_, _, _) => true
  }

  function Done(c: Crypto, cfg: Config, s: Service, op: Op): Service
  {
    match op
    case AddKey(key) => s.(ring := Added(c, s.ring, key))
    case Activate(kid) =>
      if kid in s.ring.keys && s.ring.keys[kid].CanSign() then s.(ring := s.ring.(active := kid)) else s
    case Mint(req, now, jti) =>
      if s.ring.active == "" || s.ring.active !in s.ring.keys then s
      else s.(issued := s.issued + [Issued(c, s.ring, cfg, req, now, jti)])
  }

  predicate IsRotation(c: Crypto, cfg: Config, s: Service, ops: seq<Op>)
    decreases |ops|
  {
    ops == [] || (Allowed(c, s, ops[0]) && IsRotation(c, cfg, Done(c, cfg, s, ops[0]), ops[1..]))
  }

  function AfterAll(c: Crypto, cfg: Config, s: Service, ops: seq<Op>): Service
    decreases |ops|
  {
    if ops == [] then s else AfterAll(c, cfg, Done(c, cfg, s, ops[0]), ops[1..])
  }

  /** The token was minted by a key the ring still holds, and says so. */
  predicate Covered(r: Ring, cfg: Config, t: Token)
  {
    && t.body.alg == EDDSA && t.body.kid != "" && t.body.kid in r.keys
    && t.signature == Signature(r.keys[t.body.kid].pub, t.body)
    && t.body.claims.iss == cfg.issuer
  }

  ghost predicate Inv(c: Crypto, cfg: Config, s: Service)
  {
    && Named(s.ring) && Signs(s.ring)
    && (forall id :: id in s.ring.keys ==> Paired(c, s.ring.keys[id]))
    && (forall i :: 0 <= i < |s.issued| ==> Covered(s.ring, cfg, s.issued[i]))
  }

  lemma InvStep(c: Crypto, cfg: Config, s: Service, op: Op)
    requires Lawful(c) && Inv(c, cfg, s) && Allowed(c, s, op)
    ensures Inv(c, cfg, Done(c, cfg, s, op))
    ensures s.issued <= Done(c, cfg, s, op).issued
  {
  }

  lemma {:induction false} InvRotation(c: Crypto, cfg: Config, s: Service, ops: seq<Op>)
    requires Lawful(c) && Inv(c, cfg, s) && IsRotation(c, cfg, s, ops)
    ensures Inv(c, cfg, AfterAll(c, cfg, s, ops)) && s.issued <= AfterAll(c, cfg, s, ops).issued
    decreases |ops|
  {
    if ops != [] {
      InvStep(c, cfg, s, ops[0]);
      InvRotation(c, cfg, Done(c, cfg, s, ops[0]), ops[1..]);
    }
  }

  /** The token says what was asked for: for whom, on which session, for which audience, from when until when. */
  predicate AsAsked(cfg: Config, op: Op, claims: Claims)
  {
    && op.Mint?
    && claims.sub == op.req.user && claims.sid == op.req.sid && claims.sv == op.req.sv && claims.scope == op.req.scope
    && claims.aud == (if |op.req.aud| == 0 then cfg.audience else op.req.aud)
    && claims.iss == cfg.issuer && claims.jti == op.jti
    && op.now - 1_000_000_000 < claims.iat <= op.now && claims.nbf == claims.iat
    && op.now + cfg.ttl - 1_000_000_000 < claims.exp <= op.now + cfg.ttl
  }

  /** Rotation takes effect: the next token after a key is added and activated is signed with it and names it. */
  lemma RotationTakesEffect(c: Crypto, cfg: Config, s: Service, key: Key, req: Request, now: int, jti: string)
    requires Lawful(c) && Inv(c, cfg, s) && Allowed(c, s, AddKey(key)) && key.CanSign()
    ensures var id := NameOf(c, key);
            var t := AfterAll(c, cfg, s, [AddKey(key), Activate(id), Mint(req, now, jti)]);
            && t.ring.active == id && id in t.ring.keys && t.ring.keys[id].pub == key.pub
            && |t.issued| == |s.issued| + 1
            && t.issued[|s.issued|].body.kid == id && t.issued[|s.issued|].signature.signer == key.pub
  {
    var id := NameOf(c, key);
    var ops := [AddKey(key), Activate(id), Mint(req, now, jti)];
    var a := Done(c, cfg, s, ops[0]);
    var b := Done(c, cfg, a, ops[1]);
    assert ops[1..][0] == ops[1] && ops[1..][1..] == [ops[2]] && [ops[2]][1..] == [];
    assert AfterAll(c, cfg, b, [ops[2]]) == Done(c, cfg, b, ops[2]);
  }

  lemma {:induction false} IssuedGrows(c: Crypto, cfg: Config, s: Service, ops: seq<Op>)
    ensures s.issued <= AfterAll(c, cfg, s, ops).issued
    decreases |ops|
  {
    if ops != [] {
      IssuedGrows(c, cfg, Done(c, cfg, s, ops[0]), ops[1..]);
    }
  }

  /** Over any rotation, every token issued answers one of the requests made, in all its claims. */
  lemma {:induction false} MintedAsAsked(c: Crypto, cfg: Config, s: Service, ops: seq<Op>, i: nat) returns (k: nat)
    requires |s.issued| <= i < |AfterAll(c, cfg, s, ops).issued|
    ensures k < |ops| && AsAsked(cfg, ops[k], AfterAll(c, cfg, s, ops).issued[i].body.claims)
    decreases |ops|
  {
    var next := Done(c, cfg, s, ops[0]);
    if i < |next.issued| {
      k := 0;
      IssuedGrows(c, cfg, next, ops[1..]);
      assert AfterAll(c, cfg, s, ops).issued[i] == next.issued[i];
    } else {
      k := MintedAsAsked(c, cfg, next, ops[1..], i);
      k := k + 1;
    }
  }

  /** What a verifier returns for an issued token names the user and session of the request behind it. */
  lemma VerifiedNamesItsRequest(c: Crypto, cfg: Config, start: Ring, ops: seq<Op>, i: nat, verifier: Ring, vcfg: Config, now: int)
    returns (k: nat)
    requires i < |AfterAll(c, cfg, Service(start, []), ops).issued|
    requires Verify(verifier, vcfg, AfterAll(c, cfg, Service(start, []), ops).issued[i], now).Valid?
    ensures k < |ops| && AsAsked(cfg, ops[k], Verify(verifier, vcfg, AfterAll(c, cfg, Service(start, []), ops).issued[i], now).claims)
  {
    k := MintedAsAsked(c, cfg, Service(start, []), ops, i);
  }

  /** Exactly what is accepted, in terms of the token's fields, and what is returned for it. */
  lemma VerifyAcceptsIff(r: Ring, cfg: Config, t: Token, now: int)
    ensures Verify(r, cfg, t, now) == Valid(t.body.claims) <==>
            && t.body.alg == "EdDSA" && t.body.kid != "" && t.body.kid in r.keys
            && t.signature.signer == r.keys[t.body.kid].pub && t.signature.over == t.body
            && t.body.claims.nbf - cfg.skew <= now < t.body.claims.exp + cfg.skew
            && (cfg.issuer == "" || t.body.claims.iss == cfg.issuer)
            && (cfg.audience == [] || exists a :: a in cfg.audience && a in t.body.claims.aud)
    ensures Verify(r, cfg, t, now).Valid? ==> Verify(r, cfg, t, now) == Valid(t.body.claims)
  {
    if exists a :: a in cfg.audience && a in t.body.claims.aud {
      var a :| a in cfg.audience && a in t.body.claims.aud;
      var i :| 0 <= i < |cfg.audience| && cfg.audience[i] == a;
    }
  }

  /** A verifier that holds the public half of every key of the issuer. */
  predicate Knows(verifier: Ring, issuer: Ring)
  {
    forall id :: id in issuer.keys ==> id in verifier.keys && verifier.keys[id].pub == issuer.keys[id].pub
  }

  /**
   Over any sequence of rotations from a loaded key set: the active kid always names a
   stored signing key, and every token ever issued verifies, at any verifier that knows the
   issuer's keys, from issue until exp plus skew, and is reported expired from then on.
   */
  lemma EveryIssuedTokenVerifies(c: Crypto, cfg: Config, start: Ring, ops: seq<Op>, verifier: Ring, vcfg: Config, i: nat, now: int)
    requires Lawful(c) && Inv(c, cfg, Service(start, [])) && IsRotation(c, cfg, Service(start, []), ops)
    requires var s := AfterAll(c, cfg, Service(start, []), ops); i < |s.issued| && Knows(verifier, s.ring)
    requires vcfg.issuer == cfg.issuer
    ensures var s := AfterAll(c, cfg, Service(start, []), ops);
            var t := s.issued[i];
            && Signs(s.ring)
            && (now >= t.body.claims.exp + vcfg.skew ==> Verify(verifier, vcfg, t, now) == Rejected(ErrExpired))
            && (t.body.claims.nbf - vcfg.skew <= now < t.body.claims.exp + vcfg.skew ==>
                  Verify(verifier, vcfg, t, now)
                  == if AudienceOk(vcfg, t.body.claims) then Valid(t.body.claims) else Rejected(ErrInvalidToken))
  {
    InvRotation(c, cfg, Service(start, []), ops);
    var s := AfterAll(c, cfg, Service(start, []), ops);
    assert Covered(s.ring, cfg, s.issued[i]);
  }

  /** From the moment of issue: the dates in the token never lie in its future. */
  lemma FreshTokenIsNotEarly(c: Crypto, r: Ring, cfg: Config, vcfg: Config, req: Request, now: int, jti: string)
    requires r.active in r.keys && vcfg.skew >= 0
    ensures var claims := Issued(c, r, cfg, req, now, jti).body.claims;
            !TooEarly(vcfg, claims, now) && now + cfg.ttl - SECOND < claims.exp <= now + cfg.ttl
  {
  }

  // ----- nothing verifies but what was minted -----

  /** The service, and every token anybody has presented anywhere. */
  datatype World = World(service: Service, presented: set<Token>)

  datatype Act = Serve(op: Op) | Present(token: Token)

  /**
   Others may put any body under any signature they can make or have seen: they can sign
   with every key whose private half is not the service's secret, and copy signatures off
   tokens the service issued.
   */
  ghost predicate CanMake(secret: set<Bytes>, s: Service, t: Token)
  {
    t.signature.signer !in secret || exists i :: 0 <= i < |s.issued| && s.issued[i].signature == t.signature
  }

  ghost predicate CanAct(c: Crypto, secret: set<Bytes>, w: World, a: Act)
  {
    match a
    case Serve(op) => Allowed(c, w.service, op)
    case Present(t) => CanMake(secret, w.service, t)
  }

  function Acted(c: Crypto, cfg: Config, w: World, a: Act): World
  {
    match a
    case Serve(op) => w.(service := Done(c, cfg, w.service, op))
    case Present(t) => w.(presented := w.presented + {t})
  }

  ghost predicate IsTraffic(c: Crypto, cfg: Config, secret: set<Bytes>, w: World, acts: seq<Act>)
    decreases |acts|
  {
    acts == [] || (CanAct(c, secret, w, acts[0]) && IsTraffic(c, cfg, secret, Acted(c, cfg, w, acts[0]), acts[1..]))
  }

  function AfterTraffic(c: Crypto, cfg: Config, w: World, acts: seq<Act>): World
    decreases |acts|
  {
    if acts == [] then w else AfterTraffic(c, cfg, Acted(c, cfg, w, acts[0]), acts[1..])
  }

  ghost predicate Accountable(secret: set<Bytes>, w: World)
  {
    && (forall i :: 0 <= i < |w.service.issued| ==> w.service.issued[i].signature.over == w.service.issued[i].body)
    && (forall t :: t in w.presented ==> CanMake(secret, w.service, t))
  }

  lemma CanMakeLater(secret: set<Bytes>, s: Service, s': Service, t: Token)
    requires CanMake(secret, s, t) && s.issued <= s'.issued
    ensures CanMake(secret, s', t)
  {
    if t.signature.signer in secret {
      var i :| 0 <= i < |s.issued| && s.issued[i].signature == t.signature;
      assert s'.issued[i] == s.issued[i];
    }
  }

  lemma AccountableStep(c: Crypto, cfg: Config, secret: set<Bytes>, w: World, a: Act)
    requires Accountable(secret, w) && CanAct(c, secret, w, a)
    ensures Accountable(secret, Acted(c, cfg, w, a))
  {
    var w' := Acted(c, cfg, w, a);
    forall t | t in w'.presented ensures CanMake(secret, w'.service, t) {
      CanMakeLater(secret, w.service, w'.service, t);
    }
  }

  lemma {:induction false} AccountableTraffic(c: Crypto, cfg: Config, secret: set<Bytes>, w: World, acts: seq<Act>)
    requires Accountable(secret, w) && IsTraffic(c, cfg, secret, w, acts)
    ensures Accountable(secret, AfterTraffic(c, cfg, w, acts))
    decreases |acts|
  {
    if acts != [] {
      AccountableStep(c, cfg, secret, w, acts[0]);
      AccountableTraffic(c, cfg, secret, Acted(c, cfg, w, acts[0]), acts[1..]);
    }
  }

  /**
   Over any traffic, through any rotation: a presented token that verifies under a key whose
   private half only the service holds is one the service minted, whole. No splicing of a
   kid, claims or signature from several tokens gets through.
   */
  lemma OnlyMintedTokensVerify(c: Crypto, cfg: Config, secret: set<Bytes>, start: Ring, acts: seq<Act>,
                               t: Token, verifier: Ring, vcfg: Config, now: int)
    requires IsTraffic(c, cfg, secret, World(Service(start, []), {}), acts)
    requires t in AfterTraffic(c, cfg, World(Service(start, []), {}), acts).presented
    requires Verify(verifier, vcfg, t, now).Valid? && verifier.keys[t.body.kid].pub in secret
    ensures t in AfterTraffic(c, cfg, World(Service(start, []), {}), acts).service.issued
  {
    AccountableTraffic(c, cfg, secret, World(Service(start, []), {}), acts);
    var s := AfterTraffic(c, cfg, World(Service(start, []), {}), acts).service;
    assert CanMake(secret, s, t);
    var i :| 0 <= i < |s.issued| && s.issued[i].signature == t.signature;
    assert s.issued[i] == t;
  }

  /** A ring loaded from configuration is a sound place to start rotating from. */
  lemma LoadedRingIsSound(c: Crypto, cfg: Config, priv: Bytes, pubs: seq<Bytes>)
    requires Lawful(c) && |priv| > 0 && forall p :: p in pubs ==> |p| == PUBLIC_KEY_SIZE
    ensures Inv(c, cfg, Service(Absorbed(c, PrivateRing(c, priv), pubs), []))
  {
    AbsorbedKeepsSound(c, PrivateRing(c, priv), pubs);
  }

  lemma {:induction false} AbsorbedKeepsSound(c: Crypto, r: Ring, pubs: seq<Bytes>)
    requires Lawful(c) && Named(r) && Signs(r) && (forall id :: id in r.keys ==> Paired(c, r.keys[id]))
    requires forall p :: p in pubs ==> |p| == PUBLIC_KEY_SIZE
    ensures var t := Absorbed(c, r, pubs); Named(t) && Signs(t) && forall id :: id in t.keys ==> Paired(c, t.keys[id])
    decreases |pubs|
  {
    if pubs != [] {
      AbsorbedKeepsSound(c, r, pubs[..|pubs| - 1]);
      assert pubs[|pubs| - 1] in pubs;
    }
  }

  /**
   Adding a key under a kid already in use is what rotation must not do: tokens minted under
   that kid go on verifying exactly when the new key has the same public half.
   */
  lemma OverwritingRetiresTokensIff(c: Crypto, r: Ring, cfg: Config, key: Key, t: Token, now: int)
    requires Covered(r, cfg, t) && Verify(r, cfg, t, now).Valid? && NameOf(c, key) == t.body.kid
    ensures Verify(Added(c, r, key), cfg, t, now).Valid? <==> key.pub == r.keys[t.body.kid].pub
  {
  }
}
