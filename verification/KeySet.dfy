/**
 The JWT key set: `KeySet`, `addPublicKeys`, `LoadKeySet`. Ed25519, SHA-256, PEM and X.509
 enter as functions of a `Crypto` value, with only the laws the code relies on.
 */
module KeySet {
  import opened Prelude

  const PUBLIC_KEY_SIZE: nat := 32

  type Bytes = seq<int>

  datatype Key = Key(id: string, pub: Bytes, priv: Bytes)
  {
    predicate CanSign() { |priv| > 0 }
  }

  datatype Crypto = Crypto(
    kid: Bytes -> string,                              // KeyID
    publicOf: Bytes -> Bytes,                          // the public half of a private key
    decode: string -> Option<(string, string)>,        // pem.Decode: a block and what follows it
    parsePrivate: string -> Option<Bytes>,             // ParsePrivateKeyPEM
    parsePublic: string -> Option<Bytes>)              // ParsePublicKeyPEM of one block

  ghost predicate Lawful(c: Crypto)
  {
    && (forall d :: c.decode(d).Some? ==> |c.decode(d).value.1| < |d|)
    && (forall p :: c.kid(p) != "")
    && (forall k :: |c.publicOf(k)| == PUBLIC_KEY_SIZE)
    && (forall b :: c.parsePublic(b).Some? ==> |c.parsePublic(b).value| == PUBLIC_KEY_SIZE)
    && (forall b :: c.parsePrivate(b).Some? ==> |c.parsePrivate(b).value| > 0)
  }

  datatype Error = ErrNoSigningKey | ErrUnknownKey | ErrInvalidKey

  datatype Result<+T> = Ok(value: T) | Err(error: Error)

  /** The key set as a value. */
  datatype Ring = Ring(keys: map<string, Key>, active: string)

  const EMPTY_RING := Ring(map[], "")

  predicate Named(r: Ring) { forall id :: id in r.keys ==> r.keys[id].id == id && id != "" && |r.keys[id].pub| == PUBLIC_KEY_SIZE }

  /** The active kid names a stored key that can sign, or there is none. */
  predicate Signs(r: Ring) { r.active != "" ==> r.active in r.keys && r.keys[r.active].CanSign() }

  function NameOf(c: Crypto, key: Key): string { if key.id == "" then c.kid(key.pub) else key.id }

  /** `Add` of a key whose public half has the right size: an existing one is overwritten. */
  function Added(c: Crypto, r: Ring, key: Key): Ring
  {
    var id := NameOf(c, key);
    Ring(r.keys[id := key.(id := id)], if r.active == "" && key.CanSign() then id else r.active)
  }

  class Set {
    const crypto: Crypto
    var keys: map<string, Key>
    var activeKID: string

    constructor (crypto: Crypto)
      ensures Value() == EMPTY_RING && this.crypto == crypto
    {
      this.crypto, keys, activeKID := crypto, map[], "";
    }

    function Value(): Ring
      reads this
    {
      Ring(keys, activeKID)
    }

    method Add(key: Key) returns (r: Result<()>)
      modifies this
      ensures r == if |key.pub| == PUBLIC_KEY_SIZE then Ok(()) else Err(ErrInvalidKey)
      ensures Value() == if r.Ok? then Added(crypto, old(Value()), key) else old(Value())
    {
      if |key.pub| != PUBLIC_KEY_SIZE {
        return Err(ErrInvalidKey);
      }
      var id := if key.id == "" then crypto.kid(key.pub) else key.id;
      keys := keys[id := key.(id := id)];
      if activeKID == "" && key.CanSign() {
        activeKID := id;
      }
      return Ok(());
    }

    /** Never activates a key that cannot sign. */
    method SetActive(kid: string) returns (r: Result<()>)
      modifies this
      ensures r == (if kid !in old(keys) then Err(ErrUnknownKey)
                    else if !old(keys)[kid].CanSign() then Err(ErrNoSigningKey) else Ok(()))
      ensures Value() == if r.Ok? then old(Value()).(active := kid) else old(Value())
      ensures old(Signs(Value())) ==> Signs(Value())
    {
      if kid !in keys {
        return Err(ErrUnknownKey);
      }
      if !keys[kid].CanSign() {
        return Err(ErrNoSigningKey);
      }
      activeKID := kid;
      return Ok(());
    }

    /** The signing key: with a sound ring it is stored under the active kid and can sign. */
    method Active() returns (r: Result<Key>)
      requires Signs(Value())
      ensures r.Ok? <==> activeKID != ""
      ensures r.Ok? ==> r.value.CanSign() && activeKID in keys && r.value == keys[activeKID]
      ensures r.Err? ==> r.error == ErrNoSigningKey
    {
      if activeKID == "" {
        return Err(ErrNoSigningKey);
      }
      return Ok(keys[activeKID]);
    }

    /** `addPublicKeys`: every block but those of keys held with their private half. */
    method AddPublicKeys(data: string) returns (r: Result<()>)
      requires Lawful(crypto) && Named(Value())
      modifies this
      ensures r == if Blocks(crypto, data).1 then Ok(()) else Err(ErrInvalidKey)
      ensures Value() == Absorbed(crypto, old(Value()), Blocks(crypto, data).0)
      ensures Named(Value())
    {
      var rest := data;
      ReadNothing(crypto, Value(), data);
      while true
        invariant ReadTo(crypto, old(Value()), data, Value(), rest)
        decreases |rest|
      {
        ReadOn(crypto, old(Value()), data, Value(), rest);
        var next := NextPublicKey(crypto, rest);
        match next
        case NoMore =>
          return Ok(());
        case Broken =>
          return Err(ErrInvalidKey);
        case Found(key, remaining) =>
          if !(key.id in keys && keys[key.id].CanSign()) {
            var added := Add(key);
          }
          rest := remaining;
      }
    }
  }

  // ----- reading the PEM text -----

  /** unicode.IsSpace. */
  predicate IsSpace(c: char)
  {
    var n := c as int;
    || 9 <= n <= 13 || n == 32 || n == 0x85 || n == 0xA0 || n == 0x1680 || 0x2000 <= n <= 0x200A
    || n == 0x2028 || n == 0x2029 || n == 0x202F || n == 0x205F || n == 0x3000
  }

  predicate AllSpace(s: string) { forall i :: 0 <= i < |s| ==> IsSpace(s[i]) }

  function TrimLeft(s: string): string { if s != [] && IsSpace(s[0]) then TrimLeft(s[1..]) else s }

  function TrimRight(s: string): string
  {
    if s != [] && IsSpace(s[|s| - 1]) then TrimRight(s[..|s| - 1]) else s
  }

  function Trim(s: string): string { TrimRight(TrimLeft(s)) }

  lemma TrimShortens(s: string)
    ensures |Trim(s)| <= |s|
  {
    TrimLeftShortens(s);
    TrimRightShortens(TrimLeft(s));
  }

  lemma {:induction false} TrimLeftIsExact(s: string) returns (lead: string)
    ensures s == lead + TrimLeft(s) && AllSpace(lead)
    ensures TrimLeft(s) != [] ==> !IsSpace(TrimLeft(s)[0])
  {
    lead := [];
    if s != [] && IsSpace(s[0]) {
      lead := TrimLeftIsExact(s[1..]);
      lead := [s[0]] + lead;
    }
  }

  lemma {:induction false} TrimRightIsExact(s: string) returns (trail: string)
    ensures s == TrimRight(s) + trail && AllSpace(trail)
    ensures TrimRight(s) != [] ==> !IsSpace(TrimRight(s)[|TrimRight(s)| - 1])
  {
    trail := [];
    if s != [] && IsSpace(s[|s| - 1]) {
      trail := TrimRightIsExact(s[..|s| - 1]);
      trail := trail + [s[|s| - 1]];
    }
  }

  /** Trimming removes space at both ends, all of it and nothing else. */
  lemma TrimIsExact(s: string) returns (lead: string, trail: string)
    ensures s == lead + Trim(s) + trail && AllSpace(lead) && AllSpace(trail)
    ensures Trim(s) != [] ==> !IsSpace(Trim(s)[0]) && !IsSpace(Trim(s)[|Trim(s)| - 1])
  {
    lead := TrimLeftIsExact(s);
    trail := TrimRightIsExact(TrimLeft(s));
    assert Trim(s) != [] ==> Trim(s)[0] == TrimLeft(s)[0];
  }

  lemma TrimLeftShortens(s: string)
    ensures |TrimLeft(s)| <= |s|
  {
  }

  lemma TrimRightShortens(s: string)
    ensures |TrimRight(s)| <= |s|
  {
  }

  datatype Next = NoMore | Broken | Found(key: Key, rest: string)

  /** `nextPublicKey`. */
  function NextPublicKey(c: Crypto, data: string): Next
  {
    var d := Trim(data);
    if d == [] then NoMore
    else
      match c.decode(d)
      case None => NoMore
      case Some((block, rest)) =>
        (match c.parsePublic(block)
         case None => Broken
         case Some(p) => Found(Key(c.kid(p), p, []), rest))
  }

  /** The public keys in a concatenation of blocks, up to the first that does not parse. */
  ghost function Blocks(c: Crypto, data: string): (seq<Bytes>, bool)
    requires Lawful(c)
    decreases |data|
  {
    TrimShortens(data);
    var d := Trim(data);
    if d == [] || c.decode(d).None? then ([], true)
    else
      var (block, rest) := c.decode(d).value;
      if c.parsePublic(block).None? then ([], false)
      else var (more, ok) := Blocks(c, rest); ([c.parsePublic(block).value] + more, ok)
  }

  /** The text is the given blocks one after another, with space around them and then nothing that decodes. */
  ghost predicate Concatenates(c: Crypto, data: string, blocks: seq<string>)
    decreases |blocks|
  {
    var d := Trim(data);
    if blocks == [] then d == [] || c.decode(d).None?
    else d != [] && c.decode(d).Some? && c.decode(d).value.0 == blocks[0] && Concatenates(c, c.decode(d).value.1, blocks[1..])
  }

  /** Every block of a text whose blocks all parse is read, in order. */
  lemma {:induction false} EveryBlockIsRead(c: Crypto, data: string, blocks: seq<string>)
    requires Lawful(c) && Concatenates(c, data, blocks)
    requires forall i :: 0 <= i < |blocks| ==> c.parsePublic(blocks[i]).Some?
    ensures Blocks(c, data).1 && |Blocks(c, data).0| == |blocks|
    ensures forall i :: 0 <= i < |blocks| ==> Blocks(c, data).0[i] == c.parsePublic(blocks[i]).value
    decreases |blocks|
  {
    if blocks != [] {
      EveryBlockIsRead(c, c.decode(Trim(data)).value.1, blocks[1..]);
      assert forall i :: 1 <= i < |blocks| ==> blocks[i] == blocks[1..][i - 1];
    }
  }

  /** `normalizePEM`: the two characters `\` and `n` become a newline. */
  function NormalizePEM(s: string): string
  {
    if |s| >= 2 && s[0] == '\\' && s[1] == 'n' then "\n" + NormalizePEM(s[2..])
    else if s == [] then []
    else [s[0]] + NormalizePEM(s[1..])
  }

  /** How an environment file writes a PEM. */
  function Escaped(s: string): string
  {
    if s == [] then [] else (if s[0] == '\n' then "\\n" else [s[0]]) + Escaped(s[1..])
  }

  /** A PEM arrives the same through either transport: escaped or not. */
  lemma {:induction false} NormalizeAcceptsBothForms(s: string)
    requires '\\' !in s
    ensures NormalizePEM(s) == s
    ensures NormalizePEM(Escaped(s)) == s
  {
    if s != [] {
      NormalizeAcceptsBothForms(s[1..]);
      var e := Escaped(s);
      if s[0] == '\n' {
        assert e[2..] == Escaped(s[1..]);
      } else {
        assert s[0] in s;
        assert e[1..] == Escaped(s[1..]);
      }
    }
  }

  // ----- absorbing public keys -----

  function AbsorbOne(c: Crypto, r: Ring, p: Bytes): Ring
  {
    var id := c.kid(p);
    if id in r.keys && r.keys[id].CanSign() then r else Added(c, r, Key(id, p, []))
  }

  function Absorbed(c: Crypto, r: Ring, pubs: seq<Bytes>): Ring
  {
    if pubs == [] then r else AbsorbOne(c, Absorbed(c, r, pubs[..|pubs| - 1]), pubs[|pubs| - 1])
  }

  lemma AbsorbedAppend(c: Crypto, r: Ring, pubs: seq<Bytes>, p: Bytes)
    ensures Absorbed(c, r, pubs + [p]) == AbsorbOne(c, Absorbed(c, r, pubs), p)
  {
  }

  /** With `rest` still to read of `data`, `start` has become `now`. */
  ghost predicate ReadTo(c: Crypto, start: Ring, data: string, now: Ring, rest: string)
  {
    Lawful(c) && Named(now) && exists done :: Splits(c, data, done, rest) && now == Absorbed(c, start, done)
  }

  ghost predicate Splits(c: Crypto, data: string, done: seq<Bytes>, rest: string)
    requires Lawful(c)
  {
    Blocks(c, data) == (done + Blocks(c, rest).0, Blocks(c, rest).1)
  }

  lemma SplitsFurther(c: Crypto, data: string, done: seq<Bytes>, rest: string, p: Bytes, left: string)
    requires Lawful(c) && Splits(c, data, done, rest) && Blocks(c, rest) == ([p] + Blocks(c, left).0, Blocks(c, left).1)
    ensures Splits(c, data, done + [p], left)
  {
    var more := Blocks(c, left).0;
    assert done + ([p] + more) == (done + [p]) + more;
  }

  lemma AbsorbOneKeepsNamed(c: Crypto, r: Ring, p: Bytes)
    requires Named(r) && |p| == PUBLIC_KEY_SIZE && c.kid(p) != ""
    ensures Named(AbsorbOne(c, r, p))
  {
  }

  lemma ReadNothing(c: Crypto, start: Ring, data: string)
    requires Lawful(c) && Named(start)
    ensures ReadTo(c, start, data, start, data)
  {
    var done: seq<Bytes> := [];
    assert done + Blocks(c, data).0 == Blocks(c, data).0;
    assert Splits(c, data, done, data);
    assert Absorbed(c, start, done) == start;
  }

  lemma NextIsUsable(c: Crypto, rest: string)
    requires Lawful(c) && NextPublicKey(c, rest).Found?
    ensures var next := NextPublicKey(c, rest);
            && |next.rest| < |rest| && |next.key.pub| == PUBLIC_KEY_SIZE
            && next.key == Key(c.kid(next.key.pub), next.key.pub, []) && next.key.id != ""
  {
    TrimShortens(rest);
  }

  /** `nextPublicKey` reads the first block and leaves the others. */
  lemma NextReadsOneBlock(c: Crypto, data: string)
    requires Lawful(c)
    ensures var next := NextPublicKey(c, data);
            Blocks(c, data) ==
              if next.Found? then ([next.key.pub] + Blocks(c, next.rest).0, Blocks(c, next.rest).1) else ([], next.NoMore?)
  {
  }

  lemma ReadOneMore(c: Crypto, start: Ring, data: string, now: Ring, rest: string, p: Bytes, left: string)
    requires ReadTo(c, start, data, now, rest) && |p| == PUBLIC_KEY_SIZE && c.kid(p) != ""
    requires Blocks(c, rest) == ([p] + Blocks(c, left).0, Blocks(c, left).1)
    ensures ReadTo(c, start, data, AbsorbOne(c, now, p), left)
  {
    var done :| Splits(c, data, done, rest) && now == Absorbed(c, start, done);
    AbsorbedAppend(c, start, done, p);
    SplitsFurther(c, data, done, rest, p, left);
    AbsorbOneKeepsNamed(c, now, p);
  }

  lemma ReadAll(c: Crypto, start: Ring, data: string, now: Ring, rest: string)
    requires ReadTo(c, start, data, now, rest) && Blocks(c, rest).0 == []
    ensures now == Absorbed(c, start, Blocks(c, data).0) && Blocks(c, data).1 == Blocks(c, rest).1
  {
    var done :| Splits(c, data, done, rest) && now == Absorbed(c, start, done);
    assert done + [] == done;
  }

  /** One turn of the loop: the next block is absorbed, or the text is read. */
  lemma ReadOn(c: Crypto, start: Ring, data: string, now: Ring, rest: string)
    requires ReadTo(c, start, data, now, rest)
    ensures var next := NextPublicKey(c, rest);
            if next.Found? then
              && |next.rest| < |rest| && |next.key.pub| == PUBLIC_KEY_SIZE
              && next.key == Key(c.kid(next.key.pub), next.key.pub, []) && next.key.id != ""
              && ReadTo(c, start, data, AbsorbOne(c, now, next.key.pub), next.rest)
            else now == Absorbed(c, start, Blocks(c, data).0) && (Blocks(c, data).1 <==> next.NoMore?)
  {
    var next := NextPublicKey(c, rest);
    NextReadsOneBlock(c, rest);
    if next.Found? {
      NextIsUsable(c, rest);
      ReadOneMore(c, start, data, now, rest, next.key.pub, next.rest);
    } else {
      ReadAll(c, start, data, now, rest);
    }
  }

  /** The kid is injective on the keys given. */
  ghost predicate Distinct(c: Crypto, pubs: seq<Bytes>)
  {
    forall p, q :: p in pubs && q in pubs && c.kid(p) == c.kid(q) ==> p == q
  }

  predicate HeldPrivately(r: Ring, id: string) { id in r.keys && r.keys[id].CanSign() }

  /** What absorbing leaves under each kid: nothing in it depends on the order. */
  lemma {:induction false} AbsorbedAt(c: Crypto, r: Ring, pubs: seq<Bytes>, id: string)
    requires Distinct(c, pubs) && forall p :: c.kid(p) != ""
    ensures var t := Absorbed(c, r, pubs);
            && t.active == r.active
            && (id in t.keys <==> id in r.keys || exists p :: p in pubs && c.kid(p) == id)
            && (HeldPrivately(t, id) <==> HeldPrivately(r, id))
            && (id in r.keys && (HeldPrivately(r, id) || forall p :: p in pubs ==> c.kid(p) != id) ==> t.keys[id] == r.keys[id])
            && (forall p :: p in pubs && c.kid(p) == id && !HeldPrivately(r, id) ==> t.keys[id] == Key(id, p, []))
    decreases |pubs|
  {
    if pubs != [] {
      var init, last := pubs[..|pubs| - 1], pubs[|pubs| - 1];
      assert pubs == init + [last];
      AbsorbedAt(c, r, init, id);
      assert c.kid(last) == id ==> last in pubs;
    }
  }

  lemma AbsorbedInAnyOrder(c: Crypto, r: Ring, a: seq<Bytes>, b: seq<Bytes>)
    requires (forall p :: p in a <==> p in b) && Distinct(c, a) && forall p :: c.kid(p) != ""
    ensures Absorbed(c, r, a) == Absorbed(c, r, b)
  {
    var s, t := Absorbed(c, r, a), Absorbed(c, r, b);
    forall id ensures (id in s.keys <==> id in t.keys) && (id in s.keys ==> s.keys[id] == t.keys[id]) {
      AbsorbedAt(c, r, a, id);
      AbsorbedAt(c, r, b, id);
      if exists p :: p in a && c.kid(p) == id {
        var p :| p in a && c.kid(p) == id;
        assert p in b;
      }
    }
    AbsorbedAt(c, r, a, "");
    AbsorbedAt(c, r, b, "");
    assert s.keys == t.keys;
  }

  /** Only keys added with their private half can sign, whatever is absorbed afterwards. */
  lemma {:induction false} AbsorbedSigners(c: Crypto, r: Ring, pubs: seq<Bytes>, id: string)
    ensures Absorbed(c, r, pubs).active == r.active
    ensures HeldPrivately(r, id) ==> id in Absorbed(c, r, pubs).keys && Absorbed(c, r, pubs).keys[id] == r.keys[id]
    ensures HeldPrivately(Absorbed(c, r, pubs), id) ==> HeldPrivately(r, id)
    decreases |pubs|
  {
    if pubs != [] {
      AbsorbedSigners(c, r, pubs[..|pubs| - 1], id);
    }
  }

  /** Nothing absorbed is left out, and nothing there before is lost. */
  lemma {:induction false} AbsorbedHolds(c: Crypto, r: Ring, pubs: seq<Bytes>)
    ensures var t := Absorbed(c, r, pubs);
            (forall id :: id in r.keys ==> id in t.keys) && forall p :: p in pubs ==> c.kid(p) in t.keys
    decreases |pubs|
  {
    if pubs != [] {
      AbsorbedHolds(c, r, pubs[..|pubs| - 1]);
      assert pubs == pubs[..|pubs| - 1] + [pubs[|pubs| - 1]];
    }
  }

  /** The key of every block of the configured text ends up in the set. */
  lemma EveryBlockIsLoaded(c: Crypto, start: Ring, data: string, blocks: seq<string>, i: nat)
    requires Lawful(c) && Concatenates(c, data, blocks) && i < |blocks|
    requires forall j :: 0 <= j < |blocks| ==> c.parsePublic(blocks[j]).Some?
    ensures c.kid(c.parsePublic(blocks[i]).value) in Absorbed(c, start, Blocks(c, data).0).keys
  {
    EveryBlockIsRead(c, data, blocks);
    AbsorbedHolds(c, start, Blocks(c, data).0);
    assert c.parsePublic(blocks[i]).value in Blocks(c, data).0;
  }

  lemma {:induction false} AbsorbedEmpty(c: Crypto, r: Ring, pubs: seq<Bytes>)
    ensures Absorbed(c, r, pubs).keys == map[] <==> r.keys == map[] && pubs == []
    decreases |pubs|
  {
    if pubs != [] {
      AbsorbedEmpty(c, r, pubs[..|pubs| - 1]);
      var t := Absorbed(c, r, pubs);
      assert c.kid(pubs[|pubs| - 1]) in t.keys;
    }
  }

  /** The ring holding just the configured private key. */
  function PrivateRing(c: Crypto, priv: Bytes): Ring
  {
    var own := c.publicOf(priv);
    Ring(map[c.kid(own) := Key(c.kid(own), own, priv)], c.kid(own))
  }

  /** What the private setting alone yields. */
  function FromPrivate(c: Crypto, privatePEM: string): Option<Ring>
  {
    if privatePEM == "" then Some(EMPTY_RING)
    else match c.parsePrivate(NormalizePEM(privatePEM))
      case None => None
      case Some(k) => Some(PrivateRing(c, k))
  }

  /**
   `LoadKeySet`. It fails exactly when the private key does not parse, a public block does
   not, or public keys were configured and the set would be empty. Otherwise the private
   key is active and still able to sign, and no other key can.
   */
  method LoadKeySet(c: Crypto, privatePEM: string, publicPEM: string) returns (r: Result<Ring>)
    requires Lawful(c)
    ensures r.Err? <==>
              || FromPrivate(c, privatePEM).None?
              || (publicPEM != "" && !Blocks(c, NormalizePEM(publicPEM)).1)
              || (publicPEM != "" && privatePEM == "" && Blocks(c, NormalizePEM(publicPEM)).0 == [])
    ensures r.Err? ==> r.error == ErrInvalidKey
    ensures r.Ok? ==>
              && r.value == Absorbed(c, FromPrivate(c, privatePEM).value,
                                     if publicPEM == "" then [] else Blocks(c, NormalizePEM(publicPEM)).0)
              && Signs(r.value) && (r.value.active == "" <==> privatePEM == "")
              && (forall id :: HeldPrivately(r.value, id) ==> id == r.value.active)
              && (publicPEM != "" ==> forall p :: p in Blocks(c, NormalizePEM(publicPEM)).0 ==> c.kid(p) in r.value.keys)
  {
    var keys := new Set(c);
    if privatePEM != "" {
      var parsed := c.parsePrivate(NormalizePEM(privatePEM));
      if parsed.None? {
        return Err(ErrInvalidKey);
      }
      var own := c.publicOf(parsed.value);
      var added := keys.Add(Key(c.kid(own), own, parsed.value));
      assert keys.Value() == PrivateRing(c, parsed.value);
    }
    ghost var start := keys.Value();
    assert start == FromPrivate(c, privatePEM).value;
    assert privatePEM != "" ==> start.active in start.keys;
    ghost var pubs := if publicPEM == "" then [] else Blocks(c, NormalizePEM(publicPEM)).0;
    if publicPEM != "" {
      var added := keys.AddPublicKeys(NormalizePEM(publicPEM));
      if added.Err? {
        return Err(added.error);
      }
      AbsorbedEmpty(c, start, pubs);
      if keys.keys == map[] {
        return Err(ErrInvalidKey);
      }
    }
    r := Ok(keys.Value());
    forall id ensures HeldPrivately(r.value, id) ==> id == r.value.active {
      AbsorbedSigners(c, start, pubs, id);
    }
    AbsorbedSigners(c, start, pubs, start.active);
    AbsorbedHolds(c, start, pubs);
  }

  /** Any concatenation holding the same keys loads the same set: order and duplicates do not matter. */
  lemma LoadIgnoresOrder(c: Crypto, start: Ring, a: string, b: string)
    requires Lawful(c) && Distinct(c, Blocks(c, a).0)
    requires forall p :: p in Blocks(c, a).0 <==> p in Blocks(c, b).0
    ensures Absorbed(c, start, Blocks(c, a).0) == Absorbed(c, start, Blocks(c, b).0)
  {
    AbsorbedInAnyOrder(c, start, Blocks(c, a).0, Blocks(c, b).0);
  }

  /**
   What `Add` leaves alone: every other key, and the active kid once there is one. The first
   key that can sign becomes active.
   */
  lemma AddedKeepsTheRest(c: Crypto, r: Ring, key: Key)
    ensures var t := Added(c, r, key);
            var id := if key.id == "" then c.kid(key.pub) else key.id;
            && t.keys.Keys == r.keys.Keys + {id} && (forall other :: other in r.keys && other != id ==> t.keys[other] == r.keys[other])
            && t.keys[id].pub == key.pub && t.keys[id].priv == key.priv && t.keys[id].id == id
            && (r.active != "" ==> t.active == r.active)
            && (r.active == "" ==> t.active == if |key.priv| > 0 then id else "")
  {
  }

  /**
   `Add` on its own overwrites silently: the active kid still names a signing key afterwards
   exactly when the key added under it, if any, can sign.
   */
  lemma AddKeepsSigningIff(c: Crypto, r: Ring, key: Key)
    requires Signs(r)
    ensures Signs(Added(c, r, key)) <==> !(r.active != "" && NameOf(c, key) == r.active && !key.CanSign())
  {
  }
}
