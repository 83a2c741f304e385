/** The L402 token: a macaroon whose caveats bind digest, payment hash, price,
    capability and an advisory expiry. Signatures are symbolic: HMAC is a free
    constructor, so two signatures agree only if key, identifier and caveats do. */
module L402 {
  import opened Decimal
  import opened Wrappers

  const L402_CAPABILITY := "timestamp"

  datatype Signature =
    | Root(key: string, identifier: string)
    | Chain(previous: Signature, caveat: string)

  datatype Macaroon = Macaroon(identifier: string, caveats: seq<string>, signature: Signature)

  /** What a verified token is worth: the payment hash and the mint-time price. */
  datatype Grant = Grant(paymentHash: string, price: nat)

  datatype Refusal = InvalidToken | WrongDigestOrTampered

  function Signed(key: string, identifier: string, caveats: seq<string>): Signature {
    if caveats == [] then Root(key, identifier)
    else Chain(Signed(key, identifier, caveats[..|caveats| - 1]), caveats[|caveats| - 1])
  }

  /** Adding a first-party caveat needs the token's signature only, not the key. */
  function Attenuated(m: Macaroon, caveat: string): Macaroon {
    Macaroon(m.identifier, m.caveats + [caveat], Chain(m.signature, caveat))
  }

  function AttenuatedBy(m: Macaroon, caveats: seq<string>): Macaroon
    decreases |caveats|
  {
    if caveats == [] then m else AttenuatedBy(Attenuated(m, caveats[0]), caveats[1..])
  }

  function MintedCaveats(digest: string, paymentHash: string, price: int, expiry: int): seq<string> {
    [Caveat("digest", digest), Caveat("payment_hash", paymentHash), Caveat("price", Print(price)),
     Caveat("capability", L402_CAPABILITY), Caveat("expiry", Print(expiry))]
  }

  function Caveat(key: string, value: string): string { key + "=" + value }

  function Mint(key: string, digest: string, paymentHash: string, price: int, expiry: int): Macaroon {
    var caveats := MintedCaveats(digest, paymentHash, price, expiry);
    Macaroon(paymentHash, caveats, Signed(key, paymentHash, caveats))
  }

  // ---- reading and checking caveats ----

  predicate HasKey(caveat: string, key: string) { key + "=" <= caveat }

  function ValueOf(caveat: string, key: string): string
    requires HasKey(caveat, key)
  {
    caveat[|key| + 1..]
  }

  /** The value of the first caveat with this key. */
  function CaveatValue(caveats: seq<string>, key: string): Option<string> {
    if caveats == [] then None
    else if HasKey(caveats[0], key) then Some(ValueOf(caveats[0], key))
    else CaveatValue(caveats[1..], key)
  }

  predicate IsLowerHex(c: char) { IsDigit(c) || 'a' <= c <= 'f' }

  /** `[0-9a-f]{64}` */
  predicate IsHash(s: string) { |s| == 64 && forall i | 0 <= i < |s| :: IsLowerHex(s[i]) }

  /** `[1-9][0-9]*` */
  predicate IsPrice(s: string) { s != [] && AllDigits(s) && s[0] != '0' }

  /** `[0-9]+` */
  predicate IsExpiry(s: string) { s != [] && AllDigits(s) }

  /** Some predicate registered with the verifier accepts the caveat. */
  predicate Satisfied(caveat: string, digest: string) {
    || caveat == Caveat("digest", digest)
    || caveat == Caveat("capability", L402_CAPABILITY)
    || (HasKey(caveat, "payment_hash") && IsHash(ValueOf(caveat, "payment_hash")))
    || (HasKey(caveat, "price") && IsPrice(ValueOf(caveat, "price")))
    || (HasKey(caveat, "expiry") && IsExpiry(ValueOf(caveat, "expiry")))
  }

  predicate AllSatisfied(caveats: seq<string>, digest: string) {
    forall i | 0 <= i < |caveats| :: Satisfied(caveats[i], digest)
  }

  function Verify(key: string, m: Macaroon, digest: string): Result<Grant, Refusal> {
    var paymentHash := CaveatValue(m.caveats, "payment_hash");
    var price := CaveatValue(m.caveats, "price");
    if paymentHash == None || !IsHash(paymentHash.value) then Err(InvalidToken)
    else if price == None || !IsPrice(price.value) then Err(InvalidToken)
    else if m.signature != Signed(key, m.identifier, m.caveats) || !AllSatisfied(m.caveats, digest) then
      Err(WrongDigestOrTampered)
    else Ok(Grant(paymentHash.value, Parse(price.value)))
  }

  // ---- caveats as key and value ----

  ghost predicate IsKey(key: string) { '=' !in key }

  /** The first `=` ends the key, so key and value are read back from a caveat. */
  lemma CaveatReads(key: string, value: string, other: string)
    requires IsKey(key) && IsKey(other)
    ensures HasKey(Caveat(key, value), other) <==> key == other
    ensures HasKey(Caveat(key, value), key) && ValueOf(Caveat(key, value), key) == value
  {
    var c := Caveat(key, value);
    assert c[|key|] == '=';
    assert c[..|key| + 1] == key + "=";
    if HasKey(c, other) {
      assert c[|other|] == (other + "=")[|other|] == '=';
      assert |key| == |other|;
      assert key == c[..|key|] == other;
    }
  }

  lemma CaveatInjective(key: string, value: string, other: string, value': string)
    requires IsKey(key) && IsKey(other) && Caveat(key, value) == Caveat(other, value')
    ensures key == other && value == value'
  {
    CaveatReads(key, value, other);
    CaveatReads(other, value', key);
  }

  lemma {:induction false} TheKeys()
    ensures IsKey("digest") && IsKey("payment_hash") && IsKey("price") && IsKey("capability") && IsKey("expiry")
    ensures "digest" != "payment_hash" && "digest" != "price" && "digest" != "capability" && "digest" != "expiry"
    ensures "payment_hash" != "price" && "payment_hash" != "capability" && "payment_hash" != "expiry"
    ensures "price" != "capability" && "price" != "expiry" && "capability" != "expiry"
  {
  }

  /** A caveat is judged by the one predicate its key selects. */
  lemma SatisfiedByKey(key: string, value: string, digest: string)
    requires IsKey(key)
    ensures Satisfied(Caveat(key, value), digest) <==>
              || (key == "digest" && value == digest)
              || (key == "capability" && value == L402_CAPABILITY)
              || (key == "payment_hash" && IsHash(value))
              || (key == "price" && IsPrice(value))
              || (key == "expiry" && IsExpiry(value))
  {
    TheKeys();
    CaveatReads(key, value, "digest");
    CaveatReads(key, value, "capability");
    CaveatReads(key, value, "payment_hash");
    CaveatReads(key, value, "price");
    CaveatReads(key, value, "expiry");
    if Caveat(key, value) == Caveat("digest", digest) {
      CaveatInjective(key, value, "digest", digest);
    }
    if Caveat(key, value) == Caveat("capability", L402_CAPABILITY) {
      CaveatInjective(key, value, "capability", L402_CAPABILITY);
    }
  }

  // ---- the token round trip ----

  lemma NumeralsFare(n: int)
    ensures IsPrice(Print(n)) <==> n >= 1
    ensures IsExpiry(Print(n)) <==> n >= 0
    ensures n >= 0 ==> AllDigits(Print(n)) && Parse(Print(n)) == n
  {
    if n < 0 {
      assert Print(n)[0] == '-';
    } else {
      PrintParse(n);
    }
  }

  lemma MintedCaveatsFare(digest: string, paymentHash: string, price: int, expiry: int, presented: string)
    ensures AllSatisfied(MintedCaveats(digest, paymentHash, price, expiry), presented)
            <==> digest == presented && IsHash(paymentHash) && price >= 1 && expiry >= 0
  {
    var c := MintedCaveats(digest, paymentHash, price, expiry);
    TheKeys();
    SatisfiedByKey("digest", digest, presented);
    SatisfiedByKey("payment_hash", paymentHash, presented);
    SatisfiedByKey("price", Print(price), presented);
    SatisfiedByKey("capability", L402_CAPABILITY, presented);
    SatisfiedByKey("expiry", Print(expiry), presented);
    NumeralsFare(price);
    NumeralsFare(expiry);
    assert AllSatisfied(c, presented) <==>
      Satisfied(c[0], presented) && Satisfied(c[1], presented) && Satisfied(c[2], presented)
      && Satisfied(c[3], presented) && Satisfied(c[4], presented);
  }

  /** The minted payment hash and price are the first of their keys. */
  lemma MintedValues(digest: string, paymentHash: string, price: int, expiry: int, extra: seq<string>)
    ensures var c := MintedCaveats(digest, paymentHash, price, expiry) + extra;
            CaveatValue(c, "payment_hash") == Some(paymentHash) && CaveatValue(c, "price") == Some(Print(price))
  {
    var c := MintedCaveats(digest, paymentHash, price, expiry) + extra;
    TheKeys();
    CaveatReads("digest", digest, "payment_hash");
    CaveatReads("digest", digest, "price");
    CaveatReads("payment_hash", paymentHash, "price");
    FirstOfItsKey(c, 1, "payment_hash", paymentHash);
    FirstOfItsKey(c, 2, "price", Print(price));
  }

  /** So are the digest, the capability and the expiry, and nothing else is minted. */
  lemma MintedBindings(digest: string, paymentHash: string, price: int, expiry: int, extra: seq<string>)
    ensures var c := MintedCaveats(digest, paymentHash, price, expiry) + extra;
            && CaveatValue(c, "digest") == Some(digest)
            && CaveatValue(c, "capability") == Some("timestamp")
            && CaveatValue(c, "expiry") == Some(Print(expiry))
            && |c| == 5 + |extra|
  {
    var c := MintedCaveats(digest, paymentHash, price, expiry) + extra;
    TheKeys();
    forall key | key == "capability" || key == "expiry"
      ensures !HasKey(c[0], key) && !HasKey(c[1], key) && !HasKey(c[2], key)
    {
      CaveatReads("digest", digest, key);
      CaveatReads("payment_hash", paymentHash, key);
      CaveatReads("price", Print(price), key);
    }
    CaveatReads("capability", L402_CAPABILITY, "expiry");
    FirstOfItsKey(c, 0, "digest", digest);
    FirstOfItsKey(c, 3, "capability", L402_CAPABILITY);
    FirstOfItsKey(c, 4, "expiry", Print(expiry));
  }

  lemma {:induction false} FirstOfItsKey(c: seq<string>, i: nat, key: string, value: string)
    requires i < |c| && c[i] == Caveat(key, value) && IsKey(key)
    requires forall j | 0 <= j < i :: !HasKey(c[j], key)
    ensures CaveatValue(c, key) == Some(value)
  {
    if i == 0 {
      CaveatReads(key, value, key);
    } else {
      FirstOfItsKey(c[1..], i - 1, key, value);
    }
  }

  lemma SatisfiedParts(a: seq<string>, b: seq<string>, digest: string)
    ensures AllSatisfied(a + b, digest) <==> AllSatisfied(a, digest) && AllSatisfied(b, digest)
  {
    if AllSatisfied(a + b, digest) {
      assert forall i | 0 <= i < |a| :: a[i] == (a + b)[i];
      assert forall i | 0 <= i < |b| :: b[i] == (a + b)[i + |a|];
    }
  }

  /** A minted token with any appended caveats is accepted exactly when the digest
      is its own, hash, price and expiry are well formed, and every appended
      caveat satisfies the verifier; and then it is worth what was minted, since
      the first matching caveat wins. No clock enters. */
  lemma GenuineTokenIsWorthItsMint(key: string, digest: string, paymentHash: string, price: int, expiry: int,
                                   extra: seq<string>, presented: string)
    ensures var r := Verify(key, AttenuatedBy(Mint(key, digest, paymentHash, price, expiry), extra), presented);
            && (r.Ok? <==> digest == presented && IsHash(paymentHash) && price >= 1 && expiry >= 0
                           && AllSatisfied(extra, presented))
            && (r.Ok? ==> r.value == Grant(paymentHash, price))
  {
    var m := Mint(key, digest, paymentHash, price, expiry);
    AttenuationSigns(key, m, extra);
    MintedValues(digest, paymentHash, price, expiry, extra);
    MintedCaveatsFare(digest, paymentHash, price, expiry, presented);
    SatisfiedParts(m.caveats, extra, presented);
    NumeralsFare(price);
  }

  /** How a token is refused: as invalid when its first payment hash or price is missing
      or malformed, otherwise as tampered or for another digest. */
  lemma RefusedExactly(key: string, m: Macaroon, digest: string)
    ensures var ph, price := CaveatValue(m.caveats, "payment_hash"), CaveatValue(m.caveats, "price");
            var readable :=
              && ph.Some? && |ph.value| == 64
              && (forall i | 0 <= i < 64 :: '0' <= ph.value[i] <= '9' || 'a' <= ph.value[i] <= 'f')
              && price.Some? && price.value != [] && '1' <= price.value[0] <= '9'
              && (forall i | 0 <= i < |price.value| :: '0' <= price.value[i] <= '9');
            && (Verify(key, m, digest) == Err(InvalidToken) <==> !readable)
            && (Verify(key, m, digest) == Err(WrongDigestOrTampered) <==>
                  readable && !(m.signature == Signed(key, m.identifier, m.caveats)
                                && forall i | 0 <= i < |m.caveats| :: Satisfied(m.caveats[i], digest)))
  {
  }

  lemma {:induction false} AttenuationSigns(key: string, m: Macaroon, extra: seq<string>)
    requires m.signature == Signed(key, m.identifier, m.caveats)
    ensures var caveats := m.caveats + extra;
            AttenuatedBy(m, extra) == Macaroon(m.identifier, caveats, Signed(key, m.identifier, caveats))
    decreases |extra|
  {
    if extra == [] {
      assert m.caveats + extra == m.caveats;
    } else {
      var next := m.caveats + [extra[0]];
      assert next[..|next| - 1] == m.caveats;
      AttenuationSigns(key, Attenuated(m, extra[0]), extra[1..]);
      assert next + extra[1..] == m.caveats + extra;
    }
  }

  // ---- unforgeability ----

  /** The gateway's side of one challenge. */
  datatype Challenge = Challenge(digest: string, paymentHash: string, price: int, expiry: int)

  function TokenOf(key: string, c: Challenge): Macaroon { Mint(key, c.digest, c.paymentHash, c.price, c.expiry) }

  /** The signatures someone without the key can present: those of minted tokens,
      any signature under another key, and chains over presentable ones. */
  ghost predicate Presentable(key: string, minted: set<Challenge>, s: Signature) {
    || (exists c | c in minted :: TokenOf(key, c).signature == s)
    || match s
       case Root(k, _) => k != key
       case Chain(previous, _) => Presentable(key, minted, previous)
  }

  lemma {:induction false} PresentableComesFromMint(key: string, minted: set<Challenge>, identifier: string,
                                                    caveats: seq<string>)
      returns (c: Challenge)
    requires Presentable(key, minted, Signed(key, identifier, caveats))
    ensures c in minted && identifier == c.paymentHash && TokenOf(key, c).caveats <= caveats
    decreases |caveats|
  {
    var s := Signed(key, identifier, caveats);
    if c' :| c' in minted && TokenOf(key, c').signature == s {
      c := c';
      SignedInjective(key, c.paymentHash, TokenOf(key, c).caveats, identifier, caveats);
    } else {
      c := PresentableComesFromMint(key, minted, identifier, caveats[..|caveats| - 1]);
    }
  }

  lemma {:induction false} SignedInjective(key: string, i: string, a: seq<string>, j: string, b: seq<string>)
    requires Signed(key, i, a) == Signed(key, j, b)
    ensures i == j && a == b
    decreases |a|
  {
    if a != [] && b != [] {
      SignedInjective(key, i, a[..|a| - 1], j, b[..|b| - 1]);
      assert a == a[..|a| - 1] + [a[|a| - 1]] && b == b[..|b| - 1] + [b[|b| - 1]];
    }
  }

  /** A validly signed token someone without the key presents is a minted token
      with caveats appended. */
  lemma PresentableExtendsMint(key: string, minted: set<Challenge>, m: Macaroon)
      returns (c: Challenge, extra: seq<string>)
    requires Presentable(key, minted, m.signature) && m.signature == Signed(key, m.identifier, m.caveats)
    ensures c in minted && m == AttenuatedBy(TokenOf(key, c), extra)
  {
    c := PresentableComesFromMint(key, minted, m.identifier, m.caveats);
    var own := TokenOf(key, c).caveats;
    extra := m.caveats[|own|..];
    assert m.caveats == own + extra;
    AttenuationSigns(key, TokenOf(key, c), extra);
  }

  /** Whatever token is presented by someone who holds minted tokens but not the
      key: if it is accepted for a digest, the gateway minted a challenge for that
      digest, payment hash and price. */
  lemma {:induction false} AcceptedTokenWasMinted(key: string, minted: set<Challenge>, m: Macaroon, digest: string)
    requires Presentable(key, minted, m.signature)
    ensures Verify(key, m, digest).Ok? ==>
              exists c :: c in minted && c.digest == digest && c.price >= 1
                          && Verify(key, m, digest).value == Grant(c.paymentHash, c.price)
  {
    if Verify(key, m, digest).Ok? {
      var c, extra := PresentableExtendsMint(key, minted, m);
      GenuineTokenIsWorthItsMint(key, c.digest, c.paymentHash, c.price, c.expiry, extra, digest);
    }
  }
}
