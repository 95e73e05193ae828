/**
  RSA blind-signature analytics tokens: the server's SignBlind, Verify,
  ValidateBlinded and TokenHash, and the wallet's blinding and unblinding. SHA-256 is
  an arbitrary function on byte strings.
 */
module BlindToken {
  import opened Options
  import opened NumberTheory
  import opened Codec

  type Hash = seq<Byte> -> seq<Byte>

  datatype PublicKey = PublicKey(n: nat, e: nat)

  datatype PrivateKey = PrivateKey(pub: PublicKey, d: nat, p: nat, q: nat)

  /** The key equation of section 3.2 of RFC 8017 for two primes. */
  ghost predicate ValidKey(k: PrivateKey) {
    && Prime(k.p) && Prime(k.q) && k.p != k.q
    && k.pub.n == k.p * k.q
    && k.pub.e >= 1 && k.d >= 1
    && Cong(k.pub.e * k.d, 1, k.p - 1)
    && Cong(k.pub.e * k.d, 1, k.q - 1)
  }

  datatype TokenError = BadHex | OutOfRange | Panic

  datatype Result<+T> = Success(value: T) | Failure(error: TokenError)

  // ---------- Server ----------

  function SignBlind(blindedHex: string, key: PrivateKey): Result<string> {
    match DecodeHex(blindedHex)
    case None => Failure(BadHex)
    case Some(b) =>
      var mBlind := FromBytes(b);
      if mBlind <= 0 || mBlind >= key.pub.n then Failure(OutOfRange)
      else
        var sBlind := Pow(mBlind, key.d) % key.pub.n;
        match FillBytes(sBlind, ByteWidth(key.pub.n))
        case None => Failure(Panic)
        case Some(out) => Success(EncodeHex(out))
  }

  function Representative(msg: seq<Byte>, n: nat, sha: Hash): (m: nat)
    requires n > 0
  {
    FromBytes(sha(msg)) % n
  }

  predicate Verify(msgHex: string, sigHex: string, pub: PublicKey, sha: Hash)
    requires pub.n > 0
  {
    match (DecodeHex(msgHex), DecodeHex(sigHex))
    case (Some(msg), Some(sigBytes)) =>
      var expected := Representative(msg, pub.n, sha);
      var sig := FromBytes(sigBytes);
      if sig <= 0 || sig >= pub.n then false
      else
        var actual := Pow(sig, pub.e) % pub.n % pub.n;
        expected == actual
    case _ => false
  }

  function TokenHash(msgHex: string, sha: Hash): Option<string> {
    match DecodeHex(msgHex)
    case None => None
    case Some(b) => Some(EncodeHex(sha(b)))
  }

  /** The digest of the message that a text spells. */
  function DigestOf(msgHex: string, sha: Hash): seq<Byte>
    requires DecodeHex(msgHex).Some?
  {
    sha(DecodeHex(msgHex).value)
  }

  /** Two token hashes agree if and only if the digests of their messages do. */
  lemma {:induction false} TokenHashDistinguishes(a: string, b: string, sha: Hash)
    ensures TokenHash(a, sha).Some? <==> DecodeHex(a).Some?
    ensures DecodeHex(a).Some? && DecodeHex(b).Some? ==>
              (TokenHash(a, sha) == TokenHash(b, sha) <==> DigestOf(a, sha) == DigestOf(b, sha))
  {
    if DecodeHex(a).Some? && DecodeHex(b).Some? {
      DecodeEncode(DigestOf(a, sha));
      DecodeEncode(DigestOf(b, sha));
    }
  }

  function ValidateBlinded(blindedHex: string, pub: PublicKey): Result<()> {
    match DecodeHex(blindedHex)
    case None => Failure(BadHex)
    case Some(b) =>
      var v := FromBytes(b);
      if v <= 0 || v >= pub.n then Failure(OutOfRange) else Success(())
  }

  // ---------- Wallet ----------

  function Blind(m: nat, r: nat, pub: PublicKey): nat
    requires pub.n > 0
  {
    (m * Pow(r, pub.e)) % pub.n
  }

  function Unblind(sBlind: nat, r: nat, pub: PublicKey): nat
    requires pub.n > 1
  {
    (sBlind * Inverse(r, pub.n)) % pub.n
  }

  // ---------- The key as a permutation ----------

  lemma {:induction false} KeyFacts(k: PrivateKey)
    requires ValidKey(k)
    ensures k.pub.n > 1 && k.pub.e * k.d >= 1
  {
    MulAtLeast(k.p, k.q);
    MulAtLeast(k.pub.e, k.d);
  }

  /** Raising to e and then to d is the identity modulo n, and so is the reverse. */
  lemma {:induction false} KeyInverts(k: PrivateKey, x: nat)
    requires ValidKey(k)
    ensures k.pub.n > 1
    ensures Cong(Pow(Pow(x, k.pub.e), k.d), x, k.pub.n)
    ensures Cong(Pow(Pow(x, k.d), k.pub.e), x, k.pub.n)
  {
    KeyFacts(k);
    var e, d := k.pub.e, k.d;
    RsaIdentity(x, e * d, k.p, k.q);
    PowMul(x, e, d);
    PowMul(x, d, e);
    assert e * d == d * e;
  }

  lemma {:induction false} CongSmall(a: int, b: int, n: nat)
    requires n > 0 && Cong(a, b, n) && 0 <= a < n && 0 <= b < n
    ensures a == b
  {
    CongIffMod(a, b, n);
    DivModUnique(a, n, 0, a);
    DivModUnique(b, n, 0, b);
  }

  /** Equal e-th powers have equal bases modulo n. */
  lemma {:induction false} PowerInjective(k: PrivateKey, x: nat, y: nat)
    requires ValidKey(k) && k.pub.n > 1
    requires Cong(Pow(x, k.pub.e), Pow(y, k.pub.e), k.pub.n)
    ensures Cong(x, y, k.pub.n)
  {
    var n := k.pub.n;
    CongPow(Pow(x, k.pub.e), Pow(y, k.pub.e), k.d, n);
    KeyInverts(k, x);
    KeyInverts(k, y);
    CongSym(Pow(Pow(x, k.pub.e), k.d), x, n);
    CongTrans(x, Pow(Pow(x, k.pub.e), k.d), Pow(Pow(y, k.pub.e), k.d), n);
    CongTrans(x, Pow(Pow(y, k.pub.e), k.d), y, n);
  }

  // ---------- SignBlind ----------

  /** SignBlind accepts exactly what ValidateBlinded accepts, with the same error. */
  lemma {:induction false} SignBlindAcceptance(blindedHex: string, k: PrivateKey)
    requires ValidKey(k)
    ensures SignBlind(blindedHex, k).Success? <==> ValidateBlinded(blindedHex, k.pub).Success?
    ensures SignBlind(blindedHex, k).Failure? ==>
              SignBlind(blindedHex, k).error == ValidateBlinded(blindedHex, k.pub).error
  {
    SignBlindEncoding(blindedHex, k);
  }

  /**
    FillBytes never panics; the answer has two digits for each byte of the modulus
    and decodes to the blinded value raised to d.
   */
  lemma {:induction false} SignBlindEncoding(blindedHex: string, k: PrivateKey)
    requires ValidKey(k)
    ensures k.pub.n > 1
    ensures SignBlind(blindedHex, k) != Failure(Panic)
    ensures SignBlind(blindedHex, k).Success? ==>
              && DecodeInt(blindedHex).Some?
              && |SignBlind(blindedHex, k).value| == 2 * ByteWidth(k.pub.n)
              && DecodeInt(SignBlind(blindedHex, k).value) ==
                   Some(Pow(DecodeInt(blindedHex).value, k.d) % k.pub.n)
  {
    KeyFacts(k);
    if ValidateBlinded(blindedHex, k.pub).Success? {
      var sBlind := Pow(DecodeInt(blindedHex).value, k.d) % k.pub.n;
      WidthFits(sBlind, k.pub.n);
      var out := FillBytes(sBlind, ByteWidth(k.pub.n)).value;
      DecodeEncode(out);
      EncodeHexLength(out);
    }
  }

  lemma {:induction false} EncodeHexLength(bs: seq<Byte>)
    ensures |EncodeHex(bs)| == 2 * |bs|
    decreases |bs|
  {
    if |bs| > 0 { EncodeHexLength(bs[1..]); }
  }

  // ---------- Blinding ----------

  lemma {:induction false} InversePower(r: nat, e: nat, n: nat)
    requires n > 1 && Gcd(r, n) == 1
    ensures Cong(Pow(r, e) * Pow(Inverse(r, n), e), 1, n)
  {
    InverseCorrect(r, n);
    PowBase(r, Inverse(r, n), e);
    CongPow(r * Inverse(r, n), 1, e, n);
    PowOne(e);
  }

  /** Multiplying by a unit and then by its inverse changes nothing. */
  lemma {:induction false} CancelUnit(x: int, u: int, v: int, n: nat)
    requires n > 1 && Cong(u * v, 1, n)
    ensures Cong(x * u * v, x, n)
  {
    CongIntro(x, x, n, 0);
    CongMul(x, x, u * v, 1, n);
    MulAssoc(x, u, v);
  }

  lemma {:induction false} BlindZero(m: nat, r: nat, pub: PublicKey)
    requires pub.n > 1 && m < pub.n && Gcd(r, pub.n) == 1
    ensures Blind(m, r, pub) == 0 <==> m == 0
  {
    var n, u, v := pub.n, Pow(r, pub.e), Pow(Inverse(r, pub.n), pub.e);
    InversePower(r, pub.e, n);
    if Blind(m, r, pub) == 0 {
      CancelUnit(m, u, v, n);
      CongIntro(v, v, n, 0);
      CongMul(m * u, 0, v, v, n);
      CongSym(m * u * v, m, n);
      CongTrans(m, m * u * v, 0, n);
      CongSmall(m, 0, n);
    }
  }

  /** Unblinding the signature of a blinded value gives m^d. */
  lemma {:induction false} UnblindIsSignature(m: nat, r: nat, k: PrivateKey)
    requires ValidKey(k) && k.pub.n > 1 && Gcd(r, k.pub.n) == 1
    ensures Cong(Unblind(Pow(Blind(m, r, k.pub), k.d) % k.pub.n, r, k.pub), Pow(m, k.d), k.pub.n)
  {
    var n, e, d := k.pub.n, k.pub.e, k.d;
    var b, inv := Blind(m, r, k.pub), Inverse(r, k.pub.n);
    var md := Pow(m, d);
    // b^d = m^d (r^e)^d = m^d r
    CongMod(m * Pow(r, e), n);
    CongPow(b, m * Pow(r, e), d, n);
    PowBase(m, Pow(r, e), d);
    KeyInverts(k, r);
    CongIntro(md, md, n, 0);
    CongMul(md, md, Pow(Pow(r, e), d), r, n);
    CongTrans(Pow(b, d), md * Pow(Pow(r, e), d), md * r, n);
    CongMod(Pow(b, d), n);
    CongTrans(Pow(b, d) % n, Pow(b, d), md * r, n);
    // and multiplying by the inverse of r leaves m^d
    CongIntro(inv, inv, n, 0);
    CongMul(Pow(b, d) % n, md * r, inv, inv, n);
    InverseCorrect(r, n);
    CancelUnit(md, r, inv, n);
    CongTrans((Pow(b, d) % n) * inv, md * r * inv, md, n);
    CongMod((Pow(b, d) % n) * inv, n);
    CongTrans(((Pow(b, d) % n) * inv) % n, (Pow(b, d) % n) * inv, md, n);
  }

  /** Verification accepts exactly the non-zero representatives' e-th roots. */
  lemma {:induction false} VerifyMeaning(msgHex: string, sigHex: string, pub: PublicKey, sha: Hash)
    requires pub.n > 0
    ensures Verify(msgHex, sigHex, pub, sha) <==>
              && DecodeHex(msgHex).Some? && DecodeInt(sigHex).Some?
              && 0 < DecodeInt(sigHex).value < pub.n
              && Cong(Pow(DecodeInt(sigHex).value, pub.e),
                      FromBytes(sha(DecodeHex(msgHex).value)), pub.n)
  {
    if DecodeHex(msgHex).Some? && DecodeInt(sigHex).Some? {
      var x, h := Pow(DecodeInt(sigHex).value, pub.e), FromBytes(sha(DecodeHex(msgHex).value));
      CongIffMod(x, h, pub.n);
      DivModUnique(x % pub.n, pub.n, 0, x % pub.n);
    }
  }

  /**
    The blind round trip. Whatever hexadecimal spelling the wallet uses for its
    blinded value, the server signs it exactly when the representative is non-zero,
    and then every spelling of the unblinded answer verifies.
   */
  lemma {:induction false} BlindRoundTrip(k: PrivateKey, sha: Hash, msgHex: string, r: nat, blindedHex: string)
    requires ValidKey(k) && k.pub.n > 1
    requires Gcd(r, k.pub.n) == 1
    requires DecodeHex(msgHex).Some?
    requires DecodeInt(blindedHex) ==
               Some(Blind(Representative(DecodeHex(msgHex).value, k.pub.n, sha), r, k.pub))
    ensures var m := Representative(DecodeHex(msgHex).value, k.pub.n, sha);
            SignBlind(blindedHex, k).Success? <==> m != 0
    ensures SignBlind(blindedHex, k).Success? ==>
              && DecodeInt(SignBlind(blindedHex, k).value).Some?
              && forall sigHex ::
                   DecodeInt(sigHex) == Some(Unblind(DecodeInt(SignBlind(blindedHex, k).value).value, r, k.pub))
                   ==> Verify(msgHex, sigHex, k.pub, sha)
  {
    var h := FromBytes(sha(DecodeHex(msgHex).value));
    var n, m := k.pub.n, h % k.pub.n;
    SignBlindEncoding(blindedHex, k);
    BlindZero(m, r, k.pub);
    if m != 0 {
      var s := Unblind(DecodeInt(SignBlind(blindedHex, k).value).value, r, k.pub);
      SignatureVerifies(k, h, r, s);
      forall sigHex | DecodeInt(sigHex) == Some(s)
        ensures Verify(msgHex, sigHex, k.pub, sha)
      {
        VerifyMeaning(msgHex, sigHex, k.pub, sha);
      }
    }
  }

  lemma {:induction false} SignatureVerifies(k: PrivateKey, h: nat, r: nat, s: nat)
    requires ValidKey(k) && k.pub.n > 1 && Gcd(r, k.pub.n) == 1 && h % k.pub.n != 0
    requires s == Unblind(Pow(Blind(h % k.pub.n, r, k.pub), k.d) % k.pub.n, r, k.pub)
    ensures 0 < s < k.pub.n && Cong(Pow(s, k.pub.e), h, k.pub.n)
  {
    var n, m := k.pub.n, h % k.pub.n;
    UnblindIsSignature(m, r, k);
    CongPow(s, Pow(m, k.d), k.pub.e, n);
    KeyInverts(k, m);
    CongTrans(Pow(s, k.pub.e), Pow(Pow(m, k.d), k.pub.e), m, n);
    if s == 0 {
      assert Pow(0, k.pub.e) == 0 * Pow(0, k.pub.e - 1);
      CongSmall(0, m, n);
    }
    CongMod(h, n);
    CongTrans(Pow(s, k.pub.e), m, h, n);
  }

  // ---------- Uniqueness ----------

  ghost predicate IsSignature(s: nat, m: nat, pub: PublicKey)
    requires pub.n > 0
  {
    0 < s < pub.n && Pow(s, pub.e) % pub.n == m
  }

  /**
    A non-zero representative has exactly one signature, m^d mod n; the zero
    representative has none.
   */
  lemma {:induction false} SignatureUnique(k: PrivateKey, m: nat, s: nat)
    requires ValidKey(k) && k.pub.n > 1 && m < k.pub.n
    ensures IsSignature(s, m, k.pub) <==> m != 0 && s == Pow(m, k.d) % k.pub.n
  {
    var n, e := k.pub.n, k.pub.e;
    var t := Pow(m, k.d) % n;
    CongMod(Pow(m, k.d), n);
    CongPow(t, Pow(m, k.d), e, n);
    KeyInverts(k, m);
    CongTrans(Pow(t, e), Pow(Pow(m, k.d), e), m, n);
    CongIffMod(Pow(t, e), m, n);
    DivModUnique(m, n, 0, m);
    assert Pow(t, e) % n == m;
    assert Pow(0, e) == 0 * Pow(0, e - 1);
    if IsSignature(s, m, k.pub) {
      CongIffMod(Pow(s, e), Pow(t, e), n);
      PowerInjective(k, s, t);
      CongSmall(s, t, n);
    }
  }

  /** Two spellings that verify for one message denote one integer. */
  lemma {:induction false} VerifyUnique(k: PrivateKey, sha: Hash, msgHex: string, a: string, b: string)
    requires ValidKey(k) && k.pub.n > 1
    requires Verify(msgHex, a, k.pub, sha) && Verify(msgHex, b, k.pub, sha)
    ensures DecodeInt(a) == DecodeInt(b)
  {
    var m := Representative(DecodeHex(msgHex).value, k.pub.n, sha);
    var x, y := DecodeInt(a).value, DecodeInt(b).value;
    DivModUnique(Pow(x, k.pub.e) % k.pub.n, k.pub.n, 0, Pow(x, k.pub.e) % k.pub.n);
    DivModUnique(Pow(y, k.pub.e) % k.pub.n, k.pub.n, 0, Pow(y, k.pub.e) % k.pub.n);
    SignatureUnique(k, m, x);
    SignatureUnique(k, m, y);
  }

  // ---------- Unlinkability ----------

  /** The one blinding factor that turns representative m into b. */
  function BlindingFactor(k: PrivateKey, m: nat, b: nat): nat
    requires k.pub.n > 1
  {
    Pow(b * Inverse(m, k.pub.n), k.d) % k.pub.n
  }

  /**
    Perfect blinding: for units m and b there is exactly one r below n with
    Blind(m, r) = b, and it is a unit. A blinded value is thus compatible with every
    message, each through a single equally likely r.
   */
  lemma {:induction false} PerfectBlinding(k: PrivateKey, m: nat, b: nat, r: nat)
    requires ValidKey(k) && k.pub.n > 1
    requires Gcd(m, k.pub.n) == 1 && Gcd(b, k.pub.n) == 1 && b < k.pub.n
    ensures Gcd(BlindingFactor(k, m, b), k.pub.n) == 1
    ensures r < k.pub.n ==> (Blind(m, r, k.pub) == b <==> r == BlindingFactor(k, m, b))
  {
    var n, e := k.pub.n, k.pub.e;
    var r0 := BlindingFactor(k, m, b);
    BlindingFactorWorks(k, m, b);
    BlindUnit(m, r0, b, k.pub);
    if r < n && Blind(m, r, k.pub) == b {
      BlindCancel(m, r, r0, k.pub);
      PowerInjective(k, r, r0);
      CongSmall(r, r0, n);
    }
  }

  lemma {:induction false} BlindingFactorWorks(k: PrivateKey, m: nat, b: nat)
    requires ValidKey(k) && k.pub.n > 1 && Gcd(m, k.pub.n) == 1 && b < k.pub.n
    ensures Blind(m, BlindingFactor(k, m, b), k.pub) == b
  {
    var n, y := k.pub.n, Pow(BlindingFactor(k, m, b), k.pub.e);
    FactorPower(k, m, b);
    QuotientTimes(m, b, y, n);
    CongIffMod(m * y, b, n);
    DivModUnique(b, n, 0, b);
  }

  /** The factor's e-th power is b / m. */
  lemma {:induction false} FactorPower(k: PrivateKey, m: nat, b: nat)
    requires ValidKey(k) && k.pub.n > 1 && Gcd(m, k.pub.n) == 1
    ensures Cong(Pow(BlindingFactor(k, m, b), k.pub.e), b * Inverse(m, k.pub.n), k.pub.n)
  {
    var n, e, x := k.pub.n, k.pub.e, b * Inverse(m, k.pub.n);
    var r := BlindingFactor(k, m, b);
    CongMod(Pow(x, k.d), n);
    CongPow(r, Pow(x, k.d), e, n);
    KeyInverts(k, x);
    CongTrans(Pow(r, e), Pow(Pow(x, k.d), e), x, n);
  }

  /** And m times b / m is b. */
  lemma {:induction false} QuotientTimes(m: nat, b: nat, y: int, n: nat)
    requires n > 1 && Gcd(m, n) == 1 && Cong(y, b * Inverse(m, n), n)
    ensures Cong(m * y, b, n)
  {
    var inv := Inverse(m, n);
    CongIntro(m, m, n, 0);
    CongMul(m, m, y, b * inv, n);
    InverseCorrect(m, n);
    CancelUnit(b, inv, m, n);
    assert m * (b * inv) == b * inv * m;
    CongTrans(m * y, m * (b * inv), b, n);
  }

  /** If the blinded value is a unit, so is the blinding factor. */
  lemma {:induction false} BlindUnit(m: nat, r: nat, b: nat, pub: PublicKey)
    requires pub.n > 1 && pub.e >= 1 && Gcd(b, pub.n) == 1 && Blind(m, r, pub) == b
    ensures Gcd(r, pub.n) == 1
  {
    var w := Pow(r, pub.e - 1);
    assert Pow(r, pub.e) == r * w;
    PutFirst(m, r, w);
    ResidueUnitFactor(r, m * w, b, pub.n);
  }

  lemma {:induction false} PutFirst(a: int, b: int, c: int)
    ensures a * (b * c) == b * (a * c)
  {
  }

  lemma {:induction false} ResidueUnitFactor(x: nat, y: int, b: nat, n: nat)
    requires n > 1 && Gcd(b, n) == 1 && (x * y) % n == b
    ensures Gcd(x, n) == 1
  {
    CongMod(x * y, n);
    CongSym(b, x * y, n);
    UnitFactor(x, y, b, n);
  }

  /** A factor of a unit is a unit. */
  lemma {:induction false} UnitFactor(x: nat, y: int, b: nat, n: nat)
    requires n > 1 && Gcd(b, n) == 1 && Cong(x * y, b, n)
    ensures Gcd(x, n) == 1
  {
    var inv := Inverse(b, n);
    CongIntro(inv, inv, n, 0);
    CongMul(x * y, b, inv, inv, n);
    InverseCorrect(b, n);
    CongTrans(x * y * inv, b * inv, 1, n);
    MulAssoc(x, y, inv);
    InvertibleIsCoprime(x, y * inv, n);
  }

  lemma {:induction false} BlindCancel(m: nat, r: nat, r': nat, pub: PublicKey)
    requires pub.n > 1 && Gcd(m, pub.n) == 1 && Blind(m, r, pub) == Blind(m, r', pub)
    ensures Cong(Pow(r, pub.e), Pow(r', pub.e), pub.n)
  {
    var n, x, y, inv := pub.n, Pow(r, pub.e), Pow(r', pub.e), Inverse(m, pub.n);
    InverseCorrect(m, n);
    CongIffMod(m * x, m * y, n);
    CongIntro(inv, inv, n, 0);
    CongMul(m * x, m * y, inv, inv, n);
    CancelUnit(x, m, inv, n);
    CancelUnit(y, m, inv, n);
    assert x * m * inv == m * x * inv && y * m * inv == m * y * inv;
    CongSym(x * m * inv, x, n);
    CongTrans(x, m * x * inv, m * y * inv, n);
    CongTrans(x, m * y * inv, y, n);
  }

  /** Strings that differ only in digit case decode to the same bytes. */
  lemma {:induction false} SameSpelling(a: string, b: string)
    requires DecodeHex(a).Some? && DecodeHex(b).Some? && LowerHex(a) == LowerHex(b)
    ensures DecodeHex(a) == DecodeHex(b)
  {
    EncodeDecode(a);
    EncodeDecode(b);
    DecodeEncode(DecodeHex(a).value);
    DecodeEncode(DecodeHex(b).value);
  }
}
