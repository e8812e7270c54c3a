/** Signing payloads. Hashing, signing and signature checking are parameters. */
module Crypto {
  import opened Results
  import opened Sequences
  import opened CanonicalJson
  import opened CanonicalParser
  import Decimal

  datatype CryptoError = InvalidBase64 | InvalidKey | InvalidSignature | CanonicalFailed

  /**
   The primitives: the hexadecimal SHA-256 of a text; the private key, the public key and the signature that their
   base64 texts encode, or what is wrong with the text; the encoded signature of a message under a private key; whether a
   signature of a message checks under a public key.
   */
  datatype Primitives = Primitives(
    sha256Hex: string -> string,
    signingKey: string -> Result<string, CryptoError>,
    verifyingKey: string -> Result<string, CryptoError>,
    signature: string -> Result<string, CryptoError>,
    sign: (string, string) -> string,
    check: (string, string, string) -> bool)

  function PayloadText(body: Json, nonce: string, ts: int): string {
    Text(body) + "\n" + nonce + "\n" + Decimal.OfInt(ts)
  }

  method SigningPayload(body: Json, nonce: string, ts: int) returns (r: Result<string, CanonicalError>)
    requires WellFormed(body)
    ensures r == if Canonical(body).Ok? then Ok(PayloadText(body, nonce, ts)) else Err(DepthExceeded)
    ensures r.Ok? ==> r.value == Text(body) + "\n" + nonce + "\n" + Decimal.OfInt(ts)
  {
    var canonical := CanonicalJson.CanonicalJson(body);
    match canonical
    case Err(e) => r := Err(e);
    case Ok(text) => r := Ok(text + "\n" + nonce + "\n" + Decimal.OfInt(ts));
  }

  /** The signature of a body that can be printed, or what is wrong with the key. */
  function Signature(primitives: Primitives, privateKey: string, message: string): Result<string, CryptoError> {
    match primitives.signingKey(privateKey)
    case Err(e) => Err(e)
    case Ok(key) => Ok(primitives.sign(key, message))
  }

  /** Whether a signature checks, or what is wrong with the key or the signature, in this order. */
  function Verification(primitives: Primitives, publicKey: string, message: string, signature: string): Result<bool, CryptoError> {
    match primitives.verifyingKey(publicKey)
    case Err(e) => Err(e)
    case Ok(key) =>
      match primitives.signature(signature)
      case Err(e) => Err(e)
      case Ok(bytes) => Ok(primitives.check(key, message, bytes))
  }

  method SignPayload(primitives: Primitives, privateKey: string, body: Json, nonce: string, ts: int)
    returns (r: Result<string, CryptoError>)
    requires WellFormed(body)
    ensures Canonical(body).Ok? ==> r == Signature(primitives, privateKey, PayloadText(body, nonce, ts))
    ensures Canonical(body).Err? ==>
      r == Err(if primitives.signingKey(privateKey).Err? then primitives.signingKey(privateKey).error else CanonicalFailed)
    ensures r.Ok? ==>
      && primitives.signingKey(privateKey).Ok?
      && r.value == primitives.sign(primitives.signingKey(privateKey).value, Text(body) + "\n" + nonce + "\n" + Decimal.OfInt(ts))
  {
    var key := primitives.signingKey(privateKey);
    if key.Err? {
      return Err(key.error);
    }
    var payload := SigningPayload(body, nonce, ts);
    match payload
    case Err(_) => r := Err(CanonicalFailed);
    case Ok(text) => r := Ok(primitives.sign(key.value, text));
  }

  method VerifyPayload(primitives: Primitives, publicKey: string, body: Json, nonce: string, ts: int, signature: string)
    returns (r: Result<bool, CryptoError>)
    requires WellFormed(body)
    ensures Canonical(body).Ok? ==> r == Verification(primitives, publicKey, PayloadText(body, nonce, ts), signature)
    ensures Canonical(body).Err? ==>
      r == Err(if primitives.verifyingKey(publicKey).Err? then primitives.verifyingKey(publicKey).error
               else if primitives.signature(signature).Err? then primitives.signature(signature).error
               else CanonicalFailed)
    ensures r.Ok? ==>
      && primitives.verifyingKey(publicKey).Ok? && primitives.signature(signature).Ok?
      && r.value == primitives.check(primitives.verifyingKey(publicKey).value,
                                     Text(body) + "\n" + nonce + "\n" + Decimal.OfInt(ts),
                                     primitives.signature(signature).value)
  {
    var key := primitives.verifyingKey(publicKey);
    if key.Err? {
      return Err(key.error);
    }
    var bytes := primitives.signature(signature);
    if bytes.Err? {
      return Err(bytes.error);
    }
    var payload := SigningPayload(body, nonce, ts);
    match payload
    case Err(_) => r := Err(CanonicalFailed);
    case Ok(text) => r := Ok(primitives.check(key.value, text, bytes.value));
  }

  lemma LineFree(body: Json, ts: int)
    requires WellFormed(body)
    ensures '\n' !in Text(body) && '\n' !in Decimal.OfInt(ts)
  {
    TextNoControl(body);
  }

  /**
   A signed payload fixes everything it was made from: the body up to member order, the nonce whatever line breaks it
   contains, and the time stamp.
   */
  lemma PayloadDeterminesParts(b1: Json, n1: string, t1: int, b2: Json, n2: string, t2: int)
    requires WellFormed(b1) && WellFormed(b2)
    ensures PayloadText(b1, n1, t1) == PayloadText(b2, n2, t2) <==> SameUpToOrder(b1, b2) && n1 == n2 && t1 == t2
  {
    if PayloadText(b1, n1, t1) == PayloadText(b2, n2, t2) {
      LineFree(b1, t1);
      LineFree(b2, t2);
      var tail1, tail2 := n1 + "\n" + Decimal.OfInt(t1), n2 + "\n" + Decimal.OfInt(t2);
      assert PayloadText(b1, n1, t1) == Text(b1) + "\n" + tail1;
      assert PayloadText(b2, n2, t2) == Text(b2) + "\n" + tail2;
      SplitAtFirst(Text(b1), tail1, Text(b2), tail2, '\n');
      SplitAtLast(n1, Decimal.OfInt(t1), n2, Decimal.OfInt(t2), '\n');
      Decimal.OfIntInjective(t1, t2);
    }
    SameTextIffSame(b1, b2);
  }
}
