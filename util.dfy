/** The artifact parsing helpers of internal/provider/util.go: each reads one or
    two string fields of the resource state, decodes a PEM block, hands its bytes
    to a library parser and names the offending field in every error it returns;
    and the two output helpers, which write the public-key attributes and build
    the base64 PKCS #12 bundle. */
module Util {
  import opened Types
  import opened ResourceState
  import Base64

  /** The PEM label of a certificate signing request (section 7 of RFC 7468). */
  const PemCertReqType: GoString := Ascii("CERTIFICATE REQUEST")

  /** The PEM label of a subject public key info (section 13 of RFC 7468). */
  const PublicKeyPemType: GoString := Ascii("PUBLIC KEY")

  const PublicKeyPemField := "public_key_pem"
  const PublicKeyOpensshField := "public_key_openssh"
  const PublicKeyFingerprintMd5Field := "public_key_fingerprint_md5"

  /** The block pem.Decode finds first in the text of field pemKey, if any. */
  function FirstBlock(x: Externals, d: ResourceData, pemKey: string): Option<PemBlock>
    reads d
  {
    x.pemDecode(d.Get(pemKey)).0
  }

  /** decodePEM: the first PEM block of field pemKey; when pemType is not empty
      the block must carry that label. */
  function DecodePem(x: Externals, d: ResourceData, pemKey: string, pemType: GoString)
    : (r: Result<PemBlock, Error>)
    reads d
    // no block at all: the error names the field
    ensures r == Err(NoPemBlock(pemKey)) <==> FirstBlock(x, d, pemKey).None?
    // a block whose label differs from a required one: the error reports the label found
    ensures (FirstBlock(x, d, pemKey).Some? && pemType != [] && FirstBlock(x, d, pemKey).value.typ != pemType)
            <==> r.Err? && r.error.InvalidPemType?
    ensures r.Err? && r.error.InvalidPemType? ==>
              r.error == InvalidPemType(pemKey, FirstBlock(x, d, pemKey).value.typ)
    // with no required label any block is accepted
    ensures pemType == [] ==> (r.Ok? <==> FirstBlock(x, d, pemKey).Some?)
    // success returns the first block itself, and a required label is honoured
    ensures r.Ok? ==> FirstBlock(x, d, pemKey) == Some(r.value)
    ensures r.Ok? && pemType != [] ==> r.value.typ == pemType
    // a block carrying the required label, or any block when none is required, is returned
    ensures FirstBlock(x, d, pemKey).Some? && (pemType == [] || FirstBlock(x, d, pemKey).value.typ == pemType)
            ==> r == Ok(FirstBlock(x, d, pemKey).value)
  {
    var (block, _) := x.pemDecode(d.Get(pemKey));
    if block.None? then
      Err(NoPemBlock(pemKey))
    else if pemType != [] && block.value.typ != pemType then
      Err(InvalidPemType(pemKey, block.value.typ))
    else
      Ok(block.value)
  }

  /** Only the first block counts: what pem.Decode leaves over after it, and the
      rest of the decoder's behaviour, make no difference. */
  lemma DecodePemUsesFirstBlockOnly(x: Externals, y: Externals, d: ResourceData, e: ResourceData,
                                    pemKey: string, pemType: GoString)
    requires FirstBlock(x, d, pemKey) == FirstBlock(y, e, pemKey)
    ensures DecodePem(x, d, pemKey, pemType) == DecodePem(y, e, pemKey, pemType)
  {
  }

  /** parsePrivateKey: looks the algorithm named by field algoKey up in the key
      parser table, then decodes the PEM block of field pemKey with that parser. */
  function ParsePrivateKey(x: Externals, d: ResourceData, pemKey: string, algoKey: string)
    : (r: Result<PrivateKey, Error>)
    reads d
    // an unknown algorithm is reported whatever the PEM text holds
    ensures d.Get(algoKey) !in x.keyParsers ==> r == Err(InvalidAlgorithm(algoKey, d.Get(algoKey)))
    // a PEM failure is passed on unchanged
    ensures d.Get(algoKey) in x.keyParsers && DecodePem(x, d, pemKey, []).Err? ==>
              r == Err(DecodePem(x, d, pemKey, []).error)
    // the decoder's verdict on the block's bytes decides the rest
    ensures d.Get(algoKey) in x.keyParsers && DecodePem(x, d, pemKey, []).Ok? ==>
              var out := x.keyParsers[d.Get(algoKey)](DecodePem(x, d, pemKey, []).value.bytes);
              r == match out
                   case Ok(key) => Ok(key)
                   case Err(cause) => Err(KeyDecodeFailed(pemKey, cause))
    ensures r.Err? ==> r.error.Field() == Some(algoKey) || r.error.Field() == Some(pemKey)
  {
    var algoName := d.Get(algoKey);
    if algoName !in x.keyParsers then
      Err(InvalidAlgorithm(algoKey, algoName))
    else
      var keyFunc := x.keyParsers[algoName];
      match DecodePem(x, d, pemKey, [])
      case Err(e) => Err(e)
      case Ok(block) =>
        match keyFunc(block.bytes)
        case Err(cause) => Err(KeyDecodeFailed(pemKey, cause))
        case Ok(key) => Ok(key)
  }

  /** The algorithm is checked before any PEM decoding: with an unknown algorithm
      the result does not depend on the key field, the PEM decoder or the key
      parsers at all. */
  lemma UnknownAlgorithmShortCircuits(x: Externals, y: Externals, d: ResourceData, e: ResourceData,
                                      pemKey: string, algoKey: string)
    requires d.Get(algoKey) == e.Get(algoKey)
    requires d.Get(algoKey) !in x.keyParsers && e.Get(algoKey) !in y.keyParsers
    ensures ParsePrivateKey(x, d, pemKey, algoKey) == ParsePrivateKey(y, e, pemKey, algoKey)
    ensures ParsePrivateKey(x, d, pemKey, algoKey).Err?
  {
  }

  /** parseCertificate: the PEM block of field pemKey, whatever its label, must
      hold exactly one certificate. */
  function ParseCertificate(x: Externals, d: ResourceData, pemKey: string)
    : (r: Result<Certificate, Error>)
    reads d
    ensures DecodePem(x, d, pemKey, []).Err? ==> r == Err(DecodePem(x, d, pemKey, []).error)
    ensures DecodePem(x, d, pemKey, []).Ok? ==>
              match x.parseCertificates(DecodePem(x, d, pemKey, []).value.bytes)
              // a parse error is reported before the certificates are counted
              case Err(cause) => r == Err(ParseFailed(pemKey, cause))
              case Ok(certs) =>
                && (|certs| == 0 <==> r == Err(NoCertificates(pemKey)))
                && (|certs| > 1 <==> r == Err(MultipleCertificates(pemKey)))
                && (|certs| == 1 <==> r.Ok?)
                && (r.Ok? ==> r.value == certs[0])
    ensures r.Err? ==> r.error.Field() == Some(pemKey)
  {
    match DecodePem(x, d, pemKey, [])
    case Err(e) => Err(e)
    case Ok(block) =>
      match x.parseCertificates(block.bytes)
      case Err(cause) => Err(ParseFailed(pemKey, cause))
      case Ok(certs) =>
        if |certs| < 1 then Err(NoCertificates(pemKey))
        else if |certs| > 1 then Err(MultipleCertificates(pemKey))
        else Ok(certs[0])
  }

  /** parseCertificateRequest: the PEM block of field pemKey must carry the
      certificate request label before its bytes are parsed. */
  function ParseCertificateRequest(x: Externals, d: ResourceData, pemKey: string)
    : (r: Result<CertificateRequest, Error>)
    reads d
    ensures FirstBlock(x, d, pemKey).None? ==> r == Err(NoPemBlock(pemKey))
    ensures FirstBlock(x, d, pemKey).Some? && FirstBlock(x, d, pemKey).value.typ != PemCertReqType ==>
              r == Err(InvalidPemType(pemKey, FirstBlock(x, d, pemKey).value.typ))
    ensures FirstBlock(x, d, pemKey).Some? && FirstBlock(x, d, pemKey).value.typ == PemCertReqType ==>
              match x.parseCertificateRequest(FirstBlock(x, d, pemKey).value.bytes)
              case Err(cause) => r == Err(ParseFailed(pemKey, cause))
              case Ok(req) => r == Ok(req)
    ensures r.Err? ==> r.error.Field() == Some(pemKey)
  {
    match DecodePem(x, d, pemKey, PemCertReqType)
    case Err(e) => Err(e)
    case Ok(block) =>
      match x.parseCertificateRequest(block.bytes)
      case Err(cause) => Err(ParseFailed(pemKey, cause))
      case Ok(req) => Ok(req)
  }

  /** A block with another label is refused before the request parser runs: the
      result is the same whichever parser the library supplies. */
  lemma CsrLabelCheckedBeforeParse(x: Externals, y: Externals, d: ResourceData, pemKey: string)
    requires FirstBlock(x, d, pemKey) == FirstBlock(y, d, pemKey)
    requires FirstBlock(x, d, pemKey).Some? ==> FirstBlock(x, d, pemKey).value.typ != PemCertReqType
    ensures ParseCertificateRequest(x, d, pemKey) == ParseCertificateRequest(y, d, pemKey)
    ensures ParseCertificateRequest(x, d, pemKey).Err?
  {
  }

  /** The four string attributes readPublicKey writes: the resource id and the
      three public-key fields. */
  datatype PublicKeyOutputs = PublicKeyOutputs(
    id: GoString,
    publicKeyPem: GoString,
    publicKeyOpenssh: GoString,
    publicKeyFingerprintMd5: GoString)

  /** What readPublicKey writes for rsaKey, or the error it returns instead. */
  function PublicKeyOutputsOf(x: Externals, rsaKey: PrivateKey): (r: Result<PublicKeyOutputs, Error>)
    ensures x.marshalPkix(x.publicKey(rsaKey)).Err? ==>
              r == Err(MarshalFailed(x.marshalPkix(x.publicKey(rsaKey)).error))
    ensures x.marshalPkix(x.publicKey(rsaKey)).Ok? ==>
              var der := x.marshalPkix(x.publicKey(rsaKey)).value;
              && r.Ok?
              // the id is the state hash of the marshalled public key
              && r.value.id == x.hashForState(der)
              && r.value.publicKeyPem == x.pemEncode(PemBlock(PublicKeyPemType, der))
    // a key the SSH library cannot represent leaves both SSH fields empty, and is no error
    ensures r.Ok? && x.sshNewPublicKey(x.publicKey(rsaKey)).Err? ==>
              r.value.publicKeyOpenssh == [] && r.value.publicKeyFingerprintMd5 == []
    ensures r.Ok? && x.sshNewPublicKey(x.publicKey(rsaKey)).Ok? ==>
              var ssh := x.sshNewPublicKey(x.publicKey(rsaKey)).value;
              && r.value.publicKeyOpenssh == x.sshMarshalAuthorizedKey(ssh)
              && r.value.publicKeyFingerprintMd5 == x.sshFingerprintLegacyMd5(ssh)
  {
    match x.marshalPkix(x.publicKey(rsaKey))
    case Err(cause) => Err(MarshalFailed(cause))
    case Ok(pubKeyBytes) =>
      var pem := x.pemEncode(PemBlock(PublicKeyPemType, pubKeyBytes));
      match x.sshNewPublicKey(x.publicKey(rsaKey))
      case Ok(ssh) =>
        Ok(PublicKeyOutputs(x.hashForState(pubKeyBytes), pem,
                            x.sshMarshalAuthorizedKey(ssh), x.sshFingerprintLegacyMd5(ssh)))
      case Err(_) =>
        Ok(PublicKeyOutputs(x.hashForState(pubKeyBytes), pem, [], []))
  }

  /** The resource id and the PEM public key depend on the key only through its
      marshalled public half: two keys with the same public key bytes get the same
      identity, whatever else differs between them. */
  lemma IdentityDependsOnlyOnPublicKeyBytes(x: Externals, k1: PrivateKey, k2: PrivateKey)
    requires x.marshalPkix(x.publicKey(k1)) == x.marshalPkix(x.publicKey(k2))
    ensures PublicKeyOutputsOf(x, k1).Ok? == PublicKeyOutputsOf(x, k2).Ok?
    ensures PublicKeyOutputsOf(x, k1).Ok? ==>
              && PublicKeyOutputsOf(x, k1).value.id == PublicKeyOutputsOf(x, k2).value.id
              && PublicKeyOutputsOf(x, k1).value.publicKeyPem == PublicKeyOutputsOf(x, k2).value.publicKeyPem
  {
  }

  /** readPublicKey: sets the resource id and the public-key fields of d from
      rsaKey. A marshalling failure is returned before anything is written; a
      key that has no SSH form is not an error. */
  method ReadPublicKey(x: Externals, d: ResourceData, rsaKey: PrivateKey) returns (err: Option<Error>)
    modifies d
    ensures PublicKeyOutputsOf(x, rsaKey).Err? ==>
              && err == Some(PublicKeyOutputsOf(x, rsaKey).error)
              && d.id == old(d.id) && d.values == old(d.values)
    ensures PublicKeyOutputsOf(x, rsaKey).Ok? ==>
              var out := PublicKeyOutputsOf(x, rsaKey).value;
              && err == None
              && d.id == out.id
              && d.values == old(d.values)[PublicKeyPemField := out.publicKeyPem]
                                          [PublicKeyOpensshField := out.publicKeyOpenssh]
                                          [PublicKeyFingerprintMd5Field := out.publicKeyFingerprintMd5]
    // no other field is written
    ensures forall k :: k != PublicKeyPemField && k != PublicKeyOpensshField && k != PublicKeyFingerprintMd5Field ==>
              d.Get(k) == old(d.Get(k))
  {
    var pubKey := x.publicKey(rsaKey);
    var marshalled := x.marshalPkix(pubKey);
    if marshalled.Err? {
      return Some(MarshalFailed(marshalled.error));
    }
    var pubKeyBytes := marshalled.value;
    var pubKeyPemBlock := PemBlock(PublicKeyPemType, pubKeyBytes);

    d.SetId(x.hashForState(pubKeyBytes));
    d.Set(PublicKeyPemField, x.pemEncode(pubKeyPemBlock));

    var sshPubKey := x.sshNewPublicKey(x.publicKey(rsaKey));
    if sshPubKey.Ok? {
      d.Set(PublicKeyOpensshField, x.sshMarshalAuthorizedKey(sshPubKey.value));
      d.Set(PublicKeyFingerprintMd5Field, x.sshFingerprintLegacyMd5(sshPubKey.value));
    } else {
      d.Set(PublicKeyOpensshField, []);
      d.Set(PublicKeyFingerprintMd5Field, []);
    }
    return None;
  }

  /** createB64Pfx: the PKCS #12 bundle of the key and certificates, base64
      encoded into a buffer of exactly the encoded length. An encoder error is
      returned as it is. */
  method CreateB64Pfx(x: Externals, rand: seq<byte>, privateKey: PrivateKey, certificate: Certificate,
                      caCerts: seq<Certificate>, password: GoString)
    returns (r: Result<seq<byte>, Cause>)
    ensures var pfx := x.pkcs12Encode(rand, privateKey, certificate, caCerts, password);
            && (pfx.Err? <==> r.Err?)
            && (pfx.Err? ==> r.error == pfx.error)
            && (pfx.Ok? ==> r.value == Base64.Encode(pfx.value)
                            && |r.value| == Base64.EncodedLen(|pfx.value|))
  {
    var pfxData := x.pkcs12Encode(rand, privateKey, certificate, caCerts, password);
    if pfxData.Err? {
      return Err(pfxData.error);
    }
    var b64Buffer := new byte[Base64.EncodedLen(|pfxData.value|)];
    Base64.EncodeInto(b64Buffer, pfxData.value);
    return Ok(b64Buffer[..]);
  }
}
