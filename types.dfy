/** Values that the provider's parsing and dispatch layer passes around, and the
    library primitives it calls. The primitives (PEM, X.509, PKIX, SSH, PKCS #12,
    hashForState, the key parser table) are not modelled: they enter the model as
    function-valued fields of `Externals`, so every property proved here holds for
    every implementation of them. */
module Types {

  /** One octet. */
  type byte = bv8

  /** A Go `string` is an immutable sequence of bytes; `[]byte(s)` and `string(b)`
      convert between the two without changing the content. */
  type GoString = seq<byte>

  /** The bytes of an ASCII literal, as Go stores a string literal. */
  function Ascii(s: string): GoString
    requires forall i :: 0 <= i < |s| ==> s[i] < 128 as char
  {
    seq(|s|, i requires 0 <= i < |s| => AsciiByte(s[i]))
  }

  /** The byte of one ASCII character. */
  function AsciiByte(c: char): byte
    requires c < 128 as char
  {
    c as int as byte
  }

  datatype Option<T> = None | Some(value: T)

  datatype Result<T, E> = Ok(value: T) | Err(error: E)

  /** The error value a library primitive returns; its text is the library's. */
  type Cause = GoString

  /** A decoded PEM block (encoding/pem's Block, headers omitted). */
  datatype PemBlock = PemBlock(typ: GoString, bytes: seq<byte>)

  /** An X.509 distinguished name (crypto/x509/pkix's Name), reduced to its
      attribute fields (Names and ExtraNames are not modelled). */
  datatype Name = Name(
    country: seq<GoString>,
    organization: seq<GoString>,
    organizationalUnit: seq<GoString>,
    locality: seq<GoString>,
    province: seq<GoString>,
    streetAddress: seq<GoString>,
    postalCode: seq<GoString>,
    serialNumber: GoString,
    commonName: GoString)

  /** Key values the crypto library produces; their structure is the library's. */
  datatype PrivateKey = PrivateKey(material: seq<byte>)
  datatype PublicKey = PublicKey(material: seq<byte>)
  datatype SshPublicKey = SshPublicKey(material: seq<byte>)

  /** The part of a parsed certificate signing request (x509.CertificateRequest)
      that the provider reads. */
  datatype CertificateRequest = CertificateRequest(
    subject: Name,
    dnsNames: seq<GoString>,
    emailAddresses: seq<GoString>,
    ipAddresses: seq<seq<byte>>,
    uris: seq<GoString>,
    publicKey: PublicKey)

  /** An X.509 certificate (x509.Certificate), reduced to the fields this layer
      reads or sets: both the template handed to the signer and a certificate
      parsed from PEM. Times are seconds since Go's zero time, and a nil pointer
      or interface is `None`. */
  datatype Certificate = Certificate(
    raw: seq<byte>,
    subject: Name,
    issuer: Name,
    serialNumber: Option<int>,
    notBefore: int,
    notAfter: int,
    keyUsage: nat,
    extKeyUsage: seq<nat>,
    basicConstraintsValid: bool,
    isCA: bool,
    maxPathLen: int,
    maxPathLenZero: bool,
    dnsNames: seq<GoString>,
    emailAddresses: seq<GoString>,
    ipAddresses: seq<seq<byte>>,
    uris: seq<GoString>,
    publicKey: Option<PublicKey>)

  /** The Go zero value of pkix.Name. */
  const EmptyName: Name := Name([], [], [], [], [], [], [], [], [])

  /** The Go zero value of x509.Certificate, on the modelled fields. */
  const ZeroCertificate: Certificate :=
    Certificate([], EmptyName, EmptyName, None, 0, 0, 0, [], false, false, 0, false,
                [], [], [], [], None)

  /** The errors of the parsing layer. Each carries the field it is about, except
      a failure to marshal the public key, whose message names none. */
  datatype Error =
    | NoPemBlock(field: string)                        // no PEM block found in <field>
    | InvalidPemType(field: string, actual: GoString)  // invalid PEM type in <field>: <type>
    | InvalidAlgorithm(field: string, name: GoString)  // invalid <algorithm field>: <name>
    | KeyDecodeFailed(field: string, cause: Cause)     // failed to decode <field>: <cause>
    | ParseFailed(field: string, cause: Cause)         // failed to parse <field>: <cause>
    | NoCertificates(field: string)                    // no certificates found in <field>
    | MultipleCertificates(field: string)              // multiple certificates found in <field>
    | MarshalFailed(cause: Cause)                      // failed to marshal public key
  {
    /** The input field the error names, if any. */
    function Field(): Option<string>
    {
      if MarshalFailed? then None else Some(field)
    }
  }

  /** A private key decoder, one entry of the provider's `keyParsers` table. */
  type KeyParser = seq<byte> -> Result<PrivateKey, Cause>

  /** Everything the two modelled files call but do not define. */
  datatype Externals = Externals(
    // pem.Decode: the first block of the text, if any, and the text after it.
    pemDecode: seq<byte> -> (Option<PemBlock>, seq<byte>),
    // pem.EncodeToMemory
    pemEncode: PemBlock -> seq<byte>,
    // keyParsers: algorithm name to decoder
    keyParsers: map<GoString, KeyParser>,
    // x509.ParseCertificates
    parseCertificates: seq<byte> -> Result<seq<Certificate>, Cause>,
    // x509.ParseCertificateRequest
    parseCertificateRequest: seq<byte> -> Result<CertificateRequest, Cause>,
    // publicKey: the public half of a private key
    publicKey: PrivateKey -> PublicKey,
    // x509.MarshalPKIXPublicKey
    marshalPkix: PublicKey -> Result<seq<byte>, Cause>,
    // ssh.NewPublicKey
    sshNewPublicKey: PublicKey -> Result<SshPublicKey, Cause>,
    // ssh.MarshalAuthorizedKey
    sshMarshalAuthorizedKey: SshPublicKey -> seq<byte>,
    // ssh.FingerprintLegacyMD5
    sshFingerprintLegacyMd5: SshPublicKey -> GoString,
    // hashForState
    hashForState: GoString -> GoString,
    // pkcs12.Encode(rand, privateKey, certificate, caCerts, password), with the
    // bytes the random source delivers as its first argument
    pkcs12Encode: (seq<byte>, PrivateKey, Certificate, seq<Certificate>, GoString) -> Result<seq<byte>, Cause>)
}
