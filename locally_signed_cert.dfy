/** internal/provider/resource_locally_signed_cert.go: the field table of the
    locally signed certificate resource, and its Create step, which parses the
    request and the CA artifacts in a fixed order and prepares the certificate
    template that the signer receives. */
module LocallySignedCert {
  import opened Types
  import opened ResourceState
  import opened Util

  const CertRequestPemField := "cert_request_pem"
  const CaKeyAlgorithmField := "ca_key_algorithm"
  const CaPrivateKeyPemField := "ca_private_key_pem"
  const CaCertPemField := "ca_cert_pem"
  const KeyAlgorithmField := "key_algorithm"
  const PrivateKeyPemField := "private_key_pem"

  /** The fields this resource adds to the common certificate schema. */
  const LocallySignedFields: set<string> :=
    {CertRequestPemField, CaKeyAlgorithmField, CaPrivateKeyPemField, CaCertPemField,
     KeyAlgorithmField, PrivateKeyPemField}

  /** The value kind of a schema field; every field here is a string. */
  datatype ValueType = TypeString

  /** How a field's value is stored in state: as given, or as hashForState of it. */
  datatype StateFunc = Verbatim | HashForState

  /** One entry of the resource schema (the SDK's schema.Schema, reduced to the
      attributes set here). */
  datatype FieldSchema = FieldSchema(
    typ: ValueType,
    required: bool,
    optional: bool,
    description: string,
    forceNew: bool,
    sensitive: bool,
    stateFunc: StateFunc)

  /** The SDK's zero-valued schema entry of a given type. */
  function StringField(description: string): FieldSchema
  {
    FieldSchema(TypeString, false, false, description, false, false, Verbatim)
  }

  /** The six entries, as resourceLocallySignedCert writes them. */
  const CertRequestPemSchema := StringField("PEM-encoded certificate request")
    .(required := true, forceNew := true, stateFunc := HashForState)
  const CaKeyAlgorithmSchema :=
    StringField("Name of the algorithm used to generate the certificate's private key")
    .(required := true, forceNew := true)
  const CaPrivateKeyPemSchema := StringField("PEM-encoded CA private key used to sign the certificate")
    .(required := true, forceNew := true, sensitive := true, stateFunc := HashForState)
  const CaCertPemSchema := StringField("PEM-encoded CA certificate")
    .(required := true, forceNew := true, stateFunc := HashForState)
  const KeyAlgorithmSchema :=
    StringField("Algorithm of private key for requested certificate (provide to have PFX bundle generated)")
    .(optional := true)
  const PrivateKeyPemSchema :=
    StringField("Private key for requested certificate (provide to have PFX bundle generated)")
    .(optional := true, sensitive := true)

  /** The entry of one of this resource's own fields. */
  function LocallySignedField(k: string): (f: FieldSchema)
    requires k in LocallySignedFields
    // the request and the CA inputs are required, and exactly they force replacement
    ensures f.required <==>
              k in {CertRequestPemField, CaKeyAlgorithmField, CaPrivateKeyPemField, CaCertPemField}
    ensures f.forceNew <==>
              k in {CertRequestPemField, CaKeyAlgorithmField, CaPrivateKeyPemField, CaCertPemField}
    // the leaf key inputs are optional and can change in place
    ensures f.optional <==> k in {KeyAlgorithmField, PrivateKeyPemField}
    ensures !(f.required && f.optional)
    // the PEM texts of the request, the CA key and the CA certificate are kept only as hashes
    ensures f.stateFunc == HashForState <==> k in {CertRequestPemField, CaPrivateKeyPemField, CaCertPemField}
    // the two private keys are sensitive
    ensures f.sensitive <==> k in {CaPrivateKeyPemField, PrivateKeyPemField}
  {
    if k == CertRequestPemField then CertRequestPemSchema
    else if k == CaKeyAlgorithmField then CaKeyAlgorithmSchema
    else if k == CaPrivateKeyPemField then CaPrivateKeyPemSchema
    else if k == CaCertPemField then CaCertPemSchema
    else if k == KeyAlgorithmField then KeyAlgorithmSchema
    else PrivateKeyPemSchema
  }

  /** resourceLocallySignedCert: inserts the six fields of this resource into the
      common certificate schema, replacing any entry of the same name. */
  method ResourceLocallySignedCert(common: map<string, FieldSchema>) returns (s: map<string, FieldSchema>)
    ensures s.Keys == common.Keys + LocallySignedFields
    ensures forall k :: k in common && k !in LocallySignedFields ==> s[k] == common[k]
    ensures forall k :: k in LocallySignedFields ==> s[k] == LocallySignedField(k)
  {
    s := common;
    s := s[CertRequestPemField := CertRequestPemSchema];
    s := s[CaKeyAlgorithmField := CaKeyAlgorithmSchema];
    s := s[CaPrivateKeyPemField := CaPrivateKeyPemSchema];
    s := s[CaCertPemField := CaCertPemSchema];
    s := s[KeyAlgorithmField := KeyAlgorithmSchema];
    s := s[PrivateKeyPemField := PrivateKeyPemSchema];
  }

  /** The arguments CreateLocallySignedCert hands to createCertificate, which signs
      the template and writes the resulting state. */
  datatype CertificateCall = CertificateCall(
    template: Certificate,
    issuer: Certificate,
    subjectKey: PublicKey,
    signer: PrivateKey)

  /** The certificate literal built from the request: subject and the three
      subject alternative name lists copied, basic constraints marked valid, and
      every other field left at its zero value. */
  function TemplateFromRequest(req: CertificateRequest): (t: Certificate)
    ensures t.subject == req.subject
    ensures t.dnsNames == req.dnsNames && t.ipAddresses == req.ipAddresses && t.uris == req.uris
    ensures t.basicConstraintsValid
    // not a CA, no serial number, no validity, no usages, no key and no e-mail addresses
    ensures !t.isCA && t.maxPathLen == 0 && !t.maxPathLenZero
    ensures t.serialNumber == None && t.notBefore == 0 && t.notAfter == 0
    ensures t.keyUsage == 0 && t.extKeyUsage == []
    ensures t.publicKey == None && t.emailAddresses == [] && t.issuer == EmptyName && t.raw == []
    // nothing else is set
    ensures t.(subject := EmptyName, dnsNames := [], ipAddresses := [], uris := [],
               basicConstraintsValid := false) == ZeroCertificate
  {
    ZeroCertificate.(
      subject := req.subject,
      dnsNames := req.dnsNames,
      ipAddresses := req.ipAddresses,
      uris := req.uris,
      basicConstraintsValid := true)
  }

  /** The three parse steps of CreateLocallySignedCert, in order. */
  function CsrStep(x: Externals, d: ResourceData): Result<CertificateRequest, Error>
    reads d
  {
    ParseCertificateRequest(x, d, CertRequestPemField)
  }

  function CaKeyStep(x: Externals, d: ResourceData): Result<PrivateKey, Error>
    reads d
  {
    ParsePrivateKey(x, d, CaPrivateKeyPemField, CaKeyAlgorithmField)
  }

  function CaCertStep(x: Externals, d: ResourceData): Result<Certificate, Error>
    reads d
  {
    ParseCertificate(x, d, CaCertPemField)
  }

  /** CreateLocallySignedCert up to the call of createCertificate: the first
      failing parse step's error, or the call that signs the template built from
      the request with the CA key, under the CA certificate. */
  function CreateLocallySignedCert(x: Externals, d: ResourceData): (r: Result<CertificateCall, Error>)
    reads d
    ensures r.Ok? <==> CsrStep(x, d).Ok? && CaKeyStep(x, d).Ok? && CaCertStep(x, d).Ok?
    // the first error is returned unchanged
    ensures CsrStep(x, d).Err? ==> r == Err(CsrStep(x, d).error)
    ensures CsrStep(x, d).Ok? && CaKeyStep(x, d).Err? ==> r == Err(CaKeyStep(x, d).error)
    ensures CsrStep(x, d).Ok? && CaKeyStep(x, d).Ok? && CaCertStep(x, d).Err? ==>
              r == Err(CaCertStep(x, d).error)
    // the request's key is the subject key, the CA certificate the issuer, the CA key the signer
    ensures r.Ok? ==>
              && r.value.template == TemplateFromRequest(CsrStep(x, d).value)
              && r.value.subjectKey == CsrStep(x, d).value.publicKey
              && r.value.issuer == CaCertStep(x, d).value
              && r.value.signer == CaKeyStep(x, d).value
    // every error names one of the four input fields
    ensures r.Err? ==>
              && r.error.Field().Some?
              && r.error.Field().value in {CertRequestPemField, CaPrivateKeyPemField, CaKeyAlgorithmField, CaCertPemField}
  {
    match ParseCertificateRequest(x, d, CertRequestPemField)
    case Err(e) => Err(e)
    case Ok(certReq) =>
      match ParsePrivateKey(x, d, CaPrivateKeyPemField, CaKeyAlgorithmField)
      case Err(e) => Err(e)
      case Ok(caKey) =>
        match ParseCertificate(x, d, CaCertPemField)
        case Err(e) => Err(e)
        case Ok(caCert) =>
          Ok(CertificateCall(TemplateFromRequest(certReq), caCert, certReq.publicKey, caKey))
  }

  /** A failing request stops the pipeline: nothing about the CA fields, the key
      parsers or the certificate parser can change the outcome. */
  lemma CsrFailureStopsPipeline(x: Externals, y: Externals, d: ResourceData, e: ResourceData)
    requires CsrStep(x, d).Err? && CsrStep(x, d) == CsrStep(y, e)
    ensures CreateLocallySignedCert(x, d) == CreateLocallySignedCert(y, e)
    ensures CreateLocallySignedCert(x, d) == Err(CsrStep(x, d).error)
  {
  }

  /** A failing CA key stops the pipeline after the request: the CA certificate
      field and the certificate parser cannot change the outcome. */
  lemma CaKeyFailureStopsPipeline(x: Externals, y: Externals, d: ResourceData, e: ResourceData)
    requires CsrStep(x, d).Ok? && CsrStep(y, e).Ok?
    requires CaKeyStep(x, d).Err? && CaKeyStep(x, d) == CaKeyStep(y, e)
    ensures CreateLocallySignedCert(x, d) == CreateLocallySignedCert(y, e)
    ensures CreateLocallySignedCert(x, d) == Err(CaKeyStep(x, d).error)
  {
  }

  /** The request is parsed first: when both the request and the CA key are
      broken, the request's error is the one reported. */
  lemma RequestErrorReportedFirst(x: Externals, d: ResourceData)
    requires CsrStep(x, d).Err? && CaKeyStep(x, d).Err?
    ensures CreateLocallySignedCert(x, d).Err?
    ensures CreateLocallySignedCert(x, d).error.Field() == Some(CertRequestPemField)
  {
  }
}
