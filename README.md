# Input validation and dispatch of the TLS provider's locally signed certificate

This project models, in Dafny, the layer of the Terraform TLS provider that reads
PEM artifacts out of a resource's state, validates them and hands them to the
signer. It covers two files.

- `internal/provider/util.go` holds the artifact parsers. `decodePEM` takes the
  first PEM block of a field and checks its label when one is required.
  `parsePrivateKey` looks the algorithm up in the key parser table before it
  decodes anything. `parseCertificate` demands exactly one certificate.
  `parseCertificateRequest` demands the certificate request label. It also holds
  two output helpers. `readPublicKey` writes the resource id and the public-key
  attributes. `createB64Pfx` returns the PKCS #12 bundle in base64.
- `internal/provider/resource_locally_signed_cert.go` holds the resource's field
  table and its Create step. Create parses the request, then the CA key, then the
  CA certificate. It stops at the first error. Otherwise it builds the
  certificate template from the request.

The library code these files call enters the model as the function-valued fields
of `Types.Externals`. This covers `pem.Decode`, `pem.EncodeToMemory`, the
`x509`, `ssh` and `pkcs12` calls, the `keyParsers` table, `publicKey` and
`hashForState`. Every property below therefore holds for every implementation of
them. A Go `string` is modelled as a sequence of bytes (`Types.GoString`). The
SDK's `schema.ResourceData` is the class `ResourceState.ResourceData`: an id and
a map from field name to string. A field that was never set reads as the empty
string, as the SDK returns the zero value.

Files:

- `types.dfy` (module `Types`): bytes, Go strings, `Option`, `Result`, PEM
  blocks, names, certificates, certificate requests, keys, the error taxonomy,
  and `Externals`.
- `resource_data.dfy` (module `ResourceState`): the resource state handle with
  `Get`, `SetId` and `Set`.
- `base64.dfy` (module `Base64`): standard padded base64, as defined in section 4
  of RFC 4648. It has a reference definition by 3-byte groups and an in-place fill
  of a buffer sized with `EncodedLen`.
- `util.dfy` (module `Util`): the parsers and the two output helpers.
- `locally_signed_cert.dfy` (module `LocallySignedCert`): the field table and
  the Create step.

Points where the code's behaviour is easy to misread:

- `private_key_pem` is Sensitive, but it has no state function. It is stored
  verbatim, not as a hash. `LocallySignedField` states this.
- Certificate and request parse failures have the same message shape, "failed
  to parse <field>". They are one variant, `ParseFailed`, told apart by the field.
- A failure to marshal the public key names no field (`MarshalFailed`).
- The template does not carry the request's public key, a serial number or a
  validity window. The key goes to `createCertificate` as a separate argument.
  The serial number and validity window are left at their zero values in this
  file. E-mail addresses in the request are not copied either.

## Model

| member | source | states |
|---|---|---|
| `Util.DecodePem` | internal/provider/util.go:15-25 | An error naming the field exactly when the text has no PEM block. A type error reporting the label found exactly when a required label differs. Otherwise the first block is returned: any block when no label is required, a block with the required label when one is. |
| `Util.DecodePemUsesFirstBlockOnly` | internal/provider/util.go:16-19 | The result depends only on the first block; the rest of the text that pem.Decode returns is discarded. |
| `Util.ParsePrivateKey` | internal/provider/util.go:27-46 | An algorithm missing from the table gives the algorithm error, whatever the PEM text. A PEM error is passed on unchanged. A decoder failure becomes "failed to decode <field>". A success is exactly the table decoder's key for the block's bytes. Every error names the key field or the algorithm field. |
| `Util.UnknownAlgorithmShortCircuits` | internal/provider/util.go:28-35 | With an unknown algorithm, the key field, the PEM decoder and the decoders make no difference to the (failing) result. |
| `Util.ParseCertificate` | internal/provider/util.go:48-66 | A PEM error is passed on. A parse error is reported before the count. Zero certificates gives "no certificates". More than one gives "multiple certificates". Exactly one succeeds and returns that certificate. Every error names the field. |
| `Util.ParseCertificateRequest` | internal/provider/util.go:68-80 | A missing block or a label other than the certificate request label fails before the request parser is used. A parser failure is wrapped with the field name. Otherwise the result is the parsed request. |
| `Util.CsrLabelCheckedBeforeParse` | internal/provider/util.go:69-79 | When the label is wrong, the result is an error and is the same whichever request parser is supplied. |
| `Util.PublicKeyOutputsOf` | internal/provider/util.go:83-106 | A marshal failure is the error. Otherwise the id is hashForState of the marshalled key, and the PEM output is the "PUBLIC KEY" block of those bytes. Without an SSH form, both SSH outputs are empty and there is no error; with one, they are the authorized-key line and the MD5 fingerprint. |
| `Util.IdentityDependsOnlyOnPublicKeyBytes` | internal/provider/util.go:84-94 | Two keys whose public halves marshal alike get the same id and the same PEM public key. |
| `Util.ReadPublicKey` | internal/provider/util.go:82-108 | On a marshal failure, the error is returned and the state is unchanged. Otherwise it returns nil. The id and the three public-key fields then hold the outputs above, and no other field changes. |
| `Util.CreateB64Pfx` | internal/provider/util.go:110-118 | An encoder error is returned unchanged. Otherwise the result is the standard base64 of the PFX bytes, of length EncodedLen of their count. |
| `Base64.EncodedLen` | internal/provider/util.go:115 | The buffer length is a multiple of 4 and holds ceil(n/3) groups of 4: `4*ceil(n/3)`. |
| `Base64.EncodeLength` | internal/provider/util.go:115-116 | The encoding of n bytes is exactly EncodedLen(n) long, so the buffer is filled to its end. |
| `Base64.PaddingOnlyAtEnd` | internal/provider/util.go:116 | A "=" occurs only in the last two positions, and only when the length of the input is not a multiple of 3. |
| `Base64.EncodeInto` | internal/provider/util.go:116 | Filling the buffer in place, group by group, leaves it equal to the reference encoding of the input. |
| `LocallySignedCert.LocallySignedField` | internal/provider/resource_locally_signed_cert.go:12-61 | The request and the three CA fields are exactly the Required ones, and exactly the ForceNew ones. `key_algorithm` and `private_key_pem` are exactly the Optional ones, and no field is both Required and Optional. The request, CA key and CA certificate texts are exactly the ones stored as hashes. `ca_private_key_pem` and `private_key_pem` are exactly the Sensitive ones. |
| `LocallySignedCert.ResourceLocallySignedCert` | internal/provider/resource_locally_signed_cert.go:9-61 | The six fields are added to the common schema, with exactly the entries above. Common entries with other names are kept unchanged. |
| `LocallySignedCert.TemplateFromRequest` | internal/provider/resource_locally_signed_cert.go:87-93 | Subject, DNS names, IP addresses and URIs are the request's. Basic constraints are valid. The CA flag, path length, serial number, validity, usages, key and e-mail addresses are at their zero values, and no other modelled field is set. |
| `LocallySignedCert.CreateLocallySignedCert` | internal/provider/resource_locally_signed_cert.go:73-96 | createCertificate is reached exactly when all three parses succeed. Otherwise the result is the first failing step's error, unchanged. A success gives a call with the request's template, the request's public key as subject key, the CA certificate as issuer and the CA key as signer. Every error names one of the four input fields. |
| `LocallySignedCert.CsrFailureStopsPipeline` | internal/provider/resource_locally_signed_cert.go:74-77 | A failing request decides the outcome. The CA fields and the CA parsers are not consulted. |
| `LocallySignedCert.CaKeyFailureStopsPipeline` | internal/provider/resource_locally_signed_cert.go:78-81 | After a good request, a failing CA key decides the outcome. The CA certificate field and the certificate parser are not consulted. |
| `LocallySignedCert.RequestErrorReportedFirst` | internal/provider/resource_locally_signed_cert.go:74-81 | When the request and the CA key are both broken, the error reported names the request field. |

## Left out

- PEM, DER, X.509, PKIX and SSH parsing and marshalling, signature generation and
  PKCS #12 encoding are library code. They are parameters (`Types.Externals`),
  not definitions.
- `createCertificate`, `hashForState`, `publicKey`, `resourceCertificateCommonSchema`
  and the contents of `keyParsers` are defined in files that are not part of this
  model. `createCertificate` is represented by the arguments Create hands it
  (`CertificateCall`). The common schema is a parameter of
  `ResourceLocallySignedCert`.
- `pemCertReqType` is defined outside the two files. It is the constant
  "CERTIFICATE REQUEST", the request label of section 7 of RFC 7468.
- The entropy source `rand.Reader` is a parameter of `CreateB64Pfx`: the bytes it
  delivers.
- The `schema.Resource` wrapper and the Read, Update, Delete and CustomizeDiff
  callbacks it names are framework wiring. The expiry and early-renewal policy
  lives in those callbacks.
- LocallySignedCert.TemplateFromRequest: x509.Certificate's other fields (version,
  extensions, key identifiers, signature algorithm and the rest) are not modelled,
  so "no other field is set" covers the modelled fields only. The template literal
  leaves all of them at their zero values.
- PEM block headers are not modelled. No modelled code reads them.
- The error that `d.Set` returns is ignored by the source. `Set` always writes.
- Error message text beyond the error kind and the field name.
- Util.IdentityDependsOnlyOnPublicKeyBytes: the converse, that a different key
  gives a different id, holds only if hashForState has no collisions, which the
  model does not assume.
- The hiding of Sensitive values in plan output is done by the framework. The
  model records only the flag.
