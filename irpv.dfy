/** The IRPV 1:1 API: the image record, template roles, return codes and
    statuses, and the contract every recognition engine must satisfy. */
module Irpv {

  /** An unsigned byte (`uint8_t`). */
  type Byte = b: int | 0 <= b < 256

  /** A `uint16_t` value. */
  type UInt16 = x: int | 0 <= x < 0x1_0000

  type Bytes = seq<Byte>

  /** Largest value of a C `int`: `Image::size` multiplies in `int`. */
  const IntMax: int := 0x7FFF_FFFF

  /** Two to the power `k`. */
  function Pow2(k: nat): (r: nat)
    ensures r >= 1
  {
    if k == 0 then 1 else 2 * Pow2(k - 1)
  }

  /** `DBL_MAX`, the largest finite double: (2^53 - 1) * 2^971. */
  const DblMax: real := 9007199254740991.0 * (Pow2(971) as real)

  /** An image: dimensions, bits per pixel (8 or 24) and the raster bytes
      (RGBRGB... for depth 24, intensities for depth 8). */
  datatype Image = Image(width: UInt16, height: UInt16, depth: Byte, data: Bytes)

  /** The default image: 0 x 0, depth 24, no data. */
  function DefaultImage(): (img: Image)
    ensures img.width == 0 && img.height == 0 && img.depth == 24 && img.data == []
  {
    Image(0, 0, 24, [])
  }

  /** `Image::size()`: `width * height * (depth / 8)`, computed in C `int`.
      The product must not overflow `int`, which the caller guarantees. */
  function Size(img: Image): (r: nat)
    requires img.width * img.height <= IntMax
    requires img.width * img.height * (img.depth / 8) <= IntMax
    ensures img.depth == 8 ==> r == img.width * img.height
    ensures img.depth == 24 ==> r == 3 * img.width * img.height
    ensures img.depth < 8 ==> r == 0
    ensures r <= IntMax
  {
    img.width * img.height * (img.depth / 8)
  }

  lemma DefaultImageIsEmpty()
    ensures Size(DefaultImage()) == 0
  {
  }

  /** The role of a template. */
  datatype TemplateRole = Enrollment11 | Verification11

  /** The five return codes of the API. */
  datatype ReturnCode = Success | ConfigError | TemplateCreationError | GPUError | VendorError

  /** The integer value of each enumerator (`Success = 0`, then in order). */
  function Ordinal(rc: ReturnCode): (k: nat)
    ensures k < 5
    ensures k == 0 <==> rc == Success
  {
    match rc
    case Success => 0
    case ConfigError => 1
    case TemplateCreationError => 2
    case GPUError => 3
    case VendorError => 4
  }

  lemma {:induction false} OrdinalInjective(a: ReturnCode, b: ReturnCode)
    ensures Ordinal(a) == Ordinal(b) ==> a == b
  {
  }

  /** The text `operator<<` writes for an enumerator value `k` of
      `ReturnCode`; a value outside the five enumerators falls to the
      `default` branch. */
  function DescribeValue(k: int): (s: string)
    ensures s != ""
  {
    if k == 0 then "Success"
    else if k == 1 then "Error reading configuration files"
    else if k == 2 then "Elective refusal to produce a template"
    else if k == 3 then "Problem setting or accessing the GPU"
    else if k == 4 then "Vendor-defined error"
    else "Undefined error"
  }

  /** `operator<<(std::ostream&, const ReturnCode&)`. */
  function Describe(rc: ReturnCode): (s: string)
    ensures rc == Success <==> s == "Success"
    ensures s != "Undefined error"
  {
    DescribeValue(Ordinal(rc))
  }

  /** Every code has its own description. */
  lemma DescriptionsDistinct(a: ReturnCode, b: ReturnCode)
    ensures a != b ==> Describe(a) != Describe(b)
  {
  }

  /** `ReturnStatus`: a code and an optional information string. */
  datatype ReturnStatus = ReturnStatus(code: ReturnCode, info: string)

  /** The two-argument constructor; `info` defaults to the empty string. */
  function Status(code: ReturnCode, info: string := ""): (s: ReturnStatus)
    ensures s.code == code && s.info == info
  {
    ReturnStatus(code, info)
  }

  /** What `createTemplate` hands back: its status and the template it wrote. */
  datatype CreateOutcome = CreateOutcome(status: ReturnStatus, templ: Bytes)

  /** What `matchTemplates` hands back: its status and the similarity it wrote. */
  datatype MatchOutcome = MatchOutcome(status: ReturnStatus, similarity: real)

  /** `VerifInterface`: the three calls of an engine, as functions.
      The harness is polymorphic over this value. */
  datatype Engine = Engine(
    initialize: string -> ReturnStatus,
    createTemplate: (Image, TemplateRole) -> CreateOutcome,
    matchTemplates: (Bytes, Bytes) -> MatchOutcome)

  /** The `createTemplate` contract for one call. `failed` is how the
      engine encodes "template creation failed" inside a template; a
      template is failed exactly when the call did not succeed, and an
      image whose features cannot be extracted yields
      `TemplateCreationError`. */
  predicate CreateTemplateContract(failed: Bytes -> bool, extracted: bool, out: CreateOutcome)
  {
    && (failed(out.templ) <==> out.status.code != Success)
    && (!extracted ==> out.status.code == TemplateCreationError)
  }

  /** The `matchTemplates` contract for one call: -1 when either template
      came from a failed generation, otherwise a score in [0, DBL_MAX]. */
  predicate MatchTemplatesContract(failed: Bytes -> bool, verif: Bytes, enroll: Bytes, out: MatchOutcome)
  {
    if failed(verif) || failed(enroll) then out.similarity == -1.0
    else 0.0 <= out.similarity <= DblMax
  }

  /** An engine honours the interface for every input, given the
      predicate `failed` it uses to mark failed templates and the images
      from which it can extract features. */
  ghost predicate Conforms(engine: Engine, failed: Bytes -> bool, extractable: Image -> bool)
  {
    && (forall img, role ::
          CreateTemplateContract(failed, extractable(img), engine.createTemplate(img, role)))
    && (forall v, e :: MatchTemplatesContract(failed, v, e, engine.matchTemplates(v, e)))
  }
}
