/** The stub engine shipped with the harness: it accepts every
    configuration and every image, hands back the same fixed template for
    each, and scores every pair with a value of `std::rand()`. */
module NullImpl {
  import opened Irpv

  /** `RAND_MAX` of the C library the harness is built against (glibc). */
  const RandMax: nat := 0x7FFF_FFFF

  /** A value `std::rand()` can return. */
  type RandValue = r: nat | r <= RandMax

  /** The text every template holds. */
  const Blurb: string := "Long time ago in a galaxy far far away...\n"

  /** Every character of the blurb is plain ASCII, so each one is a byte. */
  lemma BlurbIsAscii()
    ensures |Blurb| == 42
    ensures forall i :: 0 <= i < |Blurb| ==> Blurb[i] as int < 128
  {
  }

  /** The blurb as the bytes `memcpy` copies out of it. */
  function BlurbBytes(): (b: Bytes)
    ensures |b| == 42
    ensures forall i :: 0 <= i < |b| ==> b[i] == Blurb[i] as int
  {
    BlurbIsAscii();
    seq(|Blurb|, i requires 0 <= i < |Blurb| => Blurb[i] as int)
  }

  /** `NullImplIRPV11`: an engine with no state of its own. */
  class NullImplIRPV11 {

    constructor ()
    {
    }

    /** `initialize`: succeeds whatever the configuration directory is. */
    method Initialize(configDir: string) returns (status: ReturnStatus)
      ensures status.code == Success && status.info == ""
    {
      status := Status(Success);
    }

    /** `createTemplate`: sizes the template to the blurb and copies the
        blurb into it byte by byte; image and role are not looked at. */
    method CreateTemplate(image: Image, role: TemplateRole) returns (status: ReturnStatus, templ: Bytes)
      ensures status.code == Success && status.info == ""
      ensures |templ| == 42
      ensures forall i :: 0 <= i < |templ| ==> templ[i] == Blurb[i] as int
    {
      BlurbIsAscii();
      var buffer := new Byte[|Blurb|];
      for i := 0 to |Blurb|
        invariant forall k :: 0 <= k < i ==> buffer[k] == Blurb[k] as int
      {
        buffer[i] := Blurb[i] as int;
      }
      templ := buffer[..];
      status := Status(Success);
    }

    /** `matchTemplates`: succeeds and reports some value of `std::rand()`,
        a whole number between 0 and `RAND_MAX`. */
    method MatchTemplates(verifTemplate: Bytes, enrollTemplate: Bytes)
      returns (status: ReturnStatus, similarity: real)
      ensures status.code == Success && status.info == ""
      ensures 0.0 <= similarity <= RandMax as real
      ensures similarity == similarity.Floor as real
    {
      var r: RandValue :| true;
      similarity := r as real;
      status := Status(Success);
    }
  }

  /** `VerifInterface::getImplementation`: a new stub engine. */
  method GetImplementation() returns (impl: NullImplIRPV11)
    ensures fresh(impl)
  {
    impl := new NullImplIRPV11();
  }

  /** The stub as an engine value. An engine value is a function of its
      arguments, so `rand` gives the score as a function of the two
      templates. Every stub template is the blurb, so in a run every
      comparison gets the same score, where `std::rand()` draws a fresh
      value at each call. `MatchTemplates` above keeps the per-call draw. */
  function NullEngine(rand: (Bytes, Bytes) -> RandValue): Engine
  {
    Engine(
      _ => Status(Success),
      (_, _) => CreateOutcome(Status(Success), BlurbBytes()),
      (v, e) => MatchOutcome(Status(Success), rand(v, e) as real))
  }

  /** `RAND_MAX` is far below `DBL_MAX`. */
  lemma RandMaxBelowDblMax()
    ensures RandMax as real <= DblMax
  {
    var p := Pow2(971) as real;
    assert 1.0 <= p;
    assert 9007199254740991.0 <= 9007199254740991.0 * p;
  }

  /** The stub honours the interface contract: no template it makes is a
      failed one, every image yields features, and every similarity lies
      in [0, DBL_MAX]. Initialisation always succeeds. */
  lemma NullEngineConforms(rand: (Bytes, Bytes) -> RandValue)
    ensures Conforms(NullEngine(rand), _ => false, _ => true)
    ensures forall dir :: NullEngine(rand).initialize(dir).code == Success
  {
    RandMaxBelowDblMax();
  }
}
