/**
 * The request `runVTON` sends to the hosted try-on model: which model
 * version, and the input object built from the caller's request. The client
 * call itself is an outside service and is not modelled.
 */
module Replicate {
  import opened Wrappers
  import opened Js
  import opened Text
  import opened Db

  const ModelName: string := "cuuupid/idm-vton"
  const VersionHash: string := "c871bb9b046607b6" + "80449ecbae55fd8c" + "6d945e0a1948644b" + "f2361b3d021d3ff4"
  /** `cuuupid/idm-vton:c871…3ff4`, written as the name, the colon and the hash. */
  const ModelVersion: string := ModelName + ":" + VersionHash

  const DefaultGarmentDescription: string := "A garment"
  const DefaultSeed: int := 42

  /** `VTONInput` */
  datatype VtonRequest = VtonRequest(
    modelImageUrl: string, garmentImageUrl: string,
    backgroundImageUrl: Option<string>, backgroundPrompt: Option<string>,
    params: Params)

  /** The `input` object sent with the prediction: exactly these seven keys. */
  datatype ReplicateInput = ReplicateInput(
    garmImg: string, humanImg: string, garmentDes: string,
    isChecked: bool, isCheckedCrop: bool, denoiseSteps: int, seed: int)

  /** `MODEL_VERSION.split(':')[1]` (empty if there were no colon). */
  function Version(): string
  {
    match SecondField(ModelVersion, ':')
    case Some(v) => v
    case None => ""
  }

  /** The version sent is the hash after the model name's colon. */
  lemma VersionIsHash()
    ensures ModelVersion == ModelName + [':'] + VersionHash
    ensures Version() == VersionHash
  {
    assert ':' !in "c871bb9b046607b6" && ':' !in "80449ecbae55fd8c";
    assert ':' !in "6d945e0a1948644b" && ':' !in "f2361b3d021d3ff4";
    SecondFieldOfJoin(ModelName, ':', VersionHash);
  }

  /** `params.seed || 42`: an absent, null or zero seed becomes 42. */
  function SeedOrDefault(s: Seed): (r: int)
    ensures r != 0
    ensures s.SeedValue? && s.value != 0 ==> r == s.value
    ensures !(s.SeedValue? && s.value != 0) ==> r == DefaultSeed
  {
    if s.SeedValue? && s.value != 0 then s.value else DefaultSeed
  }

  /** The `replicateInput` literal. */
  function Input(req: VtonRequest): (r: ReplicateInput)
    ensures r.garmImg == req.garmentImageUrl && r.humanImg == req.modelImageUrl
    ensures r.garmentDes != ""
    ensures TruthyText(req.backgroundPrompt) ==> r.garmentDes == req.backgroundPrompt.value
    ensures !TruthyText(req.backgroundPrompt) ==> r.garmentDes == DefaultGarmentDescription
    ensures r.isChecked && !r.isCheckedCrop
    ensures r.denoiseSteps == req.params.steps
    ensures r.seed == SeedOrDefault(req.params.seed) && r.seed != 0
  {
    ReplicateInput(
      req.garmentImageUrl, req.modelImageUrl,
      OrText(req.backgroundPrompt, DefaultGarmentDescription),
      true, false, req.params.steps, SeedOrDefault(req.params.seed))
  }

  /** The background image and the guidance scale are accepted but never sent. */
  lemma InputIgnoresBackgroundAndGuidance(req: VtonRequest, image: Option<string>, guidance: real)
    ensures Input(req.(backgroundImageUrl := image, params := req.params.(guidanceScale := guidance))) == Input(req)
  {
  }

  /** Two requests produce the same input exactly when the fields it is built from agree. */
  lemma InputDeterminedBy(a: VtonRequest, b: VtonRequest)
    ensures Input(a) == Input(b) <==>
      && a.garmentImageUrl == b.garmentImageUrl && a.modelImageUrl == b.modelImageUrl
      && OrText(a.backgroundPrompt, DefaultGarmentDescription) == OrText(b.backgroundPrompt, DefaultGarmentDescription)
      && a.params.steps == b.params.steps
      && SeedOrDefault(a.params.seed) == SeedOrDefault(b.params.seed)
  {
  }
}
