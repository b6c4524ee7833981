/** The image generation plugin: the model guard, the default negative
    prompt, parameter clamping, the echo of the effective request, and the
    file names the generator writes and the deleter looks for. The diffusion
    pipeline (with saving and base64 encoding), MD5 and the clock are
    parameters of `ImageEnv`; the image directory is a set of file names. */
module ImageGeneration {
  import opened Wrappers
  import opened Strings
  import opened PluginContract

  const PluginName := "image_generation"

  /* ----- Contract: declarations, widget, routing ----- */

  const Functions: seq<FunctionDecl> := [
    FunctionDecl("generate_image", "Generate an image using Stable Diffusion XL based on a text prompt",
      [StringParam("prompt", "Text description of the image to generate"),
       StringParam("negative_prompt", "What to avoid in the image (optional)"),
       IntParam("width", "Image width (default: 1024)"),
       IntParam("height", "Image height (default: 1024)"),
       IntParam("num_inference_steps", "Number of denoising steps (default: 20)"),
       Param("guidance_scale", NumberType, "How closely to follow the prompt (default: 7.5)")],
      ["prompt"]),
    FunctionDecl("list_generated_images", "List all previously generated images", [], []),
    FunctionDecl("delete_generated_image", "Delete a generated image",
      [StringParam("image_id", "ID of image to delete")],
      ["image_id"])
  ]

  const Instance: Plugin := Plugin(
    PluginName,
    "AI image generation using Stable Diffusion XL",
    Functions,
    Some(Widget("ImageGenerationWidget", ["image_generation_update", "image_list_update"])))

  datatype Op = GenerateImageOp | ListGeneratedImagesOp | DeleteGeneratedImageOp

  function OpName(op: Op): string {
    match op
    case GenerateImageOp => "generate_image"
    case ListGeneratedImagesOp => "list_generated_images"
    case DeleteGeneratedImageOp => "delete_generated_image"
  }

  /** `execute_function`: the handler a name selects, or the
      unknown-function error. */
  function Route(name: string): (r: Result<Op, string>)
    ensures r.Success? <==> name in FunctionNames(Functions)
    ensures r.Success? ==> OpName(r.value) == name
    ensures r.Failure? ==> r.error == UnknownFunction(name)
  {
    assert FunctionNames(Functions) == ["generate_image", "list_generated_images", "delete_generated_image"];
    if name == "generate_image" then Success(GenerateImageOp)
    else if name == "list_generated_images" then Success(ListGeneratedImagesOp)
    else if name == "delete_generated_image" then Success(DeleteGeneratedImageOp)
    else Failure(UnknownFunction(name))
  }

  lemma RouteOpName(op: Op)
    ensures Route(OpName(op)) == Success(op)
  {
  }

  /* ----- Clamping ----- */

  /** `max(lo, min(x, hi))` on integers. */
  function ClampInt(lo: int, hi: int, x: int): (r: int)
    ensures lo <= hi ==> lo <= r <= hi
    ensures lo <= x <= hi ==> r == x
  {
    if x < lo then lo else if x > hi then hi else x
  }

  /** `max(lo, min(x, hi))` on reals. */
  function ClampReal(lo: real, hi: real, x: real): (r: real)
    ensures lo <= hi ==> lo <= r <= hi
    ensures lo <= x <= hi ==> r == x
  {
    if x < lo then lo else if x > hi then hi else x
  }

  /** For a non-empty range the clamp lands in the range, is the nearest
      point of the range, leaves in-range values alone, and clamping twice
      is clamping once. */
  lemma ClampIntProperties(lo: int, hi: int, x: int)
    requires lo <= hi
    ensures lo <= ClampInt(lo, hi, x) <= hi
    ensures lo <= x <= hi <==> ClampInt(lo, hi, x) == x
    ensures x < lo ==> ClampInt(lo, hi, x) == lo
    ensures x > hi ==> ClampInt(lo, hi, x) == hi
    ensures ClampInt(lo, hi, ClampInt(lo, hi, x)) == ClampInt(lo, hi, x)
  {
  }

  lemma ClampRealProperties(lo: real, hi: real, x: real)
    requires lo <= hi
    ensures lo <= ClampReal(lo, hi, x) <= hi
    ensures lo <= x <= hi <==> ClampReal(lo, hi, x) == x
    ensures x < lo ==> ClampReal(lo, hi, x) == lo
    ensures x > hi ==> ClampReal(lo, hi, x) == hi
    ensures ClampReal(lo, hi, ClampReal(lo, hi, x)) == ClampReal(lo, hi, x)
  {
  }

  /** Clamping keeps the order of its inputs. */
  lemma ClampIntMonotone(lo: int, hi: int, x: int, y: int)
    requires lo <= hi && x <= y
    ensures ClampInt(lo, hi, x) <= ClampInt(lo, hi, y)
  {
  }

  /** The `max(lo, min(x, hi))` the source writes, by its two builtins. */
  function PyMin(a: int, b: int): int { if b < a then b else a }
  function PyMax(a: int, b: int): int { if b > a then b else a }

  /** The nested builtins and the three-way clamp agree when the range is
      non-empty. */
  lemma ClampIntIsMaxMin(lo: int, hi: int, x: int)
    requires lo <= hi
    ensures ClampInt(lo, hi, x) == PyMax(lo, PyMin(x, hi))
  {
  }

  /* ----- Generation ----- */

  const DefaultNegativePrompt := "blurry, low quality, distorted, deformed, ugly, bad anatomy"

  /** What the pipeline is asked for. */
  datatype ImageRequest = ImageRequest(
    prompt: string, negativePrompt: string, width: int, height: int, steps: int, guidance: real)

  /** The effects `_generate_image` sees: the pipeline (absent when the
      model failed to load) which renders and saves the image and yields its
      base64 text, or the text of the exception; MD5 as hex; and the clock
      reading `%Y%m%d_%H%M%S`. */
  datatype ImageEnv = ImageEnv(
    pipeline: Option<ImageRequest -> Result<string, string>>,
    md5Hex: string -> string,
    timestamp: string)

  datatype GeneratedImage = GeneratedImage(
    imageId: string,
    filename: string,
    filepath: string,
    prompt: string,
    negativePrompt: string,
    width: int,
    height: int,
    steps: int,
    guidance: real,
    imageBase64: string,
    generatedAt: string)

  /** The request after the default negative prompt and the clamps. */
  function EffectiveRequest(prompt: string, negativePrompt: string, width: int, height: int,
                            steps: int, guidance: real): (r: ImageRequest)
    ensures r.prompt == prompt
    ensures r.negativePrompt != ""
    ensures negativePrompt != "" ==> r.negativePrompt == negativePrompt
    ensures negativePrompt == "" ==> r.negativePrompt == DefaultNegativePrompt
    ensures 512 <= r.width <= 1024 && 512 <= r.height <= 1024
    ensures 10 <= r.steps <= 50 && 1.0 <= r.guidance <= 20.0
    ensures 512 <= width <= 1024 ==> r.width == width
    ensures 512 <= height <= 1024 ==> r.height == height
    ensures 10 <= steps <= 50 ==> r.steps == steps
    ensures 1.0 <= guidance <= 20.0 ==> r.guidance == guidance
    ensures width < 512 ==> r.width == 512
    ensures width > 1024 ==> r.width == 1024
    ensures height < 512 ==> r.height == 512
    ensures height > 1024 ==> r.height == 1024
    ensures steps < 10 ==> r.steps == 10
    ensures steps > 50 ==> r.steps == 50
    ensures guidance < 1.0 ==> r.guidance == 1.0
    ensures guidance > 20.0 ==> r.guidance == 20.0
  {
    ImageRequest(
      prompt,
      if negativePrompt == "" then DefaultNegativePrompt else negativePrompt,
      ClampInt(512, 1024, width),
      ClampInt(512, 1024, height),
      ClampInt(10, 50, steps),
      ClampReal(1.0, 20.0, guidance))
  }

  /** The name the generator saves under. */
  function ImageFileName(timestamp: string): (r: string)
    ensures |r| == |timestamp| + 14
    ensures StartsWith(r, "generated_") && EndsWith(r, ".png")
  {
    "generated_" + timestamp + ".png"
  }

  const NotLoaded := "Image generation model not loaded"

  /** The text of the `AttributeError` raised by taking `.images` of the
      coroutine `asyncio.to_thread` returns. */
  const CoroutineHasNoImages := "'coroutine' object has no attribute 'images'"

  /** `_generate_image` as written. The pipeline call reads
      `await asyncio.to_thread(...).images[0]`, which Python groups as
      `await (asyncio.to_thread(...).images[0])`: `.images` is looked up on
      the coroutine before it is awaited, so the pipeline never runs and the
      `except` reports the `AttributeError`. The files and the response. */
  function GenerateImage(env: ImageEnv, files: set<string>, prompt: string, negativePrompt: string,
                         width: int, height: int, steps: int, guidance: real): (r: (set<string>, Result<GeneratedImage, string>))
    ensures r.0 == files
    ensures env.pipeline.None? <==> r.1 == Failure(NotLoaded)
    ensures env.pipeline.Some? <==> r.1 == Failure("Image generation failed: " + CoroutineHasNoImages)
  {
    match env.pipeline
    case None => (files, Failure(NotLoaded))
    case Some(_) => (files, Failure("Image generation failed: " + CoroutineHasNoImages))
  }

  /** As written, generation never succeeds and never writes a file, and
      what it reports depends only on whether a model is loaded: not on the
      pipeline's behaviour, the clock, MD5, or any argument. */
  lemma GenerateImageNeverSucceeds(env1: ImageEnv, env2: ImageEnv, files: set<string>,
                                   prompt1: string, negativePrompt1: string, width1: int, height1: int, steps1: int, guidance1: real,
                                   prompt2: string, negativePrompt2: string, width2: int, height2: int, steps2: int, guidance2: real)
    requires env1.pipeline.Some? <==> env2.pipeline.Some?
    ensures GenerateImage(env1, files, prompt1, negativePrompt1, width1, height1, steps1, guidance1).1.Failure?
    ensures GenerateImage(env1, files, prompt1, negativePrompt1, width1, height1, steps1, guidance1)
         == GenerateImage(env2, files, prompt2, negativePrompt2, width2, height2, steps2, guidance2)
  {
  }

  /** Where the two differ: with a loaded model whose pipeline succeeds on
      the adjusted request, the intended generator saves and reports an
      image, while the code as written reports the `AttributeError`. */
  lemma AsWrittenMissesIntended(env: ImageEnv, files: set<string>, prompt: string, negativePrompt: string,
                                width: int, height: int, steps: int, guidance: real)
    requires env.pipeline.Some?
    requires env.pipeline.value(EffectiveRequest(prompt, negativePrompt, width, height, steps, guidance)).Success?
    ensures GenerateImageIntended(env, files, prompt, negativePrompt, width, height, steps, guidance).1.Success?
    ensures ImageFileName(env.timestamp) in GenerateImageIntended(env, files, prompt, negativePrompt, width, height, steps, guidance).0
    ensures GenerateImage(env, files, prompt, negativePrompt, width, height, steps, guidance)
         == (files, Failure("Image generation failed: " + CoroutineHasNoImages))
  {
  }

  /** A concrete call that shows it: a cat, with defaults for the rest. */
  lemma AsWrittenMissesIntendedExample()
    ensures var env := ImageEnv(Some((q: ImageRequest) => Success("iVBORw0KGgo=")), (t: string) => "0123456789abcdef0123456789abcdef", "20240101_120000");
      && GenerateImageIntended(env, {}, "cat", "", 1024, 1024, 20, 7.5).1.Success?
      && GenerateImage(env, {}, "cat", "", 1024, 1024, 20, 7.5).1 == Failure("Image generation failed: " + CoroutineHasNoImages)
  {
  }

  /** `_generate_image` as its authors evidently meant it, with the
      pipeline's result awaited before its first image is taken: the files
      in the image directory afterwards, and the response. */
  function GenerateImageIntended(env: ImageEnv, files: set<string>, prompt: string, negativePrompt: string,
                                 width: int, height: int, steps: int, guidance: real): (r: (set<string>, Result<GeneratedImage, string>))
    ensures env.pipeline.None? ==> r == (files, Failure(NotLoaded))
    ensures r.1.Failure? ==> r.0 == files
    ensures r.1.Success? <==>
      env.pipeline.Some? && env.pipeline.value(EffectiveRequest(prompt, negativePrompt, width, height, steps, guidance)).Success?
    ensures env.pipeline.Some? ==>
      var t := env.pipeline.value(EffectiveRequest(prompt, negativePrompt, width, height, steps, guidance));
      t.Failure? ==> r.1 == Failure("Image generation failed: " + t.error)
    ensures r.1.Success? ==>
      var img := r.1.value;
      && env.pipeline.Some?
      && ImageRequest(img.prompt, img.negativePrompt, img.width, img.height, img.steps, img.guidance)
         == EffectiveRequest(prompt, negativePrompt, width, height, steps, guidance)
      && 512 <= img.width <= 1024 && 512 <= img.height <= 1024
      && 10 <= img.steps <= 50 && 1.0 <= img.guidance <= 20.0
      && img.prompt == prompt
      && (negativePrompt != "" ==> img.negativePrompt == negativePrompt)
      && (negativePrompt == "" ==> img.negativePrompt == DefaultNegativePrompt)
      && env.pipeline.value(ImageRequest(img.prompt, img.negativePrompt, img.width, img.height, img.steps, img.guidance))
         == Success(img.imageBase64)
      && img.imageId == env.md5Hex(prompt + "_" + env.timestamp)
      && img.filename == ImageFileName(env.timestamp)
      && img.filepath == "generated_images/" + img.filename
      && img.generatedAt == env.timestamp
      && r.0 == files + {img.filename}
  {
    match env.pipeline
    case None => (files, Failure(NotLoaded))
    case Some(run) =>
      var req := EffectiveRequest(prompt, negativePrompt, width, height, steps, guidance);
      ClampIntProperties(512, 1024, width);
      ClampIntProperties(512, 1024, height);
      ClampIntProperties(10, 50, steps);
      ClampRealProperties(1.0, 20.0, guidance);
      match run(req)
      case Failure(e) => (files, Failure("Image generation failed: " + e))
      case Success(png) =>
        var filename := ImageFileName(env.timestamp);
        (files + {filename},
         Success(GeneratedImage(env.md5Hex(prompt + "_" + env.timestamp), filename, "generated_images/" + filename,
                                req.prompt, req.negativePrompt, req.width, req.height, req.steps, req.guidance,
                                png, env.timestamp)))
  }

  /** Parameters already in range reach the pipeline as given. */
  lemma InRangeRequestUnchanged(prompt: string, negativePrompt: string, width: int, height: int,
                                steps: int, guidance: real)
    requires negativePrompt != ""
    requires 512 <= width <= 1024 && 512 <= height <= 1024 && 10 <= steps <= 50 && 1.0 <= guidance <= 20.0
    ensures EffectiveRequest(prompt, negativePrompt, width, height, steps, guidance)
         == ImageRequest(prompt, negativePrompt, width, height, steps, guidance)
  {
  }

  /** Asking again with the effective request of a first call changes
      nothing: the adjustments are idempotent as a whole. */
  lemma EffectiveRequestIdempotent(prompt: string, negativePrompt: string, width: int, height: int,
                                   steps: int, guidance: real)
    ensures var q := EffectiveRequest(prompt, negativePrompt, width, height, steps, guidance);
      EffectiveRequest(q.prompt, q.negativePrompt, q.width, q.height, q.steps, q.guidance) == q
  {
    ClampIntProperties(512, 1024, width);
    ClampIntProperties(512, 1024, height);
    ClampIntProperties(10, 50, steps);
    ClampRealProperties(1.0, 20.0, guidance);
  }

  /* ----- Deletion ----- */

  /** `_delete_generated_image`: the files afterwards and the message. The
      file looked for is named after the id as if it were a timestamp. */
  function DeleteGeneratedImage(files: set<string>, imageId: string): (r: (set<string>, Result<string, string>))
    ensures r.1.Success? <==> ImageFileName(imageId) in files
    ensures r.1.Success? ==> r.0 == files - {ImageFileName(imageId)} && r.1.value == "Image deleted"
    ensures r.1.Failure? ==> r.0 == files && r.1.error == "Image not found"
  {
    var filename := ImageFileName(imageId);
    if filename in files then (files - {filename}, Success("Image deleted"))
    else (files, Failure("Image not found"))
  }

  /** Names built from different stamps differ. */
  lemma ImageFileNameInjective(a: string, b: string)
    requires ImageFileName(a) == ImageFileName(b)
    ensures a == b
  {
    assert |a| == |b|;
    assert forall i :: 0 <= i < |a| ==> a[i] == ImageFileName(a)[10 + i];
  }

  /** The id the intended generator returns does not name the file it saved: an
      MD5 hex digest has 32 characters and the timestamp 15, so deleting by
      the returned id leaves the image in place. Deleting by the timestamp
      removes it. */
  lemma ReturnedIdMissesFile(env: ImageEnv, files: set<string>, prompt: string, negativePrompt: string,
                             width: int, height: int, steps: int, guidance: real)
    requires |env.md5Hex(prompt + "_" + env.timestamp)| == 32 && |env.timestamp| == 15
    requires GenerateImageIntended(env, files, prompt, negativePrompt, width, height, steps, guidance).1.Success?
    ensures var (files', r) := GenerateImageIntended(env, files, prompt, negativePrompt, width, height, steps, guidance);
      && r.value.filename in DeleteGeneratedImage(files', r.value.imageId).0
      && r.value.filename !in DeleteGeneratedImage(files', r.value.generatedAt).0
  {
    var (files', r) := GenerateImageIntended(env, files, prompt, negativePrompt, width, height, steps, guidance);
    if ImageFileName(r.value.imageId) == r.value.filename {
      ImageFileNameInjective(r.value.imageId, env.timestamp);
    }
  }
}
