/**
  The request-resolution half of `generate_design`: from the caller's arguments to the
  prompt, negative prompt, size, step count, guidance and seed that are handed to the
  diffusion pipeline. The pipeline itself, the device probe and the output file are not
  part of this model; whether a CUDA device is present is the input `gpu`, and SHA-256
  is the input `sha256`.
*/
module Generator {
  import opened Wrappers
  import opened Text
  import Agent

  // ---------------------------------------------------------------- platform

  /** `(template or '').lower()`: the template as it is compared and as it enters the seed text. */
  function TemplateKey(template: Option<string>): (r: string)
    ensures template.None? || template == Some("") ==> r == ""
  {
    Lower(OrDefault(template, ""))
  }

  /** The template key ignores letter case: a template and its lower-case form give the same key. */
  lemma TemplateKeyIgnoresCase(template: string)
    ensures TemplateKey(Some(template)) == TemplateKey(Some(Lower(template)))
  {
    LowerIdempotent(template);
  }

  predicate IsPosterTemplate(template: Option<string>) {
    TemplateKey(template) == "sale_poster" || TemplateKey(template) == "event_poster"
  }

  /**
    The platform the template implies: both poster templates (any letter case) force a
    poster, otherwise the website-banner template or a "banner" platform gives a banner,
    otherwise the caller's platform, "instagram" when it is missing or empty.
  */
  function ResolvePlatform(template: Option<string>, platform: Option<string>): (r: string)
    ensures r != ""
    ensures IsPosterTemplate(template) ==> r == "poster"
    ensures !IsPosterTemplate(template) && (TemplateKey(template) == "website_banner" || platform == Some("banner"))
      ==> r == "banner"
    ensures !IsPosterTemplate(template) && TemplateKey(template) != "website_banner" && platform != Some("banner")
      ==> r == OrDefault(platform, "instagram")
  {
    var tpl := TemplateKey(template);
    if tpl == "sale_poster" || tpl == "event_poster" then "poster"
    else if tpl == "website_banner" || platform == Some("banner") then "banner"
    else OrDefault(platform, "instagram")
  }

  /** The poster templates win over the platform in every letter case, even over "banner". */
  lemma PosterTemplateWins(template: string, platform: Option<string>)
    requires Lower(template) == "sale_poster" || Lower(template) == "event_poster"
    ensures ResolvePlatform(Some(template), platform) == "poster"
  {
  }

  /** The request handler's default template makes every request a poster. */
  lemma HandlerDefaultTemplateIsPoster(platform: Option<string>)
    ensures ResolvePlatform(Some("sale_poster"), platform) == "poster"
  {
    var t := "sale_poster";
    assert Lower(t) == t by {
      assert forall i :: 0 <= i < |t| ==> !('A' <= t[i] <= 'Z');
      LowerKeepsLowercase(t);
    }
    PosterTemplateWins(t, platform);
  }

  /** The website-banner template, in any letter case, gives a banner. */
  lemma WebsiteBannerTemplate(template: string, platform: Option<string>)
    requires Lower(template) == "website_banner"
    ensures ResolvePlatform(Some(template), platform) == "banner"
  {
  }

  /** "website_banner" is already lower-case. */
  lemma LowerWebsiteBanner()
    ensures Lower("website_banner") == "website_banner"
  {
    var t := "website_banner";
    assert forall i :: 0 <= i < |t| ==> !('A' <= t[i] <= 'Z');
    LowerKeepsLowercase(t);
  }

  // ---------------------------------------------------------------- steps

  /** `(profile or 'balanced').lower()`: a missing or empty profile is the balanced one. */
  function ProfileKey(profile: Option<string>): (r: string)
    ensures profile.None? || profile == Some("") ==> r == "balanced"
  {
    LowerBalanced();
    Lower(OrDefault(profile, "balanced"))
  }

  lemma LowerBalanced()
    ensures Lower("balanced") == "balanced"
  {
    var t := "balanced";
    assert NoUpper(t);
    LowerKeepsLowercase(t);
  }

  /** The profile key ignores letter case: "FAST", "Fast" and "fast" are one profile. */
  lemma ProfileKeyIgnoresCase(profile: string)
    ensures ProfileKey(Some(profile)) == ProfileKey(Some(Lower(profile)))
  {
    LowerIdempotent(profile);
  }

  /** The step count a profile asks for: 10 for fast, 40 for high on a GPU, 20 otherwise. */
  function ProfileSteps(profile: Option<string>, gpu: bool): (r: int)
    ensures r == 10 <==> ProfileKey(profile) == "fast"
    ensures r == 40 <==> ProfileKey(profile) == "high" && gpu
    ensures r == 20 <==> ProfileKey(profile) != "fast" && !(ProfileKey(profile) == "high" && gpu)
  {
    var p := ProfileKey(profile);
    if p == "fast" then 10
    else if p == "high" && gpu then 40
    else 20
  }

  /** Python's truth value of an `int` argument that may be `None`. */
  predicate IsTruthy(n: Option<int>) {
    n.Some? && n.value != 0
  }

  /** `int(steps or default)`: an explicit non-zero step count always wins over the profile. */
  function ResolveSteps(steps: Option<int>, profile: Option<string>, gpu: bool): (r: int)
    ensures IsTruthy(steps) ==> r == steps.value
    ensures !IsTruthy(steps) ==> r == ProfileSteps(profile, gpu) && r >= 10
  {
    if IsTruthy(steps) then steps.value else ProfileSteps(profile, gpu)
  }

  /** The default profile asks for 20 steps on any hardware. */
  lemma BalancedProfileSteps(gpu: bool)
    ensures ProfileSteps(Some("balanced"), gpu) == 20
  {
    LowerBalanced();
  }

  /** The fast profile asks for 10 steps on any hardware. */
  lemma FastProfileSteps(gpu: bool)
    ensures ProfileSteps(Some("fast"), gpu) == 10
  {
    LowerKeepsLowercase("fast");
  }

  /** Without a GPU, the high profile is indistinguishable from the balanced one. */
  lemma HighWithoutGpuIsBalanced(steps: Option<int>, profile: Option<string>)
    requires ProfileKey(profile) == "high"
    ensures ResolveSteps(steps, profile, false) == ResolveSteps(steps, Some("balanced"), false)
    ensures !IsTruthy(steps) ==> ResolveSteps(steps, profile, false) == 20
  {
    BalancedProfileSteps(false);
  }

  // ---------------------------------------------------------------- size

  /** `TEMPLATE_SIZES`: the preset (width, height) for each platform key. */
  const TemplateSizes: map<string, (int, int)> := map[
    "banner" := (960, 320),
    "poster" := (512, 768),
    "instagram" := (640, 640)
  ]

  datatype Size = Size(width: int, height: int)

  predicate Aligned(n: int) {
    n >= 8 && n % 8 == 0
  }

  /**
    `_m8(x)`: `x` rounded up to a multiple of 8, at least 8. The result is the least
    multiple of 8 that is both at least 8 and at least `x`.
  */
  function M8(x: int): (r: int)
    ensures Aligned(r) && r >= x
    ensures x <= 8 ==> r == 8
    ensures x >= 8 ==> r < x + 8
  {
    Max(8, (x + 7) / 8 * 8)
  }

  /** An aligned value is left alone. */
  lemma M8KeepsAligned(x: int)
    requires Aligned(x)
    ensures M8(x) == x
  {
    var r := M8(x);
    assert r / 8 == x / 8 by {
      assert x <= r < x + 8;
    }
  }

  /** Rounding twice is rounding once. */
  lemma M8Idempotent(x: int)
    ensures M8(M8(x)) == M8(x)
  {
    M8KeepsAligned(M8(x));
  }

  /** Rounding never reverses the order of two values. */
  lemma M8Monotone(x: int, y: int)
    requires x <= y
    ensures M8(x) <= M8(y)
  {
  }

  /** The preset size for a (resolved) platform: banner, poster, or the square default. */
  function PresetSize(platform: string): (r: Size)
    ensures platform == "banner" ==> r == Size(960, 320)
    ensures platform == "poster" ==> r == Size(512, 768)
    ensures platform != "banner" && platform != "poster" ==> r == Size(640, 640)
  {
    var wh := if platform == "banner" then TemplateSizes["banner"]
      else if platform == "poster" then TemplateSizes["poster"]
      else TemplateSizes["instagram"];
    Size(wh.0, wh.1)
  }

  /** Python's `int(w * 1.5)`: three halves of `w`, truncated toward zero. */
  function ThreeHalvesTruncated(w: int): (r: int)
    ensures w >= 0 ==> r == 3 * w / 2 && r >= w
    ensures w < 0 ==> r < 0
  {
    if w >= 0 then 3 * w / 2 else -((-3 * w) / 2)
  }

  /**
    The height derived from an explicit width: a third for a banner, three halves for a poster,
    square otherwise; the first two never drop below 8.
  */
  function AspectHeight(platform: string, w: int): (r: int)
    ensures platform == "banner" && w < 24 ==> r == 8
    ensures platform == "banner" && w >= 24 ==> 3 * r <= w < 3 * r + 3
    ensures platform == "poster" && w < 6 ==> r == 8
    ensures platform == "poster" && w >= 6 ==> 2 * r <= 3 * w < 2 * r + 2
    ensures platform != "banner" && platform != "poster" ==> r == w
  {
    if platform == "banner" then Max(8, w / 3)
    else if platform == "poster" then Max(8, ThreeHalvesTruncated(w))
    else w
  }

  /**
    The final size: the platform preset when `exact` is set or the width is missing or 0,
    otherwise the explicit width and its derived height; both then go through `_m8`.
  */
  function ResolveSize(platform: string, width: Option<int>, exact: bool): (r: Size)
    ensures Aligned(r.width) && Aligned(r.height)
    ensures exact || !IsTruthy(width) ==> r == PresetSize(platform)
    ensures !exact && IsTruthy(width) ==> r.width == M8(width.value) && r.height == M8(AspectHeight(platform, width.value))
  {
    var raw := if exact || !IsTruthy(width) then PresetSize(platform)
      else Size(width.value, AspectHeight(platform, width.value));
    M8KeepsAligned(960);
    M8KeepsAligned(320);
    M8KeepsAligned(512);
    M8KeepsAligned(768);
    M8KeepsAligned(640);
    Size(M8(raw.width), M8(raw.height))
  }

  /** `exact` pins the preset, whatever width is supplied. */
  lemma ExactForcesPreset(platform: string, width: Option<int>)
    ensures ResolveSize(platform, width, true) == PresetSize(platform)
  {
  }

  /** An explicit width that is already a multiple of 8 (and at least 8) comes back unchanged. */
  lemma AlignedWidthKept(platform: string, w: int)
    requires Aligned(w)
    ensures ResolveSize(platform, Some(w), false).width == w
  {
    M8KeepsAligned(w);
  }

  /** A negative width is not replaced by a default: it collapses to the 8 x 8 minimum. */
  lemma NegativeWidthIsMinimal(platform: string, w: int)
    requires w < 0
    ensures ResolveSize(platform, Some(w), false) == Size(8, 8)
  {
  }

  /** A banner is never taller than wide, a poster never wider than tall, and anything else is square. */
  lemma SizeOrientation(platform: string, width: Option<int>, exact: bool)
    ensures platform == "banner" ==> ResolveSize(platform, width, exact).height <= ResolveSize(platform, width, exact).width
    ensures platform == "poster" ==> ResolveSize(platform, width, exact).height >= ResolveSize(platform, width, exact).width
    ensures platform != "banner" && platform != "poster" ==>
      ResolveSize(platform, width, exact).height == ResolveSize(platform, width, exact).width
  {
    if !exact && IsTruthy(width) {
      var w := width.value;
      var h := AspectHeight(platform, w);
      if platform == "banner" {
        if w >= 8 {
          M8Monotone(h, w);
        } else {
          M8Monotone(h, 8);
        }
      } else if platform == "poster" {
        if w >= 0 {
          M8Monotone(w, h);
        } else {
          M8Monotone(8, h);
        }
      }
    }
  }

  // ---------------------------------------------------------------- negative prompt

  const DefaultNegativePrompt := "text, letters, watermark, logo, low quality, blurry"

  /** `negative_prompt`, or the default list of suppressed artefacts when it is missing or empty. */
  function ResolveNegativePrompt(negativePrompt: Option<string>): (r: string)
    ensures r != ""
    ensures negativePrompt.Some? && negativePrompt.value != "" ==> r == negativePrompt.value
    ensures negativePrompt.None? || negativePrompt.value == "" ==> r == DefaultNegativePrompt
  {
    OrDefault(negativePrompt, DefaultNegativePrompt)
  }

  // ---------------------------------------------------------------- seed

  predicate IsHexDigest(s: string) {
    |s| == 64 && IsHex(s)
  }

  /** What `hashlib.sha256(...).hexdigest()` returns: 64 lower-case hexadecimal digits. */
  type HexDigest = s: string | IsHexDigest(s) witness seq(64, _ => '0')

  const SeedModulus := 0x8000_0000

  /** `int(digest[:16], 16) % (2 ** 31)`. */
  function DigestSeed(digest: HexDigest): (r: int)
    ensures 0 <= r < SeedModulus
  {
    assert IsHex(digest[..16]);
    HexValue(digest[..16]) % SeedModulus
  }

  lemma Pow16Of8()
    ensures Pow(16, 8) == 2 * SeedModulus
  {
    assert Pow(16, 2) == 256;
    assert Pow(16, 4) == 65536 by {
      assert Pow(16, 3) == 16 * 256;
    }
    assert Pow(16, 6) == 16777216 by {
      assert Pow(16, 5) == 16 * 65536;
    }
    assert Pow(16, 7) == 16 * 16777216;
  }

  /**
    Only the digest's digits 8 to 15 reach the seed: the leading eight hexadecimal digits
    are a multiple of 2^32 and vanish modulo 2^31.
  */
  lemma DigestSeedUsesLowDigits(digest: HexDigest)
    ensures IsHex(digest[8..16])
    ensures DigestSeed(digest) == HexValue(digest[8..16]) % SeedModulus
  {
    var high, low := digest[..8], digest[8..16];
    assert IsHex(high) && IsHex(low);
    assert digest[..16] == high + low;
    HexValueAppend(high, low);
    Pow16Of8();
    assert HexValue(digest[..16]) == HexValue(high) * 2 * SeedModulus + HexValue(low);
    DropMultipleOfModulus(HexValue(high) * 2, HexValue(low));
  }

  lemma DropMultipleOfModulus(k: int, x: int)
    ensures (k * SeedModulus + x) % SeedModulus == x % SeedModulus
  {
  }

  /** The `seed` argument when present: a Python `int`, or a `str` for `int()` to convert. */
  datatype SeedArg = IntSeed(n: int) | TextSeed(text: string)

  /**
    The seed: `int(seed)` when one is given (0 when the conversion raises), otherwise the
    digest seed of the canonical text.
  */
  function ResolveSeed(seed: Option<SeedArg>, seedText: string, sha256: string -> HexDigest): (r: int)
    ensures seed.None? ==> 0 <= r < SeedModulus && r == DigestSeed(sha256(seedText))
    ensures seed.Some? && seed.value.IntSeed? ==> r == seed.value.n
    ensures seed.Some? && seed.value.TextSeed? ==>
      r == (if ParseInt(seed.value.text).Some? then ParseInt(seed.value.text).value else 0)
  {
    match seed
    case None => DigestSeed(sha256(seedText))
    case Some(IntSeed(n)) => n
    case Some(TextSeed(text)) =>
      match ParseInt(text)
      case Some(n) => n
      case None => 0
  }

  /** A seed given as the decimal text of an integer is that integer. */
  lemma DecimalSeedText(n: int, seedText: string, sha256: string -> HexDigest)
    ensures ResolveSeed(Some(TextSeed(IntToDecimal(n))), seedText, sha256) == n
  {
    DecimalRoundTrip(n);
  }

  /** An empty seed text cannot be converted and gives seed 0. */
  lemma EmptySeedTextIsZero(seedText: string, sha256: string -> HexDigest)
    ensures ResolveSeed(Some(TextSeed("")), seedText, sha256) == 0
  {
  }

  /** The field separator of the seed text does not occur in `s`. */
  predicate NoPipe(s: string) {
    '|' !in s
  }

  /**
    The nine fields hashed when no seed is given, in order: the raw product, use case and
    style, the resolved platform and template key, the raw profile, the rounded width, the
    resolved steps and the guidance scale as text.
  */
  function SeedFields(product: string, useCase: string, platform: string, style: string, tpl: string,
                      profile: Option<string>, width: int, steps: int, guidance: string): (r: seq<string>)
    ensures |r| == 9
    ensures NoPipe(r[6]) && NoPipe(r[7])
  {
    [product, useCase, platform, style, tpl, Render(profile), IntToDecimal(width), IntToDecimal(steps), guidance]
  }

  /** The `|`-joined text that is hashed: it opens with the first field and closes with the last. */
  function SeedText(fields: seq<string>): (r: string)
    ensures |fields| > 0 ==> StartsWith(r, fields[0]) && EndsWith(r, fields[|fields| - 1])
  {
    if fields == [] then "" else JoinEnds(fields, "|"); Join(fields, "|")
  }

  /**
    When none of the text fields contains '|', the canonical seed text determines every field:
    two requests whose resolved fields differ in any way hash different texts.
  */
  lemma SeedTextDeterminesFields(
    product: string, useCase: string, platform: string, style: string, tpl: string, profile: Option<string>, width: int, steps: int, guidance: string,
    product': string, useCase': string, platform': string, style': string, tpl': string, profile': Option<string>, width': int, steps': int, guidance': string)
    requires NoPipe(product) && NoPipe(useCase) && NoPipe(platform) && NoPipe(style) && NoPipe(tpl) && NoPipe(Render(profile)) && NoPipe(guidance)
    requires NoPipe(product') && NoPipe(useCase') && NoPipe(platform') && NoPipe(style') && NoPipe(tpl') && NoPipe(Render(profile')) && NoPipe(guidance')
    requires SeedText(SeedFields(product, useCase, platform, style, tpl, profile, width, steps, guidance))
          == SeedText(SeedFields(product', useCase', platform', style', tpl', profile', width', steps', guidance'))
    ensures product == product' && useCase == useCase' && platform == platform' && style == style' && tpl == tpl'
    ensures Render(profile) == Render(profile') && width == width' && steps == steps' && guidance == guidance'
  {
    var a := SeedFields(product, useCase, platform, style, tpl, profile, width, steps, guidance);
    var b := SeedFields(product', useCase', platform', style', tpl', profile', width', steps', guidance');
    JoinInjective(a, b, '|');
    assert a[6] == b[6] && a[7] == b[7];
    DecimalInjective(width, width');
    DecimalInjective(steps, steps');
  }

  /**
    Without that condition the text is ambiguous: a '|' can move between neighbouring fields,
    so product "a|b" with use case "c" hashes the same text as product "a" with use case "b|c".
  */
  lemma PipeMovesBetweenFields(x: string, y: string, z: string, platform: string, style: string, tpl: string,
                               profile: Option<string>, width: int, steps: int, guidance: string)
    ensures SeedText(SeedFields(x + "|" + y, z, platform, style, tpl, profile, width, steps, guidance))
         == SeedText(SeedFields(x, y + "|" + z, platform, style, tpl, profile, width, steps, guidance))
  {
    var a := SeedFields(x + "|" + y, z, platform, style, tpl, profile, width, steps, guidance);
    var b := SeedFields(x, y + "|" + z, platform, style, tpl, profile, width, steps, guidance);
    var rest := Join(a[2..], "|");
    assert a[2..] == b[2..];
    assert Join(a, "|") == (x + "|" + y) + "|" + (z + "|" + rest);
    assert Join(b, "|") == x + "|" + ((y + "|" + z) + "|" + rest);
  }

  // ---------------------------------------------------------------- the whole request

  /** The arguments of `generate_design`; `None` stands for Python's `None`. */
  datatype Request = Request(
    product: string,
    useCase: string,
    platform: Option<string>,
    style: string,
    template: Option<string>,
    width: Option<int>,
    steps: Option<int>,
    guidance: string,        // str(guidance_scale): the scale only ever reaches the seed text
    negativePrompt: Option<string>,
    seed: Option<SeedArg>,
    profile: Option<string>,
    exact: bool)

  /** A call that passes only the four positional arguments and keeps every keyword default. */
  function DefaultRequest(product: string, useCase: string, platform: string, style: string): (r: Request)
    ensures r.template == Some("sale_poster") && r.profile == Some("balanced") && r.guidance == "6.5"
    ensures r.width.None? && r.steps.None? && r.seed.None? && r.negativePrompt.None? && !r.exact
  {
    Request(product, useCase, Some(platform), style, Some("sale_poster"), None, None, "6.5", None, None, Some("balanced"), false)
  }

  /** Everything passed to the pipeline call. */
  datatype Job = Job(
    platform: string,
    prompt: string,
    negativePrompt: string,
    width: int,
    height: int,
    steps: int,
    guidance: string,
    seed: int)

  /** The canonical text hashed for a request without a seed, over the resolved width and steps. */
  function RequestSeedText(req: Request, width: int, steps: int): (r: string)
    ensures StartsWith(r, req.product) && EndsWith(r, req.guidance)
  {
    SeedText(SeedFields(req.product, req.useCase, ResolvePlatform(req.template, req.platform), req.style,
      TemplateKey(req.template), req.profile, width, steps, req.guidance))
  }

  /** Resolution of one call of `generate_design`, up to the pipeline call. */
  function Resolve(req: Request, gpu: bool, sha256: string -> HexDigest): (job: Job)
    ensures Aligned(job.width) && Aligned(job.height)
    ensures job.platform == ResolvePlatform(req.template, req.platform)
    ensures Size(job.width, job.height) == ResolveSize(job.platform, req.width, req.exact)
    ensures job.steps == ResolveSteps(req.steps, req.profile, gpu)
    ensures job.prompt == Agent.BuildPrompt(req.product, req.useCase, job.platform, req.style, TemplateKey(req.template))
    ensures job.negativePrompt == ResolveNegativePrompt(req.negativePrompt)
    ensures job.guidance == req.guidance
    ensures job.seed == ResolveSeed(req.seed, RequestSeedText(req, job.width, job.steps), sha256)
    ensures req.seed.None? ==> 0 <= job.seed < SeedModulus && job.seed == DigestSeed(sha256(RequestSeedText(req, job.width, job.steps)))
  {
    var tpl := TemplateKey(req.template);
    var platform := ResolvePlatform(req.template, req.platform);
    var prompt := Agent.BuildPrompt(req.product, req.useCase, platform, req.style, tpl);
    var steps := ResolveSteps(req.steps, req.profile, gpu);
    var size := ResolveSize(platform, req.width, req.exact);
    var negativePrompt := ResolveNegativePrompt(req.negativePrompt);
    var seedText := RequestSeedText(req, size.width, steps);
    var seed := ResolveSeed(req.seed, seedText, sha256);
    Job(platform, prompt, negativePrompt, size.width, size.height, steps, req.guidance, seed)
  }

  /** The profile never influences the size: only the step count (and the seed text) depend on it. */
  lemma ProfileNeverChangesSize(req: Request, profile': Option<string>, gpu: bool, gpu': bool, sha256: string -> HexDigest)
    ensures var job, job' := Resolve(req, gpu, sha256), Resolve(req.(profile := profile'), gpu', sha256);
      job.width == job'.width && job.height == job'.height && job.platform == job'.platform && job.prompt == job'.prompt
  {
  }

  /** The no-text guard closes every prompt the backend sends. */
  lemma JobPromptIsGuarded(req: Request, gpu: bool, sha256: string -> HexDigest)
    ensures var p := Resolve(req, gpu, sha256).prompt;
      |p| > |Agent.Guard| && EndsWith(p, Agent.Guard) && StartsWith(p, Agent.Opening)
  {
    var job := Resolve(req, gpu, sha256);
    var prompt := Agent.BuildPrompt(req.product, req.useCase, job.platform, req.style, TemplateKey(req.template));
    assert job.prompt == prompt;
    Agent.PromptEndsWithGuard(req.product, req.useCase, job.platform, req.style, TemplateKey(req.template));
  }

  /** Only keyword defaults: a 512 x 768 poster at 20 steps, on any hardware. */
  lemma DefaultRequestExample(product: string, useCase: string, platform: string, style: string, gpu: bool, sha256: string -> HexDigest)
    ensures var job := Resolve(DefaultRequest(product, useCase, platform, style), gpu, sha256);
      job.platform == "poster" && job.width == 512 && job.height == 768 && job.steps == 20
      && job.negativePrompt == DefaultNegativePrompt && 0 <= job.seed < SeedModulus
  {
    HandlerDefaultTemplateIsPoster(Some(platform));
    BalancedProfileSteps(gpu);
  }

  /** The request handler's defaults (width 384, steps 20, template sale_poster): a 384 x 576 poster. */
  lemma HandlerDefaultsExample(product: string, useCase: string, platform: string, style: string, gpu: bool, sha256: string -> HexDigest)
    ensures var job := Resolve(DefaultRequest(product, useCase, platform, style).(width := Some(384), steps := Some(20), guidance := "7.5"), gpu, sha256);
      job.platform == "poster" && job.width == 384 && job.height == 576 && job.steps == 20
  {
    var req := DefaultRequest(product, useCase, platform, style).(width := Some(384), steps := Some(20), guidance := "7.5");
    var job := Resolve(req, gpu, sha256);
    HandlerDefaultTemplateIsPoster(Some(platform));
    assert job.platform == "poster";
    assert AspectHeight("poster", 384) == 576;
    M8KeepsAligned(384);
    M8KeepsAligned(576);
  }

  /**
    A fast, exact sale banner whose product is a name padded with whitespace (" Acme Mug ",
    say): the website-banner template gives a banner, `exact` gives the 960 x 320 preset,
    the fast profile gives 10 steps, and the prompt names the bare name right after the
    base clause.
  */
  lemma PaddedBannerExample(left: string, name: string, right: string, gpu: bool, sha256: string -> HexDigest)
    requires AllSpace(left, IsPySpace) && AllSpace(right, IsPySpace)
    requires name != [] && Trimmed(name, IsPySpace)
    ensures var job := Resolve(Request(left + name + right, "sale", Some("banner"), "minimal", Some("website_banner"),
                                       None, None, "7.5", None, None, Some("fast"), true), gpu, sha256);
      job.platform == "banner" && job.width == 960 && job.height == 320 && job.steps == 10
      && Agent.Subject(left + name + right) == name
      && job.prompt[|Agent.Opening|..|Agent.Opening| + |name|] == name
  {
    var req := Request(left + name + right, "sale", Some("banner"), "minimal", Some("website_banner"),
                       None, None, "7.5", None, None, Some("fast"), true);
    LowerWebsiteBanner();
    WebsiteBannerTemplate("website_banner", req.platform);
    FastProfileSteps(gpu);
    Agent.SubjectOfPadded(left, name, right);
    var job := Resolve(req, gpu, sha256);
    assert job.platform == "banner";
    assert job.steps == 10;
  }
}
