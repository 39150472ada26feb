# imagenAI request resolution, in Dafny

imagenAI turns a short product description into a marketing image made by a Stable
Diffusion pipeline. This project models the deterministic part of that work: everything
that happens before the pipeline is called, and the browser client's pure decisions
around a request. It has three parts.

- **Job resolution** (`generator.dfy`, module `Generator`). This is `generate_design` up to
  the pipeline call. It resolves the platform from the template, the step count from the
  performance profile and the hardware, and the size from the platform presets or an
  explicit width, with both sides rounded up to a multiple of 8. It also resolves the
  negative prompt and the seed. Without a seed, the seed is the first 16 hex digits of a
  SHA-256 over nine `|`-joined fields, reduced modulo 2^31. Four fields are resolved values:
  the platform, the lower-cased template key, the rounded width and the step count. The
  other five are taken as the caller passed them: the product (not stripped), the use case,
  the style, the profile (not lower-cased, and `None` renders as "None") and the guidance
  scale. `Resolve` assembles the whole `Job`.
- **Prompt synthesis** (`agent.dfy`, module `Agent`). This is `build_prompt`: the base
  clause, the use-case clause that names the stripped product, the framing for the platform,
  the style hint, and the closing no-text guard, in that fixed order.
- **Client decisions** (`app.dfy`, module `App`). These are the speed/quality preset clamp,
  the empty-product guard, how the server's reply becomes the preview image's `src`, and
  the download file name.

`text.dfy` (module `Text`) holds the string machinery these rely on:
- Python's `str.strip()` and JavaScript's `trim()`, sharing one definition over a whitespace class.
- ASCII `str.lower()`.
- `x or d`, f-string rendering of `None`, and `Join`, which writes fields with a separator between them as the seed text's f-string does.
- `str(int)`, `int(str)` and `int(str, 16)`.
- the `/\s+/g` replacement.

`wrappers.dfy` holds `Option` and `Result`.

Python's `None` and an empty string are both "falsy" in the source. The model keeps them
apart with `Option`, so every `x or default` can be stated exactly. Two things enter as
parameters of `Resolve`: whether a CUDA device is present (`gpu`), and the SHA-256 hex
digest (`sha256`, a function returning 64 lower-case hex digits).

Some behaviour of the code differs from what a reader might expect, and the model follows
the code:
- A width of 0 or `None` picks the platform preset. A negative width is not clamped or
  replaced by a default such as 384; it rounds to 8 (`NegativeWidthIsMinimal`).
- An explicit step count is used as given, even when it is negative; it is not clamped.
- An explicit seed is passed through `int()` and is not reduced into [0, 2^31). Only the
  digest seed is in range.
- The profile's default width (`default_w`) is computed but never read. The profile
  changes only the step count, never the size (`ProfileNeverChangesSize`).
- The client never sends `template`, so the request handler's default `sale_poster` applies.
  That turns every request from the web page into a poster, whatever platform was chosen
  (`HandlerDefaultTemplateIsPoster`, `HandlerDefaultsExample`).
- The seed text does not escape '|'. A '|' inside the product or another text field can
  move to a neighbouring field without changing the hashed text. Product "a|b" with use case
  "c" therefore gets the same seed as product "a" with use case "b|c"
  (`PipeMovesBetweenFields`). When no text field contains '|', the fields can be read back
  from the text (`SeedTextDeterminesFields`).
- `int()` skips whitespace around a literal, but not everything `str.strip()` removes: the
  four ASCII separators U+001C to U+001F are not skipped (`Text.IsIntSpace`). A seed text
  such as "\x1c5" fails to convert and gives seed 0 (`SeparatorDefeatsParseInt`).

## Model

| member | source | states |
|---|---|---|
| Text.IsPySpace | backend/agent.py:61 | Python's `str.isspace()` set: U+0009..U+000D, U+001C..U+0020, U+0085, U+00A0, U+1680, U+2000..U+200A, U+2028, U+2029, U+202F, U+205F and U+3000; none of them is a digit, a sign or '_' |
| Text.IsIntSpace | backend/generator.py:222 | the whitespace `int()` skips: the `IsPySpace` set without U+001C..U+001F, and those four are exactly what it leaves out |
| Text.IsJsSpace | frontend/app.js:23 | JavaScript's `trim()` and `\s` set: U+0009..U+000D, U+0020, U+00A0, U+1680, U+2000..U+200A, U+2028, U+2029, U+202F, U+205F, U+3000 and U+FEFF; '_' is not in it |
| Text.SpaceClassesDiffer | frontend/app.js:23 | only JavaScript counts U+FEFF as whitespace; only Python counts U+001C..U+001F and U+0085 |
| Text.Strip | backend/agent.py:61 | the result has no whitespace at either end, is no longer than the input, and is empty exactly when the input is all whitespace |
| Text.StripKeepsTrimmed | backend/agent.py:61 | a text whose ends are not whitespace is left unchanged by strip |
| Text.StripPadded | backend/agent.py:61 | strip removes exactly the whitespace around a non-empty text whose own ends are not whitespace |
| Text.StripIdempotent | backend/agent.py:61 | stripping twice equals stripping once |
| Text.StripKeepsFirst | backend/generator.py:222 | a text that does not start with whitespace keeps its first character when stripped |
| Text.ReplaceSpaceRuns | frontend/app.js:94 | the result holds no whitespace, is no longer than the input, and is empty exactly when the input is |
| Text.SpaceRunIsOneUnderscore | frontend/app.js:94 | a whitespace run of any length between two whitespace-free texts becomes exactly one underscore |
| Text.ReplaceKeepsPlainText | frontend/app.js:94 | a text without whitespace is unchanged by the replacement |
| Text.ReplaceSpaceRunsIdempotent | frontend/app.js:94 | replacing the runs a second time changes nothing |
| Text.LowerAt | backend/generator.py:162 | each character is lower-cased on its own, in place |
| Text.Lower | backend/generator.py:162 | lower-casing keeps the length and leaves no upper-case ASCII letter |
| Text.LowerKeepsLowercase | backend/generator.py:162 | a text without upper-case ASCII letters is its own lower-case form |
| Text.LowerIdempotent | backend/generator.py:174 | lower-casing twice equals lower-casing once |
| Text.OrDefault | backend/generator.py:162 | `x or d`: a non-empty text is kept; `None` or the empty text gives the default |
| Text.Render | backend/generator.py:218 | an f-string renders `None` as "None" and a text as itself |
| Text.IntToDecimal | backend/generator.py:218 | the decimal rendering of an integer is non-empty and never contains the '\|' separator |
| Text.ParseInt | backend/generator.py:222 | `int(str)` never succeeds on a text that is empty or made only of the whitespace it skips (the `str.isspace()` characters except U+001C..U+001F) |
| Text.ParseIntIgnoresPadding | backend/generator.py:222 | whitespace that `int()` accepts around a seed text never changes what it makes of the text |
| Text.SeparatorDefeatsParseInt | backend/generator.py:220-224 | a text starting with one of U+001C..U+001F fails to convert, so `int()` raises and the seed is 0 |
| Text.DecimalIsTrimmed | backend/generator.py:218-222 | a decimal rendering has no whitespace `int()` would skip at either end |
| Text.DecimalLiteral | backend/generator.py:218-222 | the decimal rendering of `n` reads back as the literal `n` |
| Text.DecimalRoundTrip | backend/generator.py:218-222 | `int(str(n)) == n` for every integer `n` |
| Text.DecimalInjective | backend/generator.py:218 | distinct integers render as distinct decimal texts |
| Text.JoinInjective | backend/generator.py:218 | two equally long field lists whose fields hold no separator join to the same text only if they are equal |
| Text.JoinEnds | backend/generator.py:218 | a join of one or more parts opens with the first part and closes with the last |
| Text.HexValue | backend/generator.py:219 | the value of `n` hex digits is below 16^n |
| Text.HexValueAppend | backend/generator.py:219 | the value of `a + b` is the value of `a` shifted left by the digits of `b`, plus the value of `b` |
| Agent.Subject | backend/agent.py:61 | the subject is never empty: "product" when the product is all whitespace, otherwise the stripped product |
| Agent.SubjectOfPadded | backend/agent.py:61 | a name with whitespace around it is named without that whitespace |
| Agent.IntentTail | backend/agent.py:65-70 | the sale wording exactly for "sale", the event wording exactly for "event", the branding wording exactly for every other use case |
| Agent.Intent | backend/agent.py:65-70 | the use-case clause opens with the subject and continues with exactly the wording for the use case |
| Agent.Framing | backend/agent.py:72-77 | wide framing exactly for "banner", tall exactly for "poster", square exactly for every other platform |
| Agent.StyleHint | backend/agent.py:79-83 | the table's hint for a known style, and "modern style" exactly when the style is not in the table |
| Agent.Closing | backend/agent.py:72-88 | the closing part is the separator, the framing and a separator, then exactly the style hint and a separator, then the no-text guard |
| Agent.BuildPrompt | backend/agent.py:60-88 | the prompt opens with the base clause, names the subject right after it, follows it with exactly the wording for the use case, and ends with the framing, style and guard clauses |
| Agent.PromptEndsWithGuard | backend/agent.py:85-88 | every prompt ends with "no text, no letters, no logo, no watermark" |
| Agent.TemplateIgnored | backend/agent.py:60 | the template argument never changes the prompt |
| Agent.BlankProductIsNamedProduct | backend/agent.py:61 | an empty or all-whitespace product is named "product" in the prompt |
| Agent.SubjectDeterminesPrompt | backend/agent.py:60-88 | for the same use case, platform and style, two prompts are equal if and only if the two products give the same subject |
| Agent.StyleShowsInPrompt | backend/agent.py:79-88 | with the other arguments fixed, two styles give the same prompt if and only if they give the same style hint |
| Generator.ResolvePlatform | backend/generator.py:162-168 | poster templates in any letter case give "poster"; otherwise the website-banner template or a "banner" platform gives "banner"; otherwise the platform, or "instagram" when it is missing or empty; never empty |
| Generator.TemplateKey | backend/generator.py:162 | a missing or empty template gives the empty key |
| Generator.TemplateKeyIgnoresCase | backend/generator.py:162 | a template and its lower-case form give the same key |
| Generator.PosterTemplateWins | backend/generator.py:163-164 | a poster template in any letter case gives "poster", even when the platform is "banner" |
| Generator.WebsiteBannerTemplate | backend/generator.py:165-166 | the website-banner template in any letter case gives "banner", whatever the platform |
| Generator.HandlerDefaultTemplateIsPoster | backend/generator.py:155-164 | the default template `sale_poster` makes every platform a poster |
| Generator.ProfileSteps | backend/generator.py:174-184 | 10 exactly for the fast profile, 40 exactly for high on a GPU, 20 exactly in every other case |
| Generator.ProfileKey | backend/generator.py:174 | a missing or empty profile is the balanced profile |
| Generator.ProfileKeyIgnoresCase | backend/generator.py:174 | the profile key ignores letter case |
| Generator.ResolveSteps | backend/generator.py:175-183 | a non-zero explicit step count wins; otherwise the profile's count, at least 10 |
| Generator.BalancedProfileSteps | backend/generator.py:174-184 | the default profile asks for 20 steps on any hardware |
| Generator.FastProfileSteps | backend/generator.py:175-176 | the fast profile asks for 10 steps on any hardware |
| Generator.HighWithoutGpuIsBalanced | backend/generator.py:179-184 | without a GPU the high profile gives the same steps as balanced, 20 when none are given |
| Generator.M8 | backend/generator.py:205-206 | the result is a multiple of 8, at least 8 and at least the input, 8 for inputs up to 8, and less than input + 8 otherwise |
| Generator.M8KeepsAligned | backend/generator.py:205-206 | an aligned value is left unchanged |
| Generator.M8Idempotent | backend/generator.py:205-209 | rounding twice equals rounding once |
| Generator.M8Monotone | backend/generator.py:205-206 | rounding keeps the order of two values |
| Generator.PresetSize | backend/generator.py:139-143 | banner 960 x 320, poster 512 x 768, and 640 x 640 for any other platform |
| Generator.ThreeHalvesTruncated | backend/generator.py:200 | `int(w * 1.5)`: three halves rounded down for non-negative `w`, at least `w`; negative for negative `w` |
| Generator.AspectHeight | backend/generator.py:196-202 | banner: 8 for widths below 24, otherwise a third of the width rounded down; poster: 8 for widths below 6, otherwise three halves of the width rounded down; any other platform: the width |
| Generator.ResolveSize | backend/generator.py:187-209 | both sides are aligned; the preset when `exact` is set or the width is missing or 0; otherwise the rounded width and its rounded derived height |
| Generator.ExactForcesPreset | backend/generator.py:187-193 | with `exact`, the preset size is used whatever width is supplied |
| Generator.AlignedWidthKept | backend/generator.py:194-208 | an explicit width that is already aligned comes back unchanged |
| Generator.NegativeWidthIsMinimal | backend/generator.py:194-209 | a negative explicit width gives the 8 x 8 minimum, not a default width |
| Generator.SizeOrientation | backend/generator.py:187-209 | a banner is never taller than wide, a poster never wider than tall, and every other platform is square |
| Generator.ResolveNegativePrompt | backend/generator.py:212-213 | a non-empty negative prompt is kept; a missing or empty one becomes the default list; never empty |
| Generator.DigestSeed | backend/generator.py:219 | the digest seed lies in [0, 2^31) |
| Generator.DigestSeedUsesLowDigits | backend/generator.py:219 | only hex digits 8 to 15 of the digest reach the seed; the first eight are cancelled by the modulus |
| Generator.ResolveSeed | backend/generator.py:217-224 | no seed: the in-range digest seed of the canonical text; an int seed is kept as given; a text seed gives `int(text)`, or 0 when the conversion fails |
| Generator.DecimalSeedText | backend/generator.py:221-222 | a seed given as the decimal text of `n` is `n` |
| Generator.EmptySeedTextIsZero | backend/generator.py:221-224 | an empty seed text fails to convert and gives 0 |
| Generator.SeedFields | backend/generator.py:218 | the seed text has nine fields, and the width and step fields never contain the '\|' separator |
| Generator.SeedText | backend/generator.py:218 | the hashed text opens with the first field and closes with the last |
| Generator.RequestSeedText | backend/generator.py:218 | a request's seed text opens with its raw product and closes with its guidance text |
| Generator.SeedTextDeterminesFields | backend/generator.py:218 | when no text field contains '\|', equal canonical texts mean equal product, use case, platform, style, template key, profile text, width, steps and guidance |
| Generator.PipeMovesBetweenFields | backend/generator.py:218 | product `x\|y` with use case `z` and product `x` with use case `y\|z` hash the same text, all other fields equal |
| Generator.DefaultRequest | backend/generator.py:155-158 | the keyword defaults: template sale_poster, profile balanced, guidance 6.5, no width, steps, seed or negative prompt, not exact |
| Generator.Resolve | backend/generator.py:155-224 | the job's platform, size, steps, prompt, negative prompt and guidance are the resolved values; both sides are aligned; the seed is the resolved seed of the request's seed text over the resolved width and steps, and without a seed argument it is that text's in-range digest seed |
| Generator.ProfileNeverChangesSize | backend/generator.py:172-209 | changing the profile or the hardware never changes the size, platform or prompt |
| Generator.JobPromptIsGuarded | backend/generator.py:170 | every job's prompt opens with the base clause and ends with the no-text guard |
| Generator.DefaultRequestExample | backend/generator.py:155-213 | a call with only the positional arguments gives a 512 x 768 poster at 20 steps with the default negative prompt and an in-range seed |
| Generator.HandlerDefaultsExample | backend/run.py:27-39 | the request handler's defaults (width 384, steps 20) give a 384 x 576 poster at 20 steps |
| Generator.PaddedBannerExample | backend/generator.py:155-209 | a fast, exact, website-banner sale request for a padded name (" Acme Mug ") gives a 960 x 320 banner at 10 steps whose prompt names the bare name |
| App.ApplyPreset | frontend/app.js:31-38 | fast clamps the steps into [6, 12] and caps the width at 320; quality raises the steps to at least 30 and the width to at least 512; any other preset changes nothing; each bound moves a value only when it is out of range |
| App.ApplyPresetIdempotent | frontend/app.js:31-38 | applying a preset twice equals applying it once |
| App.CheckProduct | frontend/app.js:46-49 | a warning, and no request, exactly when the product field is empty or all whitespace; otherwise the trimmed product is sent |
| App.SentProductIsTrimmed | frontend/app.js:23 | a product that is sent is non-empty, has no whitespace at either end, and trims to itself |
| App.IsHttpUrl | frontend/app.js:77 | passes exactly when the text starts with "http" in any letter case, an optional "s" in either case, and "://"; nothing that passes starts with '/' |
| App.UpperCaseSchemePasses | frontend/app.js:77 | "HTTP://" and "HTTPS://" followed by anything pass the test |
| App.ResolveSrc | frontend/app.js:71-82 | inline data as a PNG data URL first, then the URL, then the image path; an http(s) path in any letter case is kept, and any other path is appended to the API base, with a '/' inserted only when the path does not start with one; a reply with none of the three is the "Unexpected response from server" error |
| App.BackendReplyResolves | frontend/app.js:76-79 | the backend's `/images/<name>` reply loads from the API base followed by `/images/<name>` |
| App.RelativePathIsAppended | frontend/app.js:79 | a path that starts with neither '/' nor 'h'/'H' loads from the API base followed by '/' and the path |
| App.DownloadName | frontend/app.js:94 | the name ends in ".png" and holds no whitespace; an empty product gives "design.png"; otherwise the stem is the product with its whitespace runs made underscores |
| App.SentProductNamesFile | frontend/app.js:94 | a non-empty product without whitespace at its ends, as the guard sends it, names the file after itself and keeps its first character |

## Left out

- The diffusion pipeline is not modelled: `get_pipe`, the scheduler, the half-precision choice, the `torch.Generator` and the inference call. The model stops at the values handed to the pipeline.
- Device detection is not modelled; whether CUDA is present is the input `gpu`.
- SHA-256 itself is not modelled. It is the parameter `sha256`, which returns 64 lower-case hex digits. The UTF-8 encoding of the hashed text is not modelled either.
- The output file is not modelled: its uuid name, `OUT_DIR` and the saved image. The FastAPI application and its static mount in `backend/run.py` are left out as well; only the request model's defaults appear, in `HandlerDefaultsExample`.
- Generator.Request: `guidance_scale` is a float in the source and appears here only as its `str()` text (`guidance`). It reaches only the seed text and the pipeline call, and float formatting is not modelled.
- Generator.ThreeHalvesTruncated: `int(w * 1.5)` is computed exactly; float arithmetic is not modelled. Rounding first matters for odd widths above about 3·10^15 (2^53 / 3), where `3w/2` is no longer exactly representable as a double. For widths above about 1.2·10^308 the product exceeds the largest double and the source raises OverflowError; the model returns a height.
- Text.IntToDecimal: CPython's limit on converting integers of more than 4300 decimal digits to text (`sys.int_max_str_digits`, the default since Python 3.11, 3.10.7 and 3.9.14, and configurable) is not modelled. There `str()` raises ValueError; the model renders every integer.
- Text.ParseInt: the same limit is not modelled for `int(str)`: a literal of more than 4300 digits raises ValueError in CPython and parses to its value in the model.
- Text.DecimalRoundTrip: holds for every integer in the model; in CPython only up to the 4300-digit limit, beyond which `str(n)` raises.
- Generator.DecimalSeedText: a text seed of more than 4300 digits makes `int(seed)` raise, so the source gives seed 0 where the model gives `n`.
- Generator.Resolve: a Python `str` can hold a lone surrogate (U+D800..U+DFFF, which `json.loads` produces from an escape such as `"\ud800"`), and `.encode('utf-8')` at backend/generator.py:218 raises UnicodeEncodeError on it. So with no seed, a product, use case, platform, style, template or profile holding one makes `generate_design` raise. Dafny's `char` cannot hold a surrogate, so the model cannot express that input and always returns a job.
- Generator.Resolve: a width or step count of more than 4300 digits makes the seed-text f-string raise ValueError out of `generate_design`; the model returns a job.
- Text.Lower: only ASCII letters are mapped. Python's full Unicode case mapping is not modelled, including mappings that change the length.
- Text.ParseInt: only `str` arguments are modelled, with ASCII digits. `int()` of floats, of booleans and of non-ASCII Unicode digits is not modelled. An int seed is `SeedArg.IntSeed`.
- Agent.BuildPrompt: products, use cases and styles that are `None` are not modelled. `None.strip()` raises in the source, and the model takes all three as texts.
- Agent.PromptEndsWithGuard: the guard is proved to close every prompt. That the prompt contains no other text instruction is not a property of the model, because the product is free text and may itself ask for text; the wordings chosen for the use case, platform and style are fixed constants.
- Client form reading is left out: `parseInt` and `parseFloat` of the width, steps, guidance and seed fields, and the `NaN` they can produce. `ApplyPreset` works on integers.
- The client's DOM, `fetch`, the non-OK response branch, the spinner, messages and asynchronous control flow are left out.
- App.Reply: non-string JSON values in `image_data`, `url` and `image_path` are not modelled. Each field is a text or absent.
- The superseded, commented-out prompt and sizing variants in `backend/agent.py` are not modelled.
