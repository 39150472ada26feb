/**
  The prompt builder of the backend (`build_prompt`): a fixed-order concatenation of a base
  clause, an intent clause naming the product, a framing clause, a style hint and a closing
  guard against rendered text. Every clause comes from a small closed table with a default
  entry for unrecognised values.
*/
module Agent {
  import opened Text

  const Base := "photorealistic product background, studio lighting, clean composition"
  const Guard := "no text, no letters, no logo, no watermark"
  const Separator := ", "

  /** What the prompt begins with: the base clause and its separator. */
  const Opening := Base + Separator

  /** The product as named in the prompt: stripped, or "product" when nothing is left. */
  function Subject(product: string): (r: string)
    ensures r != []
    ensures AllSpace(product, IsPySpace) ==> r == "product"
    ensures !AllSpace(product, IsPySpace) ==> r == Strip(product, IsPySpace)
  {
    var stripped := Strip(product, IsPySpace);
    if stripped == "" then "product" else stripped
  }

  /** A name with whitespace around it is named without that whitespace. */
  lemma SubjectOfPadded(left: string, name: string, right: string)
    requires AllSpace(left, IsPySpace) && AllSpace(right, IsPySpace)
    requires name != [] && Trimmed(name, IsPySpace)
    ensures Subject(left + name + right) == name
  {
    StripPadded(left, name, right, IsPySpace);
  }

  const SaleTail := ", clear focus, marketing background, empty space for text"
  const EventTail := ", festive background, dynamic lighting, no text"
  const BrandingTail := ", branding background, minimal aesthetic"

  /** What the use-case clause adds after the subject: sale, event, or (for any other value) branding wording. */
  function IntentTail(useCase: string): (r: string)
    ensures r == SaleTail <==> useCase == "sale"
    ensures r == EventTail <==> useCase == "event"
    ensures r == BrandingTail <==> useCase != "sale" && useCase != "event"
  {
    if useCase == "sale" then SaleTail
    else if useCase == "event" then EventTail
    else BrandingTail
  }

  /** The use-case clause: the subject, then the wording for the use case. */
  function Intent(subject: string, useCase: string): (r: string)
    ensures StartsWith(r, subject)
    ensures r[|subject|..] == IntentTail(useCase)
  {
    subject + IntentTail(useCase)
  }

  const WideFraming := "wide composition, subject off-center"
  const TallFraming := "tall composition, subject lower half"
  const SquareFraming := "square composition, centered subject"

  /** The framing clause: wide for a banner, tall for a poster, square for every other platform. */
  function Framing(platform: string): (r: string)
    ensures r == WideFraming <==> platform == "banner"
    ensures r == TallFraming <==> platform == "poster"
    ensures r == SquareFraming <==> platform != "banner" && platform != "poster"
  {
    if platform == "banner" then WideFraming
    else if platform == "poster" then TallFraming
    else SquareFraming
  }

  const StyleHints: map<string, string> := map[
    "minimal" := "minimal, clean background",
    "festive" := "festive colors, soft lights",
    "corporate" := "neutral colors, professional look"
  ]
  const DefaultStyleHint := "modern style"

  /** The style clause: the table entry for `style`, or the modern-style default for any other value. */
  function StyleHint(style: string): (r: string)
    ensures style in StyleHints ==> r == StyleHints[style]
    ensures style !in StyleHints ==> r == DefaultStyleHint
    ensures r != DefaultStyleHint <==> style in StyleHints
  {
    if style in StyleHints then StyleHints[style] else DefaultStyleHint
  }

  /** Everything after the intent clause; it depends on the platform and the style only. */
  function Closing(platform: string, style: string): (r: string)
    ensures StartsWith(r, Separator + Framing(platform) + Separator)
    ensures |r| == |Separator + Framing(platform) + Separator| + |StyleHint(style) + Separator| + |Guard|
    ensures r[|Separator + Framing(platform) + Separator|..|r| - |Guard|] == StyleHint(style) + Separator
    ensures EndsWith(r, Guard)
  {
    var front := Separator + Framing(platform) + Separator;
    var middle := StyleHint(style) + Separator;
    ThreeParts(front, middle, Guard);
    front + middle + Guard
  }

  /**
    `build_prompt(product, use_case, platform, style, template)`. The result opens with the base
    clause, names the subject right after it, follows it with the use-case wording, and closes with the framing, the style hint and
    the no-text guard, in that order. `template` is accepted and never read.
  */
  function BuildPrompt(product: string, useCase: string, platform: string, style: string, template: string): (r: string)
    ensures |r| > |Opening| + |Subject(product)| + |Closing(platform, style)|
    ensures StartsWith(r, Opening)
    ensures r[|Opening|..|Opening| + |Subject(product)|] == Subject(product)
    ensures EndsWith(r, Closing(platform, style))
    ensures r[|Opening| + |Subject(product)|..|r| - |Closing(platform, style)|] == IntentTail(useCase)
  {
    var subject := Subject(product);
    var closing := Closing(platform, style);
    var tail := IntentTail(useCase);
    var r := Opening + Intent(subject, useCase) + closing;
    var rest := tail + closing;
    Regroup(Opening, subject, tail, closing);
    ThreeParts(Opening, subject, rest);
    assert r == (Opening + subject) + tail + closing;
    ThreeParts(Opening + subject, tail, closing);
    r
  }

  /** Whatever the inputs, the prompt ends with the no-text guard. */
  lemma PromptEndsWithGuard(product: string, useCase: string, platform: string, style: string, template: string)
    ensures var r := BuildPrompt(product, useCase, platform, style, template);
      |r| > |Guard| && EndsWith(r, Guard)
  {
    SuffixOfSuffix(BuildPrompt(product, useCase, platform, style, template), Closing(platform, style), Guard);
  }

  lemma Regroup(a: string, b: string, c: string, d: string)
    ensures a + (b + c) + d == a + b + (c + d)
  {
  }

  /** Equal strings with the same front and back have the same middle. */
  lemma CancelFrame(a: string, x: string, y: string, t: string)
    requires a + x + t == a + y + t
    ensures x == y
  {
    var s := a + x + t;
    assert |x| == |y|;
    assert x == s[|a|..|a| + |x|];
  }

  lemma SuffixOfSuffix(s: string, t: string, u: string)
    requires EndsWith(s, t) && EndsWith(t, u)
    ensures EndsWith(s, u)
  {
    assert s[|s| - |u|..] == s[|s| - |t|..][|t| - |u|..];
  }

  /** Where each piece of `a + b + c` sits. */
  lemma ThreeParts(a: string, b: string, c: string)
    ensures (a + b + c)[..|a|] == a
    ensures (a + b + c)[|a|..|a| + |b|] == b
    ensures (a + b + c)[|a| + |b|..] == c
  {
  }

  /**
    With the other arguments fixed, two styles give the same prompt exactly when they give
    the same style hint: the hint can be read back from the prompt.
  */
  lemma StyleShowsInPrompt(product: string, useCase: string, platform: string, s1: string, s2: string, template: string)
    ensures BuildPrompt(product, useCase, platform, s1, template) == BuildPrompt(product, useCase, platform, s2, template)
        <==> StyleHint(s1) == StyleHint(s2)
  {
    var r1 := BuildPrompt(product, useCase, platform, s1, template);
    var r2 := BuildPrompt(product, useCase, platform, s2, template);
    var c1, c2 := Closing(platform, s1), Closing(platform, s2);
    if r1 == r2 {
      var head := Opening + Intent(Subject(product), useCase);
      assert r1 == head + c1 && r2 == head + c2;
      assert c1 == r1[|head|..] && c2 == r2[|head|..];
      var n := |Separator + Framing(platform) + Separator|;
      assert StyleHint(s1) + Separator == c1[n..|c1| - |Guard|];
      assert StyleHint(s1) == (StyleHint(s1) + Separator)[..|StyleHint(s1) + Separator| - |Separator|];
      assert StyleHint(s2) == (StyleHint(s2) + Separator)[..|StyleHint(s2) + Separator| - |Separator|];
    }
  }

  /** The template argument never changes the prompt. */
  lemma TemplateIgnored(product: string, useCase: string, platform: string, style: string, t1: string, t2: string)
    ensures BuildPrompt(product, useCase, platform, style, t1) == BuildPrompt(product, useCase, platform, style, t2)
  {
  }

  /** A product that is empty or all whitespace is named "product" in the prompt. */
  lemma BlankProductIsNamedProduct(product: string, useCase: string, platform: string, style: string, template: string)
    requires AllSpace(product, IsPySpace)
    ensures BuildPrompt(product, useCase, platform, style, template)[|Opening|..|Opening| + 7] == "product"
  {
  }

  /**
    With the same use case, platform and style, two prompts are equal exactly when the two
    products name the same subject: the subject can be read back from the prompt.
  */
  lemma SubjectDeterminesPrompt(p1: string, p2: string, useCase: string, platform: string, style: string, t1: string, t2: string)
    ensures BuildPrompt(p1, useCase, platform, style, t1) == BuildPrompt(p2, useCase, platform, style, t2)
        <==> Subject(p1) == Subject(p2)
  {
    var r1 := BuildPrompt(p1, useCase, platform, style, t1);
    var r2 := BuildPrompt(p2, useCase, platform, style, t2);
    var s1, s2 := Subject(p1), Subject(p2);
    var rest := IntentTail(useCase) + Closing(platform, style);
    Regroup(Opening, s1, IntentTail(useCase), Closing(platform, style));
    Regroup(Opening, s2, IntentTail(useCase), Closing(platform, style));
    if r1 == r2 {
      CancelFrame(Opening, s1, s2, rest);
    }
  }
}
