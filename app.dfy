/**
  The pure decisions of the browser client's `generate()`: the speed/quality preset
  shortcuts, the guard against an empty product, how the server's reply becomes the
  preview image's `src`, and the file name offered for download.
*/
module App {
  import opened Wrappers
  import opened Text

  const ApiBase := "http://127.0.0.1:8000"

  // ---------------------------------------------------------------- preset shortcuts

  /** The step count and width the form sends, after the preset has been applied. */
  datatype Tuning = Tuning(steps: int, width: int)

  /**
    The preset shortcuts: "fast" clamps the steps into [6, 12] and caps the width at 320,
    "quality" raises the steps to at least 30 and the width to at least 512, and any
    other preset leaves both alone. Each bound moves a value only when it is out of range.
  */
  function ApplyPreset(preset: string, t: Tuning): (r: Tuning)
    ensures preset == "fast" ==> 6 <= r.steps <= 12 && r.width <= 320
    ensures preset == "fast" ==>
      r.steps == (if t.steps < 6 then 6 else if t.steps > 12 then 12 else t.steps)
      && r.width == (if t.width > 320 then 320 else t.width)
    ensures preset == "quality" ==> r.steps >= 30 && r.width >= 512
    ensures preset == "quality" ==>
      r.steps == (if t.steps < 30 then 30 else t.steps) && r.width == (if t.width < 512 then 512 else t.width)
    ensures preset != "fast" && preset != "quality" ==> r == t
  {
    if preset == "fast" then Tuning(Max(6, Min(t.steps, 12)), Min(320, t.width))
    else if preset == "quality" then Tuning(Max(30, t.steps), Max(512, t.width))
    else t
  }

  /** Applying a preset a second time changes nothing. */
  lemma ApplyPresetIdempotent(preset: string, t: Tuning)
    ensures ApplyPreset(preset, ApplyPreset(preset, t)) == ApplyPreset(preset, t)
  {
  }

  // ---------------------------------------------------------------- empty-product guard

  const EmptyProductWarning := "Please enter a product or title."

  /** What the form does with the product field: warn and send nothing, or send the trimmed product. */
  datatype Submission = Warn(message: string) | Send(product: string)

  /**
    The product field is trimmed; when nothing is left the client shows a warning and sends
    no request, otherwise it sends the trimmed text.
  */
  function CheckProduct(field: string): (r: Submission)
    ensures r.Warn? <==> AllSpace(field, IsJsSpace)
    ensures r.Warn? ==> r.message == EmptyProductWarning
    ensures r.Send? ==> r.product == Strip(field, IsJsSpace)
  {
    var product := Strip(field, IsJsSpace);
    if product == "" then Warn(EmptyProductWarning) else Send(product)
  }

  /** What is sent is non-empty, has no whitespace at either end, and trims to itself. */
  lemma SentProductIsTrimmed(field: string)
    requires CheckProduct(field).Send?
    ensures var product := CheckProduct(field).product;
      product != [] && Trimmed(product, IsJsSpace) && Strip(product, IsJsSpace) == product
  {
    var product := Strip(field, IsJsSpace);
    assert CheckProduct(field).product == product;
    StripKeepsTrimmed(product, IsJsSpace);
  }

  // ---------------------------------------------------------------- preview source

  /** The fields of the server's JSON reply that the client looks at; `None` is an absent field. */
  datatype Reply = Reply(imageData: Option<string>, url: Option<string>, imagePath: Option<string>)

  /** JavaScript's truth value of a string field that may be absent. */
  predicate IsTruthy(field: Option<string>) {
    field.Some? && field.value != ""
  }

  const DataUrlPrefix := "data:image/png;base64,"
  const UnexpectedReply := "Unexpected response from server"

  /** `s` starts with `prefix`, ASCII letters compared without regard to case. */
  predicate StartsWithIgnoringCase(s: string, prefix: string) {
    |s| >= |prefix| && forall i :: 0 <= i < |prefix| ==> LowerChar(s[i]) == prefix[i]
  }

  /**
    The test `/^https?:\/\//i`: "http", an optional "s", then "://", the letters in either
    case. Nothing that passes starts with '/', so a root-relative path is never taken for a URL.
  */
  function IsHttpUrl(s: string): (b: bool)
    ensures b <==> (
      |s| >= 7
      && (s[0] == 'h' || s[0] == 'H') && (s[1] == 't' || s[1] == 'T')
      && (s[2] == 't' || s[2] == 'T') && (s[3] == 'p' || s[3] == 'P')
      && ((s[4] == ':' && s[5] == '/' && s[6] == '/')
          || (|s| >= 8 && (s[4] == 's' || s[4] == 'S') && s[5] == ':' && s[6] == '/' && s[7] == '/')))
    ensures b ==> s[0] != '/'
  {
    StartsWithIgnoringCase(s, "http://") || StartsWithIgnoringCase(s, "https://")
  }

  /** Upper-case schemes pass the test too. */
  lemma UpperCaseSchemePasses(rest: string)
    ensures IsHttpUrl("HTTP://" + rest) && IsHttpUrl("HTTPS://" + rest)
  {
    var http, https := "HTTP://" + rest, "HTTPS://" + rest;
    assert http[..7] == "HTTP://";
    assert https[..8] == "HTTPS://";
  }

  /**
    The preview source, by precedence: inline base64 data as a PNG data URL, else the
    reply's URL, else the image path (kept when it is already an http(s) URL, otherwise
    appended to the API base, with a '/' inserted only when the path does not start with
    one); a reply with none of the three is an error.
  */
  function ResolveSrc(reply: Reply): (r: Result<string, string>)
    ensures r.Err? <==> !IsTruthy(reply.imageData) && !IsTruthy(reply.url) && !IsTruthy(reply.imagePath)
    ensures r.Err? ==> r.error == UnexpectedReply
    ensures IsTruthy(reply.imageData) ==> (r.Ok? && |r.value| > |DataUrlPrefix|
                                           && r.value[..|DataUrlPrefix|] == DataUrlPrefix
                                           && r.value[|DataUrlPrefix|..] == reply.imageData.value)
    ensures !IsTruthy(reply.imageData) && IsTruthy(reply.url) ==> r == Ok(reply.url.value)
    ensures !IsTruthy(reply.imageData) && !IsTruthy(reply.url) && IsTruthy(reply.imagePath) ==>
      var path := reply.imagePath.value;
      r.Ok? && (IsHttpUrl(path) ==> r.value == path)
      && (!IsHttpUrl(path) ==> r.value == ApiBase + "/" + (if path[0] == '/' then path[1..] else path))
  {
    if IsTruthy(reply.imageData) then Ok(DataUrlPrefix + reply.imageData.value)
    else if IsTruthy(reply.url) then Ok(reply.url.value)
    else if IsTruthy(reply.imagePath) then
      var path := reply.imagePath.value;
      if IsHttpUrl(path) then Ok(path)
      else if path[0] == '/' then
        assert ApiBase + path == ApiBase + "/" + path[1..] by {
          assert path == "/" + path[1..];
        }
        Ok(ApiBase + path)
      else Ok(ApiBase + "/" + path)
    else Err(UnexpectedReply)
  }

  /** The backend replies with `/images/<file name>`; the preview then loads it from the API base. */
  lemma BackendReplyResolves(name: string)
    ensures ResolveSrc(Reply(None, None, Some("/images/" + name))) == Ok(ApiBase + "/images/" + name)
  {
    var path := "/images/" + name;
    assert path[0] == '/';
    assert ApiBase + path == ApiBase + "/images/" + name;
  }

  /** A relative path that is not a URL goes under the API base after an inserted '/'. */
  lemma RelativePathIsAppended(path: string)
    requires path != [] && path[0] != '/' && path[0] != 'h' && path[0] != 'H'
    ensures ResolveSrc(Reply(None, None, Some(path))) == Ok(ApiBase + "/" + path)
  {
  }

  // ---------------------------------------------------------------- download name

  /** The download name: the product with its whitespace runs made underscores, "design" if empty, then ".png". */
  function DownloadName(product: string): (r: string)
    ensures |r| > 4 && r[|r| - 4..] == ".png"
    ensures NoSpace(r, IsJsSpace)
    ensures product == [] ==> r == "design.png"
    ensures product != [] ==> r[..|r| - 4] == ReplaceSpaceRuns(product, IsJsSpace)
  {
    var stem := ReplaceSpaceRuns(product, IsJsSpace);
    var r := (if stem == "" then "design" else stem) + ".png";
    assert r[..|r| - 4] == (if stem == "" then "design" else stem);
    r
  }

  /**
    A non-empty product without whitespace at its ends, as the guard sends it, names the file
    after itself and keeps its first character.
  */
  lemma SentProductNamesFile(product: string)
    requires product != [] && Trimmed(product, IsJsSpace)
    ensures DownloadName(product)[..|DownloadName(product)| - 4] == ReplaceSpaceRuns(product, IsJsSpace)
    ensures DownloadName(product)[0] == product[0]
  {
    var stem := ReplaceSpaceRuns(product, IsJsSpace);
    assert stem == [product[0]] + ReplaceSpaceRuns(product[1..], IsJsSpace);
  }
}
