/**
 * Webhook registration validation of the execution gateway
 * (normalizeWebhookRequest in control-plane/internal/handlers/execute.go).
 *
 * URL parsing is done by Go's net/url, which is not part of this model: it is a
 * parameter that returns the parsed scheme, host, whether user info is present
 * and the URL re-rendered without fragment. The headers map is given as the
 * sequence of pairs in the order Go's map iteration happens to visit them.
 * Lengths are byte lengths of the UTF-8 encoding, as Go's len does.
 */
module Webhook {
  import opened Text

  const MaxWebhookHeaders: nat := 20
  const MaxWebhookHeaderLength: nat := 512
  const MaxWebhookSecretLength: nat := 4096

  datatype WebhookRequest = WebhookRequest(url: string, secret: string, headers: seq<(string, string)>)

  /** What url.Parse reports about a URL. */
  datatype ParsedUrl = ParsedUrl(ok: bool, parseError: string, scheme: string, host: string, hasUser: bool, withoutFragment: string)

  datatype WebhookConfig = WebhookConfig(url: string, secret: Option<string>, headers: map<string, string>)

  /** The URL checks, in the order the source applies them. */
  function CheckUrl(p: ParsedUrl): (r: Result<string>)
    ensures r.Ok? <==> p.ok && p.scheme != "" && p.host != ""
                       && ToLower(p.scheme) in {"http", "https"} && !p.hasUser
    ensures r.Ok? ==> r.value == p.withoutFragment
  {
    if !p.ok then Err("invalid webhook url: " + p.parseError)
    else if p.scheme == "" || p.host == "" then Err("webhook url must include scheme and host")
    else if ToLower(p.scheme) != "https" && ToLower(p.scheme) != "http" then Err("webhook url must use http or https")
    else if p.hasUser then Err("webhook url must not contain embedded credentials")
    else Ok(p.withoutFragment)
  }

  /** One iteration of the header loop: skip blank names, reject the 21st entry and over-long names or values. */
  function HeaderStep(acc: map<string, string>, pair: (string, string)): Result<map<string, string>>
  {
    var key := TrimSpace(pair.0);
    var value := TrimSpace(pair.1);
    if key == "" then Ok(acc)
    else if |acc| >= MaxWebhookHeaders then Err("webhook.headers supports at most 20 entries")
    else if Utf8Len(key) > MaxWebhookHeaderLength then Err("webhook header name '" + key + "' is too long")
    else if Utf8Len(value) > MaxWebhookHeaderLength then Err("webhook header '" + key + "' value is too long")
    else Ok(acc[key := value])
  }

  /** The header loop over the pairs visited so far; the first error stops it. */
  function NormalizeHeaders(pairs: seq<(string, string)>): Result<map<string, string>>
  {
    if pairs == [] then Ok(map[])
    else match NormalizeHeaders(pairs[..|pairs| - 1])
      case Err(e) => Err(e)
      case Ok(acc) => HeaderStep(acc, pairs[|pairs| - 1])
  }

  /** A normalised header entry: trimmed non-empty name, trimmed value, both within 512 bytes. */
  predicate GoodHeader(key: string, value: string)
  {
    key != "" && TrimSpace(key) == key && TrimSpace(value) == value
    && Utf8Len(key) <= MaxWebhookHeaderLength && Utf8Len(value) <= MaxWebhookHeaderLength
  }

  /** What one successful loop step does to the map. */
  lemma HeaderStepFacts(acc: map<string, string>, pair: (string, string))
    requires HeaderStep(acc, pair).Ok?
    ensures var m := HeaderStep(acc, pair).value;
      && (TrimSpace(pair.0) == "" ==> m == acc)
      && (TrimSpace(pair.0) != "" ==>
            |acc| < MaxWebhookHeaders && m == acc[TrimSpace(pair.0) := TrimSpace(pair.1)]
            && GoodHeader(TrimSpace(pair.0), TrimSpace(pair.1)))
  {
    var key := TrimSpace(pair.0);
    var value := TrimSpace(pair.1);
    if key != "" {
      assert |acc| < MaxWebhookHeaders;
      assert Utf8Len(key) <= MaxWebhookHeaderLength && Utf8Len(value) <= MaxWebhookHeaderLength;
      TrimSpaceIdempotent(pair.0);
      TrimSpaceIdempotent(pair.1);
    }
  }

  lemma {:induction false} NormalizeHeadersUnfold(pairs: seq<(string, string)>)
    requires pairs != [] && NormalizeHeaders(pairs).Ok?
    ensures NormalizeHeaders(pairs[..|pairs| - 1]).Ok?
    ensures NormalizeHeaders(pairs) == HeaderStep(NormalizeHeaders(pairs[..|pairs| - 1]).value, pairs[|pairs| - 1])
  {
  }

  lemma NormalizeHeadersPrefixStep(pairs: seq<(string, string)>, i: nat)
    requires i < |pairs| && NormalizeHeaders(pairs[..i]).Ok?
    ensures NormalizeHeaders(pairs[..i + 1]) == HeaderStep(NormalizeHeaders(pairs[..i]).value, pairs[i])
  {
    assert pairs[..i + 1][..i] == pairs[..i];
  }

  /** A successful header normalisation has at most 20 entries. */
  lemma {:induction false} NormalizeHeadersBounded(pairs: seq<(string, string)>)
    requires NormalizeHeaders(pairs).Ok?
    ensures |NormalizeHeaders(pairs).value| <= MaxWebhookHeaders
  {
    if pairs != [] {
      var init := pairs[..|pairs| - 1];
      NormalizeHeadersUnfold(pairs);
      NormalizeHeadersBounded(init);
      var acc := NormalizeHeaders(init).value;
      HeaderStepFacts(acc, pairs[|pairs| - 1]);
      var m := NormalizeHeaders(pairs).value;
      assert m.Keys <= acc.Keys + {TrimSpace(pairs[|pairs| - 1].0)};
      assert TrimSpace(pairs[|pairs| - 1].0) != "" ==> |m.Keys| <= |acc.Keys| + 1;
    }
  }

  /** Every entry of a successful header normalisation is well-formed. */
  lemma {:induction false} NormalizeHeadersWellFormed(pairs: seq<(string, string)>)
    requires NormalizeHeaders(pairs).Ok?
    ensures var m := NormalizeHeaders(pairs).value; forall k :: k in m ==> GoodHeader(k, m[k])
  {
    if pairs != [] {
      var init := pairs[..|pairs| - 1];
      NormalizeHeadersUnfold(pairs);
      NormalizeHeadersWellFormed(init);
      HeaderStepFacts(NormalizeHeaders(init).value, pairs[|pairs| - 1]);
    }
  }

  /** Every input pair with a non-blank name is represented in a successful normalisation. */
  lemma {:induction false} NormalizeHeadersCovers(pairs: seq<(string, string)>)
    requires NormalizeHeaders(pairs).Ok?
    ensures forall i :: 0 <= i < |pairs| && TrimSpace(pairs[i].0) != "" ==> TrimSpace(pairs[i].0) in NormalizeHeaders(pairs).value
  {
    if pairs != [] {
      var init := pairs[..|pairs| - 1];
      NormalizeHeadersUnfold(pairs);
      NormalizeHeadersCovers(init);
      var acc := NormalizeHeaders(init).value;
      HeaderStepFacts(acc, pairs[|pairs| - 1]);
      var m := NormalizeHeaders(pairs).value;
      assert acc.Keys <= m.Keys;
      forall i | 0 <= i < |pairs| && TrimSpace(pairs[i].0) != ""
        ensures TrimSpace(pairs[i].0) in m
      {
        if i < |pairs| - 1 { assert pairs[i] == init[i]; }
      }
    }
  }

  /** Once the header loop has failed, later pairs do not change the error. */
  lemma {:induction false} NormalizeHeadersErrorSticks(pairs: seq<(string, string)>, j: nat)
    requires j <= |pairs| && NormalizeHeaders(pairs[..j]).Err?
    ensures NormalizeHeaders(pairs) == NormalizeHeaders(pairs[..j])
    decreases |pairs| - j
  {
    if j < |pairs| {
      var next := pairs[..j + 1];
      assert next[..j] == pairs[..j];
      NormalizeHeadersErrorSticks(pairs, j + 1);
    } else {
      assert pairs[..j] == pairs;
    }
  }

  /** The secret: trimmed, nil when blank, rejected above 4096 bytes. */
  function NormalizeSecret(secret: string): (r: Result<Option<string>>)
    ensures r.Ok? && r.value.Some? ==>
      r.value.value == TrimSpace(secret) && r.value.value != "" && Utf8Len(r.value.value) <= MaxWebhookSecretLength
    ensures r == Ok(None) <==> TrimSpace(secret) == ""
    ensures r.Err? <==> Utf8Len(TrimSpace(secret)) > MaxWebhookSecretLength
  {
    var t := TrimSpace(secret);
    if t == "" then Ok(None)
    else if Utf8Len(t) > MaxWebhookSecretLength then Err("webhook secret exceeds 4096 characters")
    else Ok(Some(t))
  }

  /**
   * normalizeWebhookRequest: nil gives no configuration and no error; otherwise
   * the trimmed URL must be present and parse to an http(s) URL with a host and
   * no credentials, the headers are trimmed and bounded, and the secret is
   * trimmed and bounded. Any failed check is an error.
   */
  method NormalizeWebhookRequest(req: Option<WebhookRequest>, parse: string -> ParsedUrl)
    returns (r: Result<Option<WebhookConfig>>)
    ensures req.None? ==> r == Ok(None)
    ensures req.Some? && TrimSpace(req.value.url) == "" ==> r == Err("webhook.url is required")
    ensures req.Some? && r.Ok? ==>
      && r.value.Some?
      && TrimSpace(req.value.url) != ""
      && CheckUrl(parse(TrimSpace(req.value.url))) == Ok(r.value.value.url)
      && NormalizeHeaders(req.value.headers) == Ok(r.value.value.headers)
      && NormalizeSecret(req.value.secret) == Ok(r.value.value.secret)
    ensures (req.Some? && TrimSpace(req.value.url) != "" && CheckUrl(parse(TrimSpace(req.value.url))).Ok?
      && NormalizeHeaders(req.value.headers).Ok? && NormalizeSecret(req.value.secret).Ok?) ==> r.Ok?
  {
    if req.None? {
      return Ok(None);
    }
    var request := req.value;
    var trimmedUrl := TrimSpace(request.url);
    if trimmedUrl == "" {
      return Err("webhook.url is required");
    }
    var url := CheckUrl(parse(trimmedUrl));
    if url.Err? {
      return Err(url.error);
    }
    var headers: map<string, string> := map[];
    var pairs := request.headers;
    var i := 0;
    while i < |pairs|
      invariant 0 <= i <= |pairs|
      invariant NormalizeHeaders(pairs[..i]) == Ok(headers)
    {
      NormalizeHeadersPrefixStep(pairs, i);
      var key := TrimSpace(pairs[i].0);
      var value := TrimSpace(pairs[i].1);
      if key != "" {
        if |headers| >= MaxWebhookHeaders {
          NormalizeHeadersErrorSticks(pairs, i + 1);
          return Err("webhook.headers supports at most 20 entries");
        }
        if Utf8Len(key) > MaxWebhookHeaderLength {
          NormalizeHeadersErrorSticks(pairs, i + 1);
          return Err("webhook header name '" + key + "' is too long");
        }
        if Utf8Len(value) > MaxWebhookHeaderLength {
          NormalizeHeadersErrorSticks(pairs, i + 1);
          return Err("webhook header '" + key + "' value is too long");
        }
        headers := headers[key := value];
      }
      i := i + 1;
    }
    assert pairs[..i] == pairs;
    var secret := NormalizeSecret(request.secret);
    if secret.Err? {
      return Err(secret.error);
    }
    return Ok(Some(WebhookConfig(url.value, secret.value, headers)));
  }

  /**
   * Everything a successful normalisation returns is within the limits: an
   * http(s) URL with host and no credentials, at most 20 well-formed headers,
   * and a trimmed non-blank secret of at most 4096 bytes (or none).
   */
  lemma AcceptedWebhookWithinLimits(req: WebhookRequest, parse: string -> ParsedUrl, cfg: WebhookConfig)
    requires TrimSpace(req.url) != ""
    requires CheckUrl(parse(TrimSpace(req.url))) == Ok(cfg.url)
    requires NormalizeHeaders(req.headers) == Ok(cfg.headers)
    requires NormalizeSecret(req.secret) == Ok(cfg.secret)
    ensures var p := parse(TrimSpace(req.url));
      ToLower(p.scheme) in {"http", "https"} && p.host != "" && !p.hasUser
    ensures |cfg.headers| <= MaxWebhookHeaders
    ensures forall k :: k in cfg.headers ==> GoodHeader(k, cfg.headers[k])
    ensures cfg.secret.Some? ==> cfg.secret.value != "" && Utf8Len(cfg.secret.value) <= MaxWebhookSecretLength
  {
    NormalizeHeadersBounded(req.headers);
    NormalizeHeadersWellFormed(req.headers);
  }
}
