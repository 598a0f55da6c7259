/**
 * The blue/green Lambda@Edge controller (LambdaFiles/BlueGreenCtrl.py): it
 * reads the `bluegreen` parameter (a JSON object with `blueurl`, `greenurl`
 * and an optional `CloudmanCookie` name), answers every viewer request with
 * a 302 redirect to the blue URL, and sets the blue cookie, both on the
 * request it was given and on the redirect, when the request does not
 * already carry it. The Parameter Store read and json.loads are inputs: the
 * decoded parameter, or None when either raised.
 */
module BlueGreenCtrl {
  import opened Common
  import opened JsonValue
  import opened CloudFront

  // ---------------------------------------------------------------------
  // The Lambda's own name

  /**
   * `lambda_name.split('_env_')[-1]`: the text after the last separator,
   * or the whole name when there is none. Python's split never yields an
   * empty list, so the IndexError branch cannot be taken.
   */
  function ParameterNameOf(lambdaName: string): (p: string)
    ensures !Contains(p, "_env_")
    ensures !Contains(lambdaName, "_env_") ==> p == lambdaName
    ensures Contains(lambdaName, "_env_") ==> EndsWith(lambdaName, "_env_" + p)
  {
    LastPartAfterSeparator(lambdaName, "_env_");
    LastPart(lambdaName, "_env_")
  }

  // ---------------------------------------------------------------------
  // The bluegreen parameter

  /** The parameter Parameter Store is asked for, whatever the Lambda is called. */
  const FetchedParameter := "bluegreen"

  const DefaultCookieName := "CloudmanCookie"

  /** The values taken from the decoded parameter; an absent URL is Python's None. */
  datatype Config = Config(blueUrl: Json, greenUrl: Json, cookieName: string)

  /** `d.get(key)`: the member, or None. */
  function GetOrNull(vars: Json, key: string): (j: Json)
    ensures Has(vars, key) ==> j == Get(vars, key).value
    ensures !Has(vars, key) ==> j == JNull
  {
    match Get(vars, key)
    case Some(v) => v
    case None => JNull
  }

  /**
   * The three `.get` calls. A decoded value that is not an object has no
   * `.get` (the AttributeError becomes the handler's ValueError), and a
   * cookie name that is not a string is an error here as well.
   */
  function ConfigOf(vars: Json): (r: Result<Config>)
    ensures r.Ok? <==> vars.JObj? && (!Has(vars, DefaultCookieName) || Get(vars, DefaultCookieName).value.JStr?)
    ensures r.Ok? ==> r.value.blueUrl == GetOrNull(vars, "blueurl") && r.value.greenUrl == GetOrNull(vars, "greenurl")
    ensures r.Ok? && !Has(vars, DefaultCookieName) ==> r.value.cookieName == DefaultCookieName
    ensures r.Ok? && Has(vars, DefaultCookieName) ==> r.value.cookieName == Get(vars, DefaultCookieName).value.s
  {
    if !vars.JObj? then Err("the bluegreen parameter is not a JSON object")
    else match Get(vars, DefaultCookieName)
      case None => Ok(Config(GetOrNull(vars, "blueurl"), GetOrNull(vars, "greenurl"), DefaultCookieName))
      case Some(JStr(name)) => Ok(Config(GetOrNull(vars, "blueurl"), GetOrNull(vars, "greenurl"), name))
      case Some(_) => Err("the cookie name is not a string")
  }

  // ---------------------------------------------------------------------
  // Cookie detection

  /** `any(f'{name}=' in cookie['value'] for cookie in cookies)`. */
  function CookieExists(cookies: seq<Entry>, name: string): (b: bool)
    ensures b <==> exists i :: 0 <= i < |cookies| && Contains(cookies[i].value, name + "=")
  {
    if |cookies| == 0 then false
    else
      var rest := CookieExists(cookies[1..], name);
      assert forall i :: 1 <= i < |cookies| ==> cookies[i] == cookies[1..][i - 1];
      Contains(cookies[0].value, name + "=") || rest
  }

  /** The cookie the controller sets (attributes as in section 4.1 of RFC 6265). */
  function BlueCookie(name: string): (v: string)
    ensures StartsWith(v, name + "=blue")
  {
    var pair := name + "=blue";
    assert (pair + "; Path=/; Secure; HttpOnly; SameSite=Lax")[..|pair|] == pair;
    pair + "; Path=/; Secure; HttpOnly; SameSite=Lax"
  }

  function SetCookieEntries(name: string): seq<Entry> {
    [Entry("Set-Cookie", BlueCookie(name))]
  }

  /**
   * A browser that stored the cookie sends back `name=blue` (section 4.2 of
   * RFC 6265), which the detection recognises: the cookie is set once.
   */
  lemma ReturnedCookieDetected(name: string, others: seq<Entry>)
    ensures CookieExists(others + [Entry("Cookie", name + "=blue")], name)
  {
    var cookies := others + [Entry("Cookie", name + "=blue")];
    var v := cookies[|others|].value;
    assert OccursAt(v, name + "=", 0) by {
      assert v[..|name + "="|] == name + "=";
    }
    ContainsIff(v, name + "=");
  }

  // ---------------------------------------------------------------------
  // The redirect

  /** The response dictionary; `setCookie` is the optional `set-cookie` header. */
  datatype Response = Response(
    status: string,
    statusDescription: string,
    location: seq<(string, Json)>,
    setCookie: Option<seq<Entry>>)

  /** Always a 302 Found to the blue URL (section 15.4.3 of RFC 9110); the green URL is read and never used. */
  function Redirect(config: Config, cookieExists: bool): (r: Response)
    ensures r.status == "302" && r.statusDescription == "Found"
    ensures r.location == [("Location", config.blueUrl)]
    ensures r.setCookie.Some? <==> !cookieExists
    ensures r.setCookie.Some? ==> r.setCookie.value == [Entry("Set-Cookie", BlueCookie(config.cookieName))]
  {
    Response("302", "Found", [("Location", config.blueUrl)],
      if cookieExists then None else Some(SetCookieEntries(config.cookieName)))
  }

  /** The viewer request of the CloudFront event, whose headers the handler writes to. */
  class Request {
    var headers: Headers

    constructor(headers: Headers)
      ensures this.headers == headers
    {
      this.headers := headers;
    }
  }

  /**
   * lambda_handler. A missing parameter or a failed decode raises
   * ValueError; otherwise the answer is the redirect, and when the request
   * carries no cookie containing `name=` its `set-cookie` header is
   * replaced by the blue cookie.
   */
  method LambdaHandler(lambdaName: string, vars: Option<Json>, request: Request) returns (r: Result<Response>)
    modifies request
    ensures vars.None? || ConfigOf(vars.value).Err? ==> r.Err? && request.headers == old(request.headers)
    ensures vars.Some? && ConfigOf(vars.value).Ok? ==>
      var config := ConfigOf(vars.value).value;
      var present := CookieExists(EntriesOf(old(request.headers), "cookie"), config.cookieName);
      && r == Ok(Redirect(config, present))
      && request.headers == (if present then old(request.headers)
                             else old(request.headers)["set-cookie" := SetCookieEntries(config.cookieName)])
  {
    // Derived and logged, then never used: the fetch below is always `bluegreen`.
    var parameterName := ParameterNameOf(lambdaName);
    if vars.None? {
      return Err("could not read or decode the " + FetchedParameter + " parameter");
    }
    var config := ConfigOf(vars.value);
    if config.Err? {
      return Err(config.error);
    }
    var cookies := EntriesOf(request.headers, "cookie");
    var present := CookieExists(cookies, config.value.cookieName);
    var response := Redirect(config.value, present);
    if !present {
      request.headers := request.headers["set-cookie" := SetCookieEntries(config.value.cookieName)];
    }
    r := Ok(response);
  }
}
