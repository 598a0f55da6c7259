/**
 * The Lambda@Edge probe (LambdaFiles/LambdaEdgeTest.py): from its own
 * function name it works out which of the four CloudFront triggers it is
 * attached to, then appends a cookie naming that trigger to the request or
 * response record it was given and returns that same record.
 */
module LambdaEdgeTest {
  import opened Common
  import opened CloudFront

  /** `'response' if 'response' in name else 'request'`, on the lower-cased name. */
  function EventType(functionName: string): (t: string)
    ensures t == "response" <==> Contains(Lower(functionName), "response")
    ensures t == "request" <==> !Contains(Lower(functionName), "response")
  {
    if Contains(Lower(functionName), "response") then "response" else "request"
  }

  /** `'viewer' if 'viewer' in name else 'origin'`, on the lower-cased name. */
  function ContextType(functionName: string): (t: string)
    ensures t == "viewer" <==> Contains(Lower(functionName), "viewer")
    ensures t == "origin" <==> !Contains(Lower(functionName), "viewer")
  {
    if Contains(Lower(functionName), "viewer") then "viewer" else "origin"
  }

  predicate LowerCase(s: string) {
    forall i :: 0 <= i < |s| ==> !('A' <= s[i] <= 'Z')
  }

  /** Lower-casing text that has no capital letter changes nothing. */
  lemma LowerOfLowerCase(s: string)
    requires LowerCase(s)
    ensures Lower(s) == s
  {
  }

  lemma LowerCaseConcat(a: string, b: string)
    requires LowerCase(a) && LowerCase(b)
    ensures LowerCase(a + b)
  {
    assert forall i :: |a| <= i < |a + b| ==> (a + b)[i] == b[i - |a|];
  }

  lemma {:induction false} TypesLowerCase(functionName: string)
    ensures LowerCase(ContextType(functionName)) && LowerCase("-") && LowerCase(EventType(functionName))
  {
  }

  /** `f'{context_type}-{event_type}'.lower()`. */
  function CookieName(functionName: string): (n: string)
    ensures n == ContextType(functionName) + "-" + EventType(functionName)
  {
    var n := ContextType(functionName) + "-" + EventType(functionName);
    TypesLowerCase(functionName);
    LowerCaseConcat(ContextType(functionName), "-");
    LowerCaseConcat(ContextType(functionName) + "-", EventType(functionName));
    LowerOfLowerCase(n);
    Lower(n)
  }

  /** `f'{cookie_name}=active; Path=/; Secure'`. */
  function NewCookie(functionName: string): (c: string)
    ensures StartsWith(c, CookieName(functionName) + "=active")
  {
    var pair := CookieName(functionName) + "=active";
    assert (pair + "; Path=/; Secure")[..|pair|] == pair;
    pair + "; Path=/; Secure"
  }

  /** The record the handler edits in place: `headers` is None while the key is absent. */
  class Record {
    var headers: Option<Headers>

    constructor(headers: Option<Headers>)
      ensures this.headers == headers
    {
      this.headers := headers;
    }
  }

  /** What the handler returns: the record itself, the 500 text response, or an IndexError raised. */
  datatype Reply =
    | RecordReply(record: Record)
    | ErrorReply(status: string, statusDescription: string, headers: Headers, body: string)
    | Raised(error: string)

  /** The answer when `event['Records'][0]['cf']` has no entry for the record key. */
  function MissingRecord(recordKey: string): (r: Reply)
    ensures r.ErrorReply? && r.status == "500" && r.statusDescription == "Internal Server Error"
    ensures r.headers == map["content-type" := [Entry("content-type", "text/plain")]]
    ensures Contains(r.body, recordKey)
  {
    var body := "Erro interno: " + recordKey + " não encontrado no evento.";
    ContainsInfix(body, "Erro interno: ", recordKey, " não encontrado no evento.");
    ErrorReply("500", "Internal Server Error", map["content-type" := [Entry("content-type", "text/plain")]], body)
  }

  /**
   * The headers after the cookie is added: an existing first cookie entry
   * keeps its key and gets `'; ' + cookie` appended (its other entries stay),
   * otherwise a single `Cookie` entry is created. None is the IndexError
   * of an empty cookie list.
   */
  function WithCookie(headers: Headers, cookie: string): (r: Option<Headers>)
    ensures "cookie" !in headers ==> r == Some(headers["cookie" := [Entry("Cookie", cookie)]])
    ensures "cookie" in headers && |headers["cookie"]| == 0 ==> r.None?
    ensures "cookie" in headers && |headers["cookie"]| > 0 ==>
      var first: Entry := headers["cookie"][0];
      r == Some(headers["cookie" := headers["cookie"][0 := Entry(first.key, first.value + "; " + cookie)]])
  {
    if "cookie" !in headers then Some(headers["cookie" := [Entry("Cookie", cookie)]])
    else if |headers["cookie"]| == 0 then None
    else
      var first: Entry := headers["cookie"][0];
      Some(headers["cookie" := headers["cookie"][0 := Entry(first.key, first.value + "; " + cookie)]])
  }

  /**
   * Every other header is untouched, and afterwards the first cookie entry
   * holds the new cookie: the earlier cookie text stays in front of it.
   */
  lemma CookieAdded(headers: Headers, cookie: string)
    requires WithCookie(headers, cookie).Some?
    ensures var h: Headers := WithCookie(headers, cookie).value;
      && (forall k :: k in headers && k != "cookie" ==> k in h && h[k] == headers[k])
      && h.Keys == headers.Keys + {"cookie"}
      && |h["cookie"]| > 0 && EndsWith(h["cookie"][0].value, cookie)
      && ("cookie" in headers ==> StartsWith(h["cookie"][0].value, headers["cookie"][0].value + "; "))
      && ("cookie" in headers ==> h["cookie"][1..] == headers["cookie"][1..])
  {
    var h: Headers := WithCookie(headers, cookie).value;
    if "cookie" in headers {
      var old0 := headers["cookie"][0].value;
      var v := h["cookie"][0].value;
      assert v == old0 + "; " + cookie;
      assert v[..|old0 + "; "|] == old0 + "; ";
      assert v[|v| - |cookie|..] == cookie;
    } else {
      assert h["cookie"][0].value == cookie;
    }
  }

  /**
   * lambda_handler. `cf` is `event['Records'][0]['cf']`. When it has no
   * entry for the record key nothing changes and the 500 text answer is
   * returned; otherwise the record's headers are created when absent, the
   * trigger's cookie is added, and the same record is returned.
   */
  method LambdaHandler(functionName: string, cf: map<string, Record>) returns (r: Reply)
    modifies cf.Values
    ensures EventType(functionName) !in cf ==> r == MissingRecord(EventType(functionName))
    ensures EventType(functionName) !in cf ==> forall rec :: rec in cf.Values ==> rec.headers == old(rec.headers)
    ensures EventType(functionName) in cf ==>
      var rec := cf[EventType(functionName)];
      var h: Headers := if old(rec.headers).None? then map[] else old(rec.headers).value;
      && (WithCookie(h, NewCookie(functionName)).Some? ==>
           r == RecordReply(rec) && rec.headers == WithCookie(h, NewCookie(functionName)))
      && (WithCookie(h, NewCookie(functionName)).None? ==> r.Raised? && rec.headers == Some(h))
      && forall other :: other in cf.Values && other != rec ==> other.headers == old(other.headers)
  {
    var eventType := EventType(functionName);
    var contextType := ContextType(functionName);
    var recordKey := eventType;
    if recordKey !in cf {
      return MissingRecord(recordKey);
    }
    var record := cf[recordKey];
    var cookieName := CookieName(functionName);
    var newCookie := NewCookie(functionName);
    if record.headers.None? {
      record.headers := Some(map[]);
    }
    var headers: Headers := record.headers.value;
    if "cookie" in headers {
      if |headers["cookie"]| == 0 {
        return Raised("list index out of range");
      }
      var first: Entry := headers["cookie"][0];
      record.headers := Some(headers["cookie" := headers["cookie"][0 := Entry(first.key, first.value + "; " + newCookie)]]);
    } else {
      record.headers := Some(headers["cookie" := [Entry("Cookie", newCookie)]]);
    }
    r := RecordReply(record);
  }
}
