/**
 * The CRUD test API (LambdaFiles/APITest.py): an API Gateway handler over a
 * DynamoDB table keyed by `ID`. POST and PUT save `{ID, data}` from the
 * body's `Value` pair, GET reads one item back (tagged with the CI/CD
 * variables when an application name is set), anything else is refused.
 * The table is a map from ID to item, json.loads of the body is an input
 * (None when it raised), and the environment variables are read once, as
 * in the module prologue.
 */
module ApiTest {
  import opened Common
  import opened JsonValue

  /** CLOUDMAN_CICD_VERSION, _STAGE and _APPNAME, each "" when unset. */
  datatype Cicd = Cicd(version: string, stage: string, appName: string)

  /** A stored item: attribute name to string value. */
  type Item = map<string, string>

  /** The fields of the API Gateway event the handler reads. */
  datatype Event = Event(httpMethod: string, body: Option<Json>, query: Option<map<string, string>>)

  /** A response body is json.dumps of a message or of an item. */
  datatype Body = Message(text: string) | ItemBody(item: Item)

  /** A response, with `cors` telling whether the CORS headers are attached, or an exception raised. */
  datatype Response = Response(statusCode: int, cors: bool, body: Body) | Raised(error: string)

  // ---------------------------------------------------------------------
  // POST and PUT

  /** Python `v[k]` on a list or a string; None is the IndexError/TypeError. */
  function At(v: Json, k: nat): (r: Option<Json>)
    ensures v.JArr? && k < |v.items| ==> r == Some(v.items[k])
    ensures v.JStr? && k < |v.s| ==> r == Some(JStr([v.s[k]]))
    ensures !(v.JArr? && k < |v.items|) && !(v.JStr? && k < |v.s|) ==> r.None?
  {
    match v
    case JArr(items) => if k < |items| then Some(items[k]) else None
    case JStr(s) => if k < |s| then Some(JStr([s[k]])) else None
    case _ => None
  }

  /**
   * `key = body["Value"][0]` and `data = body["Value"][1] + ":" + method`.
   * A missing `Value` or index raises, and so does a value that is not a
   * string (the concatenation for the data, the put for the key).
   */
  function KeyAndData(body: Json, httpMethod: string): (r: Result<(string, string)>)
    ensures r.Ok? <==> (Has(body, "Value") && At(Get(body, "Value").value, 0).Some? && At(Get(body, "Value").value, 0).value.JStr?
      && At(Get(body, "Value").value, 1).Some? && At(Get(body, "Value").value, 1).value.JStr?)
    ensures r.Ok? ==> r.value.0 == At(Get(body, "Value").value, 0).value.s
    ensures r.Ok? ==> r.value.1 == At(Get(body, "Value").value, 1).value.s + ":" + httpMethod
  {
    match Get(body, "Value")
    case None => Err("KeyError: 'Value'")
    case Some(v) =>
      match (At(v, 0), At(v, 1))
      case (Some(JStr(key)), Some(JStr(data))) => Ok((key, data + ":" + httpMethod))
      case _ => Err("the Value pair is not two strings")
  }

  /** The stored data ends in `:POST` or `:PUT`, so it is never empty: only the key can be refused. */
  lemma DataNeverEmpty(body: Json, httpMethod: string)
    requires KeyAndData(body, httpMethod).Ok?
    ensures EndsWith(KeyAndData(body, httpMethod).value.1, ":" + httpMethod)
    ensures |httpMethod| > 0 ==> KeyAndData(body, httpMethod).value.1 != ""
  {
    var d := KeyAndData(body, httpMethod).value.1;
    var v := At(Get(body, "Value").value, 1).value.s;
    assert d == v + (":" + httpMethod);
    assert d[|d| - |":" + httpMethod|..] == ":" + httpMethod;
  }

  predicate IsWrite(httpMethod: string) {
    httpMethod == "POST" || httpMethod == "PUT"
  }

  /** The `{ID, data}` a write event puts, or None when it puts nothing. */
  function Written(event: Event): (w: Option<(string, string)>)
    ensures w.Some? ==> IsWrite(event.httpMethod) && event.body.Some? && w.value.0 != ""
    ensures w.Some? ==> KeyAndData(event.body.value, event.httpMethod) == Ok(w.value)
    ensures (IsWrite(event.httpMethod) && event.body.Some? && KeyAndData(event.body.value, event.httpMethod).Ok?
      && KeyAndData(event.body.value, event.httpMethod).value.0 != "") ==> w.Some?
  {
    if !IsWrite(event.httpMethod) || event.body.None? then None
    else match KeyAndData(event.body.value, event.httpMethod)
      case Err(_) => None
      case Ok((key, data)) => if key == "" || data == "" then None else Some((key, data))
  }

  function StoredItem(key: string, data: string): Item {
    map["ID" := key, "data" := data]
  }

  /** POST and PUT store the same pair, differing only in the method tag at the end of `data`. */
  lemma PostPutAgree(body: Json, query: Option<map<string, string>>)
    ensures Written(Event("POST", Some(body), query)).Some? <==> Written(Event("PUT", Some(body), query)).Some?
    ensures Written(Event("POST", Some(body), query)).Some? ==>
      var post := Written(Event("POST", Some(body), query)).value;
      var put := Written(Event("PUT", Some(body), query)).value;
      && post.0 == put.0
      && post.1[..|post.1| - 5] == put.1[..|put.1| - 4]
  {
    var post := Written(Event("POST", Some(body), query));
    var put := Written(Event("PUT", Some(body), query));
    if KeyAndData(body, "POST").Ok? {
      var v := At(Get(body, "Value").value, 1).value.s;
      assert KeyAndData(body, "POST").value.1 == v + ":" + "POST";
      assert KeyAndData(body, "PUT").value.1 == v + ":" + "PUT";
      DataNeverEmpty(body, "POST");
      DataNeverEmpty(body, "PUT");
    }
    if post.Some? {
      assert post.value.1[..|post.value.1| - 5] == At(Get(body, "Value").value, 1).value.s;
      assert put.value.1[..|put.value.1| - 4] == At(Get(body, "Value").value, 1).value.s;
    }
  }

  // ---------------------------------------------------------------------
  // GET

  /** `f", from App Name:{APP_NAME} Stage:{STAGE} Version:{VERSION}"`. */
  function Origin(cicd: Cicd): string {
    ", from App Name:" + cicd.appName + " Stage:" + cicd.stage + " Version:" + cicd.version
  }

  /** The item as answered: `data` gets the origin appended iff it exists and the application name is set. */
  function Tagged(item: Item, cicd: Cicd): (r: Item)
    ensures r.Keys == item.Keys
    ensures forall k :: k in item && k != "data" ==> r[k] == item[k]
    ensures "data" in item ==> r["data"] == if cicd.appName != "" then item["data"] + Origin(cicd) else item["data"]
  {
    if "data" in item && cicd.appName != "" then item["data" := item["data"] + Origin(cicd)] else item
  }

  /** get_item on `key`: 200 with the tagged item, or 404; neither carries CORS headers. */
  function Fetch(table: map<string, Item>, cicd: Cicd, key: string): (r: Response)
    ensures r.Response? && !r.cors
    ensures key in table <==> r.statusCode == 200
    ensures key in table ==> r.body == ItemBody(Tagged(table[key], cicd))
    ensures key !in table ==> r.statusCode == 404 && r.body == Message("Key not found")
  {
    if key in table then Response(200, false, ItemBody(Tagged(table[key], cicd)))
    else Response(404, false, Message("Key not found"))
  }

  // ---------------------------------------------------------------------
  // Dispatch

  /** The answer lambda_handler gives to `event` against `table` before any write. */
  function Reply(table: map<string, Item>, cicd: Cicd, event: Event): (r: Response)
    ensures IsWrite(event.httpMethod) ==>
      (r.Raised? <==> event.body.None? || KeyAndData(event.body.value, event.httpMethod).Err?)
    ensures IsWrite(event.httpMethod) && r.Response? ==> r.statusCode == 200 && r.cors
    ensures IsWrite(event.httpMethod) && r.Response? ==>
      (r.body == Message("Key and Data must be a valid value.") <==> Written(event).None?)
    ensures event.httpMethod == "GET" && event.query.None? ==> r == Response(400, false, Message("No query string parameters provided."))
    ensures event.httpMethod == "GET" && event.query.Some? ==>
      (r.Raised? <==> "ID" !in event.query.value)
    ensures event.httpMethod == "GET" && event.query.Some? && "ID" in event.query.value ==>
      r == Fetch(table, cicd, event.query.value["ID"])
    ensures !IsWrite(event.httpMethod) && event.httpMethod != "GET" ==> r == Response(400, true, Message("Unsupported HTTP method."))
  {
    if IsWrite(event.httpMethod) then
      if event.body.None? then Raised("the body is not JSON")
      else match KeyAndData(event.body.value, event.httpMethod)
        case Err(e) => Raised(e)
        case Ok((key, data)) =>
          if key == "" || data == "" then Response(200, true, Message("Key and Data must be a valid value."))
          else Response(200, true, Message("Data saved or updated for key : " + key + ", using " + event.httpMethod))
    else if event.httpMethod == "GET" then
      if event.query.None? then Response(400, false, Message("No query string parameters provided."))
      else if "ID" !in event.query.value then Raised("KeyError: 'ID'")
      else Fetch(table, cicd, event.query.value["ID"])
    else Response(400, true, Message("Unsupported HTTP method."))
  }

  /** The DynamoDB table and the CI/CD variables the module read at import. */
  class Api {
    var table: map<string, Item>
    const cicd: Cicd

    constructor(cicd: Cicd, table: map<string, Item>)
      ensures this.cicd == cicd && this.table == table
    {
      this.cicd := cicd;
      this.table := table;
    }

    /** lambda_handler: the answer is Reply on the old table, and only a written pair changes the table. */
    method LambdaHandler(event: Event) returns (r: Response)
      modifies this`table
      ensures r == Reply(old(table), cicd, event)
      ensures Written(event).None? ==> table == old(table)
      ensures Written(event).Some? ==>
        table == old(table)[Written(event).value.0 := StoredItem(Written(event).value.0, Written(event).value.1)]
    {
      var httpMethod := event.httpMethod;
      if httpMethod == "POST" || httpMethod == "PUT" {
        if event.body.None? {
          return Raised("the body is not JSON");
        }
        var pair := KeyAndData(event.body.value, httpMethod);
        if pair.Err? {
          return Raised(pair.error);
        }
        var (key, data) := pair.value;
        if key == "" || data == "" {
          return Response(200, true, Message("Key and Data must be a valid value."));
        }
        table := table[key := StoredItem(key, data)];
        return Response(200, true, Message("Data saved or updated for key : " + key + ", using " + httpMethod));
      } else if httpMethod == "GET" {
        if event.query.None? {
          return Response(400, false, Message("No query string parameters provided."));
        }
        if "ID" !in event.query.value {
          return Raised("KeyError: 'ID'");
        }
        var key := event.query.value["ID"];
        if key in table {
          var item := table[key];
          if "data" in item && cicd.appName != "" {
            item := item["data" := item["data"] + Origin(cicd)];
          }
          return Response(200, false, ItemBody(item));
        }
        return Response(404, false, Message("Key not found"));
      }
      r := Response(400, true, Message("Unsupported HTTP method."));
    }
  }

  /** Reading back a key just written answers 200 with the pair itself, tagged with the origin. */
  lemma GetAfterWrite(table: map<string, Item>, cicd: Cicd, write: Event, query: map<string, string>)
    requires Written(write).Some?
    requires "ID" in query && query["ID"] == Written(write).value.0
    ensures var (key, data) := Written(write).value;
      var after := table[key := StoredItem(key, data)];
      Reply(after, cicd, Event("GET", None, Some(query)))
        == Response(200, false, ItemBody(StoredItem(key, if cicd.appName != "" then data + Origin(cicd) else data)))
  {
    var (key, data) := Written(write).value;
    var after := table[key := StoredItem(key, data)];
    var t := Tagged(StoredItem(key, data), cicd);
    assert t == StoredItem(key, if cicd.appName != "" then data + Origin(cicd) else data);
  }
}
