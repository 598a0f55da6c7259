/**
 * The shape in which CloudFront hands a request or response to a
 * Lambda@Edge function: every header is a lower-cased name mapped to a list
 * of {key, value} entries, the key keeping the original spelling.
 */
module CloudFront {

  datatype Entry = Entry(key: string, value: string)

  type Headers = map<string, seq<Entry>>

  /** Python `headers.get(name, [])`. */
  function EntriesOf(headers: Headers, name: string): (es: seq<Entry>)
    ensures name in headers ==> es == headers[name]
    ensures name !in headers ==> es == []
  {
    if name in headers then headers[name] else []
  }
}
