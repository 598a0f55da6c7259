/**
 * Decoded JSON values as the Python handlers see them after json.loads or
 * as a Lambda event dictionary, with the few Python operations the handlers
 * apply to them: `d[k]`, `d.get(k, default)`, `k in x`, `x[0]`, `len(x)` and
 * truthiness. An object is a list of members with distinct names.
 */
module JsonValue {
  import opened Common

  datatype Json =
    | JNull
    | JBool(b: bool)
    | JInt(i: int)
    /** A float, carried as the text Python's str() gives it. */
    | JFloat(text: string)
    | JStr(s: string)
    | JArr(items: seq<Json>)
    | JObj(members: seq<(string, Json)>)

  /** The member named `key` in an object's member list. */
  function Member(members: seq<(string, Json)>, key: string): (r: Option<Json>)
    ensures r.Some? <==> exists i :: 0 <= i < |members| && members[i].0 == key
    ensures r.Some? ==> exists i :: 0 <= i < |members| && members[i] == (key, r.value)
  {
    if |members| == 0 then None
    else if members[0].0 == key then Some(members[0].1)
    else
      var r := Member(members[1..], key);
      assert forall i :: 1 <= i < |members| ==> members[i] == members[1..][i - 1];
      r
  }

  /** Python `j[key]` on a dict: None stands for the KeyError/TypeError raised otherwise. */
  function Get(j: Json, key: string): Option<Json> {
    if j.JObj? then Member(j.members, key) else None
  }

  predicate Has(j: Json, key: string) {
    Get(j, key).Some?
  }

  /** Python `j[0]` on a list (a one-character string for a str). */
  function First(j: Json): Option<Json> {
    match j
    case JArr(items) => if |items| > 0 then Some(items[0]) else None
    case JStr(s) => if |s| > 0 then Some(JStr([s[0]])) else None
    case _ => None
  }

  /** Python `len(j)`; None is the TypeError raised for scalars. */
  function Len(j: Json): Option<nat> {
    match j
    case JArr(items) => Some(|items|)
    case JStr(s) => Some(|s|)
    case JObj(members) => Some(|members|)
    case _ => None
  }

  /** Python `key in j`: a dict key, a list element, or a substring; None is a TypeError. */
  function PyIn(key: string, j: Json): Option<bool> {
    match j
    case JObj(members) => Some(Member(members, key).Some?)
    case JArr(items) => Some(JStr(key) in items)
    case JStr(s) => Some(Contains(s, key))
    case _ => None
  }

  /** Python truthiness. */
  predicate Truthy(j: Json) {
    match j
    case JNull => false
    case JBool(b) => b
    case JInt(i) => i != 0
    case JFloat(t) => !(forall k :: 0 <= k < |t| ==> t[k] in "0.-")
    case JStr(s) => |s| > 0
    case JArr(items) => |items| > 0
    case JObj(members) => |members| > 0
  }

  /** A string at the given path of keys. */
  function StrAt(j: Json, path: seq<string>): Option<string>
    decreases |path|
  {
    if |path| == 0 then (if j.JStr? then Some(j.s) else None)
    else match Get(j, path[0])
      case None => None
      case Some(v) => StrAt(v, path[1..])
  }

  /**
   * Python's `str.isprintable()` for one character: in ASCII exactly ' ' to
   * '~'; beyond it, not the Latin-1 controls U+0080-U+009F, the no-break
   * space U+00A0 and the soft hyphen U+00AD, nor the other space and line
   * separators, the common format characters (U+0600-U+0605, U+061C,
   * U+06DD, U+070F, U+180E, U+200B-U+200F, U+202A-U+202E, U+2060-U+206F,
   * U+FEFF, U+FFF9-U+FFFB), the private-use areas and the noncharacters
   * U+FFFE and U+FFFF.
   */
  predicate Printable(c: char) {
    var n := c as int;
    if n < 0x80 then 0x20 <= n < 0x7f
    else !(0x80 <= n <= 0xa0 || n == 0xad
           || n == 0x1680 || 0x2000 <= n <= 0x200f || 0x2028 <= n <= 0x202f || 0x205f <= n <= 0x206f || n == 0x3000
           || 0x600 <= n <= 0x605 || n == 0x61c || n == 0x6dd || n == 0x70f || n == 0x180e
           || 0xe000 <= n <= 0xf8ff || n == 0xfeff || 0xfff9 <= n <= 0xfffb || n == 0xfffe || n == 0xffff
           || 0xf0000 <= n)
  }

  function HexDigit(d: nat): (c: char)
    requires d < 16
    ensures '0' <= c <= '9' || 'a' <= c <= 'f'
  {
    "0123456789abcdef"[d]
  }

  /** The lower-case hexadecimal digits of `n`, `width` of them, as `%0*x` prints an n below 16^width. */
  function Hex(n: nat, width: nat): (r: string)
    ensures |r| == width
    ensures forall k :: 0 <= k < |r| ==> '0' <= r[k] <= '9' || 'a' <= r[k] <= 'f'
  {
    if width == 0 then "" else Hex(n / 16, width - 1) + [HexDigit(n % 16)]
  }

  /**
   * One character of a string's repr() between `quote` characters: a
   * backslash or the quote gets a backslash, tab, newline and carriage
   * return their letters, another non-printable character `\xhh`,
   * `\uhhhh` or `\Uhhhhhhhh` by its code point; a printable one stays.
   */
  function EscapeChar(c: char, quote: char): (r: string)
    requires quote == '\'' || quote == '"'
    ensures |r| >= 1
    ensures r == [c] <==> Printable(c) && c != '\\' && c != quote
    ensures r != [c] ==> r[0] == '\\' && forall k :: 0 <= k < |r| ==> Printable(r[k])
    ensures !Printable(c) && c != '\t' && c != '\n' && c != '\r' && c as int <= 0xff ==>
      r == "\\x" + Hex(c as int, 2)
  {
    if c == '\\' || c == quote then ['\\', c]
    else if c == '\t' then "\\t"
    else if c == '\n' then "\\n"
    else if c == '\r' then "\\r"
    else if Printable(c) then [c]
    else if c as int <= 0xff then "\\x" + Hex(c as int, 2)
    else if c as int <= 0xffff then "\\u" + Hex(c as int, 4)
    else "\\U" + Hex(c as int, 8)
  }

  function Escaped(s: string, quote: char): string
    requires quote == '\'' || quote == '"'
  {
    if |s| == 0 then "" else Escaped(s[..|s| - 1], quote) + EscapeChar(s[|s| - 1], quote)
  }

  /** repr() leaves no non-printable character in the text it produces. */
  lemma {:induction false} EscapedPrintable(s: string, quote: char)
    requires quote == '\'' || quote == '"'
    ensures forall k :: 0 <= k < |Escaped(s, quote)| ==> Printable(Escaped(s, quote)[k])
    decreases |s|
  {
    if |s| > 0 {
      EscapedPrintable(s[..|s| - 1], quote);
      var c := s[|s| - 1];
      if EscapeChar(c, quote) == [c] {
        assert Printable(c);
      }
    }
  }

  /** A control character becomes its two-digit `\x` escape: repr('a\x01b') is 'a\x01b'. */
  lemma ControlCharEscaped()
    ensures QuoteRepr("a\U{1}b") == "'a\\x01b'"
  {
    var s := "a\U{1}b";
    EscapedExample(s);
    assert '\'' !in s by {
      assert forall k :: 0 <= k < |s| ==> s[k] != '\'';
    }
    assert QuoteRepr(s) == ['\''] + Escaped(s, '\'') + ['\''];
  }

  lemma EscapedExample(s: string)
    requires s == "a\U{1}b"
    ensures Escaped(s, '\'') == "a\\x01b"
  {
    EscapeControlOne();
    assert s[..2][..1] == "a" && s[..2] == "a\U{1}";
    assert Escaped("a", '\'') == "a";
    assert Escaped(s[..2], '\'') == "a\\x01";
  }

  lemma EscapeControlOne()
    ensures EscapeChar('\U{1}', '\'') == "\\x01"
  {
    assert Hex(0, 1) == "0";
    assert Hex(1, 2) == "01";
    assert !Printable('\U{1}');
  }

  /** repr() of a str: single quotes, or double quotes when only `'` occurs in it. */
  function QuoteRepr(s: string): (r: string)
    ensures |r| >= 2 && r[0] == r[|r| - 1] && (r[0] == '\'' || r[0] == '"')
  {
    var q := if '\'' in s && '"' !in s then '"' else '\'';
    [q] + Escaped(s, q) + [q]
  }

  /** Python repr() of a decoded value: `None`, `True`, `[1, 'a']`, `{'k': v}`. */
  function Repr(j: Json): (r: string)
    decreases j
  {
    match j
    case JNull => "None"
    case JBool(b) => if b then "True" else "False"
    case JInt(i) => IntToString(i)
    case JFloat(text) => text
    case JStr(s) => QuoteRepr(s)
    case JArr(items) =>
      "[" + Join(seq(|items|, k requires 0 <= k < |items| => Repr(items[k])), ", ") + "]"
    case JObj(members) =>
      "{" + Join(seq(|members|, k requires 0 <= k < |members| => QuoteRepr(members[k].0) + ": " + Repr(members[k].1)), ", ") + "}"
  }

  /** `type(x).__name__` of a decoded value. */
  function TypeName(j: Json): (name: string)
    ensures name == "str" <==> j.JStr?
  {
    match j
    case JNull => "NoneType"
    case JBool(_) => "bool"
    case JInt(_) => "int"
    case JFloat(_) => "float"
    case JStr(_) => "str"
    case JArr(_) => "list"
    case JObj(_) => "dict"
  }

  /** Python str(): a string is itself, everything else its repr(). */
  function PyStr(j: Json): (r: string)
    ensures j.JStr? ==> r == j.s
    ensures !j.JStr? ==> r == Repr(j)
  {
    if j.JStr? then j.s else Repr(j)
  }

  /** The repr of an object or a list is bracketed, so it is never taken for a plain word. */
  lemma ReprBracketed(j: Json)
    requires j.JObj? || j.JArr?
    ensures |Repr(j)| >= 2
    ensures j.JObj? ==> Repr(j)[0] == '{' && Repr(j)[|Repr(j)| - 1] == '}'
    ensures j.JArr? ==> Repr(j)[0] == '[' && Repr(j)[|Repr(j)| - 1] == ']'
  {
  }
}
