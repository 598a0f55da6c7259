/**
 * Shared vocabulary for every module of the model: optional values and
 * results, and the handful of Python/PHP string operations the scripts lean
 * on (prefix tests, substring search, split/join, strip, replace, integer
 * parsing and formatting, order-preserving de-duplication).
 */
module Common {

  datatype Option<T> = None | Some(value: T)

  datatype Result<T> = Ok(value: T) | Err(error: string)

  // ---------------------------------------------------------------------
  // Prefixes, suffixes and occurrences

  predicate StartsWith(s: string, p: string) {
    |p| <= |s| && s[..|p|] == p
  }

  predicate EndsWith(s: string, p: string) {
    |p| <= |s| && s[|s| - |p|..] == p
  }

  /** `sub` occurs in `s` starting at index `i`. */
  predicate OccursAt(s: string, sub: string, i: nat) {
    i + |sub| <= |s| && s[i..i + |sub|] == sub
  }

  /** The first index at or after `from` where `sub` occurs. */
  function FindFrom(s: string, sub: string, from: nat): (r: Option<nat>)
    ensures r.Some? ==> from <= r.value && OccursAt(s, sub, r.value)
    ensures r.Some? ==> forall j :: from <= j < r.value ==> !OccursAt(s, sub, j)
    ensures r.None? ==> forall j: nat :: from <= j ==> !OccursAt(s, sub, j)
    decreases |s| - from
  {
    if from + |sub| > |s| then None
    else if s[from..from + |sub|] == sub then Some(from)
    else FindFrom(s, sub, from + 1)
  }

  function Find(s: string, sub: string): Option<nat> {
    FindFrom(s, sub, 0)
  }

  /** Python's `sub in s`. */
  predicate Contains(s: string, sub: string) {
    Find(s, sub).Some?
  }

  lemma ContainsIff(s: string, sub: string)
    ensures Contains(s, sub) <==> exists i: nat :: OccursAt(s, sub, i)
  {
    if !Contains(s, sub) {
      assert forall j: nat :: !OccursAt(s, sub, j);
    }
  }

  /** An occurrence inside a prefix/suffix is an occurrence in the whole. */
  lemma ContainsConcat(a: string, b: string, sub: string)
    ensures Contains(a, sub) ==> Contains(a + b, sub)
    ensures Contains(b, sub) ==> Contains(a + b, sub)
  {
    ContainsIff(a, sub);
    ContainsIff(b, sub);
    ContainsIff(a + b, sub);
    if Contains(a, sub) {
      var i: nat :| OccursAt(a, sub, i);
      assert (a + b)[i..i + |sub|] == a[i..i + |sub|];
      assert OccursAt(a + b, sub, i);
    }
    if Contains(b, sub) {
      var i: nat :| OccursAt(b, sub, i);
      assert (a + b)[|a| + i..|a| + i + |sub|] == b[i..i + |sub|];
      assert OccursAt(a + b, sub, |a| + i);
    }
  }

  /** A second update of a key overrides the first. */
  lemma UpdateTwice<K, V>(m: map<K, V>, k: K, v1: V, v2: V)
    ensures m[k := v1][k := v2] == m[k := v2]
  {
  }

  lemma AppendAssoc<T>(a: seq<T>, b: seq<T>, c: seq<T>)
    ensures a + (b + c) == a + b + c
  {
  }

  /** A text containing `a + b + c` contains `b`. */
  lemma ContainsInfix(s: string, a: string, b: string, c: string)
    ensures Contains(s, a + b + c) ==> Contains(s, b)
  {
    ContainsIff(s, a + b + c);
    ContainsIff(s, b);
    if Contains(s, a + b + c) {
      var i: nat :| OccursAt(s, a + b + c, i);
      var w := s[i..i + |a + b + c|];
      assert w == a + b + c;
      assert w[|a|..|a| + |b|] == b;
      var v := s[i + |a|..i + |a| + |b|];
      assert forall k :: 0 <= k < |b| ==> v[k] == w[|a|..|a| + |b|][k];
      assert OccursAt(s, b, i + |a|);
    }
  }

  // ---------------------------------------------------------------------
  // Split and join (left to right, non-overlapping, like str.split)

  function Split(s: string, sep: string): (parts: seq<string>)
    requires |sep| > 0
    ensures |parts| >= 1
    decreases |s|
  {
    match Find(s, sep)
    case None => [s]
    case Some(i) => [s[..i]] + Split(s[i + |sep|..], sep)
  }

  function Join(parts: seq<string>, sep: string): string {
    if |parts| == 0 then ""
    else if |parts| == 1 then parts[0]
    else parts[0] + sep + Join(parts[1..], sep)
  }

  /** Split and join are inverse: splitting loses nothing. */
  lemma {:induction false} JoinSplit(s: string, sep: string)
    requires |sep| > 0
    ensures Join(Split(s, sep), sep) == s
    decreases |s|
  {
    match Find(s, sep)
    case None =>
    case Some(i) =>
      var rest := s[i + |sep|..];
      var tail := Split(rest, sep);
      JoinSplit(rest, sep);
      var parts := [s[..i]] + tail;
      assert Split(s, sep) == parts;
      assert parts[0] == s[..i] && parts[1..] == tail;
      assert Join(parts, sep) == s[..i] + sep + Join(tail, sep);
      assert s[i..i + |sep|] == sep;
      assert s == s[..i] + s[i..i + |sep|] + rest;
  }

  /** No piece of a split contains the separator. */
  lemma {:induction false} SplitPartsFree(s: string, sep: string, k: nat)
    requires |sep| > 0
    requires k < |Split(s, sep)|
    ensures !Contains(Split(s, sep)[k], sep)
    decreases |s|
  {
    ContainsIff(Split(s, sep)[k], sep);
    match Find(s, sep)
    case None =>
    case Some(i) =>
      if k == 0 {
        var p := s[..i];
        forall j: nat ensures !OccursAt(p, sep, j) {
          OccursInPrefix(s, sep, i, j);
        }
      } else {
        SplitPartsFree(s[i + |sep|..], sep, k - 1);
      }
  }

  /** An occurrence inside a prefix is an occurrence in the whole string. */
  lemma OccursInPrefix(s: string, sub: string, i: nat, j: nat)
    ensures i <= |s| && OccursAt(s[..i], sub, j) ==> OccursAt(s, sub, j) && j + |sub| <= i
  {
    if i <= |s| && OccursAt(s[..i], sub, j) {
      assert s[j..j + |sub|] == s[..i][j..j + |sub|];
    }
  }

  /** Find returns the first occurrence. */
  lemma FindFirstAt(s: string, sub: string, i: nat)
    requires OccursAt(s, sub, i)
    requires forall j :: 0 <= j < i ==> !OccursAt(s, sub, j)
    ensures Find(s, sub) == Some(i)
  {
  }

  predicate Free(s: string, c: char) {
    forall i :: 0 <= i < |s| ==> s[i] != c
  }

  lemma FreeConcat(a: string, b: string, c: char)
    ensures Free(a + b, c) <==> Free(a, c) && Free(b, c)
  {
    assert forall i :: 0 <= i < |a| ==> (a + b)[i] == a[i];
    assert forall i :: 0 <= i < |b| ==> (a + b)[|a| + i] == b[i];
  }

  lemma {:induction false} JoinSnoc(parts: seq<string>, sep: string)
    requires |parts| >= 2
    ensures Join(parts, sep) == Join(parts[..|parts| - 1], sep) + sep + parts[|parts| - 1]
    decreases |parts|
  {
    if |parts| > 2 {
      JoinSnoc(parts[1..], sep);
      assert parts[1..][..|parts[1..]| - 1] == parts[..|parts| - 1][1..];
    }
  }

  /** Joining pieces free of a one-character separator and splitting again gives the pieces back. */
  lemma {:induction false} SplitJoin(parts: seq<string>, c: char)
    requires |parts| >= 1
    requires forall k :: 0 <= k < |parts| ==> Free(parts[k], c)
    ensures Split(Join(parts, [c]), [c]) == parts
    decreases |parts|
  {
    var s := Join(parts, [c]);
    if |parts| == 1 {
      forall j: nat ensures !OccursAt(s, [c], j) {
        if j + 1 <= |s| { assert s[j..j + 1][0] == s[j]; }
      }
      assert Find(s, [c]).None?;
    } else {
      var rest := Join(parts[1..], [c]);
      assert s == parts[0] + [c] + rest;
      forall j | 0 <= j < |parts[0]| ensures !OccursAt(s, [c], j) {
        assert s[j] == parts[0][j];
      }
      assert OccursAt(s, [c], |parts[0]|) by {
        assert s[|parts[0]|..|parts[0]| + 1] == [c];
      }
      FindFirstAt(s, [c], |parts[0]|);
      assert s[..|parts[0]|] == parts[0];
      assert s[|parts[0]| + 1..] == rest;
      SplitJoin(parts[1..], c);
    }
  }

  /** A piece with no `c` in it: `c in p` is false. */
  lemma NotContainsFree(p: string, c: char)
    requires !Contains(p, [c])
    ensures Free(p, c)
  {
    ContainsIff(p, [c]);
    forall i | 0 <= i < |p| ensures p[i] != c {
      assert p[i..i + 1] == [p[i]];
      assert !OccursAt(p, [c], i);
    }
  }

  /** Every piece of a split at one character is free of it. */
  lemma SplitFree(s: string, c: char)
    ensures forall k :: 0 <= k < |Split(s, [c])| ==> Free(Split(s, [c])[k], c)
  {
    forall k | 0 <= k < |Split(s, [c])| ensures Free(Split(s, [c])[k], c) {
      SplitPartsFree(s, [c], k);
      NotContainsFree(Split(s, [c])[k], c);
    }
  }

  /** A text free of `c` does not contain it. */
  lemma FreeNotContains(p: string, c: char)
    requires Free(p, c)
    ensures !Contains(p, [c])
  {
    forall i: nat | i + 1 <= |p| ensures !OccursAt(p, [c], i) {
      assert p[i..i + 1][0] == p[i];
    }
    ContainsIff(p, [c]);
  }

  lemma {:induction false} JoinAppend(a: seq<string>, b: seq<string>, sep: string)
    requires |a| >= 1 && |b| >= 1
    ensures Join(a + b, sep) == Join(a, sep) + sep + Join(b, sep)
    decreases |a|
  {
    if |a| > 1 {
      JoinAppend(a[1..], b, sep);
      assert (a + b)[1..] == a[1..] + b;
    } else {
      assert (a + b)[1..] == b;
    }
  }

  /** Splitting at one character distributes over a concatenation joined by it. */
  lemma SplitConcat(x: string, y: string, c: char)
    ensures Split(x + [c] + y, [c]) == Split(x, [c]) + Split(y, [c])
  {
    var ps := Split(x, [c]);
    var qs := Split(y, [c]);
    JoinSplit(x, [c]);
    JoinSplit(y, [c]);
    SplitFree(x, c);
    SplitFree(y, c);
    JoinAppend(ps, qs, [c]);
    SplitJoin(ps + qs, c);
  }

  /** The text after the last separator (Python `s.split(sep)[-1]`). */
  function LastPart(s: string, sep: string): string
    requires |sep| > 0
  {
    var parts := Split(s, sep);
    parts[|parts| - 1]
  }

  lemma {:induction false} LastPartIsSuffix(s: string, sep: string)
    requires |sep| > 0
    ensures EndsWith(s, LastPart(s, sep))
    decreases |s|
  {
    match Find(s, sep)
    case None =>
    case Some(i) =>
      var rest := s[i + |sep|..];
      LastPartIsSuffix(rest, sep);
      assert LastPart(s, sep) == LastPart(rest, sep);
      assert s[|s| - |rest|..] == rest;
  }

  /** The last piece has no separator in it and, when there is one, follows the last separator. */
  lemma {:induction false} LastPartAfterSeparator(s: string, sep: string)
    requires |sep| > 0
    ensures !Contains(LastPart(s, sep), sep)
    ensures !Contains(s, sep) ==> LastPart(s, sep) == s
    ensures Contains(s, sep) ==> EndsWith(s, sep + LastPart(s, sep))
    decreases |s|
  {
    SplitPartsFree(s, sep, |Split(s, sep)| - 1);
    match Find(s, sep)
    case None =>
    case Some(i) =>
      var rest := s[i + |sep|..];
      var last := LastPart(rest, sep);
      LastPartAfterSeparator(rest, sep);
      assert LastPart(s, sep) == last;
      assert s[i..i + |sep|] == sep;
      if Contains(rest, sep) {
        assert s[|s| - |sep + last|..] == rest[|rest| - |sep + last|..];
      } else {
        assert s[|s| - |sep + last|..] == s[i..i + |sep|] + rest;
      }
  }

  /** The index of the last `c` in `s`, or -1 (Python `s.rfind(c)`). */
  function RFind(s: string, c: char): (r: int)
    ensures -1 <= r < |s|
    ensures r >= 0 ==> s[r] == c
    ensures forall j :: r < j < |s| ==> s[j] != c
    decreases |s|
  {
    if |s| == 0 then -1
    else if s[|s| - 1] == c then |s| - 1
    else RFind(s[..|s| - 1], c)
  }

  /** The last `c` of `a + [c] + b` when `b` has none. */
  lemma {:induction false} RFindAt(a: string, b: string, c: char)
    requires Free(b, c)
    ensures RFind(a + [c] + b, c) == |a|
    decreases |b|
  {
    var s := a + [c] + b;
    if |b| > 0 {
      var b' := b[..|b| - 1];
      assert s[|s| - 1] == b[|b| - 1];
      assert s[..|s| - 1] == a + [c] + b';
      RFindAt(a, b', c);
    }
  }

  /** `os.path.basename` of a path whose last component is `f`. */
  lemma BasenameAfter(a: string, f: string)
    requires Free(f, '/')
    ensures PyBasename(a + "/" + f) == f
  {
    RFindAt(a, f, '/');
    assert (a + "/" + f)[|a| + 1..] == f;
  }

  /** The index of the first `c` in `s`, or -1 (Python `s.find(c)`). */
  function IndexOf(s: string, c: char): (r: int)
    ensures -1 <= r < |s|
    ensures r >= 0 ==> s[r] == c
    ensures r < 0 ==> Free(s, c)
    ensures r >= 0 ==> Free(s[..r], c)
    decreases |s|
  {
    if |s| == 0 then -1
    else if s[0] == c then 0
    else
      var r := IndexOf(s[1..], c);
      assert forall j :: 1 <= j < |s| ==> s[1..][j - 1] == s[j];
      if r < 0 then -1 else r + 1
  }

  /** No `c` comes before the one IndexOf finds. */
  lemma IndexOfFirst(s: string, c: char)
    ensures forall j :: 0 <= j < IndexOf(s, c) ==> s[j] != c
  {
    var r := IndexOf(s, c);
    forall j | 0 <= j < r ensures s[j] != c {
      assert s[..r][j] == s[j];
    }
  }

  /** The first `c` of `a + b` when `a` has none. */
  lemma IndexOfAfterFree(a: string, b: string, c: char)
    requires Free(a, c)
    ensures IndexOf(a + b, c) == if IndexOf(b, c) < 0 then -1 else |a| + IndexOf(b, c)
  {
    var s := a + b;
    var i := IndexOf(b, c);
    if i < 0 {
      FreeConcat(a, b, c);
      IndexOfFree(s, c);
    } else {
      assert s[..|a| + i] == a + b[..i];
      FreeConcat(a, b[..i], c);
      assert s[|a| + i] == b[i];
      IndexOfUnique(s, c, |a| + i);
    }
  }

  lemma IndexOfUnique(s: string, c: char, i: nat)
    requires i < |s| && s[i] == c && Free(s[..i], c)
    ensures IndexOf(s, c) == i
  {
    var r := IndexOf(s, c);
    FreePrefixAt(s, c, i, r);
    FreePrefixAt(s, c, r, i);
  }

  lemma FreePrefixAt(s: string, c: char, k: int, j: int)
    ensures 0 <= j < k <= |s| && Free(s[..k], c) ==> s[j] != c
  {
    if 0 <= j < k <= |s| {
      assert s[..k][j] == s[j];
    }
  }

  lemma IndexOfFree(s: string, c: char)
    requires Free(s, c)
    ensures IndexOf(s, c) == -1
  {
  }

  /** IndexOf is decided by the text up to the character found. */
  lemma IndexOfPrefix(s: string, t: string, c: char, k: nat)
    requires 0 <= IndexOf(s, c) < k <= |s| && k <= |t| && s[..k] == t[..k]
    ensures IndexOf(t, c) == IndexOf(s, c)
  {
    var i := IndexOf(s, c);
    assert t[i] == s[..k][i];
    assert t[..i] == s[..k][..i] == s[..i];
    IndexOfUnique(t, c, i);
  }

  // ---------------------------------------------------------------------
  // posixpath helpers

  /** `os.path.dirname`: the head up to the last '/', trailing slashes removed unless all slashes. */
  function PyDirname(p: string): string {
    var head := p[..RFind(p, '/') + 1];
    if head != "" && !(forall i :: 0 <= i < |head| ==> head[i] == '/') then RStrip(head, Chars({'/'})) else head
  }

  /** `os.path.basename`: the text after the last '/'. */
  function PyBasename(p: string): (r: string)
    ensures EndsWith(p, r)
    ensures forall i :: 0 <= i < |r| ==> r[i] != '/'
  {
    p[RFind(p, '/') + 1..]
  }

  /** `os.path.join(a, b)` for two components. */
  function PyJoin(a: string, b: string): string {
    if StartsWith(b, "/") then b
    else if a == "" || EndsWith(a, "/") then a + b
    else a + "/" + b
  }

  // ---------------------------------------------------------------------
  // Replace (str.replace / str_replace: every non-overlapping occurrence)

  function ReplaceAll(s: string, pat: string, rep: string): string
    requires |pat| > 0
    decreases |s|
  {
    match Find(s, pat)
    case None => s
    case Some(i) => s[..i] + rep + ReplaceAll(s[i + |pat|..], pat, rep)
  }

  /** Replacing is splitting at the pattern and joining with the replacement. */
  lemma {:induction false} ReplaceAllIsSplitJoin(s: string, pat: string, rep: string)
    requires |pat| > 0
    ensures ReplaceAll(s, pat, rep) == Join(Split(s, pat), rep)
    decreases |s|
  {
    match Find(s, pat)
    case None =>
    case Some(i) =>
      ReplaceAllIsSplitJoin(s[i + |pat|..], pat, rep);
  }

  /** Text without the pattern is left exactly as it was. */
  lemma ReplaceAllAbsent(s: string, pat: string, rep: string)
    requires |pat| > 0 && !Contains(s, pat)
    ensures ReplaceAll(s, pat, rep) == s
  {
  }

  /** A pattern whose first occurrence is at `|pre|` and which is absent after it is replaced once. */
  lemma ReplaceAllOnce(pre: string, pat: string, post: string, rep: string)
    requires |pat| > 0
    requires Find(pre + pat + post, pat) == Some(|pre|)
    requires !Contains(post, pat)
    ensures ReplaceAll(pre + pat + post, pat, rep) == pre + rep + post
  {
    var s := pre + pat + post;
    assert s[..|pre|] == pre;
    assert s[|pre| + |pat|..] == post;
    ReplaceAllAbsent(post, pat, rep);
  }

  /** Replacing every `c` by text without `c` leaves no `c` behind. */
  lemma {:induction false} ReplaceCharGone(s: string, c: char, rep: string)
    requires Free(rep, c)
    ensures Free(ReplaceAll(s, [c], rep), c)
    decreases |s|
  {
    match Find(s, [c])
    case None =>
      forall j | 0 <= j < |s| ensures s[j] != c {
        assert s[j..j + 1] == [s[j]];
        assert !OccursAt(s, [c], j);
      }
    case Some(i) =>
      forall j | 0 <= j < i ensures s[j] != c {
        assert s[j..j + 1] == [s[j]];
        assert !OccursAt(s, [c], j);
      }
      ReplaceCharGone(s[i + 1..], c, rep);
      var r := ReplaceAll(s[i + 1..], [c], rep);
      assert ReplaceAll(s, [c], rep) == s[..i] + rep + r;
  }

  // ---------------------------------------------------------------------
  // Characters, strip, lower case

  /** The characters Python's str.isspace() accepts (str.strip() with no argument). */
  predicate IsSpace(c: char) {
    ('\t' <= c <= '\r') || ('\U{1C}' <= c <= ' ') || c == '\U{85}' || c == '\U{A0}'
    || c == '\U{1680}' || ('\U{2000}' <= c <= '\U{200A}') || c == '\U{2028}' || c == '\U{2029}'
    || c == '\U{202F}' || c == '\U{205F}' || c == '\U{3000}'
  }

  /** Which characters a strip removes: whitespace, or an explicit set. */
  datatype CharClass = Whitespace | Chars(cs: set<char>)

  predicate InClass(c: char, cl: CharClass) {
    match cl
    case Whitespace => IsSpace(c)
    case Chars(cs) => c in cs
  }

  function LStrip(s: string, cl: CharClass): (r: string)
    ensures EndsWith(s, r)
    ensures |r| > 0 ==> !InClass(r[0], cl)
    ensures forall i :: 0 <= i < |s| - |r| ==> InClass(s[i], cl)
    decreases |s|
  {
    if |s| > 0 && InClass(s[0], cl) then LStrip(s[1..], cl) else s
  }

  function RStrip(s: string, cl: CharClass): (r: string)
    ensures StartsWith(s, r)
    ensures |r| > 0 ==> !InClass(r[|r| - 1], cl)
    ensures forall i :: |r| <= i < |s| ==> InClass(s[i], cl)
    decreases |s|
  {
    if |s| > 0 && InClass(s[|s| - 1], cl) then RStrip(s[..|s| - 1], cl) else s
  }

  function Strip(s: string): string {
    RStrip(LStrip(s, Whitespace), Whitespace)
  }

  /** Text that neither starts nor ends with whitespace is its own strip. */
  lemma StripUnchanged(s: string)
    requires |s| > 0 && !IsSpace(s[0]) && !IsSpace(s[|s| - 1])
    ensures Strip(s) == s
  {
    assert LStrip(s, Whitespace) == s;
  }

  /** ASCII lower-casing; every other character is left as it is. */
  function LowerChar(c: char): char {
    if 'A' <= c <= 'Z' then (c as int - 'A' as int + 'a' as int) as char else c
  }

  function Lower(s: string): (r: string)
    ensures |r| == |s|
    ensures forall i :: 0 <= i < |s| ==> r[i] == LowerChar(s[i])
  {
    seq(|s|, i requires 0 <= i < |s| => LowerChar(s[i]))
  }

  /** ASCII upper-casing; every other character is left as it is. */
  function UpperChar(c: char): char {
    if 'a' <= c <= 'z' then (c as int - 'a' as int + 'A' as int) as char else c
  }

  function Upper(s: string): (r: string)
    ensures |r| == |s|
    ensures forall i :: 0 <= i < |s| ==> r[i] == UpperChar(s[i])
  {
    seq(|s|, i requires 0 <= i < |s| => UpperChar(s[i]))
  }

  predicate IsHex(c: char) {
    '0' <= c <= '9' || 'a' <= c <= 'f' || 'A' <= c <= 'F'
  }

  function HexValue(c: char): (v: nat)
    requires IsHex(c)
    ensures v < 16
  {
    if '0' <= c <= '9' then c as int - '0' as int
    else if 'a' <= c <= 'f' then c as int - 'a' as int + 10
    else c as int - 'A' as int + 10
  }

  /**
   * `urllib.parse.unquote`: every `%` followed by two hex digits is replaced
   * by the character with that code; any other `%` is kept.
   */
  function Unquote(s: string): (r: string)
    ensures |r| <= |s|
    decreases |s|
  {
    if |s| == 0 then ""
    else if |s| >= 3 && s[0] == '%' && IsHex(s[1]) && IsHex(s[2]) then
      [(HexValue(s[1]) * 16 + HexValue(s[2])) as char] + Unquote(s[3..])
    else [s[0]] + Unquote(s[1..])
  }

  /** Text without `%` is unchanged by unquoting. */
  lemma {:induction false} UnquotePlain(s: string)
    requires Free(s, '%')
    ensures Unquote(s) == s
    decreases |s|
  {
    if |s| > 0 {
      assert Free(s[1..], '%');
      UnquotePlain(s[1..]);
    }
  }

  predicate IsDigit(c: char) {
    '0' <= c <= '9'
  }

  predicate AllDigits(s: string) {
    forall i :: 0 <= i < |s| ==> IsDigit(s[i])
  }

  // ---------------------------------------------------------------------
  // Integers: Python int(str) and str(int)

  function DigitValue(c: char): nat
    requires IsDigit(c)
  {
    c as int - '0' as int
  }

  function DigitsValue(s: string): nat
    requires AllDigits(s)
  {
    if |s| == 0 then 0 else DigitsValue(s[..|s| - 1]) * 10 + DigitValue(s[|s| - 1])
  }

  function DigitChar(d: nat): char
    requires d < 10
  {
    ('0' as int + d) as char
  }

  /** Decimal rendering of a natural number, no leading zeros. */
  function NatToString(n: nat): (r: string)
    ensures |r| >= 1 && AllDigits(r)
    ensures DigitsValue(r) == n
    ensures r[0] == '0' ==> n == 0
    decreases n
  {
    if n < 10 then [DigitChar(n)]
    else
      var prefix := NatToString(n / 10);
      var r := prefix + [DigitChar(n % 10)];
      assert r[..|r| - 1] == prefix;
      r
  }

  /** Python's str(i) for an int. */
  function IntToString(i: int): string {
    if i < 0 then "-" + NatToString(-i) else NatToString(i)
  }

  function Pow10(k: nat): (r: nat)
    ensures r >= 1
  {
    if k == 0 then 1 else 10 * Pow10(k - 1)
  }

  /**
   * The value of `[+-]digits[.digits]` (or `[+-].digits`), with at least one
   * digit: the plain decimal notation the parsers here accept.
   */
  function DecimalText(t: string): Option<real> {
    var neg := |t| > 0 && t[0] == '-';
    var body := if |t| > 0 && (t[0] == '-' || t[0] == '+') then t[1..] else t;
    match DecimalBody(body)
    case None => None
    case Some(x) => Some(if neg then -x else x)
  }

  /** The unsigned part of DecimalText: digits[.digits] or .digits. */
  function DecimalBody(body: string): Option<real> {
    match Find(body, ".")
    case None => if |body| > 0 && AllDigits(body) then Some(DigitsValue(body) as real) else None
    case Some(i) =>
      var ip := body[..i];
      var fp := body[i + 1..];
      if |ip| + |fp| > 0 && AllDigits(ip) && AllDigits(fp) then
        Some(DigitsValue(ip) as real + (DigitsValue(fp) as real) / (Pow10(|fp|) as real))
      else None
  }

  /** Digits without underscores form a digit run exactly when there is at least one. */
  lemma PlainDigitRun(b: string)
    requires AllDigits(b)
    ensures IsDigitRun(b) <==> |b| > 0
    ensures RemoveUnderscores(b) == b
  {
    RemoveUnderscoresDigits(b);
  }

  /** On text without an exponent mark or an underscore, float() reads what the plain decimal reading does. */
  lemma FloatTextPlain(t: string)
    requires forall k :: 0 <= k < |t| ==> t[k] != 'e' && t[k] != 'E' && t[k] != '_'
    ensures FloatText(t) == DecimalText(t)
  {
    var body := if |t| > 0 && (t[0] == '-' || t[0] == '+') then t[1..] else t;
    assert ExponentMark(body).None?;
    MantissaPlain(body);
  }

  lemma MantissaPlain(body: string)
    requires forall k :: 0 <= k < |body| ==> body[k] != '_'
    ensures MantissaValue(body) == DecimalBody(body)
  {
    match Find(body, ".")
    case None =>
      if AllDigits(body) {
        PlainDigitRun(body);
      } else {
        assert !IsDigitRun(body);
      }
    case Some(i) =>
      var ip := body[..i];
      var fp := body[i + 1..];
      if AllDigits(ip) {
        PlainDigitRun(ip);
      } else {
        assert !IsDigitRun(ip);
      }
      if AllDigits(fp) {
        PlainDigitRun(fp);
      } else {
        assert !IsDigitRun(fp);
      }
  }

  /** float('1.5e3') is 1500.0. */
  lemma FloatTextExponent()
    ensures FloatText("1.5e3") == Some(1500.0)
  {
    var t := "1.5e3";
    assert ExponentMark(t) == Some(3);
    assert t[..3] == "1.5" && t[4..] == "3";
    assert Find("1.5", ".") == Some(1) by {
      assert OccursAt("1.5", ".", 1);
      assert !OccursAt("1.5", ".", 0);
    }
    assert "1.5"[..1] == "1" && "1.5"[2..] == "5";
    RemoveUnderscoresDigits("1");
    RemoveUnderscoresDigits("5");
    RemoveUnderscoresDigits("3");
    assert MantissaValue("1.5") == Some(1.5);
    assert SignedRun("3") == Some(3);
  }

  /** float('1_0.5') is 10.5. */
  lemma FloatTextUnderscore()
    ensures FloatText("1_0.5") == Some(10.5)
  {
    var t := "1_0.5";
    assert ExponentMark(t).None?;
    MantissaUnderscore();
  }

  lemma MantissaUnderscore()
    ensures MantissaValue("1_0.5") == Some(10.5)
  {
    var t := "1_0.5";
    assert Find(t, ".") == Some(3) by {
      assert t[0..1][0] == '1' && t[1..2][0] == '_' && t[2..3][0] == '0';
      assert OccursAt(t, ".", 3);
      assert !OccursAt(t, ".", 0) && !OccursAt(t, ".", 1) && !OccursAt(t, ".", 2);
    }
    assert t[..3] == "1_0" && t[4..] == "5";
    assert IsDigitRun("1_0") && IsDigitRun("5");
    UnderscoreTen();
    RemoveUnderscoresDigits("5");
  }

  lemma UnderscoreTen()
    ensures RemoveUnderscores("1_0") == "10" && DigitsValue("10") == 10
  {
    assert "1_0"[1..] == "_0" && "_0"[1..] == "0";
    RemoveUnderscoresDigits("0");
    assert "10"[..1] == "1";
  }


  /** Digits with single underscores between them, as int() accepts. */
  predicate IsDigitRun(b: string) {
    |b| > 0 && IsDigit(b[0]) && IsDigit(b[|b| - 1])
    && (forall i :: 0 <= i < |b| ==> IsDigit(b[i]) || b[i] == '_')
    && (forall i :: 0 <= i < |b| - 1 ==> !(b[i] == '_' && b[i + 1] == '_'))
  }

  function RemoveUnderscores(b: string): (r: string)
    requires forall i :: 0 <= i < |b| ==> IsDigit(b[i]) || b[i] == '_'
    ensures AllDigits(r)
  {
    if |b| == 0 then ""
    else (if b[0] == '_' then "" else [b[0]]) + RemoveUnderscores(b[1..])
  }

  lemma {:induction false} RemoveUnderscoresDigits(b: string)
    requires AllDigits(b)
    ensures RemoveUnderscores(b) == b
  {
    if |b| > 0 {
      RemoveUnderscoresDigits(b[1..]);
    }
  }

  /** An optional sign and a digit run, without surrounding whitespace: int()'s text and float()'s exponent. */
  function SignedRun(t: string): Option<int> {
    if |t| > 0 && (t[0] == '-' || t[0] == '+') then
      var body := t[1..];
      if IsDigitRun(body) then
        var v: int := DigitsValue(RemoveUnderscores(body));
        Some(if t[0] == '-' then -v else v)
      else None
    else if IsDigitRun(t) then Some(DigitsValue(RemoveUnderscores(t)))
    else None
  }

  /** Python's int(s) on a str: surrounding whitespace, an optional sign, ASCII digits. */
  function ParseInt(s: string): (r: Option<int>)
  {
    SignedRun(Strip(s))
  }

  /** The first exponent mark, 'e' or 'E'. */
  function ExponentMark(s: string): (r: Option<nat>)
    ensures r.Some? ==> r.value < |s| && (s[r.value] == 'e' || s[r.value] == 'E')
    ensures r.None? ==> forall k :: 0 <= k < |s| ==> s[k] != 'e' && s[k] != 'E'
  {
    if |s| == 0 then None
    else if s[0] == 'e' || s[0] == 'E' then Some(0)
    else match ExponentMark(s[1..]) case None => None case Some(j) => Some(j + 1)
  }

  /** A float() mantissa: digit runs before and after at most one '.', with at least one digit. */
  function MantissaValue(m: string): Option<real> {
    match Find(m, ".")
    case None => if IsDigitRun(m) then Some(DigitsValue(RemoveUnderscores(m)) as real) else None
    case Some(i) =>
      var ip := m[..i];
      var fp := m[i + 1..];
      if (|ip| > 0 || |fp| > 0) && (|ip| == 0 || IsDigitRun(ip)) && (|fp| == 0 || IsDigitRun(fp)) then
        var iv: nat := if |ip| == 0 then 0 else DigitsValue(RemoveUnderscores(ip));
        var fd := if |fp| == 0 then "" else RemoveUnderscores(fp);
        Some(iv as real + (DigitsValue(fd) as real) / (Pow10(|fd|) as real))
      else None
  }

  /** x * 10^e. */
  function Scale(x: real, e: int): real {
    if e >= 0 then x * (Pow10(e) as real) else x / (Pow10(-e) as real)
  }

  /**
   * Python's float() of a stripped numeric literal: an optional sign, a
   * mantissa and an optional exponent `e[+-]digits`, digits grouped by
   * single underscores. The `inf` and `nan` spellings are not read, and the
   * value is the exact real, not its nearest double.
   */
  function FloatText(t: string): Option<real> {
    var neg := |t| > 0 && t[0] == '-';
    var body := if |t| > 0 && (t[0] == '-' || t[0] == '+') then t[1..] else t;
    var v :=
      match ExponentMark(body)
      case None => MantissaValue(body)
      case Some(j) =>
        match (MantissaValue(body[..j]), SignedRun(body[j + 1..]))
        case (Some(x), Some(e)) => Some(Scale(x, e))
        case _ => None;
    match v
    case None => None
    case Some(x) => Some(if neg then -x else x)
  }

  lemma StripDigits(s: string)
    requires |s| > 0 && (IsDigit(s[0]) || s[0] == '-') && IsDigit(s[|s| - 1])
    ensures Strip(s) == s
  {
    assert !IsSpace(s[0]) && !IsSpace(s[|s| - 1]);
    assert LStrip(s, Whitespace) == s;
    assert RStrip(s, Whitespace) == s;
  }

  /** str() and int() are inverse on integers. */
  lemma ParseIntOfIntToString(i: int)
    ensures ParseInt(IntToString(i)) == Some(i)
  {
    var n: nat := if i < 0 then -i else i;
    var d := NatToString(n);
    RemoveUnderscoresDigits(d);
    assert IsDigitRun(d);
    assert DigitsValue(RemoveUnderscores(d)) == n;
    if i < 0 {
      var t := "-" + d;
      assert IntToString(i) == t;
      assert t[|t| - 1] == d[|d| - 1];
      StripDigits(t);
      assert t[1..] == d;
      assert ParseInt(t) == Some(i);
    } else {
      assert IntToString(i) == d;
      StripDigits(d);
      assert !(d[0] == '-' || d[0] == '+');
      assert ParseInt(d) == Some(i);
    }
  }

  // ---------------------------------------------------------------------
  // Order-preserving de-duplication (PHP array_unique, first occurrence wins)

  /** Python's `s[::-1]`. */
  function Reverse<T>(s: seq<T>): (r: seq<T>)
    ensures |r| == |s|
    ensures forall i :: 0 <= i < |s| ==> r[i] == s[|s| - 1 - i]
  {
    if |s| == 0 then [] else [s[|s| - 1]] + Reverse(s[..|s| - 1])
  }

  predicate NoDuplicates<T(==)>(s: seq<T>) {
    forall i, j :: 0 <= i < j < |s| ==> s[i] != s[j]
  }

  /** Keeps each element's first occurrence, in the original order. */
  function Dedup<T(==)>(s: seq<T>): (r: seq<T>)
    decreases |s|
  {
    if |s| == 0 then []
    else
      var init := s[..|s| - 1];
      var last := s[|s| - 1];
      Dedup(init) + (if last in init then [] else [last])
  }

  lemma {:induction false} DedupProperties<T>(s: seq<T>)
    ensures NoDuplicates(Dedup(s))
    ensures forall x :: x in Dedup(s) <==> x in s
    ensures |Dedup(s)| <= |s|
    decreases |s|
  {
    if |s| > 0 {
      var init := s[..|s| - 1];
      var last := s[|s| - 1];
      DedupProperties(init);
      assert s == init + [last];
      forall x ensures x in s <==> x in init || x == last { }
    }
  }

  /** The position of the first occurrence of `x` in `s`. */
  function FirstIndex<T(==)>(s: seq<T>, x: T): (i: nat)
    requires x in s
    ensures i < |s| && s[i] == x && x !in s[..i]
    decreases |s|
  {
    if s[0] == x then 0
    else
      var j := FirstIndex(s[1..], x);
      assert s[..1 + j] == [s[0]] + s[1..][..j];
      1 + j
  }

  /** Appending an element does not move the first occurrence of one already present. */
  lemma {:induction false} FirstIndexOfPrefix<T>(init: seq<T>, last: T, x: T)
    requires x in init
    ensures x in init + [last]
    ensures FirstIndex(init + [last], x) == FirstIndex(init, x)
    decreases |init|
  {
    var s := init + [last];
    assert s[0] == init[0];
    if init[0] != x {
      assert x in init[1..];
      assert s[1..] == init[1..] + [last];
      FirstIndexOfPrefix(init[1..], last, x);
    }
  }

  /** An element new to `init` first occurs where it is appended. */
  lemma {:induction false} FirstIndexOfNew<T>(init: seq<T>, last: T)
    requires last !in init
    ensures FirstIndex(init + [last], last) == |init|
    decreases |init|
  {
    var s := init + [last];
    if |init| > 0 {
      assert s[0] == init[0] && s[1..] == init[1..] + [last];
      FirstIndexOfNew(init[1..], last);
    }
  }

  /** What Dedup keeps comes from its input. */
  lemma DedupMember<T>(s: seq<T>, x: T)
    requires x in Dedup(s)
    ensures x in s
  {
    DedupProperties(s);
  }

  /** Both occur in `s`, and `x` occurs first. */
  predicate FirstBefore<T(==)>(s: seq<T>, x: T, y: T) {
    x in s && y in s && FirstIndex(s, x) < FirstIndex(s, y)
  }

  /** One pair of kept elements: the earlier one first appears earlier in `s`. */
  lemma {:induction false} DedupOrderAt<T>(s: seq<T>, i: nat, j: nat)
    requires i < j < |Dedup(s)|
    ensures Dedup(s)[i] in s && Dedup(s)[j] in s
    ensures FirstIndex(s, Dedup(s)[i]) < FirstIndex(s, Dedup(s)[j])
    decreases |s|
  {
    var init := s[..|s| - 1];
    var last := s[|s| - 1];
    assert s == init + [last];
    var d := Dedup(init);
    assert Dedup(s) == d + (if last in init then [] else [last]);
    assert i < |d| && Dedup(s)[i] == d[i];
    DedupMember(init, d[i]);
    FirstIndexOfPrefix(init, last, d[i]);
    if j < |d| {
      assert Dedup(s)[j] == d[j];
      DedupMember(init, d[j]);
      FirstIndexOfPrefix(init, last, d[j]);
      DedupOrderAt(init, i, j);
    } else {
      assert last !in init && Dedup(s)[j] == last;
      FirstIndexOfNew(init, last);
    }
  }

  /**
   * Dedup keeps the first occurrences in the order they have in `s`: the
   * element kept before another first appears before it.
   */
  lemma DedupKeepsFirstOccurrenceOrder<T>(s: seq<T>)
    ensures forall i, j :: 0 <= i < j < |Dedup(s)| ==> FirstBefore(s, Dedup(s)[i], Dedup(s)[j])
  {
    forall i, j | 0 <= i < j < |Dedup(s)|
      ensures FirstBefore(s, Dedup(s)[i], Dedup(s)[j])
    {
      DedupOrderAt(s, i, j);
    }
  }

  /** A list that already has no duplicates is left as it is. */
  lemma {:induction false} DedupOfDistinct<T>(s: seq<T>)
    requires NoDuplicates(s)
    ensures Dedup(s) == s
    decreases |s|
  {
    if |s| > 0 {
      var init := s[..|s| - 1];
      assert NoDuplicates(init);
      DedupOfDistinct(init);
      assert s[|s| - 1] !in init;
      assert s == init + [s[|s| - 1]];
    }
  }

  /** The first element of a non-empty list always survives, in first place. */
  lemma {:induction false} DedupKeepsHead<T>(s: seq<T>)
    requires |s| > 0
    ensures |Dedup(s)| > 0 && Dedup(s)[0] == s[0]
    decreases |s|
  {
    if |s| > 1 {
      DedupKeepsHead(s[..|s| - 1]);
    }
  }
}
