/**
 * The pipeline's Terraform driver (CodeBuild/Pipeline/buildspec/TerraBatch.py).
 * It splits resource names into a base and a stage suffix, injects an
 * `assume_role` block into the aws providers of each state's main.tf,
 * substitutes the lambda artifact placeholders, names and renames the
 * snapshot artifacts, and runs the states in an order fixed by the command.
 */
module PipelineTerraBatch {
  import opened Common
  import ModifyMainTf
  import UserCopy

  // ---------------------------------------------------------------------
  // _split_resource_name

  /** How many `-` parts form the suffix: one in a test stage, two otherwise. */
  function SuffixParts(isTest: bool): nat {
    if isTest then 1 else 2
  }

  /** (base, suffix) of a resource name; the suffix always starts with '-'. */
  function SplitResourceName(full: string, isTest: bool): (r: (string, string))
    ensures |r.1| >= 1 && r.1[0] == '-'
    ensures |Split(full, "-")| <= SuffixParts(isTest) ==> r == ("", "-" + full)
  {
    var parts := Split(full, "-");
    var n := SuffixParts(isTest);
    if |parts| <= n then ("", "-" + full)
    else (Join(parts[..|parts| - n], "-"), "-" + Join(parts[|parts| - n..], "-"))
  }

  /** Cutting the parts of a name in two: each half joins back to a text that splits into it. */
  lemma CutParts(full: string, a: seq<string>, b: seq<string>)
    requires Split(full, "-") == a + b && |a| >= 1 && |b| >= 1
    ensures Join(a, "-") + "-" + Join(b, "-") == full
    ensures Split(Join(a, "-"), "-") == a && Split(Join(b, "-"), "-") == b
  {
    JoinAppend(a, b, "-");
    JoinSplit(full, "-");
    SplitFree(full, '-');
    assert forall k :: 0 <= k < |a| ==> a[k] == (a + b)[k];
    assert forall k :: 0 <= k < |b| ==> b[k] == (a + b)[|a| + k];
    SplitJoin(a, '-');
    SplitJoin(b, '-');
  }

  /**
   * With more parts than the suffix needs, base and suffix put back together
   * give the name, and the suffix holds exactly the last parts (the base the
   * others).
   */
  lemma SplitResourceNameRoundTrip(full: string, isTest: bool)
    requires |Split(full, "-")| > SuffixParts(isTest)
    ensures var parts := Split(full, "-");
      var n := SuffixParts(isTest);
      var r := SplitResourceName(full, isTest);
      r.0 + r.1 == full && Split(r.0, "-") == parts[..|parts| - n] &&
      Split(r.1[1..], "-") == parts[|parts| - n..] && |Split(r.1[1..], "-")| == n
  {
    var parts := Split(full, "-");
    var m := |parts| - SuffixParts(isTest);
    var a := parts[..m];
    var b := parts[m..];
    assert parts == a + b;
    CutParts(full, a, b);
    var r := SplitResourceName(full, isTest);
    assert r == (Join(a, "-"), "-" + Join(b, "-"));
    AppendAssoc(Join(a, "-"), "-", Join(b, "-"));
    ConsTail('-', Join(b, "-"));
  }

  /** A name built from `-`-free parts with exactly a suffix's worth of trailing parts splits back into them. */
  lemma SplitOfParts(a: seq<string>, b: seq<string>, isTest: bool)
    requires |a| >= 1 && |b| == SuffixParts(isTest)
    requires forall k :: 0 <= k < |a + b| ==> Free((a + b)[k], '-')
    ensures SplitResourceName(Join(a, "-") + "-" + Join(b, "-"), isTest) == (Join(a, "-"), "-" + Join(b, "-"))
  {
    JoinAppend(a, b, "-");
    SplitJoin(a + b, '-');
    var parts := a + b;
    assert parts[..|a|] == a;
    assert parts[|a|..] == b;
  }

  // ---------------------------------------------------------------------
  // inject_assume_role (re.sub over the aws provider pattern)

  const SessionName := "Terraform_Execution_Session"

  function RoleBlock(role: string): string {
    ModifyMainTf.RoleBlock(role, SessionName)
  }

  /**
   * add_assume_role, on the matched text `m` whose opening ends at `b.open`
   * and whose closing brace is at `b.close`: a body that already mentions
   * assume_role keeps its match; otherwise the block goes before the brace.
   */
  function Replacement(m: string, b: ModifyMainTf.Block, role: string): string
    requires b.open <= b.close < |m|
  {
    if Contains(m[b.open..b.close], "assume_role") then m else m[..b.close] + RoleBlock(role) + "}"
  }

  /** re.sub: matches replaced left to right, scanning on after each match and by one character elsewhere. */
  function Sub(t: string, role: string): string
    decreases |t|
  {
    if |t| == 0 then ""
    else match ModifyMainTf.MatchAt(t)
      case None => [t[0]] + Sub(t[1..], role)
      case Some(b) => Replacement(t[..b.close + 1], b, role) + Sub(t[b.close + 1..], role)
  }

  /** What inject_assume_role returns; `role` is "" when the variable is unset or empty. */
  function InjectAssumeRole(code: string, role: string): string {
    if role == "" then code
    else if ModifyMainTf.FindAll(code) == [] then code
    else Sub(code, role)
  }

  // Sequence identities, kept apart from the lemmas that unfold Sub.

  lemma HeadTail(t: string)
    requires |t| > 0
    ensures [t[0]] + t[1..] == t && ([t[0]] + t[1..])[1..] == t[1..]
  {
  }

  lemma ConsTail(c: char, x: string)
    ensures ([c] + x)[1..] == x && ([c] + x)[0] == c
  {
  }

  lemma ConsSlices(w: string, f: nat)
    requires 1 <= f <= |w|
    ensures w[1..][f - 1..] == w[f..] && [w[0]] + w[1..][..f - 1] == w[..f]
  {
  }

  lemma EmptyTail(w: string)
    ensures w[..|w|] + w[|w|..] == w && w[|w|..] == ""
  {
  }

  /** The matched text of a block and what lies around it. */
  lemma MatchedSlices(t: string, b: ModifyMainTf.Block)
    requires b.open <= b.close < |t|
    ensures t[..b.close + 1] + t[b.close + 1..] == t
    ensures t[..b.close + 1][b.open..b.close] == t[b.open..b.close]
    ensures t[..b.close + 1][..b.close] == t[..b.close]
  {
  }

  /**
   * The pieces of `p + head + "}" + z`, where `p` holds an opening of length
   * `k` followed by a body: the opening, the text after it, the new matched
   * text and what follows it.
   */
  lemma JoinedPieces(p: string, head: string, z: string, k: nat)
    requires k <= |p|
    ensures var u := p + head + "}" + z;
      var c := |p| + |head|;
      c < |u| && u[..k] == p[..k] && u[k..] == (p[k..] + head) + ("}" + z) &&
      u[..c + 1] == p + head + "}" && u[c + 1..] == z &&
      (p + head + "}")[k..c] == p[k..] + head && (p + head + "}")[..c] == p + head
  {
    var u := p + head + "}" + z;
    var c := |p| + |head|;
    assert u[..k] == p[..k];
    assert u[k..] == (p[k..] + head) + ("}" + z);
    assert u[..c + 1] == p + head + "}";
  }

  /** The first `f + 2` characters of `t0 :: (w[..f] + z)` when `z` starts like `w[f..]`. */
  lemma PrefixAgree(t: string, z: string, f: nat)
    requires f + 2 <= |t| && |z| >= 1 && z[0] == t[f + 1]
    ensures |[t[0]] + (t[1..][..f] + z)| >= f + 2
    ensures ([t[0]] + (t[1..][..f] + z))[..f + 2] == t[..f + 2]
  {
    var p := ([t[0]] + (t[1..][..f] + z))[..f + 2];
    var q := t[..f + 2];
    assert forall i :: 0 <= i < f + 2 ==> p[i] == q[i];
  }

  lemma NewlineBracePieces(y: string)
    ensures var z := "\n}" + y;
      z == ['\n'] + (['}'] + y) && z[0] == '\n' && z[1..] == "}" + y &&
      ("}" + y)[0] == '}' && ("}" + y)[1..] == y
  {
  }

  lemma InfixAt(x: string, s: string, y: string)
    ensures OccursAt(x + s + y, s, |x|)
  {
    assert (x + s + y)[|x|..|x| + |s|] == s;
  }

  // The assume_role block

  const BlockStart := "\n  " + ModifyMainTf.RoleKeyword + ModifyMainTf.RoleArnLine
  const BlockMiddle := ModifyMainTf.SessionLine
  const BlockEnd := ModifyMainTf.BlockTail

  /** The block up to its closing brace. */
  function BlockHead(role: string): string {
    BlockStart + role + BlockMiddle + SessionName + BlockEnd
  }

  lemma BlockHeadThenBrace(role: string)
    ensures RoleBlock(role) == BlockHead(role) + "}\n"
  {
  }

  lemma BlockHeadFree(role: string)
    requires Free(role, '}')
    ensures Free(BlockHead(role), '}')
  {
    assert Free(BlockStart, '}');
    assert Free(BlockMiddle, '}');
    assert Free(SessionName, '}');
    assert Free(BlockEnd, '}');
    FreeConcat(BlockStart, role, '}');
    FreeConcat(BlockStart + role, BlockMiddle, '}');
    FreeConcat(BlockStart + role + BlockMiddle, SessionName, '}');
    FreeConcat(BlockStart + role + BlockMiddle + SessionName, BlockEnd, '}');
  }

  lemma BlockHeadMentionsRole(role: string)
    ensures Contains(BlockHead(role), "assume_role")
  {
    var rest := ModifyMainTf.RoleArnLine + role + BlockMiddle + SessionName + BlockEnd;
    assert BlockHead(role) == "\n  " + ModifyMainTf.RoleKeyword + rest;
    InfixAt("\n  ", ModifyMainTf.RoleKeyword, rest);
    ContainsIff(BlockHead(role), "assume_role");
  }

  // Unfolding Sub one step

  lemma SubAtMatch(t: string, role: string, b: ModifyMainTf.Block)
    requires ModifyMainTf.MatchAt(t) == Some(b)
    ensures Sub(t, role) == Replacement(t[..b.close + 1], b, role) + Sub(t[b.close + 1..], role)
  {
    var m := ModifyMainTf.MatchAt(t);
    assert |t| != 0 && m.Some? && m.value == b;
  }

  /** An opening starts with 'p'. */
  lemma OpeningStartsWithP(x: string)
    ensures ModifyMainTf.IsOpening(x) ==> x[0] == 'p'
  {
    if ModifyMainTf.IsOpening(x) {
      assert x[0] == x[..8][0];
    }
  }

  /** An opening has no 'p' after its first character. */
  lemma NoInnerP(x: string, f: int)
    ensures 1 <= f < |x| && x[f] == 'p' ==> !ModifyMainTf.IsOpening(x)
  {
    if ModifyMainTf.IsOpening(x) {
      ModifyMainTf.OpeningChars(x);
    }
  }

  lemma NoOpeningWithoutP(t: string)
    requires |t| > 0 && t[0] != 'p'
    ensures ModifyMainTf.OpeningLength(t) == None
  {
    var i := IndexOf(t, '{');
    if i >= 0 {
      var x := t[..i + 1];
      assert x[0] == t[0];
      OpeningStartsWithP(x);
    }
  }

  lemma SubNoP(t: string, role: string)
    requires |t| > 0 && t[0] != 'p'
    ensures Sub(t, role) == [t[0]] + Sub(t[1..], role)
  {
    NoOpeningWithoutP(t);
  }

  /** A 'p'-free prefix passes through unchanged. */
  lemma {:induction false} SubSkip(w: string, f: nat, role: string)
    requires f <= |w| && forall j :: 0 <= j < f ==> w[j] != 'p'
    ensures Sub(w, role) == w[..f] + Sub(w[f..], role)
    decreases f
  {
    if f > 0 {
      var v := w[1..];
      SubNoP(w, role);
      SubSkip(v, f - 1, role);
      ConsSlices(w, f);
      AppendAssoc([w[0]], v[..f - 1], Sub(w[f..], role));
    } else {
      assert w[..0] + w[0..] == w;
    }
  }

  /** The result starts with the text's first character. */
  lemma SubHead(z: string, role: string)
    requires |z| > 0
    ensures |Sub(z, role)| > 0 && Sub(z, role)[0] == z[0]
  {
    match ModifyMainTf.MatchAt(z)
    case None =>
      assert Sub(z, role) == [z[0]] + Sub(z[1..], role);
    case Some(b) =>
      SubAtMatch(z, role, b);
      var m := z[..b.close + 1];
      ReplacementHead(m, b, role);
      assert m[0] == z[0];
  }

  lemma ReplacementHead(m: string, b: ModifyMainTf.Block, role: string)
    requires b.open <= b.close < |m| && 0 < b.close
    ensures |Replacement(m, b, role)| > 0 && Replacement(m, b, role)[0] == m[0]
  {
    if !Contains(m[b.open..b.close], "assume_role") {
      assert (m[..b.close] + RoleBlock(role) + "}")[0] == m[..b.close][0];
    }
  }

  /** A text without '}' has no match and passes through. */
  lemma {:induction false} SubNoClose(w: string, role: string)
    requires Free(w, '}')
    ensures Sub(w, role) == w
    decreases |w|
  {
    if |w| > 0 {
      assert ModifyMainTf.MatchAt(w).None?;
      assert forall i :: 0 <= i < |w| - 1 ==> w[1..][i] == w[i + 1];
      SubNoClose(w[1..], role);
      HeadTail(w);
    }
  }

  /** A text whose every provider body already has assume_role is left as it is. */
  lemma {:induction false} SubKeepsRoles(t: string, role: string)
    requires forall i :: 0 <= i < |ModifyMainTf.FindAll(t)| ==> Contains(ModifyMainTf.FindAll(t)[i].1, "assume_role")
    ensures Sub(t, role) == t
    decreases |t|
  {
    if |t| > 0 {
      match ModifyMainTf.MatchAt(t)
      case None =>
        assert ModifyMainTf.FindAll(t) == ModifyMainTf.FindAll(t[1..]);
        SubKeepsRoles(t[1..], role);
        HeadTail(t);
      case Some(b) =>
        var rest := t[b.close + 1..];
        var all := ModifyMainTf.FindAll(t);
        assert all[0] == (t[..b.open], t[b.open..b.close]);
        assert forall i :: 0 <= i < |ModifyMainTf.FindAll(rest)| ==> ModifyMainTf.FindAll(rest)[i] == all[i + 1];
        SubKeepsRoles(rest, role);
        MatchedSlices(t, b);
        SubAtMatch(t, role, b);
    }
  }

  /**
   * The code is unchanged without a role, without an aws provider, and when
   * every provider body already holds an assume_role block.
   */
  lemma InjectUnchanged(code: string, role: string)
    ensures role == "" ==> InjectAssumeRole(code, role) == code
    ensures ModifyMainTf.FindAll(code) == [] ==> InjectAssumeRole(code, role) == code
    ensures (forall i :: 0 <= i < |ModifyMainTf.FindAll(code)| ==> Contains(ModifyMainTf.FindAll(code)[i].1, "assume_role")) ==>
      InjectAssumeRole(code, role) == code
  {
    if forall i :: 0 <= i < |ModifyMainTf.FindAll(code)| ==> Contains(ModifyMainTf.FindAll(code)[i].1, "assume_role") {
      SubKeepsRoles(code, role);
    }
  }

  /** Two texts that agree up to a 'p' at `f` agree on the opening at their start. */
  lemma OpeningAgree(t: string, u: string, f: nat)
    requires 1 <= f < |t| && f < |u| && t[..f + 1] == u[..f + 1] && t[f] == 'p'
    ensures ModifyMainTf.OpeningLength(t) == ModifyMainTf.OpeningLength(u)
  {
    var i := IndexOf(t, '{');
    forall q | 0 <= q <= f ensures u[q] == t[q] {
      assert u[q] == u[..f + 1][q];
      assert t[q] == t[..f + 1][q];
    }
    if 0 <= i < f {
      IndexOfPrefix(t, u, '{', f + 1);
      assert t[..i + 1] == t[..f + 1][..i + 1];
      assert u[..i + 1] == u[..f + 1][..i + 1];
    } else {
      var j := IndexOf(u, '{');
      assert i < 0 || i > f;
      assert j < 0 || j > f;
      if i > f {
        assert t[..i + 1][f] == t[f];
        NoInnerP(t[..i + 1], f);
      }
      if j > f {
        assert u[..j + 1][f] == u[f];
        NoInnerP(u[..j + 1], f);
      }
    }
  }

  /** A text that keeps another's opening characters keeps its opening. */
  lemma SameOpening(t: string, u: string, k: nat)
    requires ModifyMainTf.OpeningLength(t) == Some(k) && k <= |u| && u[..k] == t[..k]
    ensures ModifyMainTf.OpeningLength(u) == Some(k)
  {
    IndexOfPrefix(t, u, '{', k);
  }

  /** The match at the start of a text, from its opening and its first '}' after it. */
  lemma MatchFromParts(u: string, k: nat, j: int)
    requires ModifyMainTf.OpeningLength(u) == Some(k) && 0 <= j && IndexOf(u[k..], '}') == j
    ensures ModifyMainTf.MatchAt(u) == Some(ModifyMainTf.Block(k, k + j))
  {
  }

  /** No '}' after an opening means none after the first character. */
  lemma FreeAfterFirst(t: string, k: nat)
    requires 0 < k <= |t| && ModifyMainTf.IsOpening(t[..k]) && Free(t[k..], '}')
    ensures Free(t[1..], '}')
  {
    ModifyMainTf.OpeningChars(t[..k]);
    forall q | 0 <= q < |t| - 1 ensures t[1..][q] != '}' {
      if q + 1 < k {
        assert t[1..][q] == t[..k][q + 1];
      } else {
        assert t[1..][q] == t[k..][q + 1 - k];
      }
    }
  }

  /** With no match at `t` and a 'p' at `f + 1`, `t0 :: Sub(t[1..])` has no match either. */
  lemma NoMatchAgainAt(t: string, role: string, f: nat)
    requires |t| > 0 && ModifyMainTf.MatchAt(t).None? && t[0] == 'p'
    requires f < |t| - 1 && t[1..][f] == 'p' && forall j :: 0 <= j < f ==> t[1..][j] != 'p'
    ensures ModifyMainTf.MatchAt([t[0]] + Sub(t[1..], role)).None?
  {
    var w := t[1..];
    var u := [t[0]] + Sub(w, role);
    SubSkip(w, f, role);
    SubHead(w[f..], role);
    PrefixAgree(t, Sub(w[f..], role), f);
    OpeningAgree(t, u, f + 1);
    match ModifyMainTf.OpeningLength(t)
    case None =>
    case Some(k) =>
      FreeAfterFirst(t, k);
      SubNoClose(w, role);
      HeadTail(t);
  }

  /** With no match at the start, the first character of the scanned text starts no match either. */
  lemma NoMatchAgain(t: string, role: string)
    requires |t| > 0 && ModifyMainTf.MatchAt(t).None?
    ensures ModifyMainTf.MatchAt([t[0]] + Sub(t[1..], role)).None?
  {
    var w := t[1..];
    var x := Sub(w, role);
    if t[0] != 'p' {
      ConsTail(t[0], x);
      NoOpeningWithoutP([t[0]] + x);
    } else {
      var f := IndexOf(w, 'p');
      if f < 0 {
        SubSkip(w, |w|, role);
        EmptyTail(w);
        HeadTail(t);
      } else {
        IndexOfFirst(w, 'p');
        NoMatchAgainAt(t, role, f);
      }
    }
  }

  /** The step of idempotence where the text does not start with a match. */
  lemma IdemNoMatch(t: string, role: string)
    requires |t| > 0 && ModifyMainTf.MatchAt(t).None?
    requires Sub(Sub(t[1..], role), role) == Sub(t[1..], role)
    ensures Sub(Sub(t, role), role) == Sub(t, role)
  {
    var x := Sub(t[1..], role);
    var u := [t[0]] + x;
    assert Sub(t, role) == u;
    NoMatchAgain(t, role);
    ConsTail(t[0], x);
    assert Sub(u, role) == [t[0]] + Sub(x, role);
  }

  /**
   * The step of idempotence at a match: the replaced text `p + head + "}"`
   * (with `head` empty when the body already had assume_role, and the block
   * up to its brace otherwise) matches again, with a body that mentions
   * assume_role, and is kept.
   */
  lemma IdemAgain(t: string, role: string, b: ModifyMainTf.Block, head: string, z: string)
    requires ModifyMainTf.MatchAt(t) == Some(b)
    requires Free(head, '}')
    requires Contains(t[b.open..b.close] + head, "assume_role")
    requires Sub(z, role) == z
    ensures Sub(t[..b.close] + head + "}" + z, role) == t[..b.close] + head + "}" + z
  {
    var p := t[..b.close];
    var u := p + head + "}" + z;
    var b2 := ModifyMainTf.Block(b.open, b.close + |head|);
    MatchAgain(t, b, head, z);
    assert |p| + |head| == b2.close;
    JoinedPieces(p, head, z, b.open);
    assert p[b.open..] == t[b.open..b.close];
    SubAtMatch(u, role, b2);
  }

  /** The replaced text `p + head + "}"` followed by `z` starts with a match ending at the new brace. */
  lemma MatchAgain(t: string, b: ModifyMainTf.Block, head: string, z: string)
    requires ModifyMainTf.MatchAt(t) == Some(b)
    requires Free(head, '}')
    ensures ModifyMainTf.MatchAt(t[..b.close] + head + "}" + z) == Some(ModifyMainTf.Block(b.open, b.close + |head|))
  {
    var u := t[..b.close] + head + "}" + z;
    AgainOpening(t, b, head, z);
    AgainClose(t, b, head, z);
    MatchFromParts(u, b.open, b.close + |head| - b.open);
  }

  lemma AgainOpening(t: string, b: ModifyMainTf.Block, head: string, z: string)
    requires ModifyMainTf.MatchAt(t) == Some(b)
    ensures ModifyMainTf.OpeningLength(t[..b.close] + head + "}" + z) == Some(b.open)
  {
    var p := t[..b.close];
    JoinedPieces(p, head, z, b.open);
    assert p[..b.open] == t[..b.open];
    SameOpening(t, p + head + "}" + z, b.open);
  }

  lemma AgainClose(t: string, b: ModifyMainTf.Block, head: string, z: string)
    requires ModifyMainTf.MatchAt(t) == Some(b)
    requires Free(head, '}')
    ensures var u := t[..b.close] + head + "}" + z;
      b.open <= |u| && IndexOf(u[b.open..], '}') == b.close + |head| - b.open
  {
    var p := t[..b.close];
    JoinedPieces(p, head, z, b.open);
    var body := p[b.open..];
    assert body == t[b.open..b.close];
    FreeConcat(body, head, '}');
    IndexOfAfterFree(body + head, "}" + z, '}');
    assert IndexOf("}" + z, '}') == 0;
  }

  lemma KeptPieces(t: string, b: ModifyMainTf.Block, y: string)
    requires b.open <= b.close < |t| && t[b.close] == '}'
    ensures t[b.open..b.close] + "" == t[b.open..b.close]
    ensures t[..b.close + 1] + y == t[..b.close] + "" + "}" + y
  {
    assert t[..b.close + 1] == t[..b.close] + "}";
  }

  /** The step of idempotence at a match whose body already mentions assume_role. */
  lemma IdemKept(t: string, role: string, b: ModifyMainTf.Block)
    requires ModifyMainTf.MatchAt(t) == Some(b) && Contains(t[b.open..b.close], "assume_role")
    requires Sub(Sub(t[b.close + 1..], role), role) == Sub(t[b.close + 1..], role)
    ensures Sub(Sub(t, role), role) == Sub(t, role)
  {
    var y := Sub(t[b.close + 1..], role);
    SubAtMatch(t, role, b);
    MatchedSlices(t, b);
    KeptPieces(t, b, y);
    IdemAgain(t, role, b, "", y);
  }

  /** The step of idempotence at a match that gets the block. */
  lemma IdemInjected(t: string, role: string, b: ModifyMainTf.Block)
    requires Free(role, '}')
    requires ModifyMainTf.MatchAt(t) == Some(b) && !Contains(t[b.open..b.close], "assume_role")
    requires Sub(Sub(t[b.close + 1..], role), role) == Sub(t[b.close + 1..], role)
    ensures Sub(Sub(t, role), role) == Sub(t, role)
  {
    var y := Sub(t[b.close + 1..], role);
    SubAtMatch(t, role, b);
    MatchedSlices(t, b);
    var body := t[b.open..b.close];
    BlockHeadThenBrace(role);
    BlockHeadFree(role);
    BlockHeadMentionsRole(role);
    ContainsConcat(body, BlockHead(role), "assume_role");
    var z := "\n}" + y;
    SubNewlineBrace(y, role);
    RegroupHead(t[..b.close], BlockHead(role), y);
    IdemAgain(t, role, b, BlockHead(role), z);
  }

  lemma RegroupHead(p: string, h: string, y: string)
    ensures p + (h + "}\n") + "}" + y == p + h + "}" + ("\n}" + y)
  {
  }

  /** Substituting twice equals substituting once (for a role without '}'). */
  lemma {:induction false} SubIdempotent(t: string, role: string)
    requires Free(role, '}')
    ensures Sub(Sub(t, role), role) == Sub(t, role)
    decreases |t|
  {
    if |t| > 0 {
      match ModifyMainTf.MatchAt(t)
      case None =>
        SubIdempotent(t[1..], role);
        IdemNoMatch(t, role);
      case Some(b) =>
        SubIdempotent(t[b.close + 1..], role);
        if Contains(t[b.open..b.close], "assume_role") {
          IdemKept(t, role, b);
        } else {
          IdemInjected(t, role, b);
        }
    }
  }

  /** The "\n}" left behind the block passes through. */
  lemma SubNewlineBrace(y: string, role: string)
    requires Sub(y, role) == y
    ensures Sub("\n}" + y, role) == "\n}" + y
  {
    var z0 := "\n}" + y;
    var z1 := "}" + y;
    NewlineBracePieces(y);
    SubNoP(z0, role);
    SubNoP(z1, role);
  }

  /** Injecting twice equals injecting once, whenever the role ARN has no '}'. */
  lemma InjectIdempotent(code: string, role: string)
    requires Free(role, '}')
    ensures InjectAssumeRole(InjectAssumeRole(code, role), role) == InjectAssumeRole(code, role)
  {
    if role != "" && ModifyMainTf.FindAll(code) != [] {
      SubIdempotent(code, role);
    }
  }

  // ---------------------------------------------------------------------
  // _modify_and_prepare_main_tf: placeholder substitution

  const ArtifactsDir := "/tmp/artifacts"
  const PlaceholderPrefix := "Change_File_Name_"

  /** The state's own name for a manifest lambda: the lambda's base with the state's suffix. */
  function TargetName(manifestName: string, stateName: string, isTest: bool): string {
    SplitResourceName(manifestName, isTest).0 + SplitResourceName(stateName, isTest).1
  }

  /** os.path.join(ARTIFACTS_DIR, "lambdas", target + ".zip") with backslashes turned into slashes. */
  function ArtifactPath(target: string): string {
    ReplaceAll(PyJoin(PyJoin(ArtifactsDir, "lambdas"), target + ".zip"), "\\", "/")
  }

  function Quoted(s: string): string {
    "\"" + s + "\""
  }

  function HashCall(s: string): string {
    "filebase64sha256(" + Quoted(s) + ")"
  }

  /** The two replacements made for one target: the quoted placeholder, then the hashed one. */
  function SubstituteOne(content: string, target: string): string {
    var placeholder := PlaceholderPrefix + target;
    var path := ArtifactPath(target);
    ReplaceAll(ReplaceAll(content, Quoted(placeholder), Quoted(path)), HashCall(placeholder), HashCall(path))
  }

  /** The replacements for the manifest lambdas, in manifest order. */
  function SubstituteAll(content: string, lambdas: seq<string>, stateName: string, isTest: bool): string
    decreases |lambdas|
  {
    if |lambdas| == 0 then content
    else
      var n := |lambdas| - 1;
      SubstituteOne(SubstituteAll(content, lambdas[..n], stateName, isTest), TargetName(lambdas[n], stateName, isTest))
  }

  /** The main.tf written back: the role injected, then every placeholder substituted. */
  function PreparedMainTf(content: string, role: string, lambdas: seq<string>, stateName: string, isTest: bool): string {
    SubstituteAll(InjectAssumeRole(content, role), lambdas, stateName, isTest)
  }

  /**
   * _modify_and_prepare_main_tf on the text of main.tf; `lambdas` holds the
   * first element of each ListLambda entry and `role` is "" when unset.
   */
  method ModifyAndPrepareMainTf(content: string, stateName: string, lambdas: seq<string>, role: string, isTest: bool)
    returns (result: string)
    ensures result == PreparedMainTf(content, role, lambdas, stateName, isTest)
  {
    result := InjectAssumeRole(content, role);
    if |lambdas| == 0 {
      return;
    }
    var suffix := SplitResourceName(stateName, isTest).1;
    for i := 0 to |lambdas|
      invariant result == SubstituteAll(InjectAssumeRole(content, role), lambdas[..i], stateName, isTest)
    {
      var target := SplitResourceName(lambdas[i], isTest).0 + suffix;
      var placeholder := PlaceholderPrefix + target;
      var path := ArtifactPath(target);
      SubstituteAllSnoc(InjectAssumeRole(content, role), lambdas, i, stateName, isTest);
      assert target == TargetName(lambdas[i], stateName, isTest);
      result := ReplaceAll(result, Quoted(placeholder), Quoted(path));
      result := ReplaceAll(result, HashCall(placeholder), HashCall(path));
    }
    assert lambdas[..|lambdas|] == lambdas;
  }

  lemma SubstituteAllSnoc(content: string, lambdas: seq<string>, i: nat, stateName: string, isTest: bool)
    requires i < |lambdas|
    ensures SubstituteAll(content, lambdas[..i + 1], stateName, isTest) ==
      SubstituteOne(SubstituteAll(content, lambdas[..i], stateName, isTest), TargetName(lambdas[i], stateName, isTest))
  {
    assert lambdas[..i + 1][..i] == lambdas[..i];
  }

  /**
   * The target name splits back into the manifest lambda's base and the
   * state's suffix, whenever both names have enough parts.
   */
  lemma TargetNameSplits(manifestName: string, stateName: string, isTest: bool)
    requires |Split(manifestName, "-")| > SuffixParts(isTest) && |Split(stateName, "-")| > SuffixParts(isTest)
    ensures SplitResourceName(TargetName(manifestName, stateName, isTest), isTest) ==
      (SplitResourceName(manifestName, isTest).0, SplitResourceName(stateName, isTest).1)
  {
    var a, _ := NameParts(manifestName, isTest);
    var _, b := NameParts(stateName, isTest);
    FreeParts(a, b);
    SplitOfParts(a, b, isTest);
    TargetFromParts(manifestName, stateName, isTest, Join(a, "-"), Join(b, "-"));
  }

  lemma TargetFromParts(manifestName: string, stateName: string, isTest: bool, x: string, y: string)
    requires SplitResourceName(manifestName, isTest).0 == x && SplitResourceName(stateName, isTest).1 == "-" + y
    requires SplitResourceName(x + "-" + y, isTest) == (x, "-" + y)
    ensures SplitResourceName(TargetName(manifestName, stateName, isTest), isTest) == (x, "-" + y)
  {
    AppendAssoc(x, "-", y);
  }

  /** The base and suffix as joins of `-`-free parts. */
  lemma NameParts(name: string, isTest: bool) returns (a: seq<string>, b: seq<string>)
    requires |Split(name, "-")| > SuffixParts(isTest)
    ensures |a| >= 1 && |b| == SuffixParts(isTest) && Split(name, "-") == a + b
    ensures SplitResourceName(name, isTest) == (Join(a, "-"), "-" + Join(b, "-"))
    ensures forall k :: 0 <= k < |a| ==> Free(a[k], '-')
    ensures forall k :: 0 <= k < |b| ==> Free(b[k], '-')
  {
    var parts := Split(name, "-");
    var m := |parts| - SuffixParts(isTest);
    a := parts[..m];
    b := parts[m..];
    SplitFree(name, '-');
    assert forall k :: 0 <= k < |a| ==> a[k] == parts[k];
    assert forall k :: 0 <= k < |b| ==> b[k] == parts[m + k];
  }

  lemma FreeParts(a: seq<string>, b: seq<string>)
    requires forall k :: 0 <= k < |a| ==> Free(a[k], '-')
    requires forall k :: 0 <= k < |b| ==> Free(b[k], '-')
    ensures forall k :: 0 <= k < |a + b| ==> Free((a + b)[k], '-')
  {
    forall k | 0 <= k < |a + b| ensures Free((a + b)[k], '-') {
      if k < |a| {
        assert (a + b)[k] == a[k];
      } else {
        assert (a + b)[k] == b[k - |a|];
      }
    }
  }

  /** A target without backslashes and not starting with '/' lands in /tmp/artifacts/lambdas. */
  lemma ArtifactPathShape(target: string)
    requires Free(target, '\\') && !StartsWith(target, "/")
    ensures ArtifactPath(target) == "/tmp/artifacts/lambdas/" + target + ".zip"
  {
    var dir := "/tmp/artifacts/lambdas/";
    var file := target + ".zip";
    NotRooted(target);
    LambdasDirJoin(file);
    AppendAssoc(dir, target, ".zip");
    PathFree(dir, target);
    NoBackslashKept(dir + target + ".zip");
  }

  lemma NotRooted(target: string)
    requires !StartsWith(target, "/")
    ensures !StartsWith(target + ".zip", "/")
  {
    var file := target + ".zip";
    if |target| == 0 {
      assert file[..1][0] == '.';
    } else {
      assert file[..1][0] == target[..1][0];
    }
  }

  lemma PathFree(dir: string, target: string)
    requires Free(dir, '\\') && Free(target, '\\')
    ensures Free(dir + target + ".zip", '\\')
  {
    assert Free(".zip", '\\');
    FreeConcat(dir, target, '\\');
    FreeConcat(dir + target, ".zip", '\\');
  }

  lemma NoBackslashKept(p: string)
    requires Free(p, '\\')
    ensures ReplaceAll(p, "\\", "/") == p
  {
    FreeNotContains(p, '\\');
    ReplaceAllAbsent(p, "\\", "/");
  }

  /** Joining a file name onto the lambdas directory. */
  lemma LambdasDirJoin(f: string)
    requires !StartsWith(f, "/")
    ensures PyJoin(PyJoin(ArtifactsDir, "lambdas"), f) == "/tmp/artifacts/lambdas/" + f
  {
    var d := PyJoin(ArtifactsDir, "lambdas");
    assert "lambdas"[..1][0] == 'l';
    assert ArtifactsDir[|ArtifactsDir| - 1..][0] == 's';
    assert d == "/tmp/artifacts/lambdas";
    assert d[|d| - 1..][0] == 's';
    assert d + "/" == "/tmp/artifacts/lambdas/";
    AppendAssoc(d, "/", f);
  }

  /** No artifact path holds a backslash. */
  lemma ArtifactPathNoBackslash(target: string)
    ensures Free(ArtifactPath(target), '\\')
  {
    ReplaceCharGone(PyJoin(PyJoin(ArtifactsDir, "lambdas"), target + ".zip"), '\\', "/");
  }

  /** A single substitution step leaves a text without any placeholder as it is. */
  lemma SubstituteOneAbsent(content: string, target: string)
    requires !Contains(content, PlaceholderPrefix)
    ensures SubstituteOne(content, target) == content
  {
    var placeholder := PlaceholderPrefix + target;
    ContainsInfix(content, "", PlaceholderPrefix, target);
    assert "" + PlaceholderPrefix + target == placeholder;
    ContainsInfix(content, "\"", placeholder, "\"");
    ContainsInfix(content, "filebase64sha256(", Quoted(placeholder), ")");
    ReplaceAllAbsent(content, Quoted(placeholder), Quoted(ArtifactPath(target)));
    ReplaceAllAbsent(content, HashCall(placeholder), HashCall(ArtifactPath(target)));
  }

  /** Substitution changes nothing in a text that holds no placeholder. */
  lemma {:induction false} SubstituteAllAbsent(content: string, lambdas: seq<string>, stateName: string, isTest: bool)
    requires !Contains(content, PlaceholderPrefix)
    ensures SubstituteAll(content, lambdas, stateName, isTest) == content
    decreases |lambdas|
  {
    if |lambdas| > 0 {
      var n := |lambdas| - 1;
      SubstituteAllAbsent(content, lambdas[..n], stateName, isTest);
      SubstituteOneAbsent(content, TargetName(lambdas[n], stateName, isTest));
    }
  }

  // ---------------------------------------------------------------------
  // _create_snapshot / _restore_snapshot

  const SnapshotsDir := "/tmp/snapshots"
  const DevSuffix := "-dev"

  /** The lambda (or bucket) downloaded for a manifest entry: its test-stage base with "-dev". */
  function SnapshotSource(name: string): string {
    SplitResourceName(name, true).0 + DevSuffix
  }

  /** The generic artifact a manifest lambda is saved as, relative to the artifacts directory. */
  function SnapshotArtifact(name: string): string {
    "lambdas/" + SplitResourceName(name, true).0 + ".zip"
  }

  /** The local directory a manifest bucket is synchronised into, relative to the artifacts directory. */
  function SnapshotBucketDir(name: string): string {
    "s3_content/" + SplitResourceName(name, true).0
  }

  datatype Copy = Copy(source: string, dest: string)

  /** What a snapshot fetches and where it is uploaded. */
  datatype SnapshotPlan = SnapshotPlan(lambdaCopies: seq<Copy>, bucketCopies: seq<Copy>, key: string)

  /** The key the created snapshot is uploaded under (the basename of the archive make_archive writes). */
  function CreateKey(pipelineName: string, version: string): string {
    "CopyArtifacts/" + pipelineName + "/" + version + "/" + PyBasename(PyJoin(SnapshotsDir, "backup_" + version) + ".zip")
  }

  /** The key a restore downloads. */
  function RestoreKey(pipelineName: string, version: string): string {
    "CopyArtifacts/" + pipelineName + "/" + version + "/backup_" + version + ".zip"
  }

  /**
   * _create_snapshot, its downloads and upload as a plan: an empty Version
   * or ArtifactsBucket is refused before anything is fetched.
   */
  method CreateSnapshot(pipelineName: string, version: string, artifactsBucket: string, lambdas: seq<string>, buckets: seq<string>)
    returns (r: Result<SnapshotPlan>)
    ensures r.Err? <==> version == "" || artifactsBucket == ""
    ensures r.Ok? ==> |r.value.lambdaCopies| == |lambdas| && |r.value.bucketCopies| == |buckets|
    ensures r.Ok? ==> forall i :: 0 <= i < |lambdas| ==>
      r.value.lambdaCopies[i] == Copy(SnapshotSource(lambdas[i]), SnapshotArtifact(lambdas[i]))
    ensures r.Ok? ==> forall i :: 0 <= i < |buckets| ==>
      r.value.bucketCopies[i] == Copy(SnapshotSource(buckets[i]), SnapshotBucketDir(buckets[i]))
    ensures r.Ok? ==> r.value.key == CreateKey(pipelineName, version)
  {
    if version == "" || artifactsBucket == "" {
      return Err("'Version' e 'ArtifactsBucket' s\U{E3}o obrigat\U{F3}rios.");
    }
    var lambdaCopies: seq<Copy> := [];
    for i := 0 to |lambdas|
      invariant |lambdaCopies| == i
      invariant forall j :: 0 <= j < i ==> lambdaCopies[j] == Copy(SnapshotSource(lambdas[j]), SnapshotArtifact(lambdas[j]))
    {
      var base := SplitResourceName(lambdas[i], true).0;
      lambdaCopies := lambdaCopies + [Copy(base + DevSuffix, "lambdas/" + base + ".zip")];
    }
    var bucketCopies: seq<Copy> := [];
    for i := 0 to |buckets|
      invariant |bucketCopies| == i
      invariant forall j :: 0 <= j < i ==> bucketCopies[j] == Copy(SnapshotSource(buckets[j]), SnapshotBucketDir(buckets[j]))
    {
      var base := SplitResourceName(buckets[i], true).0;
      bucketCopies := bucketCopies + [Copy(base + DevSuffix, "s3_content/" + base)];
    }
    var archive := PyJoin(SnapshotsDir, "backup_" + version) + ".zip";
    r := Ok(SnapshotPlan(lambdaCopies, bucketCopies, "CopyArtifacts/" + pipelineName + "/" + version + "/" + PyBasename(archive)));
  }

  /** _restore_snapshot: the key to download, refused like a creation when Version or ArtifactsBucket is empty. */
  function RestoreSnapshot(pipelineName: string, version: string, artifactsBucket: string): (r: Result<string>)
    ensures r.Err? <==> version == "" || artifactsBucket == ""
    ensures r.Ok? ==> EndsWith(r.value, "/backup_" + version + ".zip")
  {
    if version == "" || artifactsBucket == "" then Err("'Version' (do List.txt) e 'ArtifactsBucket' s\U{E3}o obrigat\U{F3}rios.")
    else
      var k := RestoreKey(pipelineName, version);
      var tail := "/backup_" + version + ".zip";
      assert k == "CopyArtifacts/" + pipelineName + "/" + version + tail;
      assert k[|k| - |tail|..] == tail;
      Ok(k)
  }

  /** A restore looks for the very key a creation uploads, for any version without '/'. */
  lemma SnapshotKeysAgree(pipelineName: string, version: string)
    requires Free(version, '/')
    ensures CreateKey(pipelineName, version) == RestoreKey(pipelineName, version)
  {
    var x := "backup_" + version;
    var file := x + ".zip";
    ArchiveJoin(x);
    AppendAssoc(SnapshotsDir + "/", x, ".zip");
    FreeConcat("backup_", version, '/');
    FreeConcat(x, ".zip", '/');
    BasenameAfter(SnapshotsDir, file);
    KeyRegroup("CopyArtifacts/" + pipelineName + "/" + version, version);
  }

  lemma ArchiveJoin(x: string)
    requires |x| > 0 && x[0] == 'b'
    ensures PyJoin(SnapshotsDir, x) == SnapshotsDir + "/" + x
  {
    assert !StartsWith(x, "/") by {
      assert x[..1][0] == 'b';
    }
  }

  lemma KeyRegroup(a: string, v: string)
    ensures a + "/" + ("backup_" + v + ".zip") == a + "/backup_" + v + ".zip"
  {
    assert "/" + "backup_" == "/backup_";
  }

  /** Where the test stage's snapshot fetches a lambda from agrees with the user pipeline's copy source. */
  lemma SnapshotSourceAgreesWithCopy(name: string)
    requires |Split(name, "-")| >= 2
    ensures SnapshotSource(name) == UserCopy.GetSourceName(name, true)
  {
    var a, b := NameParts(name, true);
    var parts := Split(name, "-");
    assert parts[..|parts| - 1] == a;
    SplitFree(name, '-');
    JoinSplit(name, "-");
    UserCopy.StripSuffixOfJoin(parts);
  }

  /** A manifest name without '-' has an empty base, so its snapshot is fetched from "-dev". */
  lemma SnapshotSourceNoDash(name: string)
    requires Free(name, '-')
    ensures SnapshotSource(name) == "-dev" && SnapshotArtifact(name) == "lambdas/.zip"
  {
    assert Split(Join([name], "-"), "-") == [name] by {
      SplitJoin([name], '-');
    }
  }

  // ---------------------------------------------------------------------
  // The manifest (List.txt)

  /** What the driver reads from List.txt; `lambdas` and `buckets` hold the first element of each entry. */
  datatype Manifest = Manifest(
    listStates: seq<string>, listStatesBlue: seq<string>,
    lambdas: seq<string>, buckets: seq<string>,
    isTest: bool, approved: bool, version: string, artifactsBucket: string)

  // ---------------------------------------------------------------------
  // _contextualize_artifacts

  /** The list the target suffix comes from: ListStatesBlue on a destroy outside test, ListStates otherwise. */
  function ContextStates(command: string, m: Manifest): seq<string> {
    if command == "destroy" && !m.isTest then m.listStatesBlue else m.listStates
  }

  /** The target suffix: that of the list's first state; none when the list is empty. */
  function ContextSuffix(command: string, m: Manifest): (r: Option<string>)
    ensures r.None? <==> |ContextStates(command, m)| == 0
    ensures r.Some? ==> |r.value| >= 1 && r.value[0] == '-'
  {
    var states := ContextStates(command, m);
    if |states| == 0 then None else Some(SplitResourceName(states[0], m.isTest).1)
  }

  /** os.rename of a file or directory that exists; nothing when it does not. */
  function Rename(names: set<string>, source: string, target: string): (r: set<string>)
    ensures source in names ==> target in r && (source != target ==> source !in r)
    ensures forall f :: f != source && f != target ==> (f in r <==> f in names)
  {
    if source in names then names - {source} + {target} else names
  }

  /** The generic name of a manifest entry's artifact, and its contextualised name. */
  function SourceName(entry: string, isTest: bool, ext: string): string {
    SplitResourceName(entry, isTest).0 + ext
  }

  function ContextName(entry: string, suffix: string, isTest: bool, ext: string): string {
    SplitResourceName(entry, isTest).0 + suffix + ext
  }

  /** The renames of the loop over one manifest list, in order. */
  function RenameAll(names: set<string>, entries: seq<string>, suffix: string, isTest: bool, ext: string): set<string>
    decreases |entries|
  {
    if |entries| == 0 then names
    else
      var n := |entries| - 1;
      Rename(RenameAll(names, entries[..n], suffix, isTest, ext), SourceName(entries[n], isTest, ext), ContextName(entries[n], suffix, isTest, ext))
  }

  /** Names that no entry renames from or to are left alone. */
  lemma {:induction false} RenameAllOthers(names: set<string>, entries: seq<string>, suffix: string, isTest: bool, ext: string, f: string)
    requires forall i :: 0 <= i < |entries| ==> f != SourceName(entries[i], isTest, ext) && f != ContextName(entries[i], suffix, isTest, ext)
    ensures f in RenameAll(names, entries, suffix, isTest, ext) <==> f in names
    decreases |entries|
  {
    if |entries| > 0 {
      RenameAllOthers(names, entries[..|entries| - 1], suffix, isTest, ext, f);
    }
  }

  /** The generic names are distinct and none is also a contextualised name. */
  predicate Unclashing(entries: seq<string>, suffix: string, isTest: bool, ext: string) {
    (forall i, j :: 0 <= i < j < |entries| ==> SourceName(entries[i], isTest, ext) != SourceName(entries[j], isTest, ext)) &&
    (forall i, j :: 0 <= i < |entries| && 0 <= j < |entries| ==> ContextName(entries[i], suffix, isTest, ext) != SourceName(entries[j], isTest, ext))
  }

  /**
   * When every generic artifact is present and the names do not clash,
   * each one ends up under its contextualised name and none is left over.
   */
  lemma {:induction false} RenameAllMoves(names: set<string>, entries: seq<string>, suffix: string, isTest: bool, ext: string)
    requires Unclashing(entries, suffix, isTest, ext)
    requires forall i :: 0 <= i < |entries| ==> SourceName(entries[i], isTest, ext) in names
    ensures forall i :: 0 <= i < |entries| ==>
      SourceName(entries[i], isTest, ext) !in RenameAll(names, entries, suffix, isTest, ext) &&
      ContextName(entries[i], suffix, isTest, ext) in RenameAll(names, entries, suffix, isTest, ext)
    decreases |entries|
  {
    if |entries| > 0 {
      var n := |entries| - 1;
      var front := entries[..n];
      assert forall i :: 0 <= i < n ==> front[i] == entries[i];
      RenameAllMoves(names, front, suffix, isTest, ext);
      RenameAllOthers(names, front, suffix, isTest, ext, SourceName(entries[n], isTest, ext));
      RenameStepMoves(RenameAll(names, front, suffix, isTest, ext), entries, suffix, isTest, ext);
    }
  }

  /** The last rename of a list keeps the earlier entries moved and moves the last one. */
  lemma RenameStepMoves(before: set<string>, entries: seq<string>, suffix: string, isTest: bool, ext: string)
    requires |entries| > 0 && Unclashing(entries, suffix, isTest, ext)
    requires forall i :: 0 <= i < |entries| - 1 ==>
      SourceName(entries[i], isTest, ext) !in before && ContextName(entries[i], suffix, isTest, ext) in before
    requires SourceName(entries[|entries| - 1], isTest, ext) in before
    ensures var n := |entries| - 1;
      var after := Rename(before, SourceName(entries[n], isTest, ext), ContextName(entries[n], suffix, isTest, ext));
      forall i :: 0 <= i < |entries| ==>
        SourceName(entries[i], isTest, ext) !in after && ContextName(entries[i], suffix, isTest, ext) in after
  {
    var n := |entries| - 1;
    assert ContextName(entries[n], suffix, isTest, ext) != SourceName(entries[n], isTest, ext);
  }

  /** The artifact directories of the run: file names under lambdas/, directory names under s3_content/. */
  class ArtifactStore {
    var lambdaZips: set<string>
    var bucketDirs: set<string>
    var hasLambdasDir: bool
    var hasBucketsDir: bool

    constructor (lambdaZips: set<string>, bucketDirs: set<string>, hasLambdasDir: bool, hasBucketsDir: bool)
      ensures this.lambdaZips == lambdaZips && this.bucketDirs == bucketDirs
      ensures this.hasLambdasDir == hasLambdasDir && this.hasBucketsDir == hasBucketsDir
    {
      this.lambdaZips := lambdaZips;
      this.bucketDirs := bucketDirs;
      this.hasLambdasDir := hasLambdasDir;
      this.hasBucketsDir := hasBucketsDir;
    }

    /**
     * _contextualize_artifacts: with an empty state list nothing is renamed;
     * otherwise each manifest lambda's `base.zip` becomes `base+suffix.zip`
     * and each manifest bucket's `base` directory becomes `base+suffix`,
     * where they exist.
     */
    method Contextualize(command: string, m: Manifest) returns (suffix: Option<string>)
      modifies this
      ensures suffix == ContextSuffix(command, m)
      ensures hasLambdasDir == old(hasLambdasDir) && hasBucketsDir == old(hasBucketsDir)
      ensures lambdaZips == if suffix.Some? && hasLambdasDir
        then RenameAll(old(lambdaZips), m.lambdas, suffix.value, m.isTest, ".zip") else old(lambdaZips)
      ensures bucketDirs == if suffix.Some? && hasBucketsDir
        then RenameAll(old(bucketDirs), m.buckets, suffix.value, m.isTest, "") else old(bucketDirs)
    {
      var states := if command == "destroy" && !m.isTest then m.listStatesBlue else m.listStates;
      if |states| == 0 {
        return None;
      }
      var s := SplitResourceName(states[0], m.isTest).1;
      suffix := Some(s);
      if hasLambdasDir {
        lambdaZips := RenameEach(lambdaZips, m.lambdas, s, m.isTest, ".zip");
      }
      if hasBucketsDir {
        bucketDirs := RenameEach(bucketDirs, m.buckets, s, m.isTest, "");
      }
    }
  }

  /** The rename loop over one manifest list: each existing generic name is replaced by its contextualised one. */
  method RenameEach(names: set<string>, entries: seq<string>, suffix: string, isTest: bool, ext: string)
    returns (r: set<string>)
    ensures r == RenameAll(names, entries, suffix, isTest, ext)
  {
    r := names;
    for i := 0 to |entries|
      invariant r == RenameAll(names, entries[..i], suffix, isTest, ext)
    {
      var source := SourceName(entries[i], isTest, ext);
      var target := ContextName(entries[i], suffix, isTest, ext);
      RenameAllSnoc(names, entries, i, suffix, isTest, ext);
      if source in r {
        r := r - {source} + {target};
      }
    }
    assert entries[..|entries|] == entries;
  }

  lemma RenameAllSnoc(names: set<string>, entries: seq<string>, i: nat, suffix: string, isTest: bool, ext: string)
    requires i < |entries|
    ensures RenameAll(names, entries[..i + 1], suffix, isTest, ext) ==
      Rename(RenameAll(names, entries[..i], suffix, isTest, ext), SourceName(entries[i], isTest, ext), ContextName(entries[i], suffix, isTest, ext))
  {
    assert entries[..i + 1][..i] == entries[..i];
  }

  // ---------------------------------------------------------------------
  // main

  datatype PhaseOne = CreateSnapshotPhase | RestoreSnapshotPhase

  /** Phase 1 runs for apply and destroy: a snapshot is created by a test-stage apply and restored otherwise. */
  function PhaseOneKind(command: string, isTest: bool): Option<PhaseOne> {
    if command == "apply" || command == "destroy" then
      Some(if command == "apply" && isTest then CreateSnapshotPhase else RestoreSnapshotPhase)
    else None
  }

  /** Destroy runs the states backwards (ListStatesBlue outside test); anything else runs ListStates in order. */
  function StatesToProcess(command: string, m: Manifest): (r: seq<string>)
    ensures command != "destroy" ==> r == m.listStates
    ensures command == "destroy" ==>
      var l := if m.isTest then m.listStates else m.listStatesBlue;
      |r| == |l| && forall i :: 0 <= i < |l| ==> r[i] == l[|l| - 1 - i]
  {
    if command == "destroy" then (if !m.isTest then Reverse(m.listStatesBlue) else Reverse(m.listStates))
    else m.listStates
  }

  /** What the environment does for one state: the downloads, the rewrite and InitTerraform. */
  datatype StateRun = StateRun(hasMainTf: bool, hasLock: bool, modifyOk: bool, initOk: bool)

  predicate StateOk(s: StateRun) {
    s.hasMainTf && s.modifyOk && s.initOk
  }

  predicate AllStatesOk(states: seq<string>, runs: string -> StateRun) {
    forall i :: 0 <= i < |states| ==> StateOk(runs(states[i]))
  }

  /** The state directory once its files are downloaded, the lock file renamed. */
  function StateDirFiles(s: StateRun): (r: set<string>)
    requires s.hasMainTf
    ensures "main.tf" in r && "terraform.lock.hcl" !in r
    ensures ".terraform.lock.hcl" in r <==> s.hasLock
  {
    var downloaded := {"main.tf"} + (if s.hasLock then {"terraform.lock.hcl"} else {});
    Rename(downloaded, "terraform.lock.hcl", ".terraform.lock.hcl")
  }

  /** How a run ends: the phase 1 it ran, the states it started, whether phase 3 ran, and the exit code. */
  datatype RunOutcome = RunOutcome(phaseOne: Option<PhaseOne>, processed: seq<string>, uploaded: bool, exitCode: int)

  /** Phase 1 succeeds: it is not run, or Version and ArtifactsBucket are set and the transfers succeed. */
  predicate PhaseOnePasses(command: string, m: Manifest, transfersOk: bool) {
    PhaseOneKind(command, m.isTest).None? || (m.version != "" && m.artifactsBucket != "" && transfersOk)
  }

  /** The artifacts are renamed: phase 1 ran and passed, and the chosen state list gives a suffix. */
  predicate Contextualized(command: string, m: Manifest, transfersOk: bool) {
    PhaseOneKind(command, m.isTest).Some? && PhaseOnePasses(command, m, transfersOk) && ContextSuffix(command, m).Some?
  }

  /**
   * main. The snapshot transfers, the per-state downloads, the rewrite,
   * InitTerraform and the S3 upload are outcomes given as inputs; `store`
   * holds the artifacts phase 1 leaves behind and is contextualised.
   */
  method RunMain(command: string, pipelineName: string, m: Manifest, store: ArtifactStore,
              transfersOk: bool, runs: string -> StateRun, uploadOk: bool)
    returns (out: RunOutcome)
    modifies store
    ensures out.phaseOne == PhaseOneKind(command, m.isTest)
    ensures out.exitCode == 0 || out.exitCode == 1
    ensures !PhaseOnePasses(command, m, transfersOk) ==> out.processed == [] && out.exitCode == 1
    ensures |out.processed| <= |StatesToProcess(command, m)|
    ensures out.processed == StatesToProcess(command, m)[..|out.processed|]
    ensures forall i :: 0 <= i < |out.processed| - 1 ==> StateOk(runs(out.processed[i]))
    ensures |out.processed| < |StatesToProcess(command, m)| ==> out.exitCode == 1
    ensures 0 < |out.processed| < |StatesToProcess(command, m)| ==> !StateOk(runs(out.processed[|out.processed| - 1]))
    ensures out.uploaded <==> (command == "apply" && PhaseOnePasses(command, m, transfersOk) &&
                               AllStatesOk(StatesToProcess(command, m), runs))
    ensures out.exitCode == 0 <==> (PhaseOnePasses(command, m, transfersOk) &&
                                   AllStatesOk(StatesToProcess(command, m), runs) &&
                                   (command == "apply" ==> uploadOk) && !(command == "destroy" && !m.approved))
    ensures store.hasLambdasDir == old(store.hasLambdasDir) && store.hasBucketsDir == old(store.hasBucketsDir)
    ensures store.lambdaZips ==
      if Contextualized(command, m, transfersOk) && old(store.hasLambdasDir)
      then RenameAll(old(store.lambdaZips), m.lambdas, ContextSuffix(command, m).value, m.isTest, ".zip")
      else old(store.lambdaZips)
    ensures store.bucketDirs ==
      if Contextualized(command, m, transfersOk) && old(store.hasBucketsDir)
      then RenameAll(old(store.bucketDirs), m.buckets, ContextSuffix(command, m).value, m.isTest, "")
      else old(store.bucketDirs)
  {
    var phase := PhaseOneKind(command, m.isTest);
    if phase.Some? {
      var ready: bool;
      if phase.value == CreateSnapshotPhase {
        var plan := CreateSnapshot(pipelineName, m.version, m.artifactsBucket, m.lambdas, m.buckets);
        ready := plan.Ok?;
      } else {
        ready := RestoreSnapshot(pipelineName, m.version, m.artifactsBucket).Ok?;
      }
      if !ready || !transfersOk {
        return RunOutcome(phase, [], false, 1);
      }
      var _ := store.Contextualize(command, m);
    }
    var states := StatesToProcess(command, m);
    var processed: seq<string> := [];
    for i := 0 to |states|
      invariant processed == states[..i]
      invariant forall j :: 0 <= j < i ==> StateOk(runs(states[j]))
    {
      processed := processed + [states[i]];
      if !StateOk(runs(states[i])) {
        return RunOutcome(phase, processed, false, 1);
      }
    }
    assert states[..|states|] == states;
    var uploaded := false;
    if command == "apply" {
      uploaded := true;
      if !uploadOk {
        return RunOutcome(phase, processed, uploaded, 1);
      }
    }
    if !m.approved && command == "destroy" {
      return RunOutcome(phase, processed, uploaded, 1);
    }
    return RunOutcome(phase, processed, uploaded, 0);
  }
}
