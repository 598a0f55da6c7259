/**
 * The main.tf rewriter run before Terraform in the pipeline
 * (CodeBuild/Pipeline/buildspec/modify_main_tf.py). It injects an
 * `assume_role` block into every aws provider block (or prepends a default
 * provider when there is none), then turns every `C:/Cloudman...` path of
 * the file into a path under /tmp, downloading each file from GitHub at most
 * once per run and remembering the downloaded ones in a small record.
 *
 * The provider pattern is the regular expression
 * `(provider\s+(?:"aws"|aws)\s*\{)([\s\S]*?)(\})`; it is written out here as a
 * matcher. The pipeline TerraBatch reuses the matcher for its own injection.
 */
module ModifyMainTf {
  import opened Common
  import opened JsonValue

  // ---------------------------------------------------------------------
  // The aws provider pattern

  predicate AllSpace(w: string) {
    forall i :: 0 <= i < |w| ==> IsSpace(w[i])
  }

  /**
   * The opening group: "provider", whitespace, `aws` or `"aws"`, optional
   * whitespace and "{". Its only "{" is the last character, so a match of
   * the opening at the start of a text always ends at the text's first "{".
   */
  predicate IsOpening(x: string) {
    |x| >= 10 && x[..8] == "provider" && x[|x| - 1] == '{' &&
    var mid := x[8..|x| - 1];
    IsSpace(mid[0]) &&
    var z := LStrip(mid, Whitespace);
    (StartsWith(z, "\"aws\"") && AllSpace(z[5..])) || (StartsWith(z, "aws") && AllSpace(z[3..]))
  }

  /** Neither 'p' nor '}' occurs in `s`. */
  predicate NoPNorBrace(s: string) {
    forall i :: 0 <= i < |s| ==> s[i] != 'p' && s[i] != '}'
  }

  /** A word free of 'p' and '}' followed by whitespace is free of them too. */
  lemma WordThenSpaces(z: string, w: string)
    requires StartsWith(z, w) && AllSpace(z[|w|..]) && NoPNorBrace(w)
    ensures NoPNorBrace(z)
  {
    assert forall i :: 0 <= i < |w| ==> z[i] == z[..|w|][i];
    assert forall i :: |w| <= i < |z| ==> z[i] == z[|w|..][i - |w|];
  }

  /** Putting back the stripped whitespace adds neither 'p' nor '}'. */
  lemma StrippedSpaces(mid: string)
    requires NoPNorBrace(LStrip(mid, Whitespace))
    ensures NoPNorBrace(mid)
  {
    var z := LStrip(mid, Whitespace);
    var d := |mid| - |z|;
    assert mid[d..] == z;
    assert forall i :: d <= i < |mid| ==> mid[i] == z[i - d];
  }

  /** Neither 'p' (after the first character) nor '}' occurs in an opening. */
  lemma OpeningChars(x: string)
    requires IsOpening(x)
    ensures forall i :: 1 <= i < |x| ==> x[i] != 'p' && x[i] != '}'
  {
    var mid := x[8..|x| - 1];
    var z := LStrip(mid, Whitespace);
    if StartsWith(z, "\"aws\"") && AllSpace(z[5..]) {
      WordThenSpaces(z, "\"aws\"");
    } else {
      WordThenSpaces(z, "aws");
    }
    StrippedSpaces(mid);
    assert forall i :: 8 <= i < |x| - 1 ==> x[i] == mid[i - 8];
    assert forall i :: 1 <= i < 8 ==> x[i] == x[..8][i];
  }

  /** The length of the opening group matched at the start of `t`. */
  function OpeningLength(t: string): (r: Option<nat>)
    ensures r.Some? ==> 0 < r.value <= |t| && IsOpening(t[..r.value])
  {
    var i := IndexOf(t, '{');
    if i >= 0 && IsOpening(t[..i + 1]) then Some(i + 1) else None
  }

  /** A provider block at the start of a text: the opening's length and the index of the closing "}". */
  datatype Block = Block(open: nat, close: nat)

  /** The whole pattern at the start of `t`; the lazy body stops at the first "}" after the opening. */
  function MatchAt(t: string): (m: Option<Block>)
    ensures m.Some? ==> 0 < m.value.open <= m.value.close < |t|
    ensures m.Some? ==> IsOpening(t[..m.value.open]) && t[m.value.close] == '}'
    ensures m.Some? ==> Free(t[m.value.open..m.value.close], '}')
  {
    match OpeningLength(t)
    case None => None
    case Some(k) =>
      var j := IndexOf(t[k..], '}');
      if j < 0 then None
      else
        assert t[k..k + j] == t[k..][..j];
        Some(Block(k, k + j))
  }

  /** re.findall: the (opening, body) pairs of the non-overlapping matches, left to right. */
  function FindAll(t: string): (r: seq<(string, string)>)
    ensures forall i :: 0 <= i < |r| ==> IsOpening(r[i].0) && Free(r[i].1, '}')
    decreases |t|
  {
    if |t| == 0 then []
    else match MatchAt(t)
      case None => FindAll(t[1..])
      case Some(b) => [(t[..b.open], t[b.open..b.close])] + FindAll(t[b.close + 1..])
  }

  /** A text without any "}" holds no provider block. */
  lemma {:induction false} NoCloseNoBlock(t: string)
    requires Free(t, '}')
    ensures FindAll(t) == []
    decreases |t|
  {
    if |t| > 0 {
      assert MatchAt(t).None?;
      assert Free(t[1..], '}') by {
        assert forall i :: 0 <= i < |t| - 1 ==> t[1..][i] == t[i + 1];
      }
      NoCloseNoBlock(t[1..]);
    }
  }

  // ---------------------------------------------------------------------
  // inject_assume_role

  const SessionName := "Cloudman_CodeBuild_CrossAccount_Session"

  const RoleKeyword := "assume_role"
  const RoleArnLine := " {\n    role_arn     = \""
  const SessionLine := "\"\n    session_name = \""
  const BlockTail := "\"\n  "

  /** The assume_role block, for a given session name. */
  function RoleBlock(role: string, session: string): string {
    "\n  " + RoleKeyword + RoleArnLine + role + SessionLine + session + BlockTail + "}\n"
  }

  /** The provider put at the top of a file that has none. */
  function DefaultProvider(role: string): string {
    "\n# Provedor padr\U{E3}o injetado pelo modify_main_tf.py para execu\U{E7}\U{E3}o cross-account\nprovider \"aws\" {\n  "
    + RoleBlock(role, SessionName) + "\n}\n"
  }

  function BlockText(m: (string, string)): string {
    m.0 + m.1 + "}"
  }

  /** The block rebuilt with assume_role just before its closing brace; an existing assume_role is not looked for. */
  function InjectedBlockText(m: (string, string), role: string): string {
    m.0 + m.1 + RoleBlock(role, SessionName) + "}"
  }

  /** The effect of the loop over the found blocks: each block text replaced everywhere it occurs. */
  function ReplaceBlocks(code: string, ms: seq<(string, string)>, role: string): string
    decreases |ms|
  {
    if |ms| == 0 then code
    else
      var m := ms[|ms| - 1];
      ReplaceAll(ReplaceBlocks(code, ms[..|ms| - 1], role), BlockText(m), InjectedBlockText(m, role))
  }

  /** What inject_assume_role returns. */
  function Injected(code: string, role: string): string {
    if role == "" then code
    else
      var ms := FindAll(code);
      if |ms| == 0 then DefaultProvider(role) + "\n\n" + code else ReplaceBlocks(code, ms, role)
  }

  /** inject_assume_role: `role` is "" when the variable is unset or empty. */
  method InjectAssumeRole(code: string, role: string) returns (modified: string)
    ensures modified == Injected(code, role)
  {
    if role == "" {
      return code;
    }
    var all := FindAll(code);
    modified := code;
    if |all| == 0 {
      modified := DefaultProvider(role) + "\n\n" + modified;
    } else {
      for i := 0 to |all|
        invariant modified == ReplaceBlocks(code, all[..i], role)
      {
        assert all[..i + 1][..i] == all[..i];
        modified := ReplaceAll(modified, BlockText(all[i]), InjectedBlockText(all[i], role));
      }
      assert all[..|all|] == all;
    }
  }

  /** Without a role the text is untouched; without a provider the default one is prepended and the original follows unchanged. */
  lemma InjectWithoutProvider(code: string, role: string)
    ensures role == "" ==> Injected(code, role) == code
    ensures role != "" && FindAll(code) == [] ==>
      StartsWith(Injected(code, role), DefaultProvider(role)) && EndsWith(Injected(code, role), "\n\n" + code)
  {
    if role != "" && FindAll(code) == [] {
      var p := DefaultProvider(role);
      var r := p + "\n\n" + code;
      assert r[..|p|] == p;
      assert r[|r| - |"\n\n" + code|..] == "\n\n" + code;
    }
  }

  /** A file without any "}" gets the default provider. */
  lemma NoBraceGetsDefault(code: string, role: string)
    requires role != "" && Free(code, '}')
    ensures Injected(code, role) == DefaultProvider(role) + "\n\n" + code
  {
    NoCloseNoBlock(code);
  }

  /**
   * With one provider block whose text occurs once, the assume_role block is
   * inserted just before that block's closing brace and nothing else moves;
   * this holds even when the body already has an assume_role.
   */
  lemma InjectSingleProvider(code: string, pre: string, opening: string, body: string, post: string, role: string)
    requires role != ""
    requires code == pre + opening + body + "}" + post
    requires FindAll(code) == [(opening, body)]
    requires Find(code, opening + body + "}") == Some(|pre|)
    requires !Contains(post, opening + body + "}")
    ensures Injected(code, role) == pre + opening + body + RoleBlock(role, SessionName) + "}" + post
  {
    var m := (opening, body);
    InjectOneBlock(code, m, role);
    Regroup(pre, opening, body, "}", post);
    ReplaceInCode(code, pre, BlockText(m), post, InjectedBlockText(m, role));
    RegroupInjected(pre, opening, body, RoleBlock(role, SessionName), post);
  }

  /** ReplaceAllOnce with the text named. */
  lemma ReplaceInCode(code: string, pre: string, pat: string, post: string, rep: string)
    requires code == pre + pat + post && |pat| > 0
    requires Find(code, pat) == Some(|pre|) && !Contains(post, pat)
    ensures ReplaceAll(code, pat, rep) == pre + rep + post
  {
    ReplaceAllOnce(pre, pat, post, rep);
  }

  lemma Regroup(a: string, b: string, c: string, d: string, e: string)
    ensures a + b + c + d + e == a + (b + c + d) + e
  {
  }

  lemma RegroupInjected(a: string, b: string, c: string, r: string, e: string)
    ensures a + b + c + r + "}" + e == a + (b + c + r + "}") + e
  {
  }

  lemma InjectOneBlock(code: string, m: (string, string), role: string)
    requires role != "" && FindAll(code) == [m]
    ensures Injected(code, role) == ReplaceAll(code, BlockText(m), InjectedBlockText(m, role))
  {
    assert [m][..0] == [];
    assert ReplaceBlocks(code, [m], role) == ReplaceAll(ReplaceBlocks(code, [], role), BlockText(m), InjectedBlockText(m, role));
  }

  // ---------------------------------------------------------------------
  // Several provider blocks

  /** `seps[0] + texts[0] + seps[1] + ... + texts[n - 1] + seps[n]`: a text cut around its blocks. */
  function Layout(seps: seq<string>, texts: seq<string>): string
    requires |seps| == |texts| + 1
    decreases |texts|
  {
    if |texts| == 0 then seps[0] else seps[0] + texts[0] + Layout(seps[1..], texts[1..])
  }

  /** The text before `texts[i]`, `texts[i]` itself and the text after it. */
  lemma {:induction false} LayoutSplit(seps: seq<string>, texts: seq<string>, i: nat)
    requires |seps| == |texts| + 1 && i < |texts|
    ensures Layout(seps, texts) == Layout(seps[..i + 1], texts[..i]) + texts[i] + Layout(seps[i + 1..], texts[i + 1..])
    decreases i
  {
    if i > 0 {
      LayoutSplit(seps[1..], texts[1..], i - 1);
      assert seps[1..][..i] == seps[1..i + 1] && texts[1..][..i - 1] == texts[1..i];
      assert seps[1..][i..] == seps[i + 1..] && texts[1..][i..] == texts[i + 1..];
      assert seps[..i + 1][1..] == seps[1..i + 1] && texts[..i][1..] == texts[1..i];
      assert seps[..i + 1][0] == seps[0] && texts[..i][0] == texts[0];
    } else {
      assert texts[..0] == [] && seps[..1] == [seps[0]];
      assert Layout(seps[..1], []) == seps[0];
    }
  }

  /** The pieces when the loop reaches piece `i`: the earlier ones replaced, the others as found. */
  function Turn(found: seq<string>, replaced: seq<string>, i: nat): (t: seq<string>)
    requires |replaced| == |found|
    ensures |t| == |found|
    ensures forall j :: 0 <= j < |found| ==> t[j] == if j < i then replaced[j] else found[j]
  {
    seq(|found|, j requires 0 <= j < |found| => if j < i then replaced[j] else found[j])
  }

  /**
   * When its turn comes, piece `i` occurs exactly once in the text, at its
   * own place; str.replace then rewrites that place only.
   */
  predicate OnceAtTurn(seps: seq<string>, found: seq<string>, replaced: seq<string>, i: nat)
    requires |seps| == |found| + 1 && |replaced| == |found| && i < |found|
  {
    var t := Turn(found, replaced, i);
    && Find(Layout(seps, t), found[i]) == Some(|Layout(seps[..i + 1], t[..i])|)
    && !Contains(Layout(seps[i + 1..], t[i + 1..]), found[i])
  }

  /** Each found piece replaced everywhere in turn, as the loop does. */
  function ReplacePieces(code: string, found: seq<string>, replaced: seq<string>): string
    requires |replaced| == |found| && forall j :: 0 <= j < |found| ==> |found[j]| > 0
    decreases |found|
  {
    if |found| == 0 then code
    else
      var n := |found| - 1;
      ReplaceAll(ReplacePieces(code, found[..n], replaced[..n]), found[n], replaced[n])
  }

  /** Replacing a piece that occurs once, at its place, changes that piece of the layout only. */
  lemma ReplaceOnePiece(seps: seq<string>, before: seq<string>, after: seq<string>, k: nat)
    requires |seps| == |before| + 1 && |after| == |before| && k < |before| && |before[k]| > 0
    requires forall j :: 0 <= j < |before| && j != k ==> after[j] == before[j]
    requires Find(Layout(seps, before), before[k]) == Some(|Layout(seps[..k + 1], before[..k])|)
    requires !Contains(Layout(seps[k + 1..], before[k + 1..]), before[k])
    ensures ReplaceAll(Layout(seps, before), before[k], after[k]) == Layout(seps, after)
  {
    var pre := Layout(seps[..k + 1], before[..k]);
    var post := Layout(seps[k + 1..], before[k + 1..]);
    assert before[..k] == after[..k];
    assert before[k + 1..] == after[k + 1..];
    LayoutSplit(seps, before, k);
    LayoutSplit(seps, after, k);
    ReplaceInCode(Layout(seps, before), pre, before[k], post, after[k]);
  }

  /** After the first `i` replacements the text is the layout at turn `i`. */
  lemma {:induction false} ReplacePiecesTurn(seps: seq<string>, found: seq<string>, replaced: seq<string>, i: nat)
    requires |seps| == |found| + 1 && |replaced| == |found| && i <= |found|
    requires forall j :: 0 <= j < |found| ==> |found[j]| > 0
    requires forall k :: 0 <= k < i ==> OnceAtTurn(seps, found, replaced, k)
    ensures ReplacePieces(Layout(seps, found), found[..i], replaced[..i]) == Layout(seps, Turn(found, replaced, i))
    decreases i
  {
    if i == 0 {
      assert Turn(found, replaced, 0) == found;
    } else {
      var k := i - 1;
      ReplacePiecesTurn(seps, found, replaced, k);
      assert found[..i][..k] == found[..k] && replaced[..i][..k] == replaced[..k];
      assert found[..i][k] == found[k] && replaced[..i][k] == replaced[k];
      var before := Turn(found, replaced, k);
      var after := Turn(found, replaced, i);
      assert OnceAtTurn(seps, found, replaced, k);
      assert before[k] == found[k] && after[k] == replaced[k];
      ReplaceOnePiece(seps, before, after, k);
    }
  }

  /** When every piece occurs once at its turn, the whole loop replaces each piece at its place. */
  lemma ReplacePiecesAll(seps: seq<string>, found: seq<string>, replaced: seq<string>)
    requires |seps| == |found| + 1 && |replaced| == |found|
    requires forall j :: 0 <= j < |found| ==> |found[j]| > 0
    requires forall k :: 0 <= k < |found| ==> OnceAtTurn(seps, found, replaced, k)
    ensures ReplacePieces(Layout(seps, found), found, replaced) == Layout(seps, replaced)
  {
    ReplacePiecesTurn(seps, found, replaced, |found|);
    assert found[..|found|] == found && replaced[..|found|] == replaced;
    assert Turn(found, replaced, |found|) == replaced;
  }

  /** The blocks' texts as found. */
  function Blocks(ms: seq<(string, string)>): (t: seq<string>)
    ensures |t| == |ms| && forall j :: 0 <= j < |ms| ==> t[j] == BlockText(ms[j]) && |t[j]| > 0
  {
    seq(|ms|, j requires 0 <= j < |ms| => BlockText(ms[j]))
  }

  /** The blocks' texts with assume_role injected. */
  function InjectedBlocks(ms: seq<(string, string)>, role: string): (t: seq<string>)
    ensures |t| == |ms| && forall j :: 0 <= j < |ms| ==> t[j] == InjectedBlockText(ms[j], role)
  {
    seq(|ms|, j requires 0 <= j < |ms| => InjectedBlockText(ms[j], role))
  }

  /** The loop over the found blocks is the piecewise replacement of their texts. */
  lemma {:induction false} ReplaceBlocksPieces(code: string, ms: seq<(string, string)>, role: string)
    ensures ReplaceBlocks(code, ms, role) == ReplacePieces(code, Blocks(ms), InjectedBlocks(ms, role))
    decreases |ms|
  {
    if |ms| > 0 {
      var n := |ms| - 1;
      ReplaceBlocksPieces(code, ms[..n], role);
      assert Blocks(ms)[..n] == Blocks(ms[..n]);
      assert InjectedBlocks(ms, role)[..n] == InjectedBlocks(ms[..n], role);
    }
  }

  /**
   * With any number of provider blocks, each found where the text is cut
   * and each occurring once at its turn, the result is the original text
   * with every block's assume_role block inserted just before its closing
   * brace, and nothing between the blocks changed.
   */
  lemma InjectProviders(code: string, ms: seq<(string, string)>, seps: seq<string>, role: string)
    requires role != "" && FindAll(code) == ms && |ms| > 0
    requires |seps| == |ms| + 1 && code == Layout(seps, Blocks(ms))
    requires forall k :: 0 <= k < |ms| ==> OnceAtTurn(seps, Blocks(ms), InjectedBlocks(ms, role), k)
    ensures Injected(code, role) == Layout(seps, InjectedBlocks(ms, role))
  {
    assert Injected(code, role) == ReplaceBlocks(code, ms, role);
    ReplaceBlocksPieces(code, ms, role);
    ReplacePiecesAll(seps, Blocks(ms), InjectedBlocks(ms, role));
  }

  // ---------------------------------------------------------------------
  // Local file paths

  const LocalPrefix := "C:/Cloudman"

  predicate PathChar(c: char) {
    c != '"' && c != '\\'
  }

  /** The longest run of characters other than '"' and '\'. */
  function PathRun(w: string): (n: nat)
    ensures n <= |w|
    ensures forall i :: 0 <= i < n ==> PathChar(w[i])
    ensures n < |w| ==> !PathChar(w[n])
    decreases |w|
  {
    if |w| == 0 || !PathChar(w[0]) then 0
    else
      var n := PathRun(w[1..]);
      assert forall i :: 1 <= i < n + 1 ==> w[1..][i - 1] == w[i];
      1 + n
  }

  /** re.findall(r'C:/Cloudman[^"\\]*', content). */
  function LocalFiles(t: string): (r: seq<string>)
    ensures forall i :: 0 <= i < |r| ==> StartsWith(r[i], LocalPrefix)
    ensures forall i, j :: 0 <= i < |r| && 0 <= j < |r[i]| ==> PathChar(r[i][j])
    decreases |t|
  {
    if |t| == 0 then []
    else if StartsWith(t, LocalPrefix) then
      var n := 11 + PathRun(t[11..]);
      assert forall j :: 0 <= j < 11 ==> t[j] == LocalPrefix[j];
      assert forall j :: 11 <= j < n ==> t[j] == t[11..][j - 11];
      [t[..n]] + LocalFiles(t[n..])
    else LocalFiles(t[1..])
  }

  /** Where a local file goes: /tmp joined with the relative path stripped of leading '/' and '\'. */
  function TmpPath(rel: string): string {
    PyJoin("/tmp", LStrip(rel, Chars({'/', '\\'})))
  }

  /** The /tmp guard never rejects: the stripped path cannot start with '/', so the join stays under /tmp. */
  lemma TmpPathUnderTmp(rel: string)
    ensures TmpPath(rel) == "/tmp/" + LStrip(rel, Chars({'/', '\\'}))
    ensures StartsWith(TmpPath(rel), "/tmp")
  {
    var x := LStrip(rel, Chars({'/', '\\'}));
    assert !StartsWith(x, "/") by {
      if |x| > 0 { assert x[0] != '/'; }
    }
    assert ("/tmp/" + x)[..4] == "/tmp";
  }

  /** The path in the repository: '\' turned into '/', then one leading "cloudman/" removed. */
  function GithubPath(rel: string): string {
    var p := ReplaceAll(rel, "\\", "/");
    if StartsWith(p, "cloudman/") then p[9..] else p
  }

  /** A repository path never holds '\', and only one "cloudman/" is removed. */
  lemma GithubPathShape(rel: string)
    ensures Free(GithubPath(rel), '\\')
    ensures !StartsWith(ReplaceAll(rel, "\\", "/"), "cloudman/") ==> GithubPath(rel) == ReplaceAll(rel, "\\", "/")
  {
    ReplaceCharGone(rel, '\\', "/");
    var p := ReplaceAll(rel, "\\", "/");
    if StartsWith(p, "cloudman/") {
      assert forall i :: 0 <= i < |p| - 9 ==> p[9..][i] == p[i + 9];
    }
  }

  // ---------------------------------------------------------------------
  // modify_terraform_file

  /** One GitHub download the rewrite asks for. */
  datatype Download = Download(localFile: string, githubPath: string, tmpPath: string)

  /** The rewrite's state: the content, the copied set, the downloads asked for, and whether a failed one ended the run. */
  datatype Rewrite = Rewrite(content: string, copied: set<string>, downloads: seq<Download>, aborted: bool)

  /**
   * One pass of the loop for the local file `lf`: download it unless it is in
   * the copied set (a failed download ends the run), then replace every
   * occurrence of it by its /tmp path.
   */
  function Step(r: Rewrite, lf: string, relpath: string -> string, fetch: string -> bool): Rewrite {
    if r.aborted then r
    else
      var rel := relpath(lf);
      var tmp := TmpPath(rel);
      if !StartsWith(tmp, "/tmp") then r
      else if lf !in r.copied && !fetch(GithubPath(rel)) then
        Rewrite(r.content, r.copied, r.downloads + [Download(lf, GithubPath(rel), tmp)], true)
      else
        var copied := if lf in r.copied then r.copied else r.copied + {lf};
        var downloads := if lf in r.copied then r.downloads else r.downloads + [Download(lf, GithubPath(rel), tmp)];
        var content := if lf != "" && Contains(r.content, lf) then ReplaceAll(r.content, lf, tmp) else r.content;
        Rewrite(content, copied, downloads, false)
  }

  function Walk(start: Rewrite, files: seq<string>, relpath: string -> string, fetch: string -> bool): Rewrite
    decreases |files|
  {
    if |files| == 0 then start
    else Step(Walk(start, files[..|files| - 1], relpath, fetch), files[|files| - 1], relpath, fetch)
  }

  function RewriteSpec(fileContent: string, role: string, copiedFiles: set<string>,
                       relpath: string -> string, fetch: string -> bool): Rewrite {
    var content := Injected(fileContent, role);
    Walk(Rewrite(content, copiedFiles, [], false), LocalFiles(content), relpath, fetch)
  }

  /**
   * modify_terraform_file. `relpath` is os.path.relpath against
   * C:/Cloudman and `fetch` tells whether the GitHub download of a path
   * succeeds; the set passed in is updated in place in the source and is
   * returned here.
   */
  method ModifyTerraformFile(fileContent: string, role: string, copiedFiles: set<string>,
                             relpath: string -> string, fetch: string -> bool)
    returns (r: Rewrite)
    ensures r == RewriteSpec(fileContent, role, copiedFiles, relpath, fetch)
  {
    var content := InjectAssumeRole(fileContent, role);
    var localFiles := LocalFiles(content);
    var copied := copiedFiles;
    var downloads: seq<Download> := [];
    ghost var start := Rewrite(content, copiedFiles, [], false);
    var i := 0;
    while i < |localFiles|
      invariant 0 <= i <= |localFiles|
      invariant Walk(start, localFiles[..i], relpath, fetch) == Rewrite(content, copied, downloads, false)
    {
      var lf := localFiles[i];
      WalkSnoc(start, localFiles, i, relpath, fetch);
      ghost var before := Rewrite(content, copied, downloads, false);
      var rel := relpath(lf);
      var tmp := TmpPath(rel);
      TmpPathUnderTmp(rel);
      if lf !in copied {
        var gp := GithubPath(rel);
        downloads := downloads + [Download(lf, gp, tmp)];
        if !fetch(gp) {
          WalkStaysAborted(start, localFiles, i + 1, relpath, fetch);
          return Rewrite(content, copied, downloads, true);
        }
        copied := copied + {lf};
      }
      if Contains(content, lf) {
        content := ReplaceAll(content, lf, tmp);
      }
      assert Rewrite(content, copied, downloads, false) == Step(before, lf, relpath, fetch);
      i := i + 1;
    }
    assert localFiles[..|localFiles|] == localFiles;
    return Rewrite(content, copied, downloads, false);
  }

  lemma WalkSnoc(start: Rewrite, files: seq<string>, i: nat, relpath: string -> string, fetch: string -> bool)
    requires i < |files|
    ensures Walk(start, files[..i + 1], relpath, fetch) == Step(Walk(start, files[..i], relpath, fetch), files[i], relpath, fetch)
  {
    assert files[..i + 1][..i] == files[..i];
  }

  lemma {:induction false} WalkStaysAborted(start: Rewrite, files: seq<string>, k: nat,
                                            relpath: string -> string, fetch: string -> bool)
    requires k <= |files|
    requires Walk(start, files[..k], relpath, fetch).aborted
    ensures Walk(start, files, relpath, fetch) == Walk(start, files[..k], relpath, fetch)
    decreases |files| - k
  {
    if k < |files| {
      assert files[..k + 1][..k] == files[..k];
      WalkStaysAborted(start, files, k + 1, relpath, fetch);
    } else {
      assert files[..k] == files;
    }
  }

  /** The local files of a list of downloads. */
  function Fetched(ds: seq<Download>): set<string> {
    set d | d in ds :: d.localFile
  }

  predicate DistinctFiles(ds: seq<Download>) {
    forall i, j :: 0 <= i < j < |ds| ==> ds[i].localFile != ds[j].localFile
  }

  /**
   * The copied-set rules: a file is downloaded only when it was not already
   * copied, no file is downloaded twice, the set grows by exactly the files
   * downloaded successfully, and a run ends early only because its last
   * download failed.
   */
  predicate CopiedRules(copied0: set<string>, files: seq<string>, fetch: string -> bool, r: Rewrite) {
    DistinctFiles(r.downloads) &&
    (forall d :: d in r.downloads ==> d.localFile !in copied0 && d.localFile in files) &&
    (!r.aborted ==> r.copied == copied0 + Fetched(r.downloads)) &&
    (!r.aborted ==> forall d :: d in r.downloads ==> fetch(d.githubPath)) &&
    (r.aborted ==> |r.downloads| > 0 && !fetch(r.downloads[|r.downloads| - 1].githubPath) &&
                   r.copied == copied0 + Fetched(r.downloads[..|r.downloads| - 1]))
  }

  lemma StepKeepsRules(copied0: set<string>, files: seq<string>, lf: string, p: Rewrite,
                       relpath: string -> string, fetch: string -> bool)
    requires CopiedRules(copied0, files, fetch, p)
    ensures CopiedRules(copied0, files + [lf], fetch, Step(p, lf, relpath, fetch))
  {
    TmpPathUnderTmp(relpath(lf));
    if p.aborted || lf in p.copied {
      StepNoDownload(copied0, files, lf, p, relpath, fetch);
    } else {
      StepDownload(copied0, files, lf, p, relpath, fetch);
    }
  }

  /** The step for an aborted run or a file already copied: no download. */
  lemma StepNoDownload(copied0: set<string>, files: seq<string>, lf: string, p: Rewrite,
                       relpath: string -> string, fetch: string -> bool)
    requires CopiedRules(copied0, files, fetch, p) && (p.aborted || lf in p.copied)
    ensures CopiedRules(copied0, files + [lf], fetch, Step(p, lf, relpath, fetch))
  {
    var r := Step(p, lf, relpath, fetch);
    assert r.downloads == p.downloads && r.copied == p.copied && r.aborted == p.aborted;
    assert forall x :: x in files ==> x in files + [lf];
  }

  /** The step for a file not yet copied: one download, which either succeeds or ends the run. */
  lemma StepDownload(copied0: set<string>, files: seq<string>, lf: string, p: Rewrite,
                     relpath: string -> string, fetch: string -> bool)
    requires CopiedRules(copied0, files, fetch, p) && !p.aborted && lf !in p.copied
    requires StartsWith(TmpPath(relpath(lf)), "/tmp")
    ensures CopiedRules(copied0, files + [lf], fetch, Step(p, lf, relpath, fetch))
  {
    var r := Step(p, lf, relpath, fetch);
    var files' := files + [lf];
    assert forall x :: x in files ==> x in files';
    var d := Download(lf, GithubPath(relpath(lf)), TmpPath(relpath(lf)));
    assert r.downloads == p.downloads + [d];
    NewDownload(copied0, files, p, d, fetch);
    if fetch(d.githubPath) {
      assert r.copied == p.copied + {lf} && !r.aborted;
      assert Fetched(r.downloads) == Fetched(p.downloads) + {lf};
    } else {
      assert r.copied == p.copied && r.aborted;
      assert r.downloads[..|r.downloads| - 1] == p.downloads;
    }
  }

  /** A download for a file outside the copied set keeps the downloads distinct. */
  lemma NewDownload(copied0: set<string>, files: seq<string>, p: Rewrite, d: Download, fetch: string -> bool)
    requires CopiedRules(copied0, files, fetch, p) && !p.aborted
    requires d.localFile !in p.copied
    ensures DistinctFiles(p.downloads + [d])
    ensures d.localFile !in copied0
  {
    var ds := p.downloads + [d];
    forall e | e in p.downloads ensures e.localFile != d.localFile {
      assert e.localFile in Fetched(p.downloads);
    }
    forall i, j | 0 <= i < j < |ds| ensures ds[i].localFile != ds[j].localFile {
      if j == |ds| - 1 {
        assert ds[i] in p.downloads;
      } else {
        assert ds[i] == p.downloads[i] && ds[j] == p.downloads[j];
      }
    }
  }

  /** A whole run keeps the copied-set rules. */
  lemma {:induction false} WalkDownloads(copied0: set<string>, content: string, files: seq<string>,
                                         relpath: string -> string, fetch: string -> bool)
    ensures CopiedRules(copied0, files, fetch, Walk(Rewrite(content, copied0, [], false), files, relpath, fetch))
    decreases |files|
  {
    if |files| > 0 {
      var init := files[..|files| - 1];
      WalkDownloads(copied0, content, init, relpath, fetch);
      StepKeepsRules(copied0, init, files[|files| - 1],
                     Walk(Rewrite(content, copied0, [], false), init, relpath, fetch), relpath, fetch);
      assert init + [files[|files| - 1]] == files;
    }
  }

  // ---------------------------------------------------------------------
  // load_copied_files and main

  /** The copied-files record on disk: missing, not JSON, or the decoded value. */
  datatype CopiedRecord = NoRecord | BadRecord | RecordJson(value: Json)

  /** The string elements of a list, when every element can go into a set. */
  function SetOfItems(items: seq<Json>): Option<set<string>>
    decreases |items|
  {
    if |items| == 0 then Some({})
    else
      var rest := SetOfItems(items[1..]);
      match items[0]
      case JArr(_) => None
      case JObj(_) => None
      case JStr(s) => if rest.Some? then Some(rest.value + {s}) else None
      case _ => rest
  }

  /**
   * load_copied_files: `set(json.load(f))`. A list gives its (hashable)
   * elements, an object its keys, a string its characters; anything else, a
   * list holding lists or objects, an unreadable file or no file gives the
   * empty set. Other element kinds never equal a path and are dropped.
   */
  function LoadCopiedFiles(rec: CopiedRecord): (r: set<string>)
    ensures rec.NoRecord? || rec.BadRecord? ==> r == {}
  {
    match rec
    case NoRecord => {}
    case BadRecord => {}
    case RecordJson(v) =>
      match v
      case JArr(items) => (match SetOfItems(items) case Some(s) => s case None => {})
      case JObj(members) => set i | 0 <= i < |members| :: members[i].0
      case JStr(s) => set i | 0 <= i < |s| :: [s[i]]
      case _ => {}
  }

  /** The strings of a list of JSON values. */
  function Strs(items: seq<Json>): set<string> {
    set j | j in items && j.JStr? :: j.s
  }

  /** A record written by save_copied_files, a list of paths, loads back as the set of those paths. */
  lemma LoadSavedList(items: seq<Json>)
    requires forall i :: 0 <= i < |items| ==> items[i].JStr?
    ensures LoadCopiedFiles(RecordJson(JArr(items))) == Strs(items)
  {
    ItemsOfStrings(items);
  }

  lemma {:induction false} ItemsOfStrings(items: seq<Json>)
    requires forall i :: 0 <= i < |items| ==> items[i].JStr?
    ensures SetOfItems(items) == Some(Strs(items))
    decreases |items|
  {
    if |items| > 0 {
      var rest := items[1..];
      ItemsOfStrings(rest);
      assert SetOfItems(items) == Some(SetOfItems(rest).value + {items[0].s});
      assert forall j :: j in items <==> j == items[0] || j in rest;
      assert Strs(items) == Strs(rest) + {items[0].s};
    } else {
      assert Strs(items) == {} by {
        forall x ensures x !in Strs(items) {
          assert items == [];
        }
      }
    }
  }

  datatype MainOutcome =
    | NoStateName              // STATE_NAME unset: exit 1
    | NoMainTf                 // /tmp/states/<state>/main.tf missing: exit 1
    | DownloadAborted          // a GitHub download failed: exit 1, nothing saved
    | Saved(mainTf: string, copied: set<string>)

  /** The file main() edits. */
  function MainTfPath(stateName: string): string {
    "/tmp/states/" + stateName + "/main.tf"
  }

  /**
   * main: `mainTf` is the file at MainTfPath(stateName) when it exists. The
   * record is saved (as a list, in no defined order) only after a run that
   * did not abort.
   */
  function MainSpec(stateName: string, role: string, mainTf: Option<string>, rec: CopiedRecord,
                    relpath: string -> string, fetch: string -> bool): (o: MainOutcome)
    ensures o.Saved? ==> stateName != "" && mainTf.Some? && LoadCopiedFiles(rec) <= o.copied
  {
    if stateName == "" then NoStateName
    else if mainTf.None? then NoMainTf
    else
      var r := RewriteSpec(mainTf.value, role, LoadCopiedFiles(rec), relpath, fetch);
      WalkDownloads(LoadCopiedFiles(rec), Injected(mainTf.value, role), LocalFiles(Injected(mainTf.value, role)), relpath, fetch);
      if r.aborted then DownloadAborted else Saved(r.content, r.copied)
  }
}
