/**
 * The layer builder Lambda (LambdaFiles/GenLambdaLayer/GenLambdaLayer.py):
 * pip-installs one dependency into a layer directory, reads the installed
 * version back from the METADATA of its dist-info directory, zips the
 * layer under a name made of the layer, the version, the Python version
 * and the architecture, and uploads it to S3. pip, the file system and S3
 * are inputs: the METADATA lines of each dist-info directory and whether
 * each step failed.
 */
module GenLambdaLayer {
  import opened Common
  import opened JsonValue
  import opened HubCommon

  // ---------------------------------------------------------------------
  // Reading one METADATA file

  /** `line.split(":", 1)[1].strip()`: the trimmed text after the first colon. */
  function FieldValue(line: string): string
    requires IndexOf(line, ':') >= 0
  {
    Strip(line[IndexOf(line, ':') + 1..])
  }

  /** The two fields read so far; Python's `None` is None. */
  datatype Fields = Fields(name: Option<string>, version: Option<string>)

  /** `if name and version: break`. */
  predicate Complete(f: Fields) {
    f.name.Some? && f.name.value != "" && f.version.Some? && f.version.value != ""
  }

  /**
   * One line of the scan: a `Name:` line sets the name, otherwise a
   * `Version:` line sets the version, each from the text after its first
   * colon, trimmed.
   */
  function StepLine(f: Fields, line: string): (g: Fields)
    ensures StartsWith(line, "Name:") ==> g == f.(name := Some(Strip(line[5..])))
    ensures !StartsWith(line, "Name:") && StartsWith(line, "Version:") ==> g == f.(version := Some(Strip(line[8..])))
    ensures !StartsWith(line, "Name:") && !StartsWith(line, "Version:") ==> g == f
  {
    if StartsWith(line, "Name:") then
      assert line[..4] == "Name" && Free(line[..4], ':');
      IndexOfUnique(line, ':', 4);
      f.(name := Some(FieldValue(line)))
    else if StartsWith(line, "Version:") then
      assert line[..7] == "Version" && Free(line[..7], ':');
      IndexOfUnique(line, ':', 7);
      f.(version := Some(FieldValue(line)))
    else f
  }

  /** The fields after reading `lines` in order, stopping once both are non-empty. */
  function ReadFields(lines: seq<string>): Fields
    decreases |lines|
  {
    if |lines| == 0 then Fields(None, None)
    else
      var before := ReadFields(lines[..|lines| - 1]);
      if Complete(before) then before else StepLine(before, lines[|lines| - 1])
  }

  /** Once both fields are known, the remaining lines are not read. */
  lemma {:induction false} ReadFieldsStops(lines: seq<string>, i: nat)
    requires i <= |lines| && Complete(ReadFields(lines[..i]))
    ensures ReadFields(lines) == ReadFields(lines[..i])
    decreases |lines|
  {
    if i < |lines| {
      var front := lines[..|lines| - 1];
      assert front[..i] == lines[..i];
      ReadFieldsStops(front, i);
    } else {
      assert lines[..i] == lines;
    }
  }

  /** A file with neither kind of line gives neither field. */
  lemma {:induction false} ReadFieldsNone(lines: seq<string>)
    requires forall k :: 0 <= k < |lines| ==> !StartsWith(lines[k], "Name:") && !StartsWith(lines[k], "Version:")
    ensures ReadFields(lines) == Fields(None, None)
    decreases |lines|
  {
    if |lines| > 0 {
      var front := lines[..|lines| - 1];
      assert forall k :: 0 <= k < |front| ==> front[k] == lines[k];
      ReadFieldsNone(front);
    }
  }

  /** The loop over the lines of one METADATA file, with its `break`. */
  method ScanMetadata(lines: seq<string>) returns (f: Fields)
    ensures f == ReadFields(lines)
  {
    f := Fields(None, None);
    var i := 0;
    while i < |lines|
      invariant 0 <= i <= |lines|
      invariant f == ReadFields(lines[..i]) && !Complete(f)
    {
      assert lines[..i + 1][..i] == lines[..i];
      f := StepLine(f, lines[i]);
      i := i + 1;
      if Complete(f) {
        ReadFieldsStops(lines, i);
        return;
      }
    }
    assert lines[..i] == lines;
  }

  // ---------------------------------------------------------------------
  // Finding the installed version

  /** A dist-info directory: the lines of its METADATA, or None when there is no METADATA file. */
  type DistInfo = Option<seq<string>>

  /** The directory belongs to the dependency: its name is non-empty and equal ignoring case. */
  predicate Matches(dir: DistInfo, dependency: string) {
    dir.Some? && ReadFields(dir.value).name.Some? && ReadFields(dir.value).name.value != ""
    && Lower(ReadFields(dir.value).name.value) == Lower(dependency)
  }

  function NoVersion(dependency: string): string {
    "Versão não encontrada no METADATA para '" + dependency + "'."
  }

  function NotFound(dependency: string): string {
    "Diretório de metadados para '" + dependency + "' não encontrado."
  }

  /** The search over the directories: the version of the first matching one, an error when it has none. */
  function VersionIn(dirs: seq<DistInfo>, dependency: string): Result<string>
    decreases |dirs|
  {
    if |dirs| == 0 then Err(NotFound(dependency))
    else if Matches(dirs[0], dependency) then Found(dirs[0], dependency)
    else VersionIn(dirs[1..], dependency)
  }

  /** The answer of a matching directory: its version, or the error when it has none. */
  function Found(dir: DistInfo, dependency: string): Result<string>
    requires dir.Some?
  {
    var version := ReadFields(dir.value).version;
    if version.Some? && version.value != "" then Ok(version.value) else Err(NoVersion(dependency))
  }

  /** The first matching directory decides. */
  lemma {:induction false} FirstMatchDecides(dirs: seq<DistInfo>, dependency: string, k: nat)
    requires k < |dirs| && Matches(dirs[k], dependency)
    requires forall i :: 0 <= i < k ==> !Matches(dirs[i], dependency)
    ensures VersionIn(dirs, dependency) == Found(dirs[k], dependency)
    decreases k
  {
    if k > 0 {
      assert !Matches(dirs[0], dependency);
      var rest := dirs[1..];
      assert rest[k - 1] == dirs[k];
      forall i | 0 <= i < k - 1 ensures !Matches(rest[i], dependency) {
        assert rest[i] == dirs[i + 1];
      }
      FirstMatchDecides(rest, dependency, k - 1);
    }
  }

  /** Without a matching directory the metadata is reported as not found. */
  lemma {:induction false} NoMatchNotFound(dirs: seq<DistInfo>, dependency: string)
    requires forall i :: 0 <= i < |dirs| ==> !Matches(dirs[i], dependency)
    ensures VersionIn(dirs, dependency) == Err(NotFound(dependency))
    decreases |dirs|
  {
    if |dirs| > 0 {
      assert forall i :: 0 <= i < |dirs| - 1 ==> dirs[1..][i] == dirs[i + 1];
      NoMatchNotFound(dirs[1..], dependency);
    }
  }

  function VersionError(dependency: string, e: string): string {
    "Erro ao obter a versão do pacote '" + dependency + "': " + e
  }

  function NoDistInfo(site: string): string {
    "Nenhum diretório .dist-info encontrado em " + site
  }

  /**
   * get_installed_package_version: no dist-info directory at all is an
   * error; otherwise the search; every error comes out wrapped in the
   * ValueError that names the dependency.
   */
  function InstalledVersion(dirs: seq<DistInfo>, site: string, dependency: string): (r: Result<string>)
    ensures |dirs| == 0 ==> r == Err(VersionError(dependency, NoDistInfo(site)))
    ensures r.Err? ==> StartsWith(r.error, "Erro ao obter a versão do pacote '" + dependency + "': ")
    ensures |dirs| > 0 && VersionIn(dirs, dependency).Ok? ==> r == VersionIn(dirs, dependency)
  {
    var head := "Erro ao obter a versão do pacote '" + dependency + "': ";
    if |dirs| == 0 then
      assert (head + NoDistInfo(site))[..|head|] == head;
      Err(VersionError(dependency, NoDistInfo(site)))
    else match VersionIn(dirs, dependency)
      case Ok(v) => Ok(v)
      case Err(e) =>
        assert (head + e)[..|head|] == head;
        Err(VersionError(dependency, e))
  }

  /** The loop over the dist-info directories, skipping those without METADATA. */
  method PackageVersion(dirs: seq<DistInfo>, site: string, dependency: string) returns (r: Result<string>)
    ensures r == InstalledVersion(dirs, site, dependency)
  {
    if |dirs| == 0 {
      return Err(VersionError(dependency, NoDistInfo(site)));
    }
    var i := 0;
    while i < |dirs|
      invariant 0 <= i <= |dirs|
      invariant VersionIn(dirs, dependency) == VersionIn(dirs[i..], dependency)
    {
      assert dirs[i..][1..] == dirs[i + 1..];
      if dirs[i].Some? {
        var fields := ScanMetadata(dirs[i].value);
        if fields.name.Some? && fields.name.value != "" && Lower(fields.name.value) == Lower(dependency) {
          if fields.version.Some? && fields.version.value != "" {
            return Ok(fields.version.value);
          }
          return Err(VersionError(dependency, NoVersion(dependency)));
        }
      }
      i := i + 1;
    }
    return Err(VersionError(dependency, NotFound(dependency)));
  }

  // ---------------------------------------------------------------------
  // Names

  /** `f"python{major}.{minor}"`. */
  function PythonTag(major: nat, minor: nat): string {
    "python" + NatToString(major) + "." + NatToString(minor)
  }

  /** `aarch64` is packaged for arm64; every other machine for x86_64. */
  function Architecture(machine: string): (arch: string)
    ensures arch == "arm64" <==> machine == "aarch64"
    ensures arch == "arm64" || arch == "x86_64"
  {
    if machine == "aarch64" then "arm64" else "x86_64"
  }

  /** `f"{layer_name}-{dependency_version}-{python_version}-{architecture}.zip"`. */
  function ZipName(layer: string, version: string, python: string, arch: string): (name: string)
    ensures StartsWith(name, layer + "-" + version + "-" + python + "-")
    ensures EndsWith(name, arch + ".zip")
  {
    var head := layer + "-" + version + "-" + python + "-";
    var name := head + arch + ".zip";
    assert name[..|head|] == head;
    assert name[|name| - |arch + ".zip"|..] == arch + ".zip";
    name
  }

  // ---------------------------------------------------------------------
  // The handler

  /** The dictionary the handler returns; `upload` is the bucket and key of the upload done, if any. */
  datatype Response = Response(statusCode: int, message: string, error: Option<string>, upload: Option<(string, string)>)

  const NoBucket := "A variável de ambiente 'AWS_S3_BUCKET_TARGET_NAME_0' não está definida."
  const Unexpected := "Erro inesperado ao criar ou enviar o arquivo ZIP."

  /**
   * What the environment did: pip's outcome (Err holds its stderr, empty
   * when there was none; Ok the dist-info directories found), the upload's
   * error text if it failed, and the error text of `os.remove` on the zip
   * file if that raised.
   */
  datatype Run = Run(install: Result<seq<DistInfo>>, uploadError: Option<string>, removeError: Option<string>)

  /** The ValueError of a failed pip install. */
  function InstallError(dependency: string, stderr: string): string {
    "Erro ao instalar '" + dependency + "': " + (if stderr != "" then stderr else "Erro desconhecido ao instalar dependências.")
  }

  /** The site-packages directory of the layer, joined as `os.path.join` joins it. */
  function SitePackages(layer: string, python: string): string {
    PyJoin(PyJoin(PyJoin(PyJoin("/tmp/" + layer, "python"), "lib"), python), "site-packages")
  }

  /**
   * The `try` block: build the zip (pip, then the version), upload it,
   * remove it. A ValueError gives 400, any other exception 500.
   */
  function Build(dependency: string, layer: string, bucket: string, arch: string, python: string, run: Run): (r: Response)
    ensures r.statusCode in {200, 400, 500}
    ensures r.upload.Some? ==> r.upload.value.0 == bucket
    ensures r.statusCode == 200 ==> run.install.Ok? && InstalledVersion(run.install.value, SitePackages(layer, python), dependency).Ok?
    ensures r.statusCode == 200 ==>
      r.upload == Some((bucket, ZipName(layer, InstalledVersion(run.install.value, SitePackages(layer, python), dependency).value, python, arch)))
    ensures r.statusCode == 500 ==> r.message == Unexpected && r.error.Some?
    ensures r.statusCode == 400 ==> r.upload.None? && r.error.None?
    ensures run.install.Err? ==> r == Response(400, InstallError(dependency, run.install.error), None, None)
  {
    match run.install
    case Err(stderr) => Response(400, InstallError(dependency, stderr), None, None)
    case Ok(dirs) =>
      match InstalledVersion(dirs, SitePackages(layer, python), dependency)
      case Err(e) => Response(400, e, None, None)
      case Ok(version) =>
        var zip := ZipName(layer, version, python, arch);
        if run.uploadError.Some? then
          Response(400, "Erro ao enviar o arquivo para o bucket " + bucket + ": " + run.uploadError.value, None, None)
        else if run.removeError.Some? then Response(500, Unexpected, run.removeError, Some((bucket, zip)))
        else Response(200, "Arquivo ZIP '" + zip + "' enviado para o bucket S3 '" + bucket + "' com sucesso!", None, Some((bucket, zip)))
  }

  /**
   * lambda_handler: the dependency and layer name from the event (with
   * their defaults), the bucket from the environment, the architecture from
   * the machine. A dependency that is not text makes pip's argument list
   * raise a TypeError, answered with 500. Err is the AttributeError of
   * `event.get` on an event that is not a dictionary.
   */
  function Handle(event: Json, env: Env, machine: string, python: string, run: Run): (r: Result<Response>)
    ensures r.Err? <==> !event.JObj?
    ensures event.JObj? && (Getenv(env, "AWS_S3_BUCKET_TARGET_NAME_0").None? || env["AWS_S3_BUCKET_TARGET_NAME_0"] == "") ==>
      r == Ok(Response(400, NoBucket, None, None))
    ensures r.Ok? && r.value != Response(400, NoBucket, None, None) && Dependency(event).JStr? ==>
      r.value == Build(Dependency(event).s, LayerName(event), env["AWS_S3_BUCKET_TARGET_NAME_0"], Architecture(machine), python, run)
    ensures r.Ok? && r.value != Response(400, NoBucket, None, None) && !Dependency(event).JStr? ==>
      r.value == Response(500, Unexpected, Some(NotPathLike(Dependency(event))), None)
  {
    if !event.JObj? then Err("'event' has no attribute 'get'")
    else
      var dependency := Dependency(event);
      var bucket := Getenv(env, "AWS_S3_BUCKET_TARGET_NAME_0");
      if bucket.None? || bucket.value == "" then Ok(Response(400, NoBucket, None, None))
      else if !dependency.JStr? then Ok(Response(500, Unexpected, Some(NotPathLike(dependency)), None))
      else Ok(Build(dependency.s, LayerName(event), bucket.value, Architecture(machine), python, run))
  }

  /** The TypeError text subprocess gives for an argument that is not text. */
  function NotPathLike(arg: Json): string {
    "expected str, bytes or os.PathLike object, not " + TypeName(arg)
  }

  /** A numeric dependency answers 500 and names its type in the error. */
  lemma NumericDependency(env: Env, machine: string, python: string, run: Run)
    requires Getenv(env, "AWS_S3_BUCKET_TARGET_NAME_0").Some? && env["AWS_S3_BUCKET_TARGET_NAME_0"] != ""
    ensures Handle(JObj([("dependency", JInt(3))]), env, machine, python, run)
      == Ok(Response(500, Unexpected, Some("expected str, bytes or os.PathLike object, not int"), None))
  {
    var event := JObj([("dependency", JInt(3))]);
    assert Get(event, "dependency") == Some(JInt(3));
    assert NotPathLike(JInt(3)) == "expected str, bytes or os.PathLike object, not int";
  }

  /** `event.get("dependency", "whoosh")`. */
  function Dependency(event: Json): Json {
    match Get(event, "dependency") case Some(d) => d case None => JStr("whoosh")
  }

  /** `event.get("layer_name", "generic_layer")`, as the f-strings render it. */
  function LayerName(event: Json): string {
    PyStr(match Get(event, "layer_name") case Some(l) => l case None => JStr("generic_layer"))
  }

  /** Without a dependency in the event, `whoosh` is the one installed and looked up. */
  lemma DefaultDependency(event: Json, env: Env, machine: string, python: string, run: Run)
    requires event.JObj? && Get(event, "dependency").None? && Getenv(env, "AWS_S3_BUCKET_TARGET_NAME_0").Some?
    requires env["AWS_S3_BUCKET_TARGET_NAME_0"] != ""
    ensures Handle(event, env, machine, python, run)
      == Ok(Build("whoosh", LayerName(event), env["AWS_S3_BUCKET_TARGET_NAME_0"], Architecture(machine), python, run))
  {
  }
}
