/** Signing a container image with Sigstore Cosign
    (scanner/src/aegis/integrations/cosign.py): choosing the key, building
    the `cosign sign` command line, reading the exit status and redacting
    the key path from the error output. The `cosign` binary, the temporary
    file and the process are inputs. */
module Cosign {
  import opened PyText
  import opened PyJson

  const NOT_INSTALLED := "Cosign binary not found. Please install it or use the Aegis Docker image."
  const NO_KEY := "No private key provided (path or content)."
  const SYSTEM_ERROR := "System error during signing: "
  const FAILED := "Cosign failed (Exit "
  const REDACTED := "[KEY_PATH]"

  /** `sign_container` returns, or raises `CosignError(message)`. */
  datatype SignResult = Signed | CosignError(message: string)

  /** Creating the temporary key file: it is created under `name` and the
      write then succeeds or raises; or creating it raises. */
  datatype TempFile = TempCreated(name: string, writeError: Option<string>) | TempFails(error: string)

  /** `subprocess.run`: the process exits with a code and its standard
      error, or launching it raises `OSError`. */
  datatype Process = Exited(code: int, stderr: string) | LaunchFails(error: string)

  /** The outside world of one call: whether `cosign` is on the PATH, what
      creating a temporary file does, and what running a command does. */
  datatype System = System(installed: bool, temp: TempFile, run: seq<string> -> Process)

  /** Python truthiness of an optional string argument. */
  predicate Given(s: Option<string>) {
    s.Some? && s.value != ""
  }

  function TlogFlag(tlogUpload: bool): string {
    if tlogUpload then "--tlog-upload=true" else "--tlog-upload=false"
  }

  /** The `-a k=v` pairs of the first `j` annotations. */
  function AnnotationArgs(annotations: seq<(string, string)>, j: nat): seq<string>
    requires j <= |annotations|
  {
    if j == 0 then []
    else AnnotationArgs(annotations, j - 1) + ["-a", annotations[j - 1].0 + "=" + annotations[j - 1].1]
  }

  /** The command line `sign_container` runs. */
  function Command(key: string, tlogUpload: bool, imageRef: string, annotations: seq<(string, string)>): seq<string> {
    ["cosign", "sign", "--key", key, TlogFlag(tlogUpload), "--yes", imageRef] + AnnotationArgs(annotations, |annotations|)
  }

  /** Building the command: the seven fixed words, then one `-a k=v` pair
      per annotation, in order. */
  method BuildCommand(key: string, tlogUpload: bool, imageRef: string, annotations: seq<(string, string)>)
    returns (cmd: seq<string>)
    ensures cmd == Command(key, tlogUpload, imageRef, annotations)
  {
    cmd := ["cosign", "sign", "--key", key, TlogFlag(tlogUpload), "--yes", imageRef];
    var j := 0;
    while j < |annotations|
      invariant 0 <= j <= |annotations|
      invariant cmd == ["cosign", "sign", "--key", key, TlogFlag(tlogUpload), "--yes", imageRef] + AnnotationArgs(annotations, j)
    {
      var (k, v) := annotations[j];
      cmd := cmd + ["-a", k + "=" + v];
      j := j + 1;
    }
  }

  /** The shape of the command line: 7 + 2n words, the fixed words first,
      then each annotation as `-a` followed by `key=value`. */
  lemma {:induction false} CommandShape(key: string, tlogUpload: bool, imageRef: string, annotations: seq<(string, string)>)
    ensures var cmd := Command(key, tlogUpload, imageRef, annotations);
      && |cmd| == 7 + 2 * |annotations|
      && cmd[..7] == ["cosign", "sign", "--key", key, TlogFlag(tlogUpload), "--yes", imageRef]
      && forall i :: 0 <= i < |annotations| ==>
           cmd[7 + 2 * i] == "-a" && cmd[8 + 2 * i] == annotations[i].0 + "=" + annotations[i].1
  {
    AnnotationArgsShape(annotations, |annotations|);
  }

  lemma {:induction false} AnnotationArgsShape(annotations: seq<(string, string)>, j: nat)
    requires j <= |annotations|
    ensures |AnnotationArgs(annotations, j)| == 2 * j
    ensures forall i :: 0 <= i < j ==>
      AnnotationArgs(annotations, j)[2 * i] == "-a" &&
      AnnotationArgs(annotations, j)[2 * i + 1] == annotations[i].0 + "=" + annotations[i].1
  {
    if j > 0 {
      AnnotationArgsShape(annotations, j - 1);
    }
  }

  /** The error output with every occurrence of the key path replaced. */
  function Redact(stderr: string, key: string): string
    requires key != ""
  {
    ReplaceAll(stderr, key, REDACTED)
  }

  /** Redaction leaves the pieces of the error output between occurrences
      of the key path, none of which contains it, joined by the marker;
      output without the key path is left as it is. */
  lemma RedactReplacesEvery(stderr: string, key: string)
    requires key != ""
    ensures Redact(stderr, key) == Join(REDACTED, Split(stderr, key))
    ensures forall k :: 0 <= k < |Split(stderr, key)| ==> !Contains(Split(stderr, key)[k], key)
    ensures !Contains(stderr, key) ==> Redact(stderr, key) == stderr
  {
    ReplaceIsJoinSplit(stderr, key, REDACTED);
    SplitPartsFree(stderr, key);
    if !Contains(stderr, key) {
      ReplaceAbsent(stderr, key, REDACTED);
    }
  }

  /** Running cosign with the chosen key. */
  function Invoke(sys: System, key: string, tlogUpload: bool, imageRef: string, annotations: seq<(string, string)>): SignResult
    requires key != ""
  {
    match sys.run(Command(key, tlogUpload, imageRef, annotations))
    case LaunchFails(e) => CosignError(SYSTEM_ERROR + e)
    case Exited(code, stderr) =>
      if code != 0 then CosignError(FAILED + IntToString(code) + "): " + Redact(stderr, key))
      else Signed
  }

  /** Whether `sign_container` creates a temporary key file, and its name. */
  function TempKeyFile(sys: System, keyPath: Option<string>, keyContent: Option<string>): Option<string> {
    if sys.installed && !Given(keyPath) && Given(keyContent) && sys.temp.TempCreated? then Some(sys.temp.name)
    else None
  }

  /** `sign_container` */
  function SignSpec(sys: System, imageRef: string, keyPath: Option<string> := None, keyContent: Option<string> := None,
                    annotations: seq<(string, string)> := [], tlogUpload: bool := false): SignResult
  {
    if !sys.installed then CosignError(NOT_INSTALLED)
    else if !Given(keyPath) && Given(keyContent) then
      match sys.temp
      case TempFails(e) => CosignError(SYSTEM_ERROR + e)
      case TempCreated(name, writeError) =>
        if writeError.Some? then CosignError(SYSTEM_ERROR + writeError.value)
        else if name == "" then CosignError(NO_KEY)
        else Invoke(sys, name, tlogUpload, imageRef, annotations)
    else if !Given(keyPath) then CosignError(NO_KEY)
    else Invoke(sys, keyPath.value, tlogUpload, imageRef, annotations)
  }

  /** `sign_container`, with the `finally` clause: `unlinked` lists the
      files whose deletion was attempted. */
  method SignContainer(sys: System, imageRef: string, keyPath: Option<string> := None, keyContent: Option<string> := None,
                       annotations: seq<(string, string)> := [], tlogUpload: bool := false)
    returns (r: SignResult, ghost unlinked: seq<string>)
    ensures r == SignSpec(sys, imageRef, keyPath, keyContent, annotations, tlogUpload)
    ensures TempKeyFile(sys, keyPath, keyContent).Some? ==> unlinked == [TempKeyFile(sys, keyPath, keyContent).value]
    ensures TempKeyFile(sys, keyPath, keyContent).None? ==> unlinked == []
  {
    unlinked := [];
    if !sys.installed {
      return CosignError(NOT_INSTALLED), unlinked;
    }
    var tempKeyFile: Option<string> := None;
    var finalKeyPath := keyPath;
    // try
    if !Given(finalKeyPath) && Given(keyContent) {
      match sys.temp {
        case TempFails(e) =>
          r := CosignError(SYSTEM_ERROR + e);
        case TempCreated(name, writeError) =>
          tempKeyFile := Some(name);
          if writeError.Some? {
            r := CosignError(SYSTEM_ERROR + writeError.value);
          } else {
            finalKeyPath := Some(name);
            r := Signed;
          }
      }
    } else {
      r := Signed;
    }
    if r.Signed? {
      if !Given(finalKeyPath) {
        r := CosignError(NO_KEY);
      } else {
        var key := finalKeyPath.value;
        var cmd := BuildCommand(key, tlogUpload, imageRef, annotations);
        var result := sys.run(cmd);
        if result.LaunchFails? {
          r := CosignError(SYSTEM_ERROR + result.error);
        } else if result.code != 0 {
          var errMsg := Redact(result.stderr, key);
          r := CosignError(FAILED + IntToString(result.code) + "): " + errMsg);
        }
      }
    }
    // finally
    if tempKeyFile.Some? {
      unlinked := unlinked + [tempKeyFile.value];
    }
  }

  /** The defaults: no annotations and `tlog_upload=False`. A call giving
      only the image and a key path runs the seven fixed words with
      `--tlog-upload=false`; a call giving only the image has no key. */
  lemma DefaultArguments(sys: System, imageRef: string, keyPath: string)
    requires keyPath != ""
    ensures SignSpec(sys, imageRef, Some(keyPath)) ==
      if sys.installed then Invoke(sys, keyPath, false, imageRef, []) else CosignError(NOT_INSTALLED)
    ensures Command(keyPath, false, imageRef, []) == ["cosign", "sign", "--key", keyPath, "--tlog-upload=false", "--yes", imageRef]
    ensures SignSpec(sys, imageRef) == if sys.installed then CosignError(NO_KEY) else CosignError(NOT_INSTALLED)
  {
  }

  predicate ExitsCleanly(p: Process) {
    p.Exited? && p.code == 0
  }

  /** The outcomes in terms of the inputs: a missing binary is reported
      before anything else; a key path wins over key content; no key from
      either source is an error; a non-zero exit is reported with its code
      and the redacted error output. */
  lemma SignCases(sys: System, imageRef: string, keyPath: Option<string>, keyContent: Option<string>,
                  annotations: seq<(string, string)>, tlogUpload: bool)
    ensures var r := SignSpec(sys, imageRef, keyPath, keyContent, annotations, tlogUpload);
      && (!sys.installed ==> r == CosignError(NOT_INSTALLED))
      && (sys.installed && Given(keyPath) ==>
            r == Invoke(sys, keyPath.value, tlogUpload, imageRef, annotations))
      && (sys.installed && !Given(keyPath) && !Given(keyContent) ==> r == CosignError(NO_KEY))
      && (r == Signed ==> exists key :: key != "" && ExitsCleanly(sys.run(Command(key, tlogUpload, imageRef, annotations))))
  {
    var r := SignSpec(sys, imageRef, keyPath, keyContent, annotations, tlogUpload);
    if r == Signed {
      var key := if Given(keyPath) then keyPath.value else sys.temp.name;
      assert key != "";
      assert ExitsCleanly(sys.run(Command(key, tlogUpload, imageRef, annotations)));
    }
  }

  /** A failing exit names its code and leaves the key path only where
      the marker now stands. */
  lemma FailureMessage(sys: System, key: string, tlogUpload: bool, imageRef: string, annotations: seq<(string, string)>)
    requires key != ""
    requires sys.run(Command(key, tlogUpload, imageRef, annotations)).Exited?
    requires sys.run(Command(key, tlogUpload, imageRef, annotations)).code != 0
    ensures var p := sys.run(Command(key, tlogUpload, imageRef, annotations));
      Invoke(sys, key, tlogUpload, imageRef, annotations) ==
        CosignError(FAILED + IntToString(p.code) + "): " + Join(REDACTED, Split(p.stderr, key)))
  {
    RedactReplacesEvery(sys.run(Command(key, tlogUpload, imageRef, annotations)).stderr, key);
  }

  /** How `generate_key_pair` ends: the key pair is written, `CosignError`
      is raised, or the `OSError` of launching the process escapes (only
      `CalledProcessError` is caught). */
  datatype KeygenResult = KeysGenerated | KeygenError(message: string) | LaunchRaised(error: string)

  const KEYGEN_COMMAND: seq<string> := ["cosign", "generate-key-pair"]
  const KEYGEN_NOT_FOUND := "Cosign binary not found."
  const KEYGEN_FAILED := "Failed to generate keys: "

  /** `str(e)` of the `CalledProcessError` that `check=True` raises for a
      non-zero exit status. */
  function CalledProcessErrorText(code: int): string {
    "Command '['cosign', 'generate-key-pair']' returned non-zero exit status " + (IntToString(code) + ".")
  }

  /** `generate_key_pair(output_dir)`: `run(cmd, cwd)` is what running the
      command in the working directory `cwd` does. */
  function GenerateKeyPair(installed: bool, run: (seq<string>, string) -> Process, outputDir: string := "."): (r: KeygenResult)
    ensures r.KeysGenerated? <==> installed && ExitsCleanly(run(KEYGEN_COMMAND, outputDir))
    ensures r.LaunchRaised? <==> installed && run(KEYGEN_COMMAND, outputDir).LaunchFails?
    ensures r.KeygenError? ==> r.message == KEYGEN_NOT_FOUND || StartsWith(r.message, KEYGEN_FAILED)
    ensures !installed ==> r == KeygenError(KEYGEN_NOT_FOUND)
    ensures installed && r.KeygenError? ==> r.message != KEYGEN_NOT_FOUND
    ensures installed && run(KEYGEN_COMMAND, outputDir).Exited? && run(KEYGEN_COMMAND, outputDir).code != 0 ==>
      r == KeygenError(KEYGEN_FAILED + CalledProcessErrorText(run(KEYGEN_COMMAND, outputDir).code))
  {
    if !installed then KeygenError(KEYGEN_NOT_FOUND)
    else match run(KEYGEN_COMMAND, outputDir)
      case LaunchFails(e) => LaunchRaised(e)
      case Exited(code, _) =>
        if code != 0 then
          StartsWithAppend(KEYGEN_FAILED, CalledProcessErrorText(code));
          assert (KEYGEN_FAILED + CalledProcessErrorText(code))[0] != KEYGEN_NOT_FOUND[0];
          KeygenError(KEYGEN_FAILED + CalledProcessErrorText(code))
        else KeysGenerated
  }

  /** A failing `cosign generate-key-pair` is reported with its exit status. */
  lemma KeygenFailureNamesStatus(run: (seq<string>, string) -> Process, outputDir: string)
    requires run(KEYGEN_COMMAND, outputDir).Exited? && run(KEYGEN_COMMAND, outputDir).code != 0
    ensures var r := GenerateKeyPair(true, run, outputDir);
      r.KeygenError? && Contains(r.message, IntToString(run(KEYGEN_COMMAND, outputDir).code))
  {
    var code := run(KEYGEN_COMMAND, outputDir).code;
    var n := IntToString(code);
    assert StartsWith(n, n) by { assert n[..|n|] == n; }
    ContainsAppend(n, ".", n);
    ContainsPrepend("Command '['cosign', 'generate-key-pair']' returned non-zero exit status ", n + ".", n);
    ContainsPrepend(KEYGEN_FAILED, CalledProcessErrorText(code), n);
  }
}
