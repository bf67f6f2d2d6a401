/** The `scan` command (scanner/src/aegis/cli/main.py): collect the files,
    check each file's identity against the Hugging Face registry, run the
    static engine its extension selects, decide whether deployment is
    blocked, and lay out the result table. */
module Cli {
  import opened PyText
  import opened PyJson
  import Keras

  const PICKLE_EXTS: set<string> := {".pt", ".pth", ".bin", ".pkl", ".ckpt"}
  const KERAS_EXTS: set<string> := {".h5", ".keras"}

  /** A value, or the text of the exception that was raised instead. */
  datatype Result<T> = Ok(value: T) | Err(error: string)

  /** A file to scan: its name and what the Keras engine finds in it. */
  datatype FileEntry = FileEntry(name: string, keras: Keras.KerasFile)

  /** The `path` argument: a file, a directory (with every file below it, in
      the order `rglob` lists them) or nothing. */
  datatype PathTarget = IsFile(file: FileEntry) | IsDir(files: seq<FileEntry>) | Missing

  /** What the command calls but this model does not contain. */
  datatype Env = Env(
    sha256: FileEntry -> Result<string>,                  // calculate_sha256
    verifyHash: (string, string, string) -> Result<string>, // verify_file_hash(repo, name, hash)
    pickleScan: FileEntry -> Result<seq<string>>,         // read + scan_pickle_stream(strict_mode=True)
    h5pyAvailable: bool)

  /** The per-file record the command builds. */
  datatype ScanResult = ScanResult(filePath: string, fileHash: Option<string>, identityVerified: bool, threats: seq<string>)

  /** `scan_res.add_threat(t)` */
  function AddThreat(r: ScanResult, t: string): ScanResult {
    r.(threats := r.threats + [t])
  }

  /** `if repo:` */
  predicate RepoGiven(repo: Option<string>) {
    repo.Some? && repo.value != ""
  }

  /** The marker the policy check looks for. */
  const CRITICAL := "CRITICAL"

  function MismatchThreat(repo: string): string {
    CRITICAL + (": Hash mismatch! File differs from official '" + repo + "'")
  }

  function UnknownThreat(repo: string): string {
    "WARNING: File not found in remote repo '" + repo + "'"
  }

  /** Part A: hash the file and, when a repository is given, compare the
      hash with the registry's. */
  function IdentitySpec(env: Env, repo: Option<string>, f: FileEntry): ScanResult {
    var blank := ScanResult(f.name, None, false, []);
    match env.sha256(f)
    case Err(e) => AddThreat(blank, "Hashing Error: " + e)
    case Ok(h) =>
      var hashed := blank.(fileHash := Some(h));
      if !RepoGiven(repo) then hashed
      else match env.verifyHash(repo.value, f.name, h)
        case Err(e) => AddThreat(hashed, "Hashing Error: " + e)
        case Ok(verdict) =>
          if verdict == "VERIFIED" then hashed.(identityVerified := true)
          else if verdict == "MISMATCH" then AddThreat(hashed, MismatchThreat(repo.value))
          else if verdict == "UNKNOWN" then AddThreat(hashed, UnknownThreat(repo.value))
          else hashed
  }

  /** Part B: the static engine the extension selects. */
  function StaticSpec(env: Env, f: FileEntry): seq<string> {
    var ext := Extension(f.name);
    if ext in PICKLE_EXTS then
      match env.pickleScan(f)
      case Ok(t) => t
      case Err(e) => ["Scan Error: " + e]
    else if ext in KERAS_EXTS then Keras.ScanKerasFile(env.h5pyAvailable, f.keras)
    else []
  }

  /** `"CRITICAL" in str(threats)`: "CRITICAL" has no character that the
      list's `repr` escapes, and the separators between items break any
      occurrence spanning two items, so it is found in one of the threats. */
  predicate HasCritical(threats: seq<string>) {
    exists k :: 0 <= k < |threats| && Contains(threats[k], CRITICAL)
  }

  /** The record of one file. */
  function FileSpec(env: Env, repo: Option<string>, f: FileEntry): ScanResult {
    var r := IdentitySpec(env, repo, f);
    r.(threats := r.threats + StaticSpec(env, f))
  }

  /** Part C: a file blocks deployment when a static engine reported
      anything, or when a repository is given, the identity is not verified
      and some threat is critical. */
  predicate FileCritical(env: Env, repo: Option<string>, f: FileEntry) {
    Critical(repo, FileSpec(env, repo, f), StaticSpec(env, f))
  }

  predicate Critical(repo: Option<string>, r: ScanResult, engine: seq<string>) {
    engine != [] || (!r.identityVerified && RepoGiven(repo) && HasCritical(r.threats))
  }

  /** Part A of the loop body. */
  method CheckIdentity(env: Env, repo: Option<string>, f: FileEntry) returns (res: ScanResult)
    ensures res == IdentitySpec(env, repo, f)
  {
    res := ScanResult(f.name, None, false, []);
    var hash := env.sha256(f);
    if hash.Err? {
      res := AddThreat(res, "Hashing Error: " + hash.error);
    } else {
      res := res.(fileHash := Some(hash.value));
      if RepoGiven(repo) {
        var verification := env.verifyHash(repo.value, f.name, hash.value);
        if verification.Err? {
          res := AddThreat(res, "Hashing Error: " + verification.error);
        } else if verification.value == "VERIFIED" {
          res := res.(identityVerified := true);
        } else if verification.value == "MISMATCH" {
          res := AddThreat(res, MismatchThreat(repo.value));
        } else if verification.value == "UNKNOWN" {
          res := AddThreat(res, UnknownThreat(repo.value));
        }
      }
    }
  }

  /** Part B of the loop body. */
  method StaticThreats(env: Env, f: FileEntry) returns (threats: seq<string>)
    ensures threats == StaticSpec(env, f)
  {
    var ext := Extension(f.name);
    threats := [];
    if ext in PICKLE_EXTS {
      var scanned := env.pickleScan(f);
      if scanned.Ok? {
        threats := scanned.value;
      } else {
        threats := threats + ["Scan Error: " + scanned.error];
      }
    } else if ext in KERAS_EXTS {
      threats := Keras.ScanKerasFile(env.h5pyAvailable, f.keras);
    }
  }

  /** The body of the loop over the files, with part C. */
  method ScanFile(env: Env, repo: Option<string>, f: FileEntry) returns (res: ScanResult, critical: bool)
    ensures res == FileSpec(env, repo, f)
    ensures critical == FileCritical(env, repo, f)
  {
    res := CheckIdentity(env, repo, f);
    ghost var identity := res;
    var threats := StaticThreats(env, f);
    critical := false;
    if threats != [] {
      var k := 0;
      while k < |threats|
        invariant 0 <= k <= |threats|
        invariant res == identity.(threats := identity.threats + threats[..k])
      {
        assert threats[..k + 1] == threats[..k] + [threats[k]];
        res := AddThreat(res, threats[k]);
        k := k + 1;
      }
      assert threats[..|threats|] == threats;
      critical := true;
    }
    if !res.identityVerified && RepoGiven(repo) && HasCritical(res.threats) {
      critical := true;
    }
    assert critical == Critical(repo, res, threats);
  }

  /** Some file among the first `i` blocks deployment. */
  predicate AnyCritical(env: Env, repo: Option<string>, files: seq<FileEntry>, i: nat)
    requires i <= |files|
  {
    exists j :: 0 <= j < i && FileCritical(env, repo, files[j])
  }

  /** Which files block deployment. */
  function CriticalFlags(env: Env, repo: Option<string>, files: seq<FileEntry>): (flags: seq<bool>)
    ensures |flags| == |files|
    ensures forall j :: 0 <= j < |files| ==> flags[j] == FileCritical(env, repo, files[j])
  {
    seq(|files|, j requires 0 <= j < |files| => FileCritical(env, repo, files[j]))
  }

  predicate AnySet(flags: seq<bool>, i: nat)
    requires i <= |flags|
  {
    exists j :: 0 <= j < i && flags[j]
  }

  lemma AnySetStep(flags: seq<bool>, i: nat)
    requires i < |flags|
    ensures AnySet(flags, i + 1) <==> AnySet(flags, i) || flags[i]
  {
    if flags[i] {
      assert 0 <= i < i + 1 && flags[i];
    }
    if AnySet(flags, i + 1) && !flags[i] {
      var j :| 0 <= j < i + 1 && flags[j];
      assert j < i;
    }
  }

  lemma AnyCriticalFlags(env: Env, repo: Option<string>, files: seq<FileEntry>, i: nat)
    requires i <= |files|
    ensures AnyCritical(env, repo, files, i) <==> AnySet(CriticalFlags(env, repo, files), i)
  {
    var flags := CriticalFlags(env, repo, files);
    if AnyCritical(env, repo, files, i) {
      var j :| 0 <= j < i && FileCritical(env, repo, files[j]);
      assert flags[j];
    }
    if AnySet(flags, i) {
      var j :| 0 <= j < i && flags[j];
      assert FileCritical(env, repo, files[j]);
    }
  }

  /** The record of each file. */
  function FileSpecs(env: Env, repo: Option<string>, files: seq<FileEntry>): (rs: seq<ScanResult>)
    ensures |rs| == |files|
    ensures forall j :: 0 <= j < |files| ==> rs[j] == FileSpec(env, repo, files[j])
  {
    seq(|files|, j requires 0 <= j < |files| => FileSpec(env, repo, files[j]))
  }

  /** The loop over the files: one record per file, in order, and the flag
      `has_critical_errors`, which once set stays set. */
  method ScanFiles(env: Env, repo: Option<string>, files: seq<FileEntry>) returns (results: seq<ScanResult>, critical: bool)
    ensures |results| == |files|
    ensures forall j :: 0 <= j < |files| ==> results[j] == FileSpec(env, repo, files[j])
    ensures critical <==> AnyCritical(env, repo, files, |files|)
  {
    ghost var specs := FileSpecs(env, repo, files);
    ghost var flags := CriticalFlags(env, repo, files);
    results := [];
    critical := false;
    var i := 0;
    while i < |files|
      invariant 0 <= i <= |files|
      invariant results == specs[..i]
      invariant critical <==> AnySet(flags, i)
    {
      var res, fileCritical := ScanFile(env, repo, files[i]);
      assert res == specs[i] && fileCritical == flags[i];
      AnySetStep(flags, i);
      if fileCritical {
        critical := true;
      }
      assert specs[..i + 1] == specs[..i] + [specs[i]];
      results := results + [res];
      i := i + 1;
    }
    assert results == specs;
    AnyCriticalFlags(env, repo, files, |files|);
  }

  /** How the command ends: the path is missing (exit code 1), deployment is
      blocked (exit code 1, after the report), or it finishes with a signing
      status and, when an image is given, signs it. */
  datatype Outcome =
    | PathNotFound
    | Blocked(results: seq<ScanResult>)
    | Finished(results: seq<ScanResult>, signStatus: string, signImage: Option<string>)

  function ExitCode(out: Outcome): int {
    if out.Finished? then 0 else 1
  }

  function FilesOf(target: PathTarget): seq<FileEntry>
    requires !target.Missing?
  {
    if target.IsFile? then [target.file] else target.files
  }

  /** Parts 5 and 6 of the command. */
  function Decide(results: seq<ScanResult>, critical: bool, image: Option<string>, force: bool): Outcome {
    if critical && !force then Blocked(results)
    else
      Finished(results, if critical then "forced_approval" else "clean",
               if image.Some? && image.value != "" then image else None)
  }

  /** `scan` */
  function ScanSpec(env: Env, target: PathTarget, repo: Option<string>, image: Option<string>, force: bool): Outcome {
    if target.Missing? then PathNotFound
    else
      var files := FilesOf(target);
      var results := seq(|files|, j requires 0 <= j < |files| => FileSpec(env, repo, files[j]));
      Decide(results, AnyCritical(env, repo, files, |files|), image, force)
  }

  method Scan(env: Env, target: PathTarget, repo: Option<string>, image: Option<string>, force: bool) returns (out: Outcome)
    ensures out == ScanSpec(env, target, repo, image, force)
  {
    if target.Missing? {
      return PathNotFound;
    }
    var files := FilesOf(target);
    var results, critical := ScanFiles(env, repo, files);
    assert results == seq(|files|, j requires 0 <= j < |files| => FileSpec(env, repo, files[j]));
    var signStatus := "clean";
    if critical {
      if force {
        signStatus := "forced_approval";
      } else {
        return Blocked(results);
      }
    }
    if image.Some? && image.value != "" {
      out := Finished(results, signStatus, image);
    } else {
      out := Finished(results, signStatus, None);
    }
  }

  /** No extension selects both static engines. */
  lemma ExtensionsDisjoint()
    ensures PICKLE_EXTS * KERAS_EXTS == {}
  {
  }

  /** The extension is lower-cased as Python does, so a KELVIN SIGN in the
      name still selects an engine: "m.\U{212A}eras" is a Keras file and
      "w.c\U{212A}pt" a pickle file. */
  lemma KelvinSignSelectsEngine()
    ensures Extension("m.\U{212A}eras") in KERAS_EXTS
    ensures Extension("w.c\U{212A}pt") in PICKLE_EXTS
  {
    var keras, pickle := "m.\U{212A}eras", "w.c\U{212A}pt";
    ExtensionIsLowerSuffix(keras);
    ExtensionIsLowerSuffix(pickle);
    RFindLast(keras, '.');
    RFindLast(pickle, '.');
    assert keras[1] == '.' && forall k :: 0 <= k < |keras| && k != 1 ==> keras[k] != '.';
    assert pickle[1] == '.' && forall k :: 0 <= k < |pickle| && k != 1 ==> pickle[k] != '.';
    assert Suffix(keras) == keras[1..] == ".\U{212A}eras";
    assert Suffix(pickle) == pickle[1..] == ".c\U{212A}pt";
    assert Lower(".\U{212A}eras") == ".keras";
    assert Lower(".c\U{212A}pt") == ".ckpt";
  }

  /** The identity check adds at most one threat, and the record is
      verified exactly when the hash was computed, a repository was given
      and the registry answered VERIFIED. */
  lemma IdentityOutcome(env: Env, repo: Option<string>, f: FileEntry)
    ensures var r := IdentitySpec(env, repo, f);
      && r.filePath == f.name
      && |r.threats| <= 1
      && (r.fileHash.Some? <==> env.sha256(f).Ok?)
      && (r.identityVerified <==>
            env.sha256(f).Ok? && RepoGiven(repo) &&
            env.verifyHash(repo.value, f.name, env.sha256(f).value) == Ok("VERIFIED"))
      && (r.identityVerified ==> r.threats == [])
  {
  }

  /** The thing the identity check is for: without a repository only the
      static engines can block; with one, a hash mismatch blocks. */
  lemma CriticalCases(env: Env, repo: Option<string>, f: FileEntry)
    ensures StaticSpec(env, f) != [] ==> FileCritical(env, repo, f)
    ensures !RepoGiven(repo) ==> (FileCritical(env, repo, f) <==> StaticSpec(env, f) != [])
    ensures RepoGiven(repo) && env.sha256(f).Ok? &&
            env.verifyHash(repo.value, f.name, env.sha256(f).value) == Ok("MISMATCH") ==>
              FileCritical(env, repo, f)
    ensures RepoGiven(repo) && env.sha256(f).Ok? &&
            env.verifyHash(repo.value, f.name, env.sha256(f).value) == Ok("VERIFIED") ==>
              (FileCritical(env, repo, f) <==> StaticSpec(env, f) != [])
  {
    if RepoGiven(repo) && env.sha256(f).Ok? &&
       env.verifyHash(repo.value, f.name, env.sha256(f).value) == Ok("MISMATCH") {
      var r := FileSpec(env, repo, f);
      var m := MismatchThreat(repo.value);
      assert r.threats[0] == m;
      StartsWithAppend(CRITICAL, ": Hash mismatch! File differs from official '" + repo.value + "'");
      assert Contains(m, CRITICAL);
    }
  }

  /** A file whose extension selects no engine, whose identity is verified,
      is clean: no threats and nothing blocking. */
  lemma VerifiedOtherFileIsClean(env: Env, repo: Option<string>, f: FileEntry)
    requires Extension(f.name) !in PICKLE_EXTS && Extension(f.name) !in KERAS_EXTS
    requires IdentitySpec(env, repo, f).identityVerified
    ensures FileSpec(env, repo, f).threats == []
    ensures !FileCritical(env, repo, f)
  {
    IdentityOutcome(env, repo, f);
  }

  /** The decision: blocked exactly when some file is critical and the
      break-glass flag is off; otherwise the signing status says whether a
      risk was force-approved, and signing happens exactly when an image is
      given. */
  lemma DecisionCases(env: Env, target: PathTarget, repo: Option<string>, image: Option<string>, force: bool)
    ensures var out := ScanSpec(env, target, repo, image, force);
      && (out.PathNotFound? <==> target.Missing?)
      && (!target.Missing? ==>
            var files := FilesOf(target);
            && (out.Blocked? <==> AnyCritical(env, repo, files, |files|) && !force)
            && (out.Finished? ==>
                  && |out.results| == |files|
                  && (out.signStatus == "clean" <==> !AnyCritical(env, repo, files, |files|))
                  && (out.signStatus == "forced_approval" <==> AnyCritical(env, repo, files, |files|))
                  && (out.signImage.Some? <==> image.Some? && image.value != "")))
      && (ExitCode(out) == 0 <==> out.Finished?)
  {
  }

  // ---------------------------------------------------------------------
  // _print_table

  const VERIFIED_CELL := "[green]✔ Verified[/green]"
  const UNCHECKED_CELL := "[dim]Unchecked[/dim]"
  const ERROR_CELL := "[red]Error[/red]"

  /** The Identity column. */
  function IdentityCell(r: ScanResult): (cell: string)
    ensures cell == VERIFIED_CELL <==> r.identityVerified
    ensures cell == UNCHECKED_CELL <==> !r.identityVerified && r.fileHash.Some? && r.fileHash.value != ""
    ensures cell == ERROR_CELL <==> !r.identityVerified && (r.fileHash.None? || r.fileHash.value == "")
  {
    if r.identityVerified then VERIFIED_CELL
    else if r.fileHash.Some? && r.fileHash.value != "" then UNCHECKED_CELL
    else ERROR_CELL
  }

  /** The Threats column. */
  function ThreatText(threats: seq<string>): string {
    if threats != [] then Join("\n", threats) else "None"
  }

  /** The Threats column shows every threat. */
  lemma {:induction false} ThreatTextShowsAll(threats: seq<string>, k: nat)
    requires k < |threats|
    ensures Contains(ThreatText(threats), threats[k])
  {
    JoinContains("\n", threats, k);
  }

  lemma ContainsSelf(s: string)
    ensures Contains(s, s)
  {
    assert s[..|s|] == s;
  }

  lemma {:induction false} JoinContains(sep: string, parts: seq<string>, k: nat)
    requires k < |parts|
    ensures Contains(Join(sep, parts), parts[k])
    decreases |parts|
  {
    var last := |parts| - 1;
    if |parts| == 1 {
      ContainsSelf(parts[0]);
    } else if k == last {
      ContainsSelf(parts[k]);
      ContainsPrepend(Join(sep, parts[..last]) + sep, parts[k], parts[k]);
    } else {
      JoinContains(sep, parts[..last], k);
      ContainsAppend(Join(sep, parts[..last]), sep + parts[last], parts[k]);
      assert Join(sep, parts[..last]) + (sep + parts[last]) == Join(sep, parts);
    }
  }
}
