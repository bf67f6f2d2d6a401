/** Loading the scanner's configuration (scanner/src/aegis/core/config.py):
    the values of `aegis.yaml`, overridden by environment variables, over
    built-in defaults, built once and then cached. The file system, the
    environment and the presence of PyYAML are inputs. */
module Config {
  import opened PyJson

  /** `AegisConfig`. Python does not check the types of the values a YAML
      file supplies, so every field holds whatever value it was given. */
  datatype AegisConfig = AegisConfig(
    allowedModules: Json,
    ignoredRules: Json,
    failOnSeverity: Json,
    hfToken: Json,
    privateKeyPath: Json,
    outputFormat: Json)

  function Defaults(): AegisConfig {
    AegisConfig(JArr([]), JArr([]), JStr("CRITICAL"), JNull, JNull, JStr("table"))
  }

  /** What `yaml.safe_load` makes of the file: a document, or an error. */
  datatype YamlParse = ParseFails(error: string) | Parsed(doc: Json)

  /** The configuration file at the requested path. */
  datatype ConfigFile = Absent | Present(parse: YamlParse)

  /** A dict built from its items, later items winning. */
  function FieldsMap(fields: seq<(string, Json)>): (m: map<string, Json>)
    ensures forall k :: k in m <==> HasKey(fields, k)
    ensures forall k :: k in m ==> exists i :: 0 <= i < |fields| && fields[i] == (k, m[k])
    decreases |fields|
  {
    if fields == [] then map[]
    else
      var n := |fields| - 1;
      var m := FieldsMap(fields[..n]);
      assert forall k :: HasKey(fields[..n], k) ==> HasKey(fields, k) by {
        forall k | HasKey(fields[..n], k) ensures HasKey(fields, k) {
          var i :| 0 <= i < n && fields[..n][i].0 == k;
          assert fields[i].0 == k;
        }
      }
      assert forall k :: HasKey(fields, k) && k != fields[n].0 ==> HasKey(fields[..n], k) by {
        forall k | HasKey(fields, k) && k != fields[n].0 ensures HasKey(fields[..n], k) {
          var i :| 0 <= i < |fields| && fields[i].0 == k;
          assert i < n && fields[..n][i].0 == k;
        }
      }
      assert forall k :: k in m ==> exists i :: 0 <= i < |fields| && fields[i] == (k, m[k]) by {
        forall k | k in m ensures exists i :: 0 <= i < |fields| && fields[i] == (k, m[k]) {
          var i :| 0 <= i < n && fields[..n][i] == (k, m[k]);
          assert fields[i] == (k, m[k]);
        }
      }
      m[fields[n].0 := fields[n].1]
  }

  /** `config_data` after reading the file: its mapping when the file
      exists, PyYAML is installed, it parses and the document is a
      non-empty dict; otherwise nothing (a parse error and a document
      `update` rejects are logged and skipped). */
  function YamlData(file: ConfigFile, yamlInstalled: bool): map<string, Json> {
    match file
    case Absent => map[]
    case Present(parse) =>
      if !yamlInstalled then map[]
      else match parse
        case ParseFails(_) => map[]
        case Parsed(doc) => if Truthy(doc) && doc.JObj? then FieldsMap(doc.fields) else map[]
  }

  /** `config_data.get(key, default)` */
  function Get(data: map<string, Json>, key: string, default: Json): Json {
    if key in data then data[key] else default
  }

  /** `config_data[key] = os.environ[name]` when `name` is set. */
  function Override(data: map<string, Json>, env: map<string, string>, name: string, key: string): map<string, Json> {
    if name in env then data[key := JStr(env[name])] else data
  }

  /** `config_data` after the environment overrides: AEGIS_HF_TOKEN, or
      else HF_TOKEN, then AEGIS_PRIVATE_KEY_PATH, then AEGIS_FAIL_ON. */
  function WithEnv(data: map<string, Json>, env: map<string, string>): map<string, Json> {
    var d1 :=
      if "AEGIS_HF_TOKEN" in env then Override(data, env, "AEGIS_HF_TOKEN", "hf_token")
      else Override(data, env, "HF_TOKEN", "hf_token");
    var d2 := Override(d1, env, "AEGIS_PRIVATE_KEY_PATH", "private_key_path");
    Override(d2, env, "AEGIS_FAIL_ON", "fail_on_severity")
  }

  /** The object built from `config_data`. */
  function Construct(data: map<string, Json>): AegisConfig {
    AegisConfig(
      Get(data, "allowed_modules", JArr([])),
      Get(data, "ignored_rules", JArr([])),
      Get(data, "fail_on_severity", JStr("CRITICAL")),
      Get(data, "hf_token", JNull),
      Get(data, "private_key_path", JNull),
      Get(data, "output_format", JStr("table")))
  }

  /** The configuration the first `load` builds. */
  function Merge(env: map<string, string>, file: ConfigFile, yamlInstalled: bool): AegisConfig {
    Construct(WithEnv(YamlData(file, yamlInstalled), env))
  }

  /** `ConfigLoader`: the class attribute `_instance` caches the first
      configuration built. */
  class ConfigLoader {
    var instance: Option<AegisConfig>

    constructor()
      ensures instance == None
    {
      instance := None;
    }

    /** `ConfigLoader.load`: the cached configuration if there is one,
        whatever the path; otherwise the merge of the file and the
        environment, which becomes the cached one. */
    method Load(env: map<string, string>, file: ConfigFile, yamlInstalled: bool) returns (cfg: AegisConfig)
      modifies this
      ensures old(instance).Some? ==> instance == old(instance) && cfg == old(instance).value
      ensures old(instance).None? ==> instance == Some(cfg) && cfg == Merge(env, file, yamlInstalled)
    {
      if instance.Some? {
        return instance.value;
      }
      var configData: map<string, Json> := map[];
      if file.Present? && yamlInstalled {
        match file.parse {
          case ParseFails(_) =>
          case Parsed(doc) =>
            if Truthy(doc) && doc.JObj? {
              configData := configData + FieldsMap(doc.fields);
            }
        }
      }
      assert configData == YamlData(file, yamlInstalled);
      if "AEGIS_HF_TOKEN" in env {
        configData := configData["hf_token" := JStr(env["AEGIS_HF_TOKEN"])];
      } else if "HF_TOKEN" in env {
        configData := configData["hf_token" := JStr(env["HF_TOKEN"])];
      }
      if "AEGIS_PRIVATE_KEY_PATH" in env {
        configData := configData["private_key_path" := JStr(env["AEGIS_PRIVATE_KEY_PATH"])];
      }
      if "AEGIS_FAIL_ON" in env {
        configData := configData["fail_on_severity" := JStr(env["AEGIS_FAIL_ON"])];
      }
      cfg := Construct(configData);
      instance := Some(cfg);
    }

    /** `ConfigLoader.get_safe_modules`: loads (from the default path) and
        adds the allowed modules to the built-in safe set. */
    method GetSafeModules(defaultSafe: set<string>, env: map<string, string>, file: ConfigFile, yamlInstalled: bool)
      returns (r: Option<set<Json>>)
      modifies this
      ensures instance.Some? && r == SafeModules(defaultSafe, instance.value.allowedModules)
      ensures old(instance).Some? ==> instance == old(instance)
      ensures old(instance).None? ==> instance == Some(Merge(env, file, yamlInstalled))
    {
      var config := Load(env, file, yamlInstalled);
      r := SafeModules(defaultSafe, config.allowedModules);
    }
  }

  /** A value Python can put in a set. */
  predicate Hashable(j: Json) {
    !j.JArr? && !j.JObj?
  }

  /** `DEFAULT_SAFE.union(set(allowed))`; `None` when `set(allowed)`
      raises (the value is not iterable, or holds a list or dict). */
  function SafeModules(defaultSafe: set<string>, allowed: Json): (r: Option<set<Json>>)
    ensures r.Some? <==> Iterate(allowed).Some? && forall x :: x in Iterate(allowed).value ==> Hashable(x)
    ensures r.Some? ==> forall x :: x in r.value <==> (x.JStr? && x.s in defaultSafe) || x in Iterate(allowed).value
  {
    match Iterate(allowed)
    case None => None
    case Some(items) =>
      if forall x :: x in items ==> Hashable(x) then
        Some((set m | m in defaultSafe :: JStr(m)) + (set x | x in items))
      else None
  }

  /** An override changes its own key and no other. */
  lemma OverrideGet(data: map<string, Json>, env: map<string, string>, name: string, key: string, k: string, d: Json)
    ensures Get(Override(data, env, name, key), k, d) ==
      if k == key && name in env then JStr(env[name]) else Get(data, k, d)
  {
  }

  /** The value of any key after the environment overrides: AEGIS_FAIL_ON
      sets `fail_on_severity`, AEGIS_PRIVATE_KEY_PATH sets
      `private_key_path`, AEGIS_HF_TOKEN or else HF_TOKEN sets `hf_token`,
      and every other key keeps the file's value. */
  lemma WithEnvGet(data: map<string, Json>, env: map<string, string>, k: string, d: Json)
    ensures Get(WithEnv(data, env), k, d) ==
      if k == "fail_on_severity" && "AEGIS_FAIL_ON" in env then JStr(env["AEGIS_FAIL_ON"])
      else if k == "private_key_path" && "AEGIS_PRIVATE_KEY_PATH" in env then JStr(env["AEGIS_PRIVATE_KEY_PATH"])
      else if k == "hf_token" && "AEGIS_HF_TOKEN" in env then JStr(env["AEGIS_HF_TOKEN"])
      else if k == "hf_token" && "HF_TOKEN" in env then JStr(env["HF_TOKEN"])
      else Get(data, k, d)
  {
    var d1 :=
      if "AEGIS_HF_TOKEN" in env then Override(data, env, "AEGIS_HF_TOKEN", "hf_token")
      else Override(data, env, "HF_TOKEN", "hf_token");
    var d2 := Override(d1, env, "AEGIS_PRIVATE_KEY_PATH", "private_key_path");
    OverrideGet(d2, env, "AEGIS_FAIL_ON", "fail_on_severity", k, d);
    OverrideGet(d1, env, "AEGIS_PRIVATE_KEY_PATH", "private_key_path", k, d);
    if "AEGIS_HF_TOKEN" in env {
      OverrideGet(data, env, "AEGIS_HF_TOKEN", "hf_token", k, d);
    } else {
      OverrideGet(data, env, "HF_TOKEN", "hf_token", k, d);
    }
  }

  /** For `hf_token`: AEGIS_HF_TOKEN beats HF_TOKEN, which beats the file,
      which beats the default `None`. */
  lemma HfTokenPrecedence(env: map<string, string>, file: ConfigFile, yamlInstalled: bool)
    ensures Merge(env, file, yamlInstalled).hfToken ==
      if "AEGIS_HF_TOKEN" in env then JStr(env["AEGIS_HF_TOKEN"])
      else if "HF_TOKEN" in env then JStr(env["HF_TOKEN"])
      else Get(YamlData(file, yamlInstalled), "hf_token", JNull)
  {
    WithEnvGet(YamlData(file, yamlInstalled), env, "hf_token", JNull);
  }

  /** AEGIS_PRIVATE_KEY_PATH and AEGIS_FAIL_ON override the file; the
      other fields come from the file or their defaults, whatever the
      environment holds. */
  lemma EnvOverrides(env: map<string, string>, file: ConfigFile, yamlInstalled: bool)
    ensures var c := Merge(env, file, yamlInstalled);
      var y := YamlData(file, yamlInstalled);
      && c.privateKeyPath == (if "AEGIS_PRIVATE_KEY_PATH" in env then JStr(env["AEGIS_PRIVATE_KEY_PATH"]) else Get(y, "private_key_path", JNull))
      && c.failOnSeverity == (if "AEGIS_FAIL_ON" in env then JStr(env["AEGIS_FAIL_ON"]) else Get(y, "fail_on_severity", JStr("CRITICAL")))
      && c.allowedModules == Get(y, "allowed_modules", JArr([]))
      && c.ignoredRules == Get(y, "ignored_rules", JArr([]))
      && c.outputFormat == Get(y, "output_format", JStr("table"))
  {
    var y := YamlData(file, yamlInstalled);
    assert "private_key_path"[0] != "fail_on_severity"[0];
    WithEnvGet(y, env, "private_key_path", JNull);
    WithEnvGet(y, env, "fail_on_severity", JStr("CRITICAL"));
    WithEnvGet(y, env, "allowed_modules", JArr([]));
    WithEnvGet(y, env, "ignored_rules", JArr([]));
    WithEnvGet(y, env, "output_format", JStr("table"));
  }

  /** With no file values and none of the four variables set, every field
      takes its default. */
  lemma DefaultsWhenNothingGiven(env: map<string, string>, file: ConfigFile, yamlInstalled: bool)
    requires YamlData(file, yamlInstalled) == map[]
    requires "AEGIS_HF_TOKEN" !in env && "HF_TOKEN" !in env
    requires "AEGIS_PRIVATE_KEY_PATH" !in env && "AEGIS_FAIL_ON" !in env
    ensures Merge(env, file, yamlInstalled) == Defaults()
  {
  }

  /** An empty or null document counts as no file at all, as does an
      unparsable one or a file that PyYAML is not installed to read. */
  lemma UnusableFileIgnored(env: map<string, string>, file: ConfigFile, yamlInstalled: bool)
    requires file.Present?
    requires !yamlInstalled || file.parse.ParseFails? || !Truthy(file.parse.doc)
    ensures Merge(env, file, yamlInstalled) == Merge(env, Absent, yamlInstalled)
  {
  }

  /** A key the file sets reaches the configuration unless an environment
      variable overrides it. */
  lemma FileValuesUsed(env: map<string, string>, fields: seq<(string, Json)>, key: string, v: Json)
    requires HasKey(fields, key)
    requires FieldsMap(fields)[key] == v
    ensures key == "allowed_modules" ==> Merge(env, Present(Parsed(JObj(fields))), true).allowedModules == v
    ensures key == "output_format" ==> Merge(env, Present(Parsed(JObj(fields))), true).outputFormat == v
    ensures key == "hf_token" && "AEGIS_HF_TOKEN" !in env && "HF_TOKEN" !in env ==>
      Merge(env, Present(Parsed(JObj(fields))), true).hfToken == v
  {
    var file := Present(Parsed(JObj(fields)));
    var i :| 0 <= i < |fields| && fields[i].0 == key;
    assert Truthy(JObj(fields));
    var y := YamlData(file, true);
    assert y == FieldsMap(fields);
    assert key in y && y[key] == v;
    EnvOverrides(env, file, true);
    HfTokenPrecedence(env, file, true);
  }

  /** For a list of names, the safe set is exactly the built-in names and
      the listed ones. */
  lemma SafeModulesOfList(defaultSafe: set<string>, names: seq<string>)
    ensures var r := SafeModules(defaultSafe, JArr(seq(|names|, i requires 0 <= i < |names| => JStr(names[i]))));
      r.Some? && forall m :: JStr(m) in r.value <==> m in defaultSafe || m in names
  {
    var items := seq(|names|, i requires 0 <= i < |names| => JStr(names[i]));
    forall m ensures JStr(m) in items <==> m in names {
      if m in names {
        var i :| 0 <= i < |names| && names[i] == m;
        assert items[i] == JStr(m);
      }
    }
  }
}
