/** The Keras model analyser (scanner/src/aegis/engines/static/keras_engine.py):
    finding `Lambda` layers, which carry serialized Python code, in a model
    configuration, and choosing between the zip (`.keras`) and HDF5 (`.h5`)
    container formats. */
module Keras {
  import opened PyJson

  const LAMBDA_THREAT := "CRITICAL: Keras Lambda layer detected (RCE Risk)"
  const H5PY_MISSING := "WARNING: h5py missing, cannot scan legacy .h5 file"

  newtype byte = x: int | 0 <= x < 256

  /** The HDF5 signature `\x89HDF\r\n\x1a\n`. */
  const HDF5_MAGIC: seq<byte> := [0x89, 0x48, 0x44, 0x46, 0x0D, 0x0A, 0x1A, 0x0A]

  /** Class names whose `config` is itself a model and is searched too. */
  predicate IsNestedModel(cls: Option<Json>) {
    cls == Some(JStr("Model")) || cls == Some(JStr("Functional")) || cls == Some(JStr("Sequential"))
  }

  /** What one layer contributes by itself: one threat if it is a `Lambda`. */
  function OwnThreats(layer: seq<(string, Json)>): seq<string> {
    if Lookup(layer, "class_name") == Some(JStr("Lambda")) then [LAMBDA_THREAT] else []
  }

  /** `_analyze_model_config(config)`. `None` stands for the AttributeError
      raised when a value the code calls `.get` on is not a dict (the root,
      its "config", a layer, or a nested "config"); the callers turn that into
      an empty result. */
  function AnalyzeModelConfig(config: Json): Option<seq<string>>
    decreases config, 1, 0
  {
    if !config.JObj? then None
    else
      var model := GetOr(config.fields, "config", config);
      if !model.JObj? then None
      else
        var layers := GetOr(model.fields, "layers", JArr([]));
        if !layers.JArr? then Some([])
        else AnalyzeLayers(model, layers.items, 0)
  }

  /** The loop over `layers[i..]`, in order: each layer's own threat, then
      what its nested model yields. */
  function AnalyzeLayers(ghost parent: Json, layers: seq<Json>, i: nat): Option<seq<string>>
    requires i <= |layers|
    requires forall x :: x in layers ==> x < parent
    decreases parent, 0, |layers| - i
  {
    if i == |layers| then Some([])
    else
      var layer := layers[i];
      assert layer in layers;
      if !layer.JObj? then None
      else
        match NestedThreats(layer)
        case None => None
        case Some(inner) =>
          match AnalyzeLayers(parent, layers, i + 1)
          case None => None
          case Some(rest) => Some(OwnThreats(layer.fields) + inner + rest)
  }

  /** What a layer's nested model yields: only a Model, Functional or
      Sequential layer is searched, through its "config". A layer without
      "config" is analysed as `{}`, which yields nothing (AnalyzeEmptyConfig). */
  function NestedThreats(layer: Json): Option<seq<string>>
    requires layer.JObj?
    decreases layer, 2
  {
    if !IsNestedModel(Lookup(layer.fields, "class_name")) then Some([])
    else match Lookup(layer.fields, "config")
      case None => Some([])
      case Some(c) =>
        assert c < layer by { LookupSmaller(layer.fields, "config"); }
        AnalyzeModelConfig(c)
  }

  lemma AnalyzeEmptyConfig()
    ensures AnalyzeModelConfig(JObj([])) == Some([])
  {
  }

  /** Joins a partial result with what the rest of a computation yields. */
  function Then(acc: seq<string>, rest: Option<seq<string>>): Option<seq<string>> {
    match rest
    case None => None
    case Some(r) => Some(acc + r)
  }

  /** `_analyze_model_config` as the source writes it: a loop over the layers
      that appends to a local list and recurses into nested models. */
  method Analyze(config: Json) returns (r: Option<seq<string>>)
    ensures r == AnalyzeModelConfig(config)
    decreases config, 1
  {
    if !config.JObj? { return None; }
    var model := GetOr(config.fields, "config", config);
    if HasKey(config.fields, "config") {
      LookupSmaller(config.fields, "config");
    }
    if !model.JObj? { return None; }
    var layersValue := GetOr(model.fields, "layers", JArr([]));
    if !layersValue.JArr? { return Some([]); }
    if HasKey(model.fields, "layers") {
      LookupSmaller(model.fields, "layers");
    }
    var layers := layersValue.items;
    var threats: seq<string> := [];
    assert AnalyzeModelConfig(config) == AnalyzeLayers(model, layers, 0);
    ThenUnit([], AnalyzeLayers(model, layers, 0));
    var i := 0;
    while i < |layers|
      invariant 0 <= i <= |layers|
      invariant Then(threats, AnalyzeLayers(model, layers, i)) == AnalyzeModelConfig(config)
    {
      var layer := layers[i];
      assert layer in layers;
      if !layer.JObj? { return None; }
      var found := LayerThreats(layer);
      if found.None? { return None; }
      assert AnalyzeLayers(model, layers, i) == Then(found.value, AnalyzeLayers(model, layers, i + 1));
      ThenAssoc(threats, found.value, AnalyzeLayers(model, layers, i + 1));
      threats := threats + found.value;
      i := i + 1;
    }
    ThenUnit(threats, Some([]));
    r := Some(threats);
  }

  /** The body of the loop for one layer dict: its own threat, then what
      its nested model yields. */
  method LayerThreats(layer: Json) returns (r: Option<seq<string>>)
    requires layer.JObj?
    ensures r == Then(OwnThreats(layer.fields), NestedThreats(layer))
    decreases layer, 2
  {
    var threats: seq<string> := [];
    var className := Lookup(layer.fields, "class_name");
    if className == Some(JStr("Lambda")) {
      threats := threats + [LAMBDA_THREAT];
    }
    assert threats == OwnThreats(layer.fields);
    ThenUnit(threats, Some([]));
    if IsNestedModel(className) {
      var nestedConfig := Lookup(layer.fields, "config");
      if nestedConfig.Some? {
        LookupSmaller(layer.fields, "config");
        var found := Analyze(nestedConfig.value);
        if found.None? { return None; }
        threats := threats + found.value;
      }
    }
    return Some(threats);
  }

  lemma ThenUnit(a: seq<string>, rest: Option<seq<string>>)
    ensures Then([], rest) == rest
    ensures Then(a, Some([])) == Some(a)
  {
    if rest.Some? {
      assert [] + rest.value == rest.value;
    }
    assert a + [] == a;
  }

  lemma ThenAssoc(a: seq<string>, b: seq<string>, rest: Option<seq<string>>)
    ensures Then(a, Then(b, rest)) == Then(a + b, rest)
  {
    if rest.Some? {
      assert a + (b + rest.value) == (a + b) + rest.value;
    }
  }

  // ---------------------------------------------------------------------
  // A reference description: the layers the search visits, and the claim
  // that the analysis yields one threat per Lambda layer among them.

  /** The layer dicts visited, depth first: each layer followed by the layers
      of its nested model; `None` where the analysis raises. */
  function ReachableLayers(config: Json): Option<seq<Json>>
    decreases config, 1, 0
  {
    if !config.JObj? then None
    else
      var model := GetOr(config.fields, "config", config);
      if !model.JObj? then None
      else
        var layers := GetOr(model.fields, "layers", JArr([]));
        if !layers.JArr? then Some([])
        else ReachableFrom(model, layers.items, 0)
  }

  function ReachableFrom(ghost parent: Json, layers: seq<Json>, i: nat): Option<seq<Json>>
    requires i <= |layers|
    requires forall x :: x in layers ==> x < parent
    decreases parent, 0, |layers| - i
  {
    if i == |layers| then Some([])
    else
      var layer := layers[i];
      assert layer in layers;
      if !layer.JObj? then None
      else
        match ReachableNested(layer)
        case None => None
        case Some(inner) =>
          match ReachableFrom(parent, layers, i + 1)
          case None => None
          case Some(rest) => Some([layer] + inner + rest)
  }

  function ReachableNested(layer: Json): Option<seq<Json>>
    requires layer.JObj?
    decreases layer, 2
  {
    if !IsNestedModel(Lookup(layer.fields, "class_name")) then Some([])
    else match Lookup(layer.fields, "config")
      case None => Some([])
      case Some(c) =>
        assert c < layer by { LookupSmaller(layer.fields, "config"); }
        ReachableLayers(c)
  }

  predicate IsLambda(layer: Json) {
    layer.JObj? && Lookup(layer.fields, "class_name") == Some(JStr("Lambda"))
  }

  /** How many of the layers are Lambda layers. */
  function LambdaCount(layers: seq<Json>): nat {
    if layers == [] then 0 else (if IsLambda(layers[0]) then 1 else 0) + LambdaCount(layers[1..])
  }

  lemma {:induction false} LambdaCountAppend(a: seq<Json>, b: seq<Json>)
    ensures LambdaCount(a + b) == LambdaCount(a) + LambdaCount(b)
  {
    if a == [] {
      assert a + b == b;
    } else {
      assert (a + b)[1..] == a[1..] + b;
      LambdaCountAppend(a[1..], b);
    }
  }

  function Repeat(t: string, n: nat): (r: seq<string>)
    ensures |r| == n && forall k :: 0 <= k < n ==> r[k] == t
  {
    if n == 0 then [] else [t] + Repeat(t, n - 1)
  }

  lemma RepeatAppend(t: string, n: nat, m: nat)
    ensures Repeat(t, n) + Repeat(t, m) == Repeat(t, n + m)
  {
    var r := Repeat(t, n) + Repeat(t, m);
    assert forall k :: 0 <= k < n + m ==> r[k] == t;
  }

  /** The threats the reference description predicts for a visit. */
  function Predicted(visit: Option<seq<Json>>): Option<seq<string>> {
    match visit
    case None => None
    case Some(ls) => Some(Repeat(LAMBDA_THREAT, LambdaCount(ls)))
  }

  /** `_analyze_model_config` yields exactly one LAMBDA_THREAT per Lambda
      layer reachable through nested Model/Functional/Sequential layers, and
      nothing else; it raises exactly where the visit does. */
  lemma {:induction false} AnalyzeCountsLambdas(config: Json)
    ensures AnalyzeModelConfig(config) == Predicted(ReachableLayers(config))
    decreases config, 1, 0
  {
    if config.JObj? {
      var model := GetOr(config.fields, "config", config);
      if model.JObj? {
        var layers := GetOr(model.fields, "layers", JArr([]));
        if layers.JArr? {
          LayersCountLambdas(model, layers.items, 0);
        }
      }
    }
  }

  lemma {:induction false} LayersCountLambdas(parent: Json, layers: seq<Json>, i: nat)
    requires i <= |layers|
    requires forall x :: x in layers ==> x < parent
    ensures AnalyzeLayers(parent, layers, i) == Predicted(ReachableFrom(parent, layers, i))
    decreases parent, 0, |layers| - i
  {
    if i < |layers| {
      var layer := layers[i];
      assert layer in layers;
      if layer.JObj? {
        NestedCountsLambdas(layer);
        LayersCountLambdas(parent, layers, i + 1);
        var inner := ReachableNested(layer);
        var rest := ReachableFrom(parent, layers, i + 1);
        if inner.Some? && rest.Some? {
          CountStep(layer, inner.value, rest.value);
        }
      }
    }
  }

  /** One layer's threats, then its nested model's, then the rest's, as
      counted from the visit. */
  lemma CountStep(layer: Json, inner: seq<Json>, rest: seq<Json>)
    requires layer.JObj?
    ensures OwnThreats(layer.fields) + Repeat(LAMBDA_THREAT, LambdaCount(inner)) + Repeat(LAMBDA_THREAT, LambdaCount(rest))
      == Repeat(LAMBDA_THREAT, LambdaCount([layer] + inner + rest))
  {
    LambdaCountAppend([layer], inner);
    LambdaCountAppend([layer] + inner, rest);
    assert LambdaCount([layer]) == (if IsLambda(layer) then 1 else 0);
    assert OwnThreats(layer.fields) == Repeat(LAMBDA_THREAT, LambdaCount([layer]));
    RepeatAppend(LAMBDA_THREAT, LambdaCount([layer]), LambdaCount(inner));
    RepeatAppend(LAMBDA_THREAT, LambdaCount([layer]) + LambdaCount(inner), LambdaCount(rest));
  }

  lemma {:induction false} NestedCountsLambdas(layer: Json)
    requires layer.JObj?
    ensures NestedThreats(layer) == Predicted(ReachableNested(layer))
    decreases layer, 2
  {
    if IsNestedModel(Lookup(layer.fields, "class_name")) {
      match Lookup(layer.fields, "config")
      case None =>
      case Some(c) =>
        assert c < layer by { LookupSmaller(layer.fields, "config"); }
        AnalyzeCountsLambdas(c);
    }
  }

  /** The root's "config" is analysed when present, otherwise the root
      itself: wrapping a model into `{"config": model}` changes nothing. */
  lemma WrappedConfig(model: seq<(string, Json)>)
    requires !HasKey(model, "config")
    ensures AnalyzeModelConfig(JObj([("config", JObj(model))])) == AnalyzeModelConfig(JObj(model))
  {
    assert GetOr(model, "config", JObj(model)) == JObj(model);
  }

  /** A model without a list under "layers" yields nothing. */
  lemma LayersNotAList(model: seq<(string, Json)>)
    requires !HasKey(model, "config")
    requires !HasKey(model, "layers") || !Lookup(model, "layers").value.JArr?
    ensures AnalyzeModelConfig(JObj(model)) == Some([])
  {
  }

  // ---------------------------------------------------------------------
  // Container formats.

  /** `_is_hdf5`: `file` is the file's bytes, or `None` when it cannot be
      read. The first `read(8)` returns at most eight bytes. */
  function IsHdf5(file: Option<seq<byte>>): (r: bool)
    ensures r <==> file.Some? && |file.value| >= 8 && file.value[..8] == HDF5_MAGIC
  {
    match file
    case None => false
    case Some(bytes) =>
      var sig := if |bytes| <= 8 then bytes else bytes[..8];
      sig == HDF5_MAGIC
  }

  /** What a container holds under the name the scanner looks for
      ("config.json" in a zip, the "model_config" attribute in HDF5). */
  datatype ConfigEntry =
    | Absent          // no such entry
    | Malformed       // present, but it cannot be decoded as JSON
    | Parsed(doc: Json)

  /** A container that cannot be opened, or its config entry. */
  datatype Container = Unreadable | Opened(entry: ConfigEntry)

  /** A Keras model file as the format checks see it. */
  datatype KerasFile = KerasFile(
    isZip: bool,              // zipfile.is_zipfile
    bytes: Option<seq<byte>>, // the raw file, None when it cannot be read
    zip: Container,           // its content read as a zip archive
    h5: Container)            // its content read as an HDF5 file

  /** `_scan_keras_zip` and `_scan_keras_h5`: every failure (unreadable
      container, malformed JSON, a raising analysis) is logged and yields []. */
  function ScanContainer(c: Container): seq<string> {
    match c
    case Opened(Parsed(doc)) =>
      (match AnalyzeModelConfig(doc)
       case Some(t) => t
       case None => [])
    case _ => []
  }

  /** `scan_keras_file`: zip first, then HDF5 (scanned only when h5py is
      installed), anything else yields nothing. */
  function ScanKerasFile(h5pyAvailable: bool, f: KerasFile): seq<string> {
    if f.isZip then ScanContainer(f.zip)
    else if IsHdf5(f.bytes) then
      if h5pyAvailable then ScanContainer(f.h5) else [H5PY_MISSING]
    else []
  }

  /** Zip detection wins over the HDF5 signature, and HDF5 without h5py gives
      exactly one warning; every threat from a zip or HDF5 scan is a Lambda
      threat. */
  lemma ScanKerasFileDispatch(h5pyAvailable: bool, f: KerasFile)
    ensures f.isZip ==> ScanKerasFile(h5pyAvailable, f) == ScanContainer(f.zip)
    ensures !f.isZip && IsHdf5(f.bytes) && !h5pyAvailable ==> ScanKerasFile(h5pyAvailable, f) == [H5PY_MISSING]
    ensures !f.isZip && !IsHdf5(f.bytes) ==> ScanKerasFile(h5pyAvailable, f) == []
    ensures f.isZip || h5pyAvailable ==> forall t :: t in ScanKerasFile(h5pyAvailable, f) ==> t == LAMBDA_THREAT
  {
    if f.isZip || (IsHdf5(f.bytes) && h5pyAvailable) {
      var c := if f.isZip then f.zip else f.h5;
      if c.Opened? && c.entry.Parsed? {
        AnalyzeCountsLambdas(c.entry.doc);
      }
    }
  }
}
