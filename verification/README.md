# Aegis / Veritensor scanner core in Dafny

This project models the decision and transformation routines of the
Aegis (later Veritensor) AI-model security scanner, and proves what they
promise. The modelled routines are:

- **`scan` command** (`Cli`): one record per file, identity verification
  against the Hugging Face registry, static-engine dispatch by extension,
  the `has_critical_errors` flag, and the block / forced-approval / clean
  decision. It also covers the identity and threat columns of the result
  table.
- **Jupyter notebook scanner** (`Notebook`): cell source and output
  normalisation, dangerous-magic detection, `_clean_magics`, secret
  scanning of sources and outputs.
- **Dataset scanner** (`Dataset`): the CSV, JSONL and Parquet streams with
  their row limits, the recursive string extractor for JSON values, and
  the sampling scan loop that fails fast on an injection.
- **Document scanner** (`Injection`): the sliding-window text reader, the
  PDF, DOCX and PPTX extractors with their caps, the extension dispatch,
  and the fail-fast scan loop.
- **Keras analyser** (`Keras`): the recursive search for `Lambda` layers
  through nested models, the HDF5 signature check, and the zip/HDF5
  format dispatch.
- **Configuration loader** (`Config`): environment over YAML over
  defaults, the cached singleton, and `get_safe_modules`.
- **Cosign integration** (`Cosign`): key selection, the `cosign sign`
  command line, exit-status handling with key-path redaction, temporary
  key cleanup, and `generate_key_pair`.

Two shared modules give the Python semantics the code relies on:

- `PyText` covers `str` operations: `strip`, `splitlines`, `startswith`,
  `in`, `replace`, `split`, `join`, `lower` (for every character whose
  lower case is an ASCII letter, which includes the KELVIN SIGN U+212A)
  and `PurePath.suffix`.
- `PyJson` covers parsed JSON/YAML values, with dict lookup and Python's
  iteration and membership rules.
- `Rules` models the "match the whole list, then report each pattern that
  matches on its own" idiom the scanners share. The matcher itself is a
  parameter.

Code whose source is not part of this model becomes a parameter: a
function-valued one, or the values it returns. This covers `is_match`,
`PIIScanner.scan`, `scan_pickle_stream`, `calculate_sha256`, the Hugging
Face client, the AST scan of notebook cells, the signature lists of
`SignatureLoader`, `str()`/`repr()` of non-strings, `subprocess.run` and
temporary-file creation. Files are given as what their reader yields.
Where such code can raise and the scanner catches it, the parameter
returns an explicit error (`PIIScanner.scan`, `scan_pickle_stream`,
`calculate_sha256`, `verify_file_hash`). `is_match` and the
signature loader are the exception: they are modelled as never raising
(see "## Left out").

Loops that build a result step by step are Dafny methods, each proved
equal to a specification function. This covers the scan loops of every
engine, the file readers and document extractors, `_clean_magics`, and
the builder of the `cosign sign` command line. The properties are then proved as lemmas about
those functions.

Some loops and comprehensions became recursive functions instead, because
what they compute is a plain value:

- the column and value loops of `_stream_parquet`
  (`Dataset.BatchStrings`, `Dataset.ColumnTexts`);
- the recursion of `_extract_strings_from_json` (`Dataset.ExtractStrings`);
- the `"\n".join` comprehensions.

The loop of `_print_table` that renders rows is left out; only the cells
it fills are modelled.
The configuration loader's class-level cache is a class with an `instance`
field.

## Model

| member | source | states |
|---|---|---|
| Cli.ExtensionsDisjoint | scanner/src/aegis/cli/main.py:34-35 | No extension selects both the pickle and the Keras engine |
| Cli.CheckIdentity | scanner/src/aegis/cli/main.py:93-113 | Part A of the loop body yields the identity record: a hashing failure adds a "Hashing Error" threat; only with a repository is the registry consulted, and its verdict sets the flag or adds the mismatch or not-found threat |
| Cli.IdentityOutcome | scanner/src/aegis/cli/main.py:94-113 | The identity check adds at most one threat; the hash is recorded exactly when hashing succeeded; the file is verified exactly when the hash was computed, a repository was given and the registry answered VERIFIED, and a verified file has no threat |
| Cli.StaticThreats | scanner/src/aegis/cli/main.py:88-125 | Part B: a pickle extension runs the pickle engine (a read failure becomes one "Scan Error"), a Keras extension runs the Keras engine, any other extension yields no threat; the extension is lower-cased as Python does |
| Cli.KelvinSignSelectsEngine | scanner/src/aegis/cli/main.py:88-125 | A KELVIN SIGN in a name lowers to "k": "m.\u212Aeras" goes to the Keras engine and "w.c\u212Apt" to the pickle engine |
| Cli.ScanFile | scanner/src/aegis/cli/main.py:87-135 | One file's record is its identity record followed by the engine threats in order, and the file is critical exactly as part C says |
| Cli.CriticalCases | scanner/src/aegis/cli/main.py:128-135 | Engine threats always make a file critical; without a repository nothing else does; with one, a hash mismatch makes it critical, and a verified file is critical only through engine threats |
| Cli.VerifiedOtherFileIsClean | scanner/src/aegis/cli/main.py:116-135 | A verified file whose extension selects no engine has no threats and is not critical |
| Cli.ScanFiles | scanner/src/aegis/cli/main.py:75-137 | The loop keeps one record per file, in scan order, and `has_critical_errors` ends true exactly when some file is critical (it is never reset) |
| Cli.Scan | scanner/src/aegis/cli/main.py:59-164 | The command ends as the reference outcome: path not found, blocked, or finished with a signing status and an optional image |
| Cli.DecisionCases | scanner/src/aegis/cli/main.py:60-164 | Path not found exactly for a missing path; blocked exactly when some file is critical without `--force`; otherwise one record per file, "clean" exactly when nothing is critical, "forced_approval" exactly when something is, signing exactly when an image is given; exit code 0 exactly when finished |
| Cli.IdentityCell | scanner/src/aegis/cli/main.py:177-182 | The Identity column is Verified exactly for a verified file, Unchecked exactly for an unverified file with a non-empty hash, Error otherwise |
| Cli.ThreatTextShowsAll | scanner/src/aegis/cli/main.py:184 | Every threat of a record appears in its Threats column |
| Notebook.MagicThreats | src/veritensor/engines/static/notebook_engine.py:50-55 | The nested magic loops yield the threats of the reference description, line by line and magic by magic |
| Notebook.LineMagicThreats | src/veritensor/engines/static/notebook_engine.py:52-55 | The inner loop over `DANGEROUS_MAGICS` yields one threat per magic the stripped line starts with |
| Notebook.MagicsPrefixFree | src/veritensor/engines/static/notebook_engine.py:14-16 | No dangerous magic is a prefix of another |
| Notebook.LineMagicAtMostOne | src/veritensor/engines/static/notebook_engine.py:50-55 | Because of that, a line yields exactly one magic threat if its stripped form starts with a dangerous magic, and none otherwise |
| Notebook.MagicThreatsPerLine | src/veritensor/engines/static/notebook_engine.py:50-55 | A cell yields as many magic threats as it has magic lines, and each threat comes from one such line |
| Notebook.MagicThreatShape | src/veritensor/engines/static/notebook_engine.py:55 | A magic threat names the 1-based cell number and quotes a prefix of at most 50 characters of the stripped line |
| Notebook.StripAll | src/veritensor/engines/static/notebook_engine.py:50-51 | Every line is stripped, one for one |
| Notebook.CleanMagics | src/veritensor/engines/static/notebook_engine.py:104-113 | `_clean_magics` joins with "\n" the cleaned form of each line of `splitlines` |
| Notebook.CleanLines | src/veritensor/engines/static/notebook_engine.py:107-112 | One output line per input line, each the cleaned input line |
| Notebook.CleanLinesOneForOne | src/veritensor/engines/static/notebook_engine.py:104-113 | Lines are kept one for one: a line whose stripped form starts with "!" or "%" becomes "# " plus the line, every other line is unchanged |
| Notebook.CleanLineIdempotent | src/veritensor/engines/static/notebook_engine.py:108-112 | Cleaning a cleaned line changes nothing, since a commented line strips to something starting with "#" |
| Notebook.CleanLinesIdempotent | src/veritensor/engines/static/notebook_engine.py:108-112 | Cleaning the cleaned lines again changes nothing |
| Notebook.SecretThreats | src/veritensor/engines/static/notebook_engine.py:72-96 | The secret scan reports nothing unless the text matches the whole list, then one CRITICAL threat per pattern that matches on its own, in list order |
| Notebook.OutputTextPrecedence | src/veritensor/engines/static/notebook_engine.py:80-89 | An output's text is its "text" if present, else `data["text/plain"]` if present, else "" |
| Notebook.OutputThreats | src/veritensor/engines/static/notebook_engine.py:78-96 | The loop over a cell's outputs yields the reference run: secrets of each non-empty output text, in order, stopping at the first output that raises |
| Notebook.CodeThreats | src/veritensor/engines/static/notebook_engine.py:48-68 | A code cell's magic threats followed by the AST threats of its cleaned source, which is parsed only when it is not blank |
| Notebook.ScanCell | src/veritensor/engines/static/notebook_engine.py:37-96 | One cell's scan equals the reference: source normalisation, code checks only for code cells, the secret scan for every cell, outputs only for code cells that have them |
| Notebook.NonCodeCellOnlySecrets | src/veritensor/engines/static/notebook_engine.py:48-78 | A cell that is not a code cell yields only the secret threats of its source |
| Notebook.ScanNotebook | src/veritensor/engines/static/notebook_engine.py:18-102 | The whole scan equals the reference: invalid JSON, missing "cells", or the cells in order with 1-based numbers, and the scan-error warning after what was found when something raises |
| Notebook.NotebookWithoutCells | src/veritensor/engines/static/notebook_engine.py:26-32 | Invalid JSON yields exactly the invalid-JSON warning; a dict without "cells" yields nothing |
| Notebook.CellsFailIff | src/veritensor/engines/static/notebook_engine.py:37-100 | The scan of the cells fails exactly when the scan of one of them raises |
| PyJson.JoinStringsConcat | src/veritensor/engines/static/notebook_engine.py:42-43 | A list of strings is normalised to their concatenation with no separator |
| PyJson.JoinStrings | src/veritensor/engines/static/notebook_engine.py:42-43 | `"".join` of a list succeeds exactly when every item is a string |
| Dataset.ReadGroups | src/veritensor/engines/data/dataset_engine.py:120-145 | The reader loop over rows (or lines, or batches) yields the reference stream |
| Dataset.ReadLimits | src/veritensor/engines/data/dataset_engine.py:116-145 | With no limit (or limit 0) the reader yields every item and the read error; with a limit it yields the items of the first ceil(limit/per) groups and no error if there are that many, else every item and the error |
| Dataset.NeededIsLeast | src/veritensor/engines/data/dataset_engine.py:116-118 | The number of groups read under a limit is the least positive count whose items reach the limit |
| Dataset.StreamCsv | src/veritensor/engines/data/dataset_engine.py:120-130 | `_stream_csv` yields the cells of the rows in row-major order, one row per counted step |
| Dataset.JsonlGroups | src/veritensor/engines/data/dataset_engine.py:136-141 | One group per line: the strings of a decoded line, nothing for an undecodable one |
| Dataset.StreamJsonl | src/veritensor/engines/data/dataset_engine.py:132-145 | `_stream_jsonl` yields the strings of each line, and an undecodable line still counts toward the limit |
| Dataset.ColumnTexts | src/veritensor/engines/data/dataset_engine.py:112-114 | One text per cell, in order: a cell's string, or "None" for a null cell (iterating a pyarrow array yields scalars, so `val is not None` never skips one) |
| Dataset.BatchStrings | src/veritensor/engines/data/dataset_engine.py:110-114 | A batch yields exactly the texts of the cells of its string columns, "None" for each null cell |
| Dataset.ParquetGroups | src/veritensor/engines/data/dataset_engine.py:109-114 | One group of strings per batch |
| Dataset.StreamParquet | src/veritensor/engines/data/dataset_engine.py:94-118 | An unopenable file ends the stream with its error, a file without string columns yields nothing, otherwise the batches of 1000 rows are read under the limit |
| Dataset.ExtractSkipsKeys | src/veritensor/engines/data/dataset_engine.py:150-152 | A dict yields what the list of its values yields: keys never appear |
| Dataset.ExtractConcat | src/veritensor/engines/data/dataset_engine.py:153-155 | A list's strings are the strings of its parts, concatenated in order |
| Dataset.ScanStream | src/veritensor/engines/data/dataset_engine.py:59-90 | The scan loop yields the reference threats: short chunks skipped, chunks cut to 4096 characters, fail fast on an injection, MEDIUM threats per suspicious pattern, stop at the sampling limit, and the read error last |
| Dataset.ScanDataset | src/veritensor/engines/data/dataset_engine.py:26-92 | `scan_dataset` dispatches on the lower-cased extension and scans the chosen stream |
| Dataset.DispatchCases | src/veritensor/engines/data/dataset_engine.py:45-57 | An extension other than the three dataset ones yields nothing; Parquet without pyarrow yields only the warning |
| Dataset.OnlyLastNotMedium | src/veritensor/engines/data/dataset_engine.py:70-90 | Every threat but the last is a MEDIUM finding: an injection and a read error each end the scan |
| Dataset.SuspiciousIsMedium | src/veritensor/engines/data/dataset_engine.py:81-82 | A suspicious-pattern threat is a MEDIUM threat |
| Dataset.SamplingStops | src/veritensor/engines/data/dataset_engine.py:84-86 | Once the limit of scanned chunks is reached nothing after is looked at, neither later chunks nor the read error |
| Dataset.ShortChunkIgnored | src/veritensor/engines/data/dataset_engine.py:62-63 | A chunk shorter than five characters changes neither the threats nor the sampling count |
| Dataset.ScanSeesOnlyScanned | src/veritensor/engines/data/dataset_engine.py:60-86 | The scan of a stream equals the scan of its chunks of five or more characters alone |
| Dataset.ParquetNullsIgnored | src/veritensor/engines/data/dataset_engine.py:59-118 | The "None" text of a null Parquet cell is too short to be scanned: a file's threats equal those of the same file without its null cells |
| Injection.ReadTextSliding | src/veritensor/engines/content/injection.py:108-117 | The reader loop yields the reference windows |
| Injection.SlidingSmall | src/veritensor/engines/content/injection.py:111-117 | Empty text yields no window; text of at most one chunk yields exactly itself |
| Injection.SlideBounds | src/veritensor/engines/content/injection.py:108-117 | The number of windows is the number of non-empty reads, ceil(length / CHUNK_SIZE), and each window has at most CHUNK_SIZE + OVERLAP_SIZE characters |
| Injection.SlidingRoundTrip | src/veritensor/engines/content/injection.py:113-117 | Dropping each later window's overlap prefix and concatenating the windows gives back the text |
| Injection.WindowsCover | src/veritensor/engines/content/injection.py:113-117 | Any stretch of at most OVERLAP_SIZE + 1 characters of the text lies whole inside one window |
| Injection.ReadPdf | src/veritensor/engines/content/injection.py:123-135 | `_read_pdf` joins with "\n" the non-empty texts of the first min(n, 50) pages, and yields "" when the file or a page extraction raises |
| Injection.PdfFirstPagesOnly | src/veritensor/engines/content/injection.py:127 | Pages after the fiftieth change nothing |
| Injection.ReadDocx | src/veritensor/engines/content/injection.py:137-147 | `_read_docx` joins with "\n" the first min(n, 2000) paragraphs, or yields "" when the file cannot be read |
| Injection.ExtractPptx | src/veritensor/engines/content/injection.py:149-161 | The nested loops collect the text of each shape that has one, slide by slide, up to the shape that raises, and join them with "\n" |
| Injection.PptxKeepsRuns | src/veritensor/engines/content/injection.py:155-158 | A text is collected exactly when some shape of the read slides carries it |
| Injection.ReadPieces | src/veritensor/engines/content/injection.py:63-83 | The dispatch yields the reference pieces: windows for text extensions, the whole extracted text (nothing when empty) for an available document library, no scan otherwise; the extension is lower-cased as Python does |
| Injection.KelvinSignTextFile | src/veritensor/engines/content/injection.py:63-71 | A KELVIN SIGN lowers to "k": "notes.wi\u212Ai" has the extension ".wiki" and is read as a text file |
| Injection.ScanPieces | src/veritensor/engines/content/injection.py:85-106 | The scan loop yields the reference threats, failing fast on an injection, on PII, or on an error |
| Injection.ScanDocument | src/veritensor/engines/content/injection.py:58-106 | `scan_document` equals the reference: dispatch, then scan of the pieces |
| Injection.OneEvent | src/veritensor/engines/content/injection.py:85-106 | The scan reports one event: nothing, one injection naming a signature, one error, or the PII findings of one piece without injection |
| Injection.DispatchCases | src/veritensor/engines/content/injection.py:71-83 | An extension (lower-cased as Python does) that is supported by no branch yields nothing, as does a non-text file with no document library, and an empty text file |
| Keras.Analyze | scanner/src/aegis/engines/static/keras_engine.py:108-141 | The layer loop with its recursion yields the reference analysis (None where `.get` is called on a non-dict) |
| Keras.LayerThreats | scanner/src/aegis/engines/static/keras_engine.py:123-139 | One layer contributes its own Lambda threat, then what its nested model yields |
| Keras.AnalyzeCountsLambdas | scanner/src/aegis/engines/static/keras_engine.py:108-141 | The analysis yields exactly one Lambda threat per Lambda layer reachable through nested Model/Functional/Sequential layers, and nothing else; it raises exactly where the visit does |
| Keras.NestedCountsLambdas | scanner/src/aegis/engines/static/keras_engine.py:137-139 | A nested model yields one Lambda threat per Lambda layer it reaches |
| Keras.WrappedConfig | scanner/src/aegis/engines/static/keras_engine.py:116 | A root with a "config" is analysed through that value |
| Keras.LayersNotAList | scanner/src/aegis/engines/static/keras_engine.py:117-120 | A model without "layers", or with "layers" that is not a list, yields nothing |
| Keras.AnalyzeEmptyConfig | scanner/src/aegis/engines/static/keras_engine.py:138 | The default nested config `{}` yields nothing |
| Keras.IsHdf5 | scanner/src/aegis/engines/static/keras_engine.py:50-58 | True exactly when the file can be read and its first 8 bytes are the HDF5 signature |
| Keras.ScanKerasFileDispatch | scanner/src/aegis/engines/static/keras_engine.py:24-47 | Zip wins over HDF5; HDF5 without h5py yields exactly one warning; any other format yields nothing; every threat of a scanned container is a Lambda threat |
| Config.FieldsMap | scanner/src/aegis/core/config.py:84-85 | `update` with the document's items: the keys are exactly the document's, and each value is the one of an item with that key |
| Config.ConfigLoader.Load | scanner/src/aegis/core/config.py:65-115 | With a cached instance, that instance whatever the file; otherwise the merge of file and environment, which becomes the cached one |
| Config.ConfigLoader.GetSafeModules | scanner/src/aegis/core/config.py:117-130 | Loads the configuration (the cached one if any, otherwise the merge of file and environment, which becomes the cached one) and returns the built-in set united with its allowed modules |
| Config.SafeModules | scanner/src/aegis/core/config.py:127-130 | The union is defined exactly when `allowed_modules` is iterable with hashable items, and then holds exactly the built-in names and the allowed items |
| Config.SafeModulesOfList | scanner/src/aegis/core/config.py:124-130 | For a list of names, the safe set is exactly the built-in names and the listed ones |
| Config.WithEnvGet | scanner/src/aegis/core/config.py:90-103 | After the overrides, AEGIS_FAIL_ON sets fail_on_severity, AEGIS_PRIVATE_KEY_PATH sets private_key_path, AEGIS_HF_TOKEN or else HF_TOKEN sets hf_token, and every other key keeps the file's value |
| Config.HfTokenPrecedence | scanner/src/aegis/core/config.py:92-109 | AEGIS_HF_TOKEN beats HF_TOKEN, which beats the file, which beats None |
| Config.EnvOverrides | scanner/src/aegis/core/config.py:98-113 | AEGIS_PRIVATE_KEY_PATH and AEGIS_FAIL_ON override the file; allowed_modules, ignored_rules and output_format come from the file or their defaults whatever the environment holds |
| Config.DefaultsWhenNothingGiven | scanner/src/aegis/core/config.py:73-113 | With no file values and no variable set, every field takes its default |
| Config.UnusableFileIgnored | scanner/src/aegis/core/config.py:76-88 | An empty or None document, an unparsable file, or a file without PyYAML counts as no file |
| Config.FileValuesUsed | scanner/src/aegis/core/config.py:83-113 | A key the file sets reaches the configuration unless a variable overrides it |
| Cosign.BuildCommand | scanner/src/aegis/integrations/cosign.py:70-81 | The command list built by the loop is the reference command |
| Cosign.CommandShape | scanner/src/aegis/integrations/cosign.py:70-81 | The command has 7 + 2n words: the seven fixed words with the key, the tlog flag and the image, then `-a` and `k=v` for each annotation, in order |
| Cosign.RedactReplacesEvery | scanner/src/aegis/integrations/cosign.py:99 | Redaction is the marker joining the pieces between occurrences of the key path, none of which contains it; output without the key path is unchanged |
| Cosign.DefaultArguments | scanner/src/aegis/integrations/cosign.py:27-33 | With `annotations` and `tlog_upload` omitted, signing with a key path runs exactly the seven fixed words with `--tlog-upload=false`; with no key argument at all, an installed cosign reports the missing key |
| Cosign.SignContainer | scanner/src/aegis/integrations/cosign.py:27-115 | `sign_container` ends as the reference outcome, and deletion of the temporary key file is attempted exactly when one was created, on every exit path |
| Cosign.SignCases | scanner/src/aegis/integrations/cosign.py:48-100 | A missing binary is reported first; a key path wins over key content; no key is an error; success means cosign exited 0 with some non-empty key |
| Cosign.FailureMessage | scanner/src/aegis/integrations/cosign.py:97-100 | A failing exit reports its code and the error output with every key-path occurrence replaced by the marker |
| Cosign.GenerateKeyPair | scanner/src/aegis/integrations/cosign.py:118-130 | Keys are generated exactly when cosign is installed and `cosign generate-key-pair`, run in the output directory, exits with 0; the launch's OSError escapes exactly when cosign is installed and launching fails; a missing binary ends exactly with "Cosign binary not found."; a non-zero exit with "Failed to generate keys: " followed by the `CalledProcessError` text, which never equals the not-found message |
| Cosign.KeygenFailureNamesStatus | scanner/src/aegis/integrations/cosign.py:127-130 | A non-zero exit raises CosignError whose message contains the exit status |
| Rules.FindFirst | src/veritensor/engines/content/injection.py:88-92 | The first-injection loop returns the first signature that matches on its own, if the whole list matches |
| Rules.FirstMatchFromIsHead | src/veritensor/engines/data/dataset_engine.py:70-75 | The pattern reported is the least-indexed pattern that matches on its own, and there is none exactly when no pattern does |
| Rules.TagMatches | src/veritensor/engines/data/dataset_engine.py:77-82 | The loop over the suspicious patterns yields one tagged threat per matching pattern, in order |
| Rules.MatchedLists | src/veritensor/engines/static/notebook_engine.py:72-75 | The patterns reported are exactly those that match on their own, in list order, and none unless the whole list matches |
| PyText.Take | src/veritensor/engines/data/dataset_engine.py:66-67 | A chunk is cut to a prefix of at most 4096 characters, and shorter chunks are left as they are |
| PyText.LastN | src/veritensor/engines/content/injection.py:117 | The overlap is the last min(4096, length) characters of the chunk |
| PyText.ExtensionIsLowerSuffix | src/veritensor/engines/data/dataset_engine.py:31 | The extension scanned by the dispatchers is the lower-cased `PurePath.suffix`, with A to Z and the KELVIN SIGN folded to ASCII lower case |
| PyText.Suffix | src/veritensor/engines/data/dataset_engine.py:31 | A suffix is empty, or starts with a dot and has at least two characters |
| PyText.ReplaceIsJoinSplit | scanner/src/aegis/integrations/cosign.py:99 | `s.replace(p, r)` equals `r.join(s.split(p))` |
| PyText.SplitPartsFree | scanner/src/aegis/integrations/cosign.py:99 | No piece of `s.split(p)` contains `p` |

## Left out

- `is_match` (a total `Rules.Matcher`) and `SignatureLoader` (plain pattern lists) are modelled as never raising. In the source both run inside each scan's `try`: a raise, such as a `re.error` from a malformed signature, would end the scan with its warning after the threats found so far. The affected warnings are injection.py:102-104, dataset_engine.py:88-90 and notebook_engine.py:98-100. The model ends a scan this way only for reader, PII, hashing, registry and pickle errors, and for the structural errors of notebook cells. Its lemmas say nothing about matcher failures.
- The Rich console, the table and progress rendering, Typer argument parsing and logging are user interface and plumbing.
- JSON output of the results and the `status` column of the table are left out. `ScanResult` and its `status` come from `aegis.core.types`, which is not part of this model.
- `_perform_signing` and `keygen` in `main.py` have `pass` bodies. The model records only whether signing is reached and with which image and status.
- `main.py` imports `is_cosign_available`, but `cosign.py` defines `is_cosign_installed`. As written, the import would fail; the model treats the binary check as an input.
- `_scan_ast_nodes` depends on Python's `ast` module. It is a parameter of the notebook model.
- `is_match`, `get_severity`, `SignatureLoader`, `PIIScanner`, `calculate_sha256`, the Hugging Face client, `scan_pickle_stream` and `SAFE_MODULES` are not part of this model. They are parameters, and no property depends on what they compute.
- File reading, `rglob`, and zip, h5py, pyarrow, pypdf, python-docx and python-pptx parsing are inputs. Each file is given as what its reader yields, with the exception it may raise as an explicit error value.
- Text-mode newline translation and `errors="ignore"` decoding are not modelled: a text file is given as its decoded contents.
- Cosign: the process is an input function of the command line. `os.environ.copy()`, the process's standard output and the log messages are left out.
- Cosign.GenerateKeyPair: a process killed by a signal has a negative status, for which Python's `CalledProcessError` text names the signal ("died with <Signals.SIGKILL: 9>."). The model renders every non-zero status as "returned non-zero exit status N.". Whether an interactive password prompt is answered is part of the process input.
- PyText.Lower: only A to Z and U+212A are folded. Python also lowers other non-ASCII letters, but every such mapping yields at least one non-ASCII character (U+0130 becomes "i\u0307"). Such a result can never equal one of the ASCII extensions the dispatchers compare against, so no dispatch changes. The length-preserving result is exact only for the characters modelled.
- `Cosign.SignContainer`: the temporary file's deletion is recorded as a ghost list of names whose deletion was attempted. A failing deletion is only logged in the source, so it does not change the outcome.
- Config.FieldsMap: the contract says each value comes from some item with that key, not that the last such item wins, which is what `dict.update` does (and what the function computes). `dict.update` also accepts a list of pairs; every document that is not a mapping is treated as skipped.
- `Config.SafeModules`: the result is a set of JSON values, so names from YAML that are not strings stay distinct values. Python would hash them the same way.
- `Notebook.ScanNotebook`: the text of the scan-error warning comes from a parameter, because `str(e)` of the raised exception is not modelled.
- `Injection.ExtractPptx`: an exception while reading a slide is modelled as the point where the enumeration of shapes stops. What was collected before it is kept, as in the source.
- `DOC_EXTS` in `injection.py` is defined but never used in the dispatch. The model keeps the constant for stating `Injection.DispatchCases`.
- `Cli.ScanFile`: `"CRITICAL" in str(scan_res.threats)` is modelled as "some threat contains CRITICAL". A list's `repr` cannot create upper-case letters, and its separators break any occurrence that would span two items.
- `Dataset.ScanStream`: the source calls its counter `row_count`, but it counts scanned chunks (strings), not rows. The model follows the code.
- `Notebook.CleanLinesIdempotent`: idempotence is stated on the list of lines. Re-splitting the joined text can differ from the lines themselves: `splitlines` drops a trailing empty line, as in "a\n\n".
- The action's entrypoint script is not part of this model.
