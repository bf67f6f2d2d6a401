/** The Jupyter notebook scanner (src/veritensor/engines/static/notebook_engine.py):
    shell "magic" lines in code cells, secrets in cell sources and in the
    text of code cell outputs, and the magic-commenting pass that prepares a
    cell for Python's parser. */
module Notebook {
  import opened PyText
  import opened PyJson
  import opened Rules

  /** Jupyter magics that run shell code. */
  const DANGEROUS_MAGICS: seq<string> := ["!", "%%bash", "%%sh", "%%script", "%%perl", "%%ruby", "%system"]

  const INVALID_JSON := "WARNING: Invalid JSON in .ipynb file"
  const SCAN_ERROR := "WARNING: Scan error: "

  /** The collaborators whose code is not part of this model. */
  datatype Oracles = Oracles(
    isMatch: Matcher,                        // rules.is_match(text, patterns)
    astThreats: (string, nat) -> seq<string>, // ast.parse + _scan_ast_nodes on a cleaned cell ([] on a syntax error)
    repr: Json -> string,                    // str(v) of a value that is not a string
    errorText: string)                       // str(e) of an exception the scan catches

  /** The notebook file: unreadable, not JSON, or a parsed document. */
  datatype NotebookFile = Unreadable | NotJson | Document(doc: Json)

  /** Where a secret was found. */
  datatype Place = InSource | InOutput

  /** The threats collected so far, and whether an exception ended the scan. */
  datatype Run = Run(threats: seq<string>, failed: bool)

  function Prepend(t: seq<string>, run: Run): Run {
    Run(t + run.threats, run.failed)
  }

  lemma PrependAssoc(a: seq<string>, b: seq<string>, run: Run)
    ensures Prepend(a, Prepend(b, run)) == Prepend(a + b, run)
  {
    assert a + (b + run.threats) == (a + b) + run.threats;
  }

  lemma PrependUnit(a: seq<string>, run: Run)
    ensures Prepend([], run) == run
    ensures Prepend(a, Run([], run.failed)) == Run(a, run.failed)
  {
    assert [] + run.threats == run.threats;
    assert a + [] == a;
  }

  /** `str(v)` */
  function PyStr(o: Oracles, v: Json): string {
    if v.JStr? then v.s else o.repr(v)
  }

  /** A cell source or an output text: a list is joined with no separator
      (`None` when an item is not a string), anything else goes through `str`. */
  function TextOf(o: Oracles, v: Json): Option<string> {
    if v.JArr? then JoinStrings(v.items) else Some(PyStr(o, v))
  }

  // ---------------------------------------------------------------------
  // Magic commands.

  function MagicThreat(n: nat, stripped: string): string {
    "HIGH: Jupyter Magic execution detected in cell " + NatToString(n) + ": '" + Take(stripped, 50) + "'"
  }

  /** The threats for one stripped line from the first `j` magics. */
  function LineMagicUpTo(stripped: string, n: nat, j: nat): seq<string>
    requires j <= |DANGEROUS_MAGICS|
  {
    if j == 0 then []
    else
      var hit := if StartsWith(stripped, DANGEROUS_MAGICS[j - 1]) then [MagicThreat(n, stripped)] else [];
      LineMagicUpTo(stripped, n, j - 1) + hit
  }

  function LineMagic(stripped: string, n: nat): seq<string> {
    LineMagicUpTo(stripped, n, |DANGEROUS_MAGICS|)
  }

  /** The threats for the first `i` stripped lines. */
  function MagicUpTo(stripped: seq<string>, n: nat, i: nat): seq<string>
    requires i <= |stripped|
  {
    if i == 0 then [] else MagicUpTo(stripped, n, i - 1) + LineMagic(stripped[i - 1], n)
  }

  /** Every line, stripped. */
  function StripAll(lines: seq<string>): (r: seq<string>)
    ensures |r| == |lines|
    ensures forall k :: 0 <= k < |lines| ==> r[k] == Strip(lines[k])
  {
    seq(|lines|, k requires 0 <= k < |lines| => Strip(lines[k]))
  }

  /** The magic threats of the code cell numbered `n` whose source is `text`. */
  function MagicSpec(text: string, n: nat): seq<string> {
    var stripped := StripAll(SplitLines(text));
    MagicUpTo(stripped, n, |stripped|)
  }

  /** The magic-detection loops of `scan_notebook`: for every line, for every
      dangerous magic the stripped line starts with, one threat. */
  method MagicThreats(text: string, n: nat) returns (threats: seq<string>)
    ensures threats == MagicSpec(text, n)
  {
    var lines := SplitLines(text);
    ghost var stripped := StripAll(lines);
    assert MagicSpec(text, n) == MagicUpTo(stripped, n, |lines|);
    threats := [];
    var i := 0;
    while i < |lines|
      invariant 0 <= i <= |lines|
      invariant threats == MagicUpTo(stripped, n, i)
    {
      var line := Strip(lines[i]);
      assert line == stripped[i];
      var found := LineMagicThreats(line, n);
      assert MagicUpTo(stripped, n, i + 1) == MagicUpTo(stripped, n, i) + LineMagic(stripped[i], n);
      threats := threats + found;
      i := i + 1;
    }
  }

  /** The inner loop: every dangerous magic the stripped line starts with. */
  method LineMagicThreats(stripped: string, n: nat) returns (found: seq<string>)
    ensures found == LineMagic(stripped, n)
  {
    found := [];
    var j := 0;
    while j < |DANGEROUS_MAGICS|
      invariant 0 <= j <= |DANGEROUS_MAGICS|
      invariant found == LineMagicUpTo(stripped, n, j)
    {
      if StartsWith(stripped, DANGEROUS_MAGICS[j]) {
        found := found + [MagicThreat(n, stripped)];
      }
      j := j + 1;
    }
  }

  /** Two prefixes of one string: the shorter is a prefix of the longer. */
  lemma PrefixesAgree(s: string, a: string, b: string)
    requires StartsWith(s, a) && StartsWith(s, b) && |a| <= |b|
    ensures StartsWith(b, a)
  {
    assert b[..|a|] == s[..|b|][..|a|];
  }

  /** No dangerous magic is a prefix of another. */
  lemma MagicsPrefixFree()
    ensures forall i, j :: 0 <= i < |DANGEROUS_MAGICS| && 0 <= j < |DANGEROUS_MAGICS| && i != j ==>
      !StartsWith(DANGEROUS_MAGICS[j], DANGEROUS_MAGICS[i])
  {
    var ms := DANGEROUS_MAGICS;
    forall i, j | 0 <= i < |ms| && 0 <= j < |ms| && i != j
      ensures !StartsWith(ms[j], ms[i])
    {
      if |ms[i]| <= |ms[j]| {
        if i == 0 {
          assert ms[j][0] == '%';
        } else if j == 0 {
        } else {
          assert ms[j][2] != ms[i][2] || ms[j][3] != ms[i][3];
        }
      }
    }
  }

  /** The stripped line starts with one of the first `j` dangerous magics. */
  predicate MagicAmong(stripped: string, j: nat)
    requires j <= |DANGEROUS_MAGICS|
  {
    exists k :: 0 <= k < j && StartsWith(stripped, DANGEROUS_MAGICS[k])
  }

  /** The stripped line starts with one of the dangerous magics. */
  predicate IsMagic(stripped: string) {
    MagicAmong(stripped, |DANGEROUS_MAGICS|)
  }

  /** A line starts with at most one dangerous magic. */
  lemma MagicUnique(stripped: string, a: nat, b: nat)
    requires a < |DANGEROUS_MAGICS| && b < |DANGEROUS_MAGICS|
    requires StartsWith(stripped, DANGEROUS_MAGICS[a]) && StartsWith(stripped, DANGEROUS_MAGICS[b])
    ensures a == b
  {
    var ms := DANGEROUS_MAGICS;
    MagicsPrefixFree();
    if |ms[a]| <= |ms[b]| {
      PrefixesAgree(stripped, ms[a], ms[b]);
    } else {
      PrefixesAgree(stripped, ms[b], ms[a]);
    }
  }

  lemma {:induction false} LineMagicUpToAtMostOne(stripped: string, n: nat, j: nat)
    requires j <= |DANGEROUS_MAGICS|
    ensures LineMagicUpTo(stripped, n, j) == if MagicAmong(stripped, j) then [MagicThreat(n, stripped)] else []
  {
    if j > 0 {
      LineMagicUpToAtMostOne(stripped, n, j - 1);
      var last := StartsWith(stripped, DANGEROUS_MAGICS[j - 1]);
      if last && MagicAmong(stripped, j - 1) {
        var k :| 0 <= k < j - 1 && StartsWith(stripped, DANGEROUS_MAGICS[k]);
        MagicUnique(stripped, k, j - 1);
        assert false;
      }
      if MagicAmong(stripped, j) && !last {
        var k :| 0 <= k < j && StartsWith(stripped, DANGEROUS_MAGICS[k]);
        assert k < j - 1;
      }
      assert MagicAmong(stripped, j) <==> MagicAmong(stripped, j - 1) || last;
    }
  }

  /** No dangerous magic is a prefix of another, so a line yields at most one
      threat: exactly one when it starts with a magic. */
  lemma LineMagicAtMostOne(stripped: string, n: nat)
    ensures LineMagic(stripped, n) == if IsMagic(stripped) then [MagicThreat(n, stripped)] else []
  {
    LineMagicUpToAtMostOne(stripped, n, |DANGEROUS_MAGICS|);
  }

  /** How many of the first `i` stripped lines start with a magic. */
  function MagicLineCount(stripped: seq<string>, i: nat): nat
    requires i <= |stripped|
  {
    if i == 0 then 0 else MagicLineCount(stripped, i - 1) + (if IsMagic(stripped[i - 1]) then 1 else 0)
  }

  /** One HIGH threat per line whose stripped form starts with a dangerous
      magic, naming that line. */
  lemma {:induction false} MagicThreatsPerLine(stripped: seq<string>, n: nat, i: nat)
    requires i <= |stripped|
    ensures |MagicUpTo(stripped, n, i)| == MagicLineCount(stripped, i)
    ensures forall t :: t in MagicUpTo(stripped, n, i) ==>
      exists k :: 0 <= k < i && IsMagic(stripped[k]) && t == MagicThreat(n, stripped[k])
  {
    if i > 0 {
      MagicThreatsPerLine(stripped, n, i - 1);
      LineMagicAtMostOne(stripped[i - 1], n);
      forall t | t in MagicUpTo(stripped, n, i)
        ensures exists k :: 0 <= k < i && IsMagic(stripped[k]) && t == MagicThreat(n, stripped[k])
      {
        if t !in MagicUpTo(stripped, n, i - 1) {
          assert IsMagic(stripped[i - 1]) && t == MagicThreat(n, stripped[i - 1]);
        }
      }
    }
  }

  /** A magic threat names the cell and quotes at most the first 50
      characters of the stripped line. */
  lemma MagicThreatShape(n: nat, stripped: string)
    ensures exists q ::
      && |q| <= 50 && StartsWith(stripped, q)
      && MagicThreat(n, stripped) == "HIGH: Jupyter Magic execution detected in cell " + NatToString(n) + ": '" + q + "'"
  {
    var q := Take(stripped, 50);
    assert |q| <= 50 && StartsWith(stripped, q);
  }

  // ---------------------------------------------------------------------
  // _clean_magics

  /** A line whose stripped form starts with "!" or "%" is commented out. */
  function CleanLine(line: string): string {
    var stripped := Strip(line);
    if StartsWith(stripped, "!") || StartsWith(stripped, "%") then "# " + line else line
  }

  function CleanLines(lines: seq<string>): (r: seq<string>)
    ensures |r| == |lines|
    ensures forall k :: 0 <= k < |lines| ==> r[k] == CleanLine(lines[k])
  {
    seq(|lines|, k requires 0 <= k < |lines| => CleanLine(lines[k]))
  }

  /** `_clean_magics(source)` */
  method CleanMagics(source: string) returns (r: string)
    ensures r == Join("\n", CleanLines(SplitLines(source)))
  {
    var input := SplitLines(source);
    var lines: seq<string> := [];
    var i := 0;
    while i < |input|
      invariant 0 <= i <= |input|
      invariant |lines| == i
      invariant forall k :: 0 <= k < i ==> lines[k] == CleanLine(input[k])
    {
      var line := input[i];
      var stripped := Strip(line);
      var cleaned := if StartsWith(stripped, "!") || StartsWith(stripped, "%") then "# " + line else line;
      assert cleaned == CleanLine(line);
      lines := lines + [cleaned];
      i := i + 1;
    }
    assert lines == CleanLines(input);
    r := Join("\n", lines);
  }

  /** Lines are kept one for one: a magic-looking line becomes "# " plus the
      line, every other line is unchanged, so line numbers are preserved. */
  lemma CleanLinesOneForOne(lines: seq<string>, k: nat)
    requires k < |lines|
    ensures |CleanLines(lines)| == |lines|
    ensures var s := Strip(lines[k]);
      (StartsWith(s, "!") || StartsWith(s, "%") ==> CleanLines(lines)[k] == "# " + lines[k]) &&
      (!StartsWith(s, "!") && !StartsWith(s, "%") ==> CleanLines(lines)[k] == lines[k])
  {
  }

  /** A commented line strips to something starting with "#", so cleaning
      the cleaned lines again changes nothing. */
  lemma CleanLinesIdempotent(lines: seq<string>)
    ensures CleanLines(CleanLines(lines)) == CleanLines(lines)
  {
    var once := CleanLines(lines);
    forall k | 0 <= k < |lines|
      ensures CleanLines(once)[k] == once[k]
    {
      CleanLineIdempotent(lines[k]);
    }
  }

  lemma CleanLineIdempotent(line: string)
    ensures CleanLine(CleanLine(line)) == CleanLine(line)
  {
    var c := CleanLine(line);
    if c != line {
      assert c[0] == '#';
      StripKeepsLead(c);
      var t := Strip(c);
      assert t[..1] != "!" && t[..1] != "%" by { assert t[..1][0] == '#'; }
    }
  }

  // ---------------------------------------------------------------------
  // Secrets.

  function SecretThreat(place: Place, n: nat, pat: string): string {
    match place
    case InSource => "CRITICAL: Secret/Suspicious string in cell " + NatToString(n) + " source: '" + pat + "'"
    case InOutput => "CRITICAL: Leaked secret in cell " + NatToString(n) + " OUTPUT: '" + pat + "'"
  }

  /** Nothing unless the text matches the whole list; then one threat per
      pattern that matches by itself, in pattern order. */
  function SecretSpec(isMatch: Matcher, text: string, pats: seq<string>, place: Place, n: nat): seq<string> {
    Tagged(Matched(isMatch, text, pats), p => SecretThreat(place, n, p))
  }

  method SecretThreats(isMatch: Matcher, text: string, pats: seq<string>, place: Place, n: nat)
    returns (threats: seq<string>)
    ensures threats == SecretSpec(isMatch, text, pats, place, n)
  {
    threats := TagMatches(isMatch, text, pats, p => SecretThreat(place, n, p));
  }

  // ---------------------------------------------------------------------
  // Outputs.

  /** The text of one output: "text" first, else data["text/plain"], else "".
      `None` stands for an exception (a membership test or an index on a
      value that does not support it, a list with a non-string item). */
  function OutputText(o: Oracles, output: Json): Option<string> {
    match Membership(output, "text")
    case None => None
    case Some(true) =>
      (match Index(output, "text")
       case None => None
       case Some(content) => TextOf(o, content))
    case Some(false) =>
      (match Membership(output, "data")
       case None => None
       case Some(false) => Some("")
       case Some(true) =>
         (match Index(output, "data")
          case None => None
          case Some(data) =>
            (match Membership(data, "text/plain")
             case None => None
             case Some(false) => Some("")
             case Some(true) =>
               (match Index(data, "text/plain")
                case None => None
                case Some(content) => TextOf(o, content)))))
  }

  /** The outputs from index `j` on. */
  function OutputsFrom(o: Oracles, pats: seq<string>, outputs: seq<Json>, n: nat, j: nat): Run
    requires j <= |outputs|
    decreases |outputs| - j
  {
    if j == |outputs| then Run([], false)
    else match OutputText(o, outputs[j])
      case None => Run([], true)
      case Some(text) =>
        Prepend(if text != "" then SecretSpec(o.isMatch, text, pats, InOutput, n) else [],
                OutputsFrom(o, pats, outputs, n, j + 1))
  }

  method OutputThreats(o: Oracles, pats: seq<string>, outputs: seq<Json>, n: nat) returns (run: Run)
    ensures run == OutputsFrom(o, pats, outputs, n, 0)
  {
    var threats: seq<string> := [];
    PrependUnit(threats, OutputsFrom(o, pats, outputs, n, 0));
    var j := 0;
    while j < |outputs|
      invariant 0 <= j <= |outputs|
      invariant Prepend(threats, OutputsFrom(o, pats, outputs, n, j)) == OutputsFrom(o, pats, outputs, n, 0)
    {
      var text := OutputText(o, outputs[j]);
      if text.None? {
        PrependUnit(threats, Run([], true));
        return Run(threats, true);
      }
      var found: seq<string> := [];
      if text.value != "" {
        found := SecretThreats(o.isMatch, text.value, pats, InOutput, n);
      }
      PrependAssoc(threats, found, OutputsFrom(o, pats, outputs, n, j + 1));
      threats := threats + found;
      j := j + 1;
    }
    PrependUnit(threats, Run([], false));
    run := Run(threats, false);
  }

  /** "text" wins over data["text/plain"]; an output with neither yields "". */
  lemma OutputTextPrecedence(o: Oracles, fields: seq<(string, Json)>)
    ensures HasKey(fields, "text") ==> OutputText(o, JObj(fields)) == TextOf(o, Lookup(fields, "text").value)
    ensures !HasKey(fields, "text") && HasKey(fields, "data") && Lookup(fields, "data").value.JObj? &&
            HasKey(Lookup(fields, "data").value.fields, "text/plain") ==>
              OutputText(o, JObj(fields)) == TextOf(o, Lookup(Lookup(fields, "data").value.fields, "text/plain").value)
    ensures !HasKey(fields, "text") && !HasKey(fields, "data") ==> OutputText(o, JObj(fields)) == Some("")
  {
  }

  // ---------------------------------------------------------------------
  // Cells.

  /** The Python-AST part of a code cell's scan, on the cleaned source. */
  function AstSpec(o: Oracles, text: string, n: nat): seq<string> {
    var clean := Join("\n", CleanLines(SplitLines(text)));
    if Strip(clean) != "" then o.astThreats(clean, n) else []
  }

  /** The magic and AST part of a code cell's scan. */
  function CodeSpec(o: Oracles, text: string, n: nat): seq<string> {
    MagicSpec(text, n) + AstSpec(o, text, n)
  }

  method CodeThreats(o: Oracles, text: string, n: nat) returns (threats: seq<string>)
    ensures threats == CodeSpec(o, text, n)
  {
    threats := MagicThreats(text, n);
    var clean := CleanMagics(text);
    if Strip(clean) != "" {
      threats := threats + o.astThreats(clean, n);
    }
  }

  /** The outputs part of a code cell's scan: an "outputs" value that cannot
      be iterated raises. */
  function CellOutputsSpec(o: Oracles, pats: seq<string>, fields: seq<(string, Json)>, n: nat): Run {
    if HasKey(fields, "outputs") then
      match Iterate(Lookup(fields, "outputs").value)
      case None => Run([], true)
      case Some(outs) => OutputsFrom(o, pats, outs, n, 0)
    else Run([], false)
  }

  /** The scan of cell number `n`. Magic and AST checks, and outputs, only
      for code cells; the secret scan for every cell. */
  function CellSpec(o: Oracles, pats: seq<string>, cell: Json, n: nat): Run {
    if !cell.JObj? then Run([], true)
    else
      var f := cell.fields;
      var isCode := GetOr(f, "cell_type", JStr("")) == JStr("code");
      match TextOf(o, GetOr(f, "source", JArr([])))
      case None => Run([], true)
      case Some(text) =>
        var code := if isCode then CodeSpec(o, text, n) else [];
        var secrets := SecretSpec(o.isMatch, text, pats, InSource, n);
        Prepend(code + secrets, if isCode then CellOutputsSpec(o, pats, f, n) else Run([], false))
  }

  method ScanCell(o: Oracles, pats: seq<string>, cell: Json, n: nat) returns (run: Run)
    ensures run == CellSpec(o, pats, cell, n)
  {
    if !cell.JObj? { return Run([], true); }
    var f := cell.fields;
    var isCode := GetOr(f, "cell_type", JStr("")) == JStr("code");
    var source := TextOf(o, GetOr(f, "source", JArr([])));
    if source.None? { return Run([], true); }
    var text := source.value;
    var threats: seq<string> := [];
    if isCode {
      threats := CodeThreats(o, text, n);
    }
    var secrets := SecretThreats(o.isMatch, text, pats, InSource, n);
    threats := threats + secrets;
    if isCode && HasKey(f, "outputs") {
      var outs := Iterate(Lookup(f, "outputs").value);
      if outs.None? {
        PrependUnit(threats, Run([], true));
        return Run(threats, true);
      }
      var found := OutputThreats(o, pats, outs.value, n);
      return Prepend(threats, found);
    }
    PrependUnit(threats, Run([], false));
    run := Run(threats, false);
  }

  /** The cells from index `i` on; cell `i` is numbered `i + 1`. */
  function CellsFrom(o: Oracles, pats: seq<string>, cells: seq<Json>, i: nat): Run
    requires i <= |cells|
    decreases |cells| - i
  {
    if i == |cells| then Run([], false)
    else
      var c := CellSpec(o, pats, cells[i], i + 1);
      if c.failed then c else Prepend(c.threats, CellsFrom(o, pats, cells, i + 1))
  }

  /** An exception ends the scan; its warning follows what was found. */
  function Finish(o: Oracles, run: Run): seq<string> {
    if run.failed then run.threats + [SCAN_ERROR + o.errorText] else run.threats
  }

  /** `scan_notebook` */
  function NotebookSpec(o: Oracles, pats: seq<string>, file: NotebookFile): seq<string> {
    match file
    case Unreadable => [SCAN_ERROR + o.errorText]
    case NotJson => [INVALID_JSON]
    case Document(doc) =>
      match Membership(doc, "cells")
      case None => [SCAN_ERROR + o.errorText]
      case Some(false) => []
      case Some(true) =>
        match Index(doc, "cells")
        case None => [SCAN_ERROR + o.errorText]
        case Some(cells) =>
          match Iterate(cells)
          case None => [SCAN_ERROR + o.errorText]
          case Some(cs) => Finish(o, CellsFrom(o, pats, cs, 0))
  }

  /** `scan_notebook`: `pats` are the suspicious strings of the signature set. */
  method ScanNotebook(o: Oracles, pats: seq<string>, file: NotebookFile) returns (threats: seq<string>)
    ensures threats == NotebookSpec(o, pats, file)
  {
    if file.Unreadable? { return [SCAN_ERROR + o.errorText]; }
    if file.NotJson? { return [INVALID_JSON]; }
    var doc := file.doc;
    var hasCells := Membership(doc, "cells");
    if hasCells.None? { return [SCAN_ERROR + o.errorText]; }
    if !hasCells.value { return []; }
    var cellsValue := Index(doc, "cells");
    if cellsValue.None? { return [SCAN_ERROR + o.errorText]; }
    var iter := Iterate(cellsValue.value);
    if iter.None? { return [SCAN_ERROR + o.errorText]; }
    var cells := iter.value;
    threats := [];
    PrependUnit(threats, CellsFrom(o, pats, cells, 0));
    var i := 0;
    while i < |cells|
      invariant 0 <= i <= |cells|
      invariant Prepend(threats, CellsFrom(o, pats, cells, i)) == CellsFrom(o, pats, cells, 0)
    {
      var c := ScanCell(o, pats, cells[i], i + 1);
      if c.failed {
        return Finish(o, Prepend(threats, c));
      }
      PrependAssoc(threats, c.threats, CellsFrom(o, pats, cells, i + 1));
      threats := threats + c.threats;
      i := i + 1;
    }
    PrependUnit(threats, Run([], false));
  }

  /** A file that is not JSON yields only the invalid-JSON warning; a dict
      without "cells" yields nothing. */
  lemma NotebookWithoutCells(o: Oracles, pats: seq<string>, fields: seq<(string, Json)>)
    ensures NotebookSpec(o, pats, NotJson) == [INVALID_JSON]
    ensures !HasKey(fields, "cells") ==> NotebookSpec(o, pats, Document(JObj(fields))) == []
  {
  }

  /** A cell that is not a code cell is only scanned for secrets in its
      source: no magic, AST or output threats. */
  lemma NonCodeCellOnlySecrets(o: Oracles, pats: seq<string>, fields: seq<(string, Json)>, n: nat)
    requires GetOr(fields, "cell_type", JStr("")) != JStr("code")
    requires TextOf(o, GetOr(fields, "source", JArr([]))).Some?
    ensures CellSpec(o, pats, JObj(fields), n) ==
      Run(SecretSpec(o.isMatch, TextOf(o, GetOr(fields, "source", JArr([]))).value, pats, InSource, n), false)
  {
    var text := TextOf(o, GetOr(fields, "source", JArr([]))).value;
    assert [] + SecretSpec(o.isMatch, text, pats, InSource, n) + [] == SecretSpec(o.isMatch, text, pats, InSource, n);
  }

  /** The scan of the cells fails exactly when the scan of one of them
      raises; the cells before it keep their threats. */
  lemma {:induction false} CellsFailIff(o: Oracles, pats: seq<string>, cells: seq<Json>, i: nat)
    requires i <= |cells|
    ensures CellsFrom(o, pats, cells, i).failed <==>
      exists k :: i <= k < |cells| && CellSpec(o, pats, cells[k], k + 1).failed
    decreases |cells| - i
  {
    if i < |cells| {
      CellsFailStep(o, pats, cells, i);
      CellsFailIff(o, pats, cells, i + 1);
      if CellSpec(o, pats, cells[i], i + 1).failed {
        assert i <= i < |cells| && CellSpec(o, pats, cells[i], i + 1).failed;
      } else if CellsFrom(o, pats, cells, i + 1).failed {
        var k :| i + 1 <= k < |cells| && CellSpec(o, pats, cells[k], k + 1).failed;
        assert i <= k < |cells|;
      } else {
        forall k | i <= k < |cells|
          ensures !CellSpec(o, pats, cells[k], k + 1).failed
        {
          if k > i {
            assert i + 1 <= k < |cells|;
          }
        }
      }
    }
  }

  /** The scan from cell `i` on fails when cell `i` raises or the scan of
      the cells after it fails. */
  lemma CellsFailStep(o: Oracles, pats: seq<string>, cells: seq<Json>, i: nat)
    requires i < |cells|
    ensures CellsFrom(o, pats, cells, i).failed <==>
      CellSpec(o, pats, cells[i], i + 1).failed || CellsFrom(o, pats, cells, i + 1).failed
  {
  }
}
