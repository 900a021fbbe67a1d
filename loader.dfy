/**
 * Loading a parsed program (src/main.cpp, before the pipeline loop): the leading run of
 * variable-definition directives fills the data segment, and every following line is
 * decoded into the code array while the table of instruction labels is built.
 */
module Loader {
  import opened Wrappers
  import opened Ints
  import opened ParserAux
  import opened Simulator
  import opened Translator

  /** Why loading stops; `line` is the 1-based line number the diagnostic prints. */
  datatype LoadError =
    | BadDefinition(line: nat, error: DecodeError)
    | LateDirective(line: nat)
    | BadInstruction(line: nat, error: DecodeError)
    | DuplicateLabel(line: nat, name: string)
    | UnknownLabel(line: nat, name: string)

  /** The decoded code array and the label table mapping each label to its code index. */
  datatype Program = Program(code: seq<Instruction>, labels: map<string, nat>)

  /** What the tokenizer guarantees of every record it returns. */
  predicate AllValid(instrs: seq<RawInstruction>)
  {
    forall i :: 0 <= i < |instrs| ==> instrs[i].Valid()
  }

  // ---------------------------------------------------------------------------
  // Variable declarations
  // ---------------------------------------------------------------------------

  /** The length of the leading run of directives: the declaration loop stops at the first other line. */
  function DirectiveRun(instrs: seq<RawInstruction>): (n: nat)
    ensures n <= |instrs|
    ensures forall i :: 0 <= i < n ==> IsVarDef(instrs[i])
    ensures n < |instrs| ==> !IsVarDef(instrs[n])
  {
    if instrs == [] || !IsVarDef(instrs[0]) then 0
    else
      var rest := DirectiveRun(instrs[1..]);
      assert forall i :: 1 <= i < 1 + rest ==> instrs[i] == instrs[1..][i - 1];
      1 + rest
  }

  /** The outcome of `toVarDef` on each of the first `n` lines. */
  function Definitions(instrs: seq<RawInstruction>, n: nat): seq<Result<VarDef, DecodeError>>
    requires n <= |instrs|
  {
    seq(n, i requires 0 <= i < n => ToVarDef(instrs[i]))
  }

  /** `add` on the data image: a label already in use leaves it unchanged. */
  function Declare(img: DataImage, def: VarDef): (r: DataImage)
    ensures def.labelName in img.labels ==> r == img
    ensures def.labelName !in img.labels ==> r == Added(img, def)
  {
    if def.labelName in img.labels then img else Added(img, def)
  }

  /**
   * The data image after the first `n` definitions were declared in order, or the error
   * of the first one `toVarDef` refused.
   */
  function Declared(defs: seq<Result<VarDef, DecodeError>>, n: nat, img: DataImage): Result<DataImage, LoadError>
    requires n <= |defs|
  {
    if n == 0 then Success(img)
    else
      match Declared(defs, n - 1, img)
      case Failure(e) => Failure(e)
      case Success(img') =>
        match defs[n - 1]
        case Failure(e) => Failure(BadDefinition(n, e))
        case Success(def) => Success(Declare(img', def))
  }

  /** A failure while declaring names a line of the run and the decoder's reason for it. */
  lemma {:induction false} DeclaredError(defs: seq<Result<VarDef, DecodeError>>, n: nat, img: DataImage)
    requires n <= |defs|
    ensures Declared(defs, n, img).Failure? ==>
      var e := Declared(defs, n, img).error;
      && e.BadDefinition?
      && 1 <= e.line <= n
      && defs[e.line - 1] == Failure(e.error)
  {
    if n > 0 {
      DeclaredError(defs, n - 1, img);
    }
  }

  /** Declaring only ever appends to the byte buffer and adds labels. */
  lemma {:induction false} DeclaredGrows(defs: seq<Result<VarDef, DecodeError>>, n: nat, img: DataImage)
    requires n <= |defs|
    ensures Declared(defs, n, img).Success? ==>
      var r := Declared(defs, n, img).value;
      img.bytes <= r.bytes && img.labels.Keys <= r.labels.Keys
  {
    if n > 0 {
      DeclaredGrows(defs, n - 1, img);
    }
  }

  /** Once a prefix fails, every longer prefix fails with the same error. */
  lemma {:induction false} DeclaredFailureSticks(defs: seq<Result<VarDef, DecodeError>>, m: nat, n: nat, img: DataImage)
    requires m <= n <= |defs|
    requires Declared(defs, m, img).Failure?
    ensures Declared(defs, n, img) == Declared(defs, m, img)
    decreases n
  {
    if n > m {
      DeclaredFailureSticks(defs, m, n - 1, img);
    }
  }

  /** A directive reached before the end of the run lies inside it. */
  lemma InsideRun(instrs: seq<RawInstruction>, line: nat)
    requires line <= DirectiveRun(instrs) && line < |instrs| && IsVarDef(instrs[line])
    ensures line < DirectiveRun(instrs)
  {
  }

  /** One more definition: declared on top of the image so far, or its decoding error. */
  lemma DeclaredNext(defs: seq<Result<VarDef, DecodeError>>, n: nat, img: DataImage, img': DataImage)
    requires n < |defs| && Declared(defs, n, img) == Success(img')
    ensures Declared(defs, n + 1, img) ==
      match defs[n]
      case Failure(e) => Failure(BadDefinition(n + 1, e))
      case Success(def) => Success(Declare(img', def))
  {
  }

  /**
   * The declaration loop: directives are translated and added to `mem` until the first
   * other line, then the buffer is shrunk. The result is the index of the first code line.
   * The value `add` returns is never tested (the source only stores it into a register,
   * which the model drops), so a repeated variable label is skipped silently.
   */
  method DeclareVariables(instrs: seq<RawInstruction>, mem: Memory) returns (r: Result<nat, LoadError>)
    modifies mem
    ensures var run := DirectiveRun(instrs);
      r.Success? ==> r.value == run && Declared(Definitions(instrs, run), run, old(mem.Image())) == Success(mem.Image())
    ensures var run := DirectiveRun(instrs);
      r.Failure? ==> Declared(Definitions(instrs, run), run, old(mem.Image())) == Failure(r.error)
  {
    ghost var img0 := mem.Image();
    ghost var run := DirectiveRun(instrs);
    ghost var defs := Definitions(instrs, run);
    var line := 0;
    while line < |instrs|
      invariant line <= run
      invariant Declared(defs, line, img0) == Success(mem.Image())
    {
      if !IsVarDef(instrs[line]) {
        break;
      }
      InsideRun(instrs, line);
      var def := ToVarDef(instrs[line]);
      assert defs[line] == def;
      ghost var before := mem.Image();
      if def.Failure? {
        DeclaredNext(defs, line, img0, before);
        DeclaredFailureSticks(defs, line + 1, run, img0);
        return Failure(BadDefinition(line + 1, def.error));
      }
      var _ := mem.Add(def.value);
      assert mem.Image() == Declare(before, def.value);
      DeclaredNext(defs, line, img0, before);
      line := line + 1;
    }
    mem.Shrink();
    return Success(line);
  }

  // ---------------------------------------------------------------------------
  // Instructions and the label table
  // ---------------------------------------------------------------------------

  /** What a code line is to the instruction loop, before any label check. */
  datatype Line = Directive | Undecodable(error: DecodeError) | Decoded(ins: Instruction)

  /** A directive, or the outcome of `toInstruction` on a `blank` out-parameter. */
  function Classify(raw: RawInstruction, blank: Instruction): Line
    requires raw.Valid()
  {
    if IsVarDef(raw) then Directive
    else
      match ToInstruction(raw, blank)
      case Failure(e) => Undecodable(e)
      case Success(ins) => Decoded(ins)
  }

  /** The code lines from `start` on, classified one by one. */
  function Classified(instrs: seq<RawInstruction>, start: nat, blank: Instruction): seq<Line>
    requires start <= |instrs| && AllValid(instrs)
  {
    seq(|instrs| - start, j requires 0 <= j < |instrs| - start => Classify(instrs[start + j], blank))
  }

  /**
   * The label checks for a decoded instruction at code index `i`: its label must be new
   * and is entered with index `i`, and only then is its label operand looked up, so an
   * instruction may refer to its own label.
   */
  function Enter(labels: map<string, nat>, ins: Instruction, line: nat, i: nat)
    : Result<(Instruction, map<string, nat>), LoadError>
  {
    if ins.labelName != "" && ins.labelName in labels then Failure(DuplicateLabel(line + 1, ins.labelName))
    else
      var labels' := if ins.labelName != "" then labels[ins.labelName := i] else labels;
      if ins.labelOp != "" && ins.labelOp !in labels' then Failure(UnknownLabel(line + 1, ins.labelOp))
      else Success((ins, labels'))
  }

  /**
   * One iteration of the instruction loop for source line `line` (0-based) at code index
   * `i`: a directive is refused, then a line that does not decode, then the label checks run.
   */
  function Admit(labels: map<string, nat>, l: Line, line: nat, i: nat): Result<(Instruction, map<string, nat>), LoadError>
  {
    match l
    case Directive => Failure(LateDirective(line + 1))
    case Undecodable(e) => Failure(BadInstruction(line + 1, e))
    case Decoded(ins) => Enter(labels, ins, line, i)
  }

  /** The program `p` extended by the outcome of one admission step. */
  function Extended(p: Program, step: Result<(Instruction, map<string, nat>), LoadError>): Result<Program, LoadError>
  {
    match step
    case Failure(e) => Failure(e)
    case Success(step) => Success(Program(p.code + [step.0], step.1))
  }

  /**
   * The program built from the first `n` code lines, the first of which is source line
   * `start` (0-based), or the error of the first line refused.
   */
  function Translated(lines: seq<Line>, start: nat, n: nat): Result<Program, LoadError>
    requires n <= |lines|
  {
    if n == 0 then Success(Program([], map[]))
    else
      match Translated(lines, start, n - 1)
      case Failure(e) => Failure(e)
      case Success(p) => Extended(p, Admit(p.labels, lines[n - 1], start + n - 1, n - 1))
  }

  /** The instructions the first `n` lines decode to, skipping those that do not. */
  function Instructions(lines: seq<Line>, n: nat): seq<Instruction>
    requires n <= |lines|
  {
    if n == 0 then []
    else Instructions(lines, n - 1) + (if lines[n - 1].Decoded? then [lines[n - 1].ins] else [])
  }

  /** None of the first `n` lines is a directive or fails to decode. */
  predicate AllDecoded(lines: seq<Line>, n: nat)
    requires n <= |lines|
  {
    forall j :: 0 <= j < n ==> lines[j].Decoded?
  }

  /** No non-empty label is carried by two instructions. */
  predicate UniqueLabels(code: seq<Instruction>)
  {
    forall j, k :: 0 <= j < k < |code| && code[j].labelName != "" ==> code[j].labelName != code[k].labelName
  }

  /** Every label operand names the label of the same or an earlier instruction. */
  predicate BackwardReferences(code: seq<Instruction>)
  {
    forall k :: 0 <= k < |code| && code[k].labelOp != "" ==>
      exists j :: 0 <= j <= k && code[j].labelName == code[k].labelOp
  }

  /** The table holds exactly the non-empty labels of `code`, each mapped to its index. */
  predicate IndexesLabels(labels: map<string, nat>, code: seq<Instruction>)
  {
    && (forall l :: l in labels ==> l != "" && labels[l] < |code| && code[labels[l]].labelName == l)
    && (forall j :: 0 <= j < |code| && code[j].labelName != "" ==>
          code[j].labelName in labels && labels[code[j].labelName] == j)
  }

  /**
   * What loading the code promises: it succeeds exactly when no line is a directive,
   * every line decodes, labels are unique and every label operand refers backwards (or to
   * its own line); the program is then the decoded lines with their label table.
   */
  lemma {:induction false} TranslatedMeaning(lines: seq<Line>, start: nat, n: nat)
    requires n <= |lines|
    ensures Translated(lines, start, n).Success? <==> Loadable(lines, n)
    ensures Translated(lines, start, n).Success? ==>
      var p := Translated(lines, start, n).value;
      p.code == Instructions(lines, n) && IndexesLabels(p.labels, p.code)
  {
    if n > 0 {
      TranslatedMeaning(lines, start, n - 1);
      if Translated(lines, start, n - 1).Failure? {
        MeaningAfterFailure(lines, start, n);
      } else {
        MeaningAfterSuccess(lines, start, n);
      }
    }
  }

  /** The conditions on the first `n` code lines. */
  predicate Loadable(lines: seq<Line>, n: nat)
    requires n <= |lines|
  {
    AllDecoded(lines, n) && UniqueLabels(Instructions(lines, n)) && BackwardReferences(Instructions(lines, n))
  }

  lemma MeaningAfterFailure(lines: seq<Line>, start: nat, n: nat)
    requires 0 < n <= |lines|
    requires Translated(lines, start, n - 1).Failure? && !Loadable(lines, n - 1)
    ensures Translated(lines, start, n).Failure? && !Loadable(lines, n)
  {
    if lines[n - 1].Decoded? {
      assert Instructions(lines, n) == Instructions(lines, n - 1) + [lines[n - 1].ins];
      PrefixConditions(Instructions(lines, n - 1), lines[n - 1].ins);
    }
  }

  lemma MeaningAfterSuccess(lines: seq<Line>, start: nat, n: nat)
    requires 0 < n <= |lines|
    requires Translated(lines, start, n - 1).Success? && Loadable(lines, n - 1)
    requires var p := Translated(lines, start, n - 1).value;
      p.code == Instructions(lines, n - 1) && IndexesLabels(p.labels, p.code)
    ensures Translated(lines, start, n).Success? <==> Loadable(lines, n)
    ensures Translated(lines, start, n).Success? ==>
      var p := Translated(lines, start, n).value;
      p.code == Instructions(lines, n) && IndexesLabels(p.labels, p.code)
  {
    var p := Translated(lines, start, n - 1).value;
    AllDecodedInstructions(lines, n - 1);
    if lines[n - 1].Decoded? {
      var x := lines[n - 1].ins;
      var c := p.code + [x];
      assert Instructions(lines, n) == c;
      assert AllDecoded(lines, n);
      assert Loadable(lines, n) == (UniqueLabels(c) && BackwardReferences(c));
      TranslatedNext(lines, start, n, p);
      assert Admit(p.labels, lines[n - 1], start + n - 1, n - 1) == Enter(p.labels, x, start + n - 1, |p.code|);
      ExtendedMeaning(p, x, start + n - 1);
    } else {
      assert !AllDecoded(lines, n);
    }
  }

  /** One more line: the outcome of admitting it to the program built so far. */
  lemma TranslatedNext(lines: seq<Line>, start: nat, n: nat, p: Program)
    requires 0 < n <= |lines| && Translated(lines, start, n - 1) == Success(p)
    ensures Translated(lines, start, n) == Extended(p, Admit(p.labels, lines[n - 1], start + n - 1, n - 1))
  {
  }

  /** `EnterMeaning` for the program the admission step extends. */
  lemma ExtendedMeaning(p: Program, x: Instruction, line: nat)
    requires IndexesLabels(p.labels, p.code) && UniqueLabels(p.code) && BackwardReferences(p.code)
    ensures var q := Extended(p, Enter(p.labels, x, line, |p.code|));
      q.Success? <==> UniqueLabels(p.code + [x]) && BackwardReferences(p.code + [x])
    ensures var q := Extended(p, Enter(p.labels, x, line, |p.code|));
      q.Success? ==> q.value.code == p.code + [x] && IndexesLabels(q.value.labels, q.value.code)
  {
    EnterMeaning(p.labels, p.code, x, line);
  }

  /** When every line decodes, the instructions are the lines' instructions, one per line. */
  lemma {:induction false} AllDecodedInstructions(lines: seq<Line>, n: nat)
    requires n <= |lines| && AllDecoded(lines, n)
    ensures |Instructions(lines, n)| == n
  {
    if n > 0 {
      AllDecodedInstructions(lines, n - 1);
    }
  }

  /** The conditions on a code sequence imply those on its prefix. */
  lemma PrefixConditions(d: seq<Instruction>, x: Instruction)
    ensures UniqueLabels(d + [x]) ==> UniqueLabels(d)
    ensures BackwardReferences(d + [x]) ==> BackwardReferences(d)
  {
    var c := d + [x];
    assert forall j :: 0 <= j < |d| ==> c[j] == d[j];
    if BackwardReferences(c) {
      forall k | 0 <= k < |d| && d[k].labelOp != ""
        ensures exists j :: 0 <= j <= k && d[j].labelName == d[k].labelOp
      {
        var j :| 0 <= j <= k && c[j].labelName == c[k].labelOp;
        assert d[j].labelName == d[k].labelOp;
      }
    }
  }

  /**
   * The label checks on a well-indexed table: they pass exactly when the conditions hold
   * for the extended code, and then the new table indexes the extended code.
   */
  lemma EnterMeaning(labels: map<string, nat>, d: seq<Instruction>, x: Instruction, line: nat)
    requires IndexesLabels(labels, d) && UniqueLabels(d) && BackwardReferences(d)
    ensures var r := Enter(labels, x, line, |d|);
      r.Success? <==> UniqueLabels(d + [x]) && BackwardReferences(d + [x])
    ensures var r := Enter(labels, x, line, |d|);
      r.Success? ==> r.value.0 == x && IndexesLabels(r.value.1, d + [x])
  {
    var labels' := if x.labelName != "" then labels[x.labelName := |d|] else labels;
    if x.labelName != "" && x.labelName in labels {
      DuplicateBreaksUniqueness(labels, d, x);
    } else if x.labelOp != "" && x.labelOp !in labels' {
      UnknownBreaksBackwardReferences(labels, d, x);
    } else {
      AcceptedKeepsUniqueness(labels, d, x);
      AcceptedKeepsBackwardReferences(labels, d, x);
      AcceptedIndexes(labels, d, x);
    }
  }

  lemma DuplicateBreaksUniqueness(labels: map<string, nat>, d: seq<Instruction>, x: Instruction)
    requires IndexesLabels(labels, d)
    requires x.labelName != "" && x.labelName in labels
    ensures !UniqueLabels(d + [x])
  {
    var c := d + [x];
    var j := labels[x.labelName];
    assert c[j] == d[j];
    assert c[|d|] == x;
    assert c[j].labelName == c[|d|].labelName;
  }

  lemma UnknownBreaksBackwardReferences(labels: map<string, nat>, d: seq<Instruction>, x: Instruction)
    requires IndexesLabels(labels, d)
    requires x.labelOp != "" && x.labelOp !in labels && x.labelOp != x.labelName
    ensures !BackwardReferences(d + [x])
  {
    var c := d + [x];
    assert c[|d|] == x;
    forall j | 0 <= j <= |d|
      ensures c[j].labelName != c[|d|].labelOp
    {
      if j < |d| {
        assert c[j] == d[j];
      }
    }
  }

  lemma AcceptedKeepsUniqueness(labels: map<string, nat>, d: seq<Instruction>, x: Instruction)
    requires IndexesLabels(labels, d) && UniqueLabels(d)
    requires x.labelName == "" || x.labelName !in labels
    ensures UniqueLabels(d + [x])
  {
    var c := d + [x];
    forall j, k | 0 <= j < k < |c| && c[j].labelName != ""
      ensures c[j].labelName != c[k].labelName
    {
      assert c[j] == d[j];
      if k < |d| {
        assert c[k] == d[k];
      } else {
        assert c[k] == x;
      }
    }
  }

  lemma AcceptedKeepsBackwardReferences(labels: map<string, nat>, d: seq<Instruction>, x: Instruction)
    requires IndexesLabels(labels, d) && BackwardReferences(d)
    requires x.labelOp == "" || x.labelOp in labels || x.labelOp == x.labelName
    ensures BackwardReferences(d + [x])
  {
    var c := d + [x];
    forall k | 0 <= k < |c| && c[k].labelOp != ""
      ensures exists j :: 0 <= j <= k && c[j].labelName == c[k].labelOp
    {
      if k < |d| {
        assert c[k] == d[k];
        var j :| 0 <= j <= k && d[j].labelName == d[k].labelOp;
        assert c[j] == d[j];
      } else if x.labelOp == x.labelName {
        assert c[k] == x;
      } else {
        assert c[k] == x;
        var j := labels[x.labelOp];
        assert c[j] == d[j];
      }
    }
  }

  lemma AcceptedIndexes(labels: map<string, nat>, d: seq<Instruction>, x: Instruction)
    requires IndexesLabels(labels, d)
    requires x.labelName == "" || x.labelName !in labels
    ensures IndexesLabels(if x.labelName != "" then labels[x.labelName := |d|] else labels, d + [x])
  {
    var c := d + [x];
    var labels' := if x.labelName != "" then labels[x.labelName := |d|] else labels;
    assert c[|d|] == x;
    forall l | l in labels'
      ensures l != "" && labels'[l] < |c| && c[labels'[l]].labelName == l
    {
      if l != x.labelName || x.labelName == "" {
        assert c[labels[l]] == d[labels[l]];
      }
    }
    forall j | 0 <= j < |c| && c[j].labelName != ""
      ensures c[j].labelName in labels' && labels'[c[j].labelName] == j
    {
      if j < |d| {
        assert c[j] == d[j];
      }
    }
  }


  /** Once a prefix of the code fails, every longer prefix fails with the same error. */
  lemma {:induction false} TranslatedFailureSticks(lines: seq<Line>, start: nat, m: nat, n: nat)
    requires m <= n <= |lines|
    requires Translated(lines, start, m).Failure?
    ensures Translated(lines, start, n) == Translated(lines, start, m)
    decreases n
  {
    if n > m {
      TranslatedFailureSticks(lines, start, m, n - 1);
    }
  }

  /**
   * The instruction loop: `code` is the fixed-size code array, `labelMap` the label table.
   * Each line is checked and decoded, its label entered, its label operand looked up,
   * and the instruction stored at index `i`.
   */
  method TranslateCode(instrs: seq<RawInstruction>, start: nat, blank: Instruction) returns (r: Result<Program, LoadError>)
    requires start <= |instrs| && AllValid(instrs)
    ensures r == Translated(Classified(instrs, start, blank), start, |instrs| - start)
  {
    ghost var lines := Classified(instrs, start, blank);
    var codeSize := |instrs| - start;
    var code := new Instruction[codeSize](_ => blank);
    var labelMap: map<string, nat> := map[];
    var line, i := start, 0;
    while line < |instrs|
      invariant start <= line <= |instrs| && i == line - start
      invariant Translated(lines, start, i) == Success(Program(code[..i], labelMap))
    {
      ghost var before := Program(code[..i], labelMap);
      var step := AdmitLine(labelMap, instrs[line], blank, line, i);
      assert lines[i] == Classify(instrs[line], blank);
      assert Translated(lines, start, i + 1) == Extended(before, step);
      if step.Failure? {
        TranslatedFailureSticks(lines, start, i + 1, codeSize);
        return Failure(step.error);
      }
      code[i] := step.value.0;
      labelMap := step.value.1;
      assert code[..i + 1] == before.code + [step.value.0];
      line, i := line + 1, i + 1;
    }
    assert code[..] == code[..i];
    return Success(Program(code[..], labelMap));
  }

  /**
   * The body of the instruction loop for one line: the directive check, decoding, the
   * duplicate-label check and entry, and the label-operand lookup, in that order.
   */
  method AdmitLine(labelMap: map<string, nat>, raw: RawInstruction, blank: Instruction, line: nat, i: nat)
    returns (r: Result<(Instruction, map<string, nat>), LoadError>)
    requires raw.Valid()
    ensures r == Admit(labelMap, Classify(raw, blank), line, i)
  {
    if IsVarDef(raw) {
      return Failure(LateDirective(line + 1));
    }
    var decoded := ToInstruction(raw, blank);
    if decoded.Failure? {
      return Failure(BadInstruction(line + 1, decoded.error));
    }
    var instruction := decoded.value;
    var labels := labelMap;
    if instruction.labelName != "" {
      if instruction.labelName in labels {
        return Failure(DuplicateLabel(line + 1, instruction.labelName));
      }
      labels := labels[instruction.labelName := i];
    }
    if instruction.labelOp != "" && instruction.labelOp !in labels {
      return Failure(UnknownLabel(line + 1, instruction.labelOp));
    }
    return Success((instruction, labels));
  }

  // ---------------------------------------------------------------------------
  // The whole loading phase
  // ---------------------------------------------------------------------------

  /**
   * Both loading loops in sequence: the declarations fill `mem`, and unless one of them
   * fails the code lines after the directive run are translated.
   */
  method Load(instrs: seq<RawInstruction>, mem: Memory, blank: Instruction) returns (r: Result<Program, LoadError>)
    requires AllValid(instrs)
    modifies mem
    ensures var run := DirectiveRun(instrs);
      var declared := Declared(Definitions(instrs, run), run, old(mem.Image()));
      declared.Failure? ==> r == Failure(declared.error)
    ensures var run := DirectiveRun(instrs);
      var declared := Declared(Definitions(instrs, run), run, old(mem.Image()));
      declared.Success? ==>
        && declared.value == mem.Image()
        && r == Translated(Classified(instrs, run, blank), run, |instrs| - run)
  {
    var declared := DeclareVariables(instrs, mem);
    if declared.Failure? {
      return Failure(declared.error);
    }
    ghost var run := DirectiveRun(instrs);
    assert declared.value == run;
    r := TranslateCode(instrs, declared.value, blank);
  }

  /**
   * Directives may only lead: once the code has started, a directive on any later line
   * makes loading the code fail.
   */
  lemma LateDirectiveRefused(instrs: seq<RawInstruction>, start: nat, blank: Instruction, j: nat)
    requires AllValid(instrs)
    requires start <= j < |instrs| && IsVarDef(instrs[j])
    ensures Translated(Classified(instrs, start, blank), start, |instrs| - start).Failure?
  {
    var lines := Classified(instrs, start, blank);
    assert lines[j - start] == Classify(instrs[j], blank);
    assert !AllDecoded(lines, |lines|);
    TranslatedMeaning(lines, start, |lines|);
  }

  /**
   * Each line decoded with a `blank` out-parameter carries its label and label operand:
   * the memory branch of `toInstruction` never assigns them. In the program as written the
   * out-parameter is default-initialised, so both are empty: the label checks never fire,
   * the table stays empty, and the code loads exactly when every line is a decodable
   * instruction.
   */
  lemma UnlabelledPrior(instrs: seq<RawInstruction>, start: nat, blank: Instruction)
    requires start <= |instrs| && AllValid(instrs)
    requires blank.labelName == "" && blank.labelOp == ""
    ensures var lines := Classified(instrs, start, blank);
      var r := Translated(lines, start, |lines|);
      && (r.Success? <==> AllDecoded(lines, |lines|))
      && (r.Success? ==> r.value.labels == map[])
  {
    var lines := Classified(instrs, start, blank);
    forall j | 0 <= j < |lines| && lines[j].Decoded?
      ensures lines[j].ins.labelName == "" && lines[j].ins.labelOp == ""
    {
      assert lines[j] == Classify(instrs[start + j], blank);
    }
    InstructionsUnlabelled(lines, |lines|);
    TranslatedMeaning(lines, start, |lines|);
    var d := Instructions(lines, |lines|);
    assert UniqueLabels(d) && BackwardReferences(d);
    if Translated(lines, start, |lines|).Success? {
      assert Translated(lines, start, |lines|).value.labels.Keys == {};
    }
  }

  lemma {:induction false} InstructionsUnlabelled(lines: seq<Line>, n: nat)
    requires n <= |lines|
    requires forall j :: 0 <= j < n && lines[j].Decoded? ==> lines[j].ins.labelName == "" && lines[j].ins.labelOp == ""
    ensures forall k :: 0 <= k < |Instructions(lines, n)| ==>
      Instructions(lines, n)[k].labelName == "" && Instructions(lines, n)[k].labelOp == ""
  {
    if n > 0 {
      InstructionsUnlabelled(lines, n - 1);
    }
  }
}
