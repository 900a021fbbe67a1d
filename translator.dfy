/**
 * The decoder (src/translator.cpp): recognising variable-definition directives,
 * translating them to `varDef`s, and translating memory instructions.
 */
module Translator {
  import opened Wrappers
  import opened Ints
  import opened Simulator
  import opened ParserAux

  /** The diagnostics the decoder prints before returning false. */
  datatype DecodeError =
    | MissingLabel            // "Variable definitions requires a label."
    | NeedsImmediate          // "Variable definitions requires an immediate value."
    | RegistersNotAllowed     // "Variable definitions cannot have registers."
    | UnknownDirective        // "Unknown instruction. (Variable definition?)"
    | UnknownVarKind          // "Unknown variable definition directive."
    | UnknownDataType         // "Unknown variable data type."
    | UnknownMemoryInstruction // "Unknown instruction ... (Memory instruction?)"
    | NeedsIndirect           // "... requires an register indirect operand."
    | WrongRegisterCount      // "... requires a total of N registers but found M."
    | Unsupported             // branch, jump, NOP and R-type decoding: not implemented in the source (falls off the end of a bool function)

  /** `starts_with("DE")`. */
  predicate StartsWithDE(name: string)
  {
    |name| >= 2 && name[0] == 'D' && name[1] == 'E'
  }

  /**
   * `isVarDef`: the name has at least three characters and starts with "DE". Every
   * directive name `toVarDef` accepts is recognised, and no name shorter than three
   * characters or outside the "DE" prefix is.
   */
  function IsVarDef(raw: RawInstruction): (b: bool)
    ensures raw.name in Directives ==> b
    ensures b ==> |raw.name| >= 3 && raw.name[..2] == "DE"
  {
    |raw.name| >= 3 && StartsWithDE(raw.name)
  }

  /** The names `toVarDef` accepts, character by character. */
  predicate DirectiveName(name: string)
  {
    && (|name| == 3 || |name| == 4) && StartsWithDE(name)
    && (name[2] == 'F' || name[2] == 'V')
    && (|name| == 4 ==> name[3] == 'B' || name[3] == 'H')
  }

  /** The directive names `toVarDef` accepts. DEFW and DEVW are not among them. */
  const Directives: set<string> := {"DEF", "DEV", "DEFB", "DEVB", "DEFH", "DEVH"}

  /** The shape of the accepted directive names, character by character. */
  lemma DirectiveShape(name: string)
    ensures name in Directives <==> DirectiveName(name)
  {
    if (|name| == 3 || |name| == 4) && StartsWithDE(name) {
      if |name| == 3 {
        assert name == [name[0], name[1], name[2]];
      } else {
        assert name == [name[0], name[1], name[2], name[3]];
      }
    }
  }

  /** `toVarDef`: the checks are made in the order label, operand, registers, name. */
  function ToVarDef(raw: RawInstruction): (r: Result<VarDef, DecodeError>)
    ensures r.Success? <==>
      raw.labelName.Some? && raw.op.Immediate? && raw.rcount <= 0 && raw.rlist.None? && DirectiveName(raw.name)
    ensures r.Success? ==>
      && r.value.labelName == raw.labelName.value
      && r.value.kind == (if raw.name[2] == 'F' then Var else Array)
      && r.value.size == (if |raw.name| == 3 then Word else if raw.name[3] == 'B' then Byte else Half)
      && r.value.value == Wrap32(raw.op.value)
    ensures raw.labelName.None? ==> r == Failure(MissingLabel)
    ensures raw.labelName.Some? && !raw.op.Immediate? ==> r == Failure(NeedsImmediate)
    ensures raw.labelName.Some? && raw.op.Immediate? && (raw.rcount > 0 || raw.rlist.Some?) ==>
      r == Failure(RegistersNotAllowed)
  {
    if raw.labelName.None? then Failure(MissingLabel)
    else if !raw.op.Immediate? then Failure(NeedsImmediate)
    else if raw.rcount > 0 || raw.rlist.Some? then Failure(RegistersNotAllowed)
    else
      var name := raw.name;
      if |name| < 3 || |name| > 4 || !StartsWithDE(name) then Failure(UnknownDirective)
      else
        if name[2] != 'F' && name[2] != 'V' then Failure(UnknownVarKind)
        else if |name| > 3 && name[3] != 'B' && name[3] != 'H' then Failure(UnknownDataType)
        else
          var kind := if name[2] == 'F' then Var else Array;
          var size := if |name| == 3 then Word else if name[3] == 'B' then Byte else Half;
          Success(VarDef(raw.labelName.value, kind, size, Wrap32(raw.op.value)))
  }

  /** Every definition `toVarDef` accepts is one that `isVarDef` recognises. */
  lemma AcceptedDefinitionIsDirective(raw: RawInstruction)
    ensures ToVarDef(raw).Success? ==> IsVarDef(raw) && raw.name in Directives
  {
    DirectiveShape(raw.name);
  }

  /** DEFW passes `isVarDef` but `toVarDef` rejects it: only 'B' and 'H' may follow "DEF". */
  lemma DefwRejected(raw: RawInstruction)
    requires raw.name == "DEFW"
    ensures IsVarDef(raw) && ToVarDef(raw).Failure?
    ensures raw.labelName.Some? && raw.op.Immediate? && raw.rcount <= 0 && raw.rlist.None? ==>
      ToVarDef(raw) == Failure(UnknownDataType)
  {
  }

  /** The instruction names the memory branch of `toInstruction` accepts. */
  const MemoryMnemonics: set<string> := {"SB", "SH", "SW", "LB", "LH", "LW"}

  /** `name[0]`; on an empty `std::string` this reads the terminating '\0'. */
  function FirstChar(name: string): char
  {
    if |name| > 0 then name[0] else '\0'
  }

  /** The names the memory branch accepts, character by character. */
  predicate MemoryName(name: string)
  {
    && |name| == 2
    && (name[0] == 'S' || name[0] == 'L')
    && (name[1] == 'B' || name[1] == 'H' || name[1] == 'W')
  }

  lemma MemoryShape(name: string)
    ensures name in MemoryMnemonics <==> MemoryName(name)
  {
    if |name| == 2 {
      assert name == [name[0], name[1]];
    }
  }

  /**
   * `toInstruction`, memory branch. `prior` is the incoming value of the out-parameter:
   * the fields the code never assigns (label, display name, rD, label operand) keep it.
   * As written, the operand register list supplies rS, the indirect operand's base
   * register supplies both rT and im (its offset is unused), and a load keeps op = NUL
   * because the test for UNK comes after the type was set to MEM.
   */
  function ToInstruction(raw: RawInstruction, prior: Instruction): (r: Result<Instruction, DecodeError>)
    requires raw.Valid()
    ensures r.Success? <==>
      MemoryName(raw.name) && raw.op.Indirect? && raw.rlist.Some? && raw.rcount == 1
    ensures r.Success? ==>
      && r.value.kind == Mem
      && r.value.op == (if raw.name[0] == 'S' then S else Nul)
      && r.value.rS == ToInt8(raw.rlist.value[0])
      && r.value.rT == ToInt8(raw.op.reg)
      && r.value.im == ToInt16(raw.op.reg)
      && r.value.flags == SizeFlag(if raw.name[1] == 'B' then Byte else if raw.name[1] == 'H' then Half else Word)
      && r.value.labelName == prior.labelName
      && r.value.displayName == prior.displayName
      && r.value.rD == prior.rD
      && r.value.labelOp == prior.labelOp
    ensures FirstChar(raw.name) != 'S' && FirstChar(raw.name) != 'L' ==> r == Failure(Unsupported)
    ensures (FirstChar(raw.name) == 'S' || FirstChar(raw.name) == 'L') && |raw.name| != 2 ==>
      r == Failure(UnknownMemoryInstruction)
    ensures (FirstChar(raw.name) == 'S' || FirstChar(raw.name) == 'L') && |raw.name| == 2 && !raw.op.Indirect? ==>
      r == Failure(NeedsIndirect)
    ensures (FirstChar(raw.name) == 'S' || FirstChar(raw.name) == 'L') && |raw.name| == 2 && raw.op.Indirect?
            && (raw.rlist.None? || raw.rcount != 1) ==>
      r == Failure(WrongRegisterCount)
  {
    var name := raw.name;
    var c := FirstChar(name);
    if c != 'S' && c != 'L' then Failure(Unsupported)
    else
      var op := if c == 'S' then S else Nul;
      if |name| != 2 then Failure(UnknownMemoryInstruction)
      else if !raw.op.Indirect? then Failure(NeedsIndirect)
      else if raw.rlist.None? || raw.rcount != 1 then Failure(WrongRegisterCount)
      else
        var kind := Mem;
        var op' := if kind == Unk then L else op;
        if name[1] != 'B' && name[1] != 'H' && name[1] != 'W' then Failure(UnknownMemoryInstruction)
        else
          var size := if name[1] == 'B' then Byte else if name[1] == 'H' then Half else Word;
          Success(prior.(kind := kind, op := op', rS := ToInt8(raw.rlist.value[0]),
                         im := ToInt16(raw.op.reg), rT := ToInt8(raw.op.reg), flags := SizeFlag(size)))
  }

  /** The memory branch decodes exactly the six load and store mnemonics. */
  lemma AcceptedMemoryMnemonic(raw: RawInstruction, prior: Instruction)
    requires raw.Valid()
    ensures ToInstruction(raw, prior).Success? ==> raw.name in MemoryMnemonics
    ensures raw.name in MemoryMnemonics && raw.op.Indirect? && raw.rlist.Some? && raw.rcount == 1 ==>
      ToInstruction(raw, prior).Success?
  {
    MemoryShape(raw.name);
  }

  /** No directive decodes as an instruction: names starting with 'D' reach no branch. */
  lemma DirectiveIsNoInstruction(raw: RawInstruction, prior: Instruction)
    requires raw.Valid() && IsVarDef(raw)
    ensures ToInstruction(raw, prior) == Failure(Unsupported)
  {
  }
}
