/**
 * The record the external tokenizer produces for one source line (`parser::instruction`,
 * include/parseraux.h). The tokenizer itself is not part of this model.
 */
module ParserAux {
  import opened Wrappers

  /**
   * The operand: `operand { optype type; void *ptr; }`. A null `ptr` is `Absent`,
   * whatever the tag says; otherwise the tag selects what `ptr` points to.
   */
  datatype Operand =
    | Absent
    | LabelRef(name: string)
    | Indirect(im: int, reg: int)
    | Immediate(value: int)

  /** `label` and `rlist` are nullable pointers; `rlist` points to `rcount` register numbers. */
  datatype RawInstruction = RawInstruction(
    labelName: Option<string>,
    name: string,
    rlist: Option<seq<int>>,
    rcount: int,
    op: Operand)
  {
    /** What the tokenizer guarantees: a register list holds exactly `rcount` entries. */
    predicate Valid() {
      rlist.Some? ==> |rlist.value| == rcount
    }
  }
}
