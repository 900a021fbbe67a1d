/**
 * The line tokenizer `parseLine` (src/interpreter/parser.cpp), which splits one source
 * line into a label, a mnemonic and up to three register numbers or a label operand.
 */
module Interpreter {
  import opened Ints

  /** `pipeline::instruction` (include/instruction.h), value-initialised by `new instruction()`. */
  datatype ParsedInstruction = ParsedInstruction(
    op: string,
    r0: Uint16,
    r1: Uint16,
    r2: Uint16,
    labelName: string,
    labelOp: string)

  const Blank: ParsedInstruction := ParsedInstruction("", 0, 0, 0, "", "")

  // ---------------------------------------------------------------------------
  // Characters and tokens
  // ---------------------------------------------------------------------------

  /** `isspace` in the C locale: space, \t, \n, \v, \f, \r. */
  predicate IsSpace(c: char)
  {
    c == ' ' || (9 <= c as int <= 13)
  }

  /** `isdigit`. */
  predicate IsDigit(c: char)
  {
    '0' <= c <= '9'
  }

  /** What `stream >> buf` extracts: a non-empty run of non-space characters. */
  predicate IsWord(w: string)
  {
    w != [] && forall i :: 0 <= i < |w| ==> !IsSpace(w[i])
  }

  /** The length of the word at the start of `s`. */
  function WordLength(s: string): (n: nat)
    requires s != [] && !IsSpace(s[0])
    ensures 1 <= n <= |s|
    ensures forall i :: 0 <= i < n ==> !IsSpace(s[i])
    ensures n < |s| ==> IsSpace(s[n])
    decreases |s|
  {
    if |s| == 1 || IsSpace(s[1]) then 1 else 1 + WordLength(s[1..])
  }

  /** The successive words `stream >> buf` reads from a line. */
  function Words(s: string): seq<string>
    decreases |s|
  {
    if s == [] then []
    else if IsSpace(s[0]) then Words(s[1..])
    else
      var n := WordLength(s);
      [s[..n]] + Words(s[n..])
  }

  /** Every word read is non-empty and holds no white space. */
  lemma {:induction false} WordsAreWords(s: string)
    ensures forall k :: 0 <= k < |Words(s)| ==> IsWord(Words(s)[k])
    decreases |s|
  {
    if s != [] {
      if IsSpace(s[0]) {
        WordsAreWords(s[1..]);
      } else {
        var n := WordLength(s);
        WordsAreWords(s[n..]);
        assert Words(s) == [s[..n]] + Words(s[n..]);
      }
    }
  }

  predicate EndsWith(w: string, c: char)
  {
    |w| > 0 && w[|w| - 1] == c
  }

  /** The word without its last character (the empty word stays empty). */
  function DropLast(w: string): string
  {
    if w == [] then w else w[..|w| - 1]
  }

  /** A word with one trailing comma removed. */
  function StripComma(w: string): string
  {
    if EndsWith(w, ',') then DropLast(w) else w
  }

  /** `toupper` in the C locale. */
  function ToUpper(c: char): char
  {
    if 'a' <= c <= 'z' then (c as int - 32) as char else c
  }

  /** The word with every lower-case letter made upper-case. */
  function Upper(w: string): string
  {
    if w == [] then [] else [ToUpper(w[0])] + Upper(w[1..])
  }

  /** `buf[1]`: on a one-character string this is the terminating '\0' (an empty string is taken the same way). */
  function SecondChar(w: string): char
  {
    if |w| >= 2 then w[1] else '\0'
  }

  /** The digits at the start of `s` read onto the value `acc`, stopping at the first non-digit. */
  function LeadingDigits(s: string, acc: nat): nat
    decreases |s|
  {
    if s == [] || !IsDigit(s[0]) then acc
    else LeadingDigits(s[1..], 10 * acc + (s[0] as int - '0' as int))
  }

  /** `atoi`: an optional sign, then the leading digits; 0 when there are none. */
  function Atoi(s: string): int
  {
    if |s| > 0 && (s[0] == '-' || s[0] == '+') then
      var v: int := LeadingDigits(s[1..], 0);
      if s[0] == '-' then -v else v
    else LeadingDigits(s, 0)
  }

  /** A token that `atoi` reads as 0 because it starts with neither a sign nor a digit, such as "$5". */
  lemma AtoiWithoutDigits(s: string)
    requires |s| > 0 && !IsDigit(s[0]) && s[0] != '-' && s[0] != '+'
    ensures Atoi(s) == 0
  {
  }

  // ---------------------------------------------------------------------------
  // What parseLine makes of a line
  // ---------------------------------------------------------------------------

  /** The number of leading words that end in ':', which are all read as labels. */
  function LabelRun(ws: seq<string>): (k: nat)
    ensures k <= |ws|
    ensures k < |ws| ==> !EndsWith(ws[k], ':')
  {
    if ws == [] || !EndsWith(ws[0], ':') then 0 else 1 + LabelRun(ws[1..])
  }

  /** Every word of the label run ends in ':'. */
  lemma {:induction false} LabelRunLabels(ws: seq<string>, t: nat)
    requires t < LabelRun(ws)
    ensures EndsWith(ws[t], ':')
  {
    if t > 0 {
      LabelRunLabels(ws[1..], t - 1);
    }
  }

  /** A word after the mnemonic whose second character (after the comma is removed) is not a digit. */
  predicate IsLabelOperand(w: string)
  {
    !IsDigit(SecondChar(StripComma(w)))
  }

  /** The index of the last label operand among `ws[lo..hi]`, or -1 if there is none. */
  function LastLabelIndex(ws: seq<string>, lo: nat, hi: nat): (j: int)
    requires lo <= hi <= |ws|
    ensures j == -1 || lo <= j < hi
    ensures j >= 0 ==> IsLabelOperand(ws[j])
    decreases hi - lo
  {
    if hi == lo then -1
    else if IsLabelOperand(ws[hi - 1]) then hi - 1
    else LastLabelIndex(ws, lo, hi - 1)
  }

  /** No word after the one found is a label operand: it is the last one. */
  lemma {:induction false} LastLabelIndexIsLast(ws: seq<string>, lo: nat, hi: nat, t: nat)
    requires lo <= t < hi <= |ws| && t > LastLabelIndex(ws, lo, hi)
    ensures !IsLabelOperand(ws[t])
    decreases hi - lo
  {
    if t < hi - 1 {
      LastLabelIndexIsLast(ws, lo, hi - 1, t);
    }
  }

  /** The label operand found among `ws[lo..hi]`: the last one wins, "" if there is none. */
  function LabelOperandIn(ws: seq<string>, lo: nat, hi: nat): string
    requires lo <= hi <= |ws|
  {
    var j := LastLabelIndex(ws, lo, hi);
    if j < 0 then "" else StripComma(ws[j])
  }

  /** The register number word `j` stores, truncated to 16 bits; 0 if there is no such register word. */
  function RegisterAt(ws: seq<string>, j: nat): Uint16
  {
    if j < |ws| && !IsLabelOperand(ws[j]) then Atoi(StripComma(ws[j])) % 0x1_0000 else 0
  }

  /** The register field for position `j` once the first `upto` words have been read. */
  function RegisterRead(ws: seq<string>, j: nat, upto: nat): Uint16
  {
    if j < upto then RegisterAt(ws, j) else 0
  }

  /** The record `parseLine` has built after reading the first `j` words; `k` is the label run. */
  function ReadSoFar(ws: seq<string>, k: nat, j: nat): ParsedInstruction
    requires k == LabelRun(ws) && j <= |ws|
  {
    if j <= k then Blank.(labelName := if j == 0 then "" else DropLast(ws[j - 1]))
    else
      ParsedInstruction(
        Upper(StripComma(ws[k])),
        RegisterRead(ws, k + 1, j), RegisterRead(ws, k + 2, j), RegisterRead(ws, k + 3, j),
        if k == 0 then "" else DropLast(ws[k - 1]),
        LabelOperandIn(ws, k + 1, j))
  }

  /** What reading word `w` does to the record when `i` words have been read since the labels (-1 while in the labels). */
  function ReadWord(res: ParsedInstruction, w: string, i: int): ParsedInstruction
  {
    if i == 0 && EndsWith(w, ':') then res.(labelName := DropLast(w))
    else
      var buf := StripComma(w);
      if i == 0 then res.(op := Upper(buf))
      else if !IsDigit(SecondChar(buf)) then res.(labelOp := buf)
      else
        var r := Atoi(buf) % 0x1_0000;
        if i == 1 then res.(r0 := r)
        else if i == 2 then res.(r1 := r)
        else if i == 3 then res.(r2 := r)
        else res
  }

  /** Reading one more word takes the record one step further. */
  lemma ReadSoFarStep(ws: seq<string>, k: nat, j: nat)
    requires k == LabelRun(ws) && j < |ws|
    ensures ReadSoFar(ws, k, j + 1) == ReadWord(ReadSoFar(ws, k, j), ws[j], if j < k then 0 else j - k)
  {
    if j < k {
      LabelStep(ws, k, j);
    } else if j == k {
      MnemonicStep(ws, k);
    } else {
      OperandStep(ws, k, j);
    }
  }

  /** A leading label replaces the label read so far. */
  lemma LabelStep(ws: seq<string>, k: nat, j: nat)
    requires k == LabelRun(ws) && j < k
    ensures ReadSoFar(ws, k, j + 1) == ReadWord(ReadSoFar(ws, k, j), ws[j], 0)
  {
    LabelRunLabels(ws, j);
    assert ReadSoFar(ws, k, j + 1) == Blank.(labelName := DropLast(ws[j]));
  }

  /** The first word after the labels is the mnemonic. */
  lemma MnemonicStep(ws: seq<string>, k: nat)
    requires k == LabelRun(ws) && k < |ws|
    ensures ReadSoFar(ws, k, k + 1) == ReadWord(ReadSoFar(ws, k, k), ws[k], 0)
  {
    assert !EndsWith(ws[k], ':');
    assert LastLabelIndex(ws, k + 1, k + 1) == -1;
    assert ReadSoFar(ws, k, k + 1) == ReadSoFar(ws, k, k).(op := Upper(StripComma(ws[k])));
  }

  /** A word after the mnemonic is either the label operand or the register of its position. */
  lemma OperandStep(ws: seq<string>, k: nat, j: nat)
    requires k == LabelRun(ws) && k < j < |ws|
    ensures ReadSoFar(ws, k, j + 1) == ReadWord(ReadSoFar(ws, k, j), ws[j], j - k)
  {
    RegisterReadStep(ws, k + 1, j);
    RegisterReadStep(ws, k + 2, j);
    RegisterReadStep(ws, k + 3, j);
    LabelOperandStep(ws, k + 1, j);
  }

  /** Reading word `j` sets register position `j` and no other. */
  lemma RegisterReadStep(ws: seq<string>, p: nat, j: nat)
    requires j < |ws|
    ensures RegisterRead(ws, p, j + 1) == if p == j then RegisterAt(ws, j) else RegisterRead(ws, p, j)
  {
  }

  /** Reading word `j` replaces the label operand exactly when that word is one. */
  lemma LabelOperandStep(ws: seq<string>, lo: nat, j: nat)
    requires lo <= j < |ws|
    ensures LabelOperandIn(ws, lo, j + 1) ==
            if IsLabelOperand(ws[j]) then StripComma(ws[j]) else LabelOperandIn(ws, lo, j)
  {
  }

  /**
   * The record a line of words yields: the last leading label (its colon removed), the
   * upper-cased mnemonic that follows the labels (its comma removed), the three words
   * after it read as register numbers, and the last of those words that is a label
   * operand.
   */
  function LineRecord(ws: seq<string>): ParsedInstruction
  {
    var k := LabelRun(ws);
    ParsedInstruction(
      if k < |ws| then Upper(StripComma(ws[k])) else "",
      RegisterAt(ws, k + 1), RegisterAt(ws, k + 2), RegisterAt(ws, k + 3),
      if k == 0 then "" else DropLast(ws[k - 1]),
      if k < |ws| then LabelOperandIn(ws, k + 1, |ws|) else "")
  }

  /** A line of white space only yields the value-initialised record. */
  lemma {:induction false} BlankLine(line: string)
    requires forall i :: 0 <= i < |line| ==> IsSpace(line[i])
    ensures Words(line) == []
    ensures LineRecord(Words(line)) == Blank
    decreases |line|
  {
    if line != [] {
      BlankLine(line[1..]);
    }
  }

  /** Dropping the first word moves every word position down by one. */
  lemma {:induction false} LastLabelShift(ws: seq<string>, lo: nat, hi: nat)
    requires 1 <= lo <= hi <= |ws|
    ensures LastLabelIndex(ws, lo, hi) ==
            var j := LastLabelIndex(ws[1..], lo - 1, hi - 1); if j < 0 then -1 else j + 1
    decreases hi - lo
  {
    if hi > lo {
      assert ws[1..][hi - 2] == ws[hi - 1];
      if !IsLabelOperand(ws[hi - 1]) {
        LastLabelShift(ws, lo, hi - 1);
      }
    }
  }

  /**
   * A leading label does not take an operand position: the line reads as the rest of the
   * line, except that the label is this one unless a later leading label replaces it.
   */
  lemma LeadingLabelSkipped(ws: seq<string>)
    requires |ws| > 0 && EndsWith(ws[0], ':')
    ensures var rest := LineRecord(ws[1..]);
            LineRecord(ws) ==
              rest.(labelName := if LabelRun(ws[1..]) == 0 then DropLast(ws[0]) else rest.labelName)
  {
    var k := LabelRun(ws[1..]);
    assert LabelRun(ws) == k + 1;
    var rec, rest := LineRecord(ws), LineRecord(ws[1..]);
    RegisterShift(ws, k + 2);
    RegisterShift(ws, k + 3);
    RegisterShift(ws, k + 4);
    assert rec.r0 == RegisterAt(ws, k + 2) && rest.r0 == RegisterAt(ws[1..], k + 1);
    assert rec.r1 == RegisterAt(ws, k + 3) && rest.r1 == RegisterAt(ws[1..], k + 2);
    assert rec.r2 == RegisterAt(ws, k + 4) && rest.r2 == RegisterAt(ws[1..], k + 3);
    if k > 0 {
      assert ws[1..][k - 1] == ws[k];
    }
    assert rec.labelName == if k == 0 then DropLast(ws[0]) else rest.labelName;
    if k + 1 < |ws| {
      assert ws[1..][k] == ws[k + 1];
      LabelOperandShift(ws, k + 2, |ws|);
    }
    assert rec.op == rest.op;
    assert rec.labelOp == rest.labelOp;
  }

  /** Dropping the first word moves the label operand search down by one position. */
  lemma LabelOperandShift(ws: seq<string>, lo: nat, hi: nat)
    requires 1 <= lo <= hi <= |ws|
    ensures LabelOperandIn(ws, lo, hi) == LabelOperandIn(ws[1..], lo - 1, hi - 1)
  {
    LastLabelShift(ws, lo, hi);
    var j := LastLabelIndex(ws[1..], lo - 1, hi - 1);
    if j >= 0 {
      assert ws[1..][j] == ws[j + 1];
    }
  }

  /** Dropping the first word moves the register positions down by one. */
  lemma RegisterShift(ws: seq<string>, j: nat)
    requires 1 <= j && |ws| > 0
    ensures RegisterAt(ws, j) == RegisterAt(ws[1..], j - 1)
  {
    if j < |ws| {
      assert ws[1..][j - 1] == ws[j];
    }
  }

  /** Reading every word yields the record of the line. */
  lemma ReadSoFarComplete(ws: seq<string>, k: nat)
    requires k == LabelRun(ws)
    ensures ReadSoFar(ws, k, |ws|) == LineRecord(ws)
  {
    var r := ReadSoFar(ws, k, |ws|);
    if k == |ws| {
      assert r == Blank.(labelName := if k == 0 then "" else DropLast(ws[k - 1]));
    } else {
      assert r.r0 == RegisterAt(ws, k + 1) && r.r1 == RegisterAt(ws, k + 2) && r.r2 == RegisterAt(ws, k + 3);
    }
  }

  /** The body of `parseLine`'s read loop: one word read into the record, and the new word counter. */
  method ReadInto(res: ParsedInstruction, word: string, i: int) returns (res': ParsedInstruction, i': int)
    ensures res' == ReadWord(res, word, i)
    ensures i' == (if i == 0 && EndsWith(word, ':') then i else i + 1)
  {
    var buf := word;
    res' := res;
    if i == 0 && EndsWith(buf, ':') {
      buf := DropLast(buf);
      res' := res'.(labelName := buf);
      i' := i - 1;
    } else {
      if EndsWith(buf, ',') {
        buf := DropLast(buf);
      }
      if i == 0 {
        res' := res'.(op := Upper(buf));
      } else if !IsDigit(SecondChar(buf)) {
        res' := res'.(labelOp := buf);
      } else {
        var r := Atoi(buf) % 0x1_0000;
        if i == 1 {
          res' := res'.(r0 := r);
        } else if i == 2 {
          res' := res'.(r1 := r);
        } else if i == 3 {
          res' := res'.(r2 := r);
        }
      }
      i' := i;
    }
    i' := i' + 1;
  }

  /** The read loop of `parseLine`: the words of the line are read one by one into a blank record. */
  method ReadLine(ws: seq<string>) returns (res: ParsedInstruction)
    ensures res == LineRecord(ws)
  {
    ghost var k := LabelRun(ws);
    res := Blank;
    var i := 0;
    var j := 0;
    while j < |ws|
      invariant 0 <= j <= |ws|
      invariant i == (if j <= k then 0 else j - k)
      invariant res == ReadSoFar(ws, k, j)
    {
      if j < k {
        LabelRunLabels(ws, j);
      }
      ReadSoFarStep(ws, k, j);
      res, i := ReadInto(res, ws[j], i);
      j := j + 1;
    }
    ReadSoFarComplete(ws, k);
  }

  /** `parseLine`: the line is split into white-space separated words, which are then read in order. */
  method ParseLine(line: string) returns (res: ParsedInstruction)
    ensures res == LineRecord(Words(line))
  {
    res := ReadLine(Words(line));
  }
}
