/** Decoded machine instructions and their sequential numbering
    (`InstructionDetail` and `dissasm` in src/file_parser.rs). The decoder
    itself (Capstone) is not part of this model: its output for a byte range
    is an input here. */
module Instructions {
  import opened Basics
  import opened Errors

  /** `InstructionDetail`: one instruction as the viewer keeps it. */
  datatype InstructionDetail = InstructionDetail(
    serialNumber: nat,
    address: u64,
    mnemonic: string,
    opStr: string,
    size: nat)

  /** What the decoder reports for one instruction; the mnemonic and the
      operand text may be missing. */
  datatype Decoded = Decoded(
    address: u64,
    mnemonic: Option<string>,
    opStr: Option<string>,
    size: nat)

  /** The text shown for a missing mnemonic or operand string. */
  const UNKNOWN: string := "unknown"

  /** The decoder's outcome for a whole byte range. */
  type Disassembly = Result<seq<Decoded>, Error>

  /** The `k`-th decoded instruction as `dissasm` records it. */
  function Detail(d: Decoded, k: nat): (r: InstructionDetail)
    ensures r.serialNumber == k && r.address == d.address && r.size == d.size
    ensures d.mnemonic.Some? ==> r.mnemonic == d.mnemonic.value
    ensures d.mnemonic.None? ==> r.mnemonic == UNKNOWN
    ensures d.opStr.Some? ==> r.opStr == d.opStr.value
    ensures d.opStr.None? ==> r.opStr == UNKNOWN
  {
    InstructionDetail(k, d.address, d.mnemonic.GetOr(UNKNOWN), d.opStr.GetOr(UNKNOWN), d.size)
  }

  /** The decoded instructions numbered from zero in decoding order. */
  function Numbered(ds: seq<Decoded>): (r: seq<InstructionDetail>)
    ensures |r| == |ds|
    ensures forall i :: 0 <= i < |ds| ==> r[i] == Detail(ds[i], i)
  {
    seq(|ds|, i requires 0 <= i < |ds| => Detail(ds[i], i))
  }

  /** What `dissasm` returns for a decoder outcome. */
  function DissasmResult(disasm: Disassembly): Result<seq<InstructionDetail>, Error> {
    if disasm.Err? then Err(disasm.error) else Ok(Numbered(disasm.value))
  }

  /** `dissasm`: a decoder failure is passed on; otherwise the i-th decoded
      instruction becomes an `InstructionDetail` with serial number i. */
  method Dissasm(disasm: Disassembly) returns (r: Result<seq<InstructionDetail>, Error>)
    ensures r == DissasmResult(disasm)
    ensures disasm.Err? ==> r == Err(disasm.error)
    ensures disasm.Ok? ==> r.Ok? && |r.value| == |disasm.value|
    ensures disasm.Ok? ==> forall i :: 0 <= i < |r.value| ==>
      r.value[i].serialNumber == i && r.value[i] == Detail(disasm.value[i], i)
  {
    if disasm.Err? {
      return Err(disasm.error);
    }
    var ds := disasm.value;
    var instructions: seq<InstructionDetail> := [];
    for serialNumber := 0 to |ds|
      invariant |instructions| == serialNumber
      invariant forall i :: 0 <= i < serialNumber ==> instructions[i] == Detail(ds[i], i)
    {
      var insn := ds[serialNumber];
      instructions := instructions + [InstructionDetail(
        serialNumber, insn.address, insn.mnemonic.GetOr(UNKNOWN), insn.opStr.GetOr(UNKNOWN), insn.size)];
    }
    assert instructions == Numbered(ds);
    return Ok(instructions);
  }
}
