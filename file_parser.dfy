/** Section classification, `MachineFile::parse` and the region partition of
    `dissasm_fast` (src/file_parser.rs). The object-file reader (`object`),
    the decoder (Capstone) and the line-table lookups (`addr2line`) are not
    part of this model: what they report is an input here. */
module FileParser {
  import opened Basics
  import opened Errors
  import opened Instructions
  import opened Merge

  // ---------------------------------------------------------------------
  // Section flags and classification

  /** The format-specific flags the object reader reports for a section.
      `OtherFormat` stands for every flag kind `should_disassemble` does not
      handle (for instance XCOFF). */
  datatype SectionFlags =
    | NoFlags
    | Elf(shFlags: bv64)
    | MachO(flags: bv32)
    | Coff(characteristics: bv32)
    | OtherFormat

  /** ELF `SHF_EXECINSTR` (System V gABI, section attribute flags). */
  const SHF_EXECINSTR: bv64 := 0x4
  /** Mach-O `S_ATTR_PURE_INSTRUCTIONS`. */
  const S_ATTR_PURE_INSTRUCTIONS: bv32 := 0x8000_0000
  /** PE/COFF `IMAGE_SCN_MEM_EXECUTE` (section flags table of the Microsoft
      PE/COFF specification). */
  const IMAGE_SCN_MEM_EXECUTE: bv32 := 0x2000_0000

  /** The flag kinds `should_disassemble` answers for; any other one reaches
      `todo!()`. */
  predicate Handled(f: SectionFlags) {
    !f.OtherFormat?
  }

  /** `should_disassemble`: a section holds code exactly when its format's
      executable bit is set: bit 2 for ELF, bit 31 for Mach-O, bit 29 for
      COFF; a section without flags never does. */
  function ShouldDisassemble(f: SectionFlags): (r: bool)
    requires Handled(f)
    ensures f.NoFlags? ==> !r
    ensures f.Elf? ==> (r <==> (f.shFlags >> 2) & 1 == 1)
    ensures f.MachO? ==> (r <==> (f.flags >> 31) & 1 == 1)
    ensures f.Coff? ==> (r <==> (f.characteristics >> 29) & 1 == 1)
  {
    match f
    case Elf(shFlags) => shFlags & SHF_EXECINSTR != 0
    case MachO(flags) => flags & S_ATTR_PURE_INSTRUCTIONS != 0
    case Coff(characteristics) => characteristics & IMAGE_SCN_MEM_EXECUTE != 0
    case NoFlags => false
  }

  // ---------------------------------------------------------------------
  // Sections of a parsed file

  datatype CodeSection = CodeSection(name: string, data: seq<bv8>, address: u64)

  datatype InfoSection = InfoSection(name: string, data: seq<bv8>, address: u64)

  /** A section of a parsed file: code to disassemble or anything else. */
  datatype Section = Code(code: CodeSection) | Info(info: InfoSection) {
    /** `Section::name` */
    function Name(): string {
      match this
      case Code(c) => c.name
      case Info(i) => i.name
    }

    function Data(): seq<bv8> {
      match this
      case Code(c) => c.data
      case Info(i) => i.data
    }

    function Address(): u64 {
      match this
      case Code(c) => c.address
      case Info(i) => i.address
    }
  }

  /** A section as the object reader offers it: reading its name (which must
      be UTF-8) or its contents can fail. */
  datatype ObjectSection = ObjectSection(
    name: Result<string, Error>,
    data: Result<seq<bv8>, Error>,
    address: u64,
    flags: SectionFlags)

  predicate Readable(o: ObjectSection) {
    o.name.Ok? && o.data.Ok?
  }

  /** The error `parse` stops with at an unreadable section: the name is read
      first. */
  function ReadError(o: ObjectSection): Error
    requires !Readable(o)
  {
    if o.name.Err? then o.name.error else o.data.error
  }

  /** The position of the first section whose name or contents cannot be
      read, or the number of sections if there is none. */
  function FirstUnreadable(secs: seq<ObjectSection>): (k: nat)
    ensures k <= |secs|
    ensures forall i :: 0 <= i < k ==> Readable(secs[i])
    ensures k < |secs| ==> !Readable(secs[k])
  {
    if secs == [] || !Readable(secs[0]) then 0
    else 1 + FirstUnreadable(secs[1..])
  }

  /** `s` is what `parse` makes of the object section `o`. */
  predicate Classified(o: ObjectSection, s: Section) {
    && Readable(o) && Handled(o.flags)
    && s.Name() == o.name.value
    && s.Data() == o.data.value
    && s.Address() == o.address
    && (s.Code? <==> ShouldDisassemble(o.flags))
  }

  /** `MachineFile::parse`, up to the construction of the file: an object
      file the reader rejects is an error; otherwise the sections are
      visited in order, the first unreadable name or contents stops the
      parse with that error, and each readable section becomes one `Code`
      or `Info` section with the same name, contents and address. Every
      section visited must carry flags `should_disassemble` handles. */
  method Parse(obj: Result<seq<ObjectSection>, Error>) returns (r: Result<seq<Section>, Error>)
    requires obj.Ok? ==> forall i :: 0 <= i < FirstUnreadable(obj.value) ==> Handled(obj.value[i].flags)
    ensures obj.Err? ==> r == Err(obj.error)
    ensures obj.Ok? && FirstUnreadable(obj.value) < |obj.value| ==>
      r == Err(ReadError(obj.value[FirstUnreadable(obj.value)]))
    ensures obj.Ok? && FirstUnreadable(obj.value) == |obj.value| ==>
      && r.Ok? && |r.value| == |obj.value|
      && forall i :: 0 <= i < |obj.value| ==> Classified(obj.value[i], r.value[i])
  {
    if obj.Err? {
      return Err(obj.error);
    }
    var secs := obj.value;
    var parsed: seq<Section> := [];
    for i := 0 to |secs|
      invariant i <= FirstUnreadable(secs)
      invariant |parsed| == i
      invariant forall j :: 0 <= j < i ==> Classified(secs[j], parsed[j])
    {
      var section := secs[i];
      if section.name.Err? {
        return Err(section.name.error);
      }
      var name := section.name.value;
      if section.data.Err? {
        return Err(section.data.error);
      }
      var data := section.data.value;
      if ShouldDisassemble(section.flags) {
        parsed := parsed + [Code(CodeSection(name, data, section.address))];
      } else {
        parsed := parsed + [Info(InfoSection(name, data, section.address))];
      }
    }
    return Ok(parsed);
  }

  // ---------------------------------------------------------------------
  // Region partition of `dissasm_fast`

  /** The distance between probes: one mebibyte. */
  const STEP: nat := 0x10_0000

  /** The line-table range query `find_location_range(probe, end)`: the
      start and size of the first row it reports, if any. */
  type RangeOracle = (u64, u64) -> Result<Option<(u64, nat)>, Error>

  /** What the range query promises: a reported row reaches past the probe
      (it overlaps the probed range), and its end is a 64-bit address. */
  predicate Progressing(ranges: RangeOracle) {
    forall probe: u64, end: u64 {:trigger ranges(probe, end)} ::
      var q := ranges(probe, end);
      q.Ok? && q.value.Some? ==> probe < q.value.value.0 + q.value.value.1 < U64_LIMIT
  }

  /** `get_past_valid`: the end of the first line-table row at or after
      `start`, or nothing; a failing query is passed on. */
  function GetPastValid(ranges: RangeOracle, start: u64, end: u64): (r: Result<Option<u64>, Error>)
    requires Progressing(ranges)
    ensures r.Err? <==> ranges(start, end).Err?
    ensures r.Err? ==> r.error == ranges(start, end).error
    ensures r.Ok? ==> (r.value.None? <==> ranges(start, end).value.None?)
    ensures r.Ok? && r.value.Some? ==> r.value.value > start
  {
    match ranges(start, end)
    case Err(e) => Err(e)
    case Ok(None) => Ok(None)
    case Ok(Some(row)) => Ok(Some(row.0 + row.1))
  }

  /** The region boundaries the partition loop finds from `cur` on: the
      successive values of `next_start`. */
  function Cuts(ranges: RangeOracle, cur: u64, end: u64): (r: Result<seq<u64>, Error>)
    requires Progressing(ranges) && end + STEP <= U64_LIMIT
    ensures r.Ok? ==> Spaced(cur, end, r.value)
    decreases end - cur
  {
    if cur >= end then Ok([])
    else
      match GetPastValid(ranges, cur + STEP, end)
      case Err(e) => Err(e)
      case Ok(None) => Ok([])
      case Ok(Some(next)) =>
        match Cuts(ranges, next, end)
        case Err(e) => Err(e)
        case Ok(rest) =>
          SpacedCons(cur, end, next, rest);
          Ok([next] + rest)
  }

  lemma SpacedCons(cur: int, end: int, next: u64, rest: seq<u64>)
    requires cur < end && cur + STEP < next && Spaced(next, end, rest)
    ensures Spaced(cur, end, [next] + rest)
  {
    var cuts := [next] + rest;
    forall i | 0 <= i < |cuts|
      ensures CutBefore(cur, cuts, i) < end && CutBefore(cur, cuts, i) + STEP < cuts[i]
    {
      if i > 0 {
        assert cuts[i] == rest[i - 1];
        assert CutBefore(cur, cuts, i) == CutBefore(next, rest, i - 1);
        assert CutBefore(next, rest, i - 1) < end && CutBefore(next, rest, i - 1) + STEP < rest[i - 1];
      }
    }
  }

  /** Where the region ending at `cuts[i]` starts. */
  function CutBefore(cur: int, cuts: seq<u64>, i: nat): int
    requires i < |cuts|
  {
    if i == 0 then cur else cuts[i - 1]
  }

  /** Every boundary lies more than `STEP` past the previous one (the first
      past `cur`), and a boundary is only looked for while the previous one
      is below `end`. */
  predicate Spaced(cur: int, end: int, cuts: seq<u64>) {
    forall i :: 0 <= i < |cuts| ==>
      CutBefore(cur, cuts, i) < end && CutBefore(cur, cuts, i) + STEP < cuts[i]
  }

  /** A region to decode: from `start` up to `end`. */
  datatype Region = Region(start: u64, end: u64)

  /** The regions the boundaries `cuts` delimit, the first starting at
      `base` and the last ending at `last`. */
  function RegionsOf(base: u64, cuts: seq<u64>, last: u64): (rs: seq<Region>)
    ensures |rs| == |cuts| + 1
    ensures forall i :: 0 <= i <= |cuts| ==> rs[i] == RegionAt(base, cuts, last, i)
  {
    seq(|cuts| + 1, i requires 0 <= i <= |cuts| => RegionAt(base, cuts, last, i))
  }

  /** The `i`-th region: from the previous boundary (or `base`) to the next
      one (or `last`). */
  function RegionAt(base: u64, cuts: seq<u64>, last: u64, i: nat): Region
    requires i <= |cuts|
  {
    Region(if i == 0 then base else cuts[i - 1], if i < |cuts| then cuts[i] else last)
  }

  /** The shape of a partition: it starts at `base`, ends at `end`, its
      regions meet end to end, and every region but the last starts below
      `end` and spans more than `STEP`. */
  predicate Partition(rs: seq<Region>, base: u64, end: u64) {
    && |rs| >= 1
    && rs[0].start == base
    && rs[|rs| - 1].end == end
    && forall i :: 0 <= i < |rs| - 1 ==>
         rs[i].end == rs[i + 1].start && rs[i].start < end && rs[i].start + STEP < rs[i].end
  }

  /** Whatever the line table reports, a partition the loop completes has
      the shape above. */
  lemma PartitionShape(ranges: RangeOracle, base: u64, end: u64)
    requires Progressing(ranges) && end + STEP <= U64_LIMIT
    ensures Cuts(ranges, base, end).Ok? ==>
      Partition(RegionsOf(base, Cuts(ranges, base, end).value, end), base, end)
  {
    var found := Cuts(ranges, base, end);
    if found.Ok? {
      RegionsPartition(base, found.value, end);
    }
  }

  /** A line-table row may start inside the section and end past it: the
      last region then starts beyond the section end. With a one-byte
      section at 0 and a row `[STEP, STEP + 1)`, the only boundary is
      `STEP + 1`, the first region overruns the data and the last region is
      inverted, so the worker's `end - start` would underflow. */
  lemma LastRegionMayInvert()
    ensures Progressing(RowPerProbe)
    ensures Cuts(RowPerProbe, 0, 1) == Ok([STEP + 1])
    ensures RegionsOf(0, [STEP + 1], 1) == [Region(0, STEP + 1), Region(STEP + 1, 1)]
  {
    assert RowPerProbe(STEP, 1) == Ok(Some((STEP, 1)));
    assert GetPastValid(RowPerProbe, STEP, 1) == Ok(Some(STEP + 1));
    assert Cuts(RowPerProbe, STEP + 1, 1) == Ok([]);
    assert [STEP + 1] + [] == [STEP + 1];
  }

  /** A line table whose every query reports a one-byte row at the probe. */
  function RowPerProbe(p: u64, e: u64): Result<Option<(u64, nat)>, Error> {
    if p + 1 < U64_LIMIT then Ok(Some((p, 1))) else Ok(None)
  }

  lemma RegionsPartition(base: u64, cuts: seq<u64>, end: u64)
    requires Spaced(base, end, cuts)
    ensures Partition(RegionsOf(base, cuts, end), base, end)
  {
    var rs := RegionsOf(base, cuts, end);
    forall i | 0 <= i < |rs| - 1
      ensures rs[i].end == rs[i + 1].start && rs[i].start < end && rs[i].start + STEP < rs[i].end
    {
      assert CutBefore(base, cuts, i) < end && CutBefore(base, cuts, i) + STEP < cuts[i];
      assert rs[i].end == cuts[i] && rs[i + 1].start == cuts[i];
      assert rs[i].start == CutBefore(base, cuts, i);
    }
  }

  /** Boundaries found so far, followed by those found from here on. */
  function Prepend(found: seq<u64>, rest: Result<seq<u64>, Error>): Result<seq<u64>, Error> {
    match rest
    case Err(e) => Err(e)
    case Ok(cs) => Ok(found + cs)
  }

  /** `diffs.last_mut().unwrap().1 = last` */
  function Close(rs: seq<Region>, last: u64): seq<Region>
    requires rs != []
  {
    rs[..|rs| - 1] + [rs[|rs| - 1].(end := last)]
  }

  /** The partition loop of `dissasm_fast`: starting with one open region at
      `base`, probe `STEP` past the current start; each boundary the line
      table reports closes the open region and opens the next one, until the
      table has nothing more, the boundary passes the end, or the query
      fails. The last region is closed at the end of the section. */
  method PartitionRegions(ranges: RangeOracle, base: u64, len: nat) returns (r: Result<seq<Region>, Error>)
    requires Progressing(ranges) && base + len + STEP <= U64_LIMIT
    ensures Cuts(ranges, base, base + len).Err? ==> r == Err(Cuts(ranges, base, base + len).error)
    ensures Cuts(ranges, base, base + len).Ok? ==>
      r == Ok(RegionsOf(base, Cuts(ranges, base, base + len).value, base + len))
  {
    var end: u64 := base + len;
    var diffs: seq<Region> := [Region(base, 0)];
    var cur := base;
    ghost var cuts: seq<u64> := [];
    PrependNone(Cuts(ranges, base, end));
    while cur < end
      invariant diffs == RegionsOf(base, cuts, 0)
      invariant cur == if cuts == [] then base else cuts[|cuts| - 1]
      invariant Prepend(cuts, Cuts(ranges, cur, end)) == Cuts(ranges, base, end)
      decreases end - cur
    {
      var past := GetPastValid(ranges, cur + STEP, end);
      CutsStep(ranges, cur, end);
      if past.Err? {
        assert Cuts(ranges, base, end) == Err(past.error);
        return Err(past.error);
      }
      if past.value.None? {
        break;
      }
      var next := past.value.value;
      CloseOpen(base, cuts, next);
      diffs := Close(diffs, next) + [Region(next, 0)];
      PrependNext(cuts, next, Cuts(ranges, next, end));
      cuts := cuts + [next];
      cur := next;
    }
    if cur >= end {
      CutsAtEnd(ranges, cur, end);
    }
    FoundAll(ranges, base, cur, end, cuts);
    CloseLast(base, cuts, end);
    diffs := Close(diffs, end);
    assert diffs == RegionsOf(base, cuts, end);
    assert Cuts(ranges, base, end) == Ok(cuts);
    return Ok(diffs);
  }

  lemma PrependNone(rest: Result<seq<u64>, Error>)
    ensures Prepend([], rest) == rest
  {
    if rest.Ok? {
      assert [] + rest.value == rest.value;
    }
  }

  /** The loop stops where the boundaries run out. */
  lemma FoundAll(ranges: RangeOracle, base: u64, cur: u64, end: u64, cuts: seq<u64>)
    requires Progressing(ranges) && end + STEP <= U64_LIMIT
    requires Cuts(ranges, cur, end) == Ok([])
    requires Prepend(cuts, Cuts(ranges, cur, end)) == Cuts(ranges, base, end)
    ensures Cuts(ranges, base, end) == Ok(cuts)
  {
    assert cuts + [] == cuts;
  }

  /** Closing the open region at `next` and opening one there. */
  lemma CloseOpen(base: u64, cuts: seq<u64>, next: u64)
    ensures Close(RegionsOf(base, cuts, 0), next) + [Region(next, 0)] == RegionsOf(base, cuts + [next], 0)
  {
    var a := Close(RegionsOf(base, cuts, 0), next) + [Region(next, 0)];
    var b := RegionsOf(base, cuts + [next], 0);
    assert |a| == |b|;
    forall i | 0 <= i < |a| ensures a[i] == b[i] {
      if i < |cuts| {
        assert a[i] == RegionsOf(base, cuts, 0)[i];
      }
    }
  }

  /** Closing the last open region at the end of the section. */
  lemma CloseLast(base: u64, cuts: seq<u64>, end: u64)
    ensures Close(RegionsOf(base, cuts, 0), end) == RegionsOf(base, cuts, end)
  {
    var a := Close(RegionsOf(base, cuts, 0), end);
    var b := RegionsOf(base, cuts, end);
    forall i | 0 <= i < |a| ensures a[i] == b[i] {
      if i < |cuts| {
        assert a[i] == RegionsOf(base, cuts, 0)[i];
      }
    }
  }

  /** One round of the partition loop, in terms of `Cuts`. */
  lemma CutsStep(ranges: RangeOracle, cur: u64, end: u64)
    requires Progressing(ranges) && end + STEP <= U64_LIMIT && cur < end
    ensures var past := GetPastValid(ranges, cur + STEP, end);
      && (past.Err? ==> Cuts(ranges, cur, end) == Err(past.error))
      && (past.Ok? && past.value.None? ==> Cuts(ranges, cur, end) == Ok([]))
      && (past.Ok? && past.value.Some? ==>
            Cuts(ranges, cur, end) == Prepend([past.value.value], Cuts(ranges, past.value.value, end)))
  {
  }

  lemma CutsAtEnd(ranges: RangeOracle, cur: u64, end: u64)
    requires Progressing(ranges) && end + STEP <= U64_LIMIT && cur >= end
    ensures Cuts(ranges, cur, end) == Ok([])
  {
  }

  lemma PrependNext(found: seq<u64>, next: u64, rest: Result<seq<u64>, Error>)
    ensures Prepend(found, Prepend([next], rest)) == Prepend(found + [next], rest)
  {
    if rest.Ok? {
      assert found + ([next] + rest.value) == (found + [next]) + rest.value;
    }
  }

  /** `dissasm_fast`: a section the partition leaves in one region is decoded
      sequentially (`dissasm` on the decoder's output for the whole
      section); otherwise the blocks the workers produced are merged, by
      `merge_linked_lists` as written (streams kept in ascending order), and
      renumbered. A failing range query is passed on. */
  method DissasmFast(ranges: RangeOracle, data: seq<bv8>, base: u64, whole: Disassembly,
                     workerLists: seq<seq<Block>>) returns (r: Result<seq<InstructionDetail>, Error>)
    requires Progressing(ranges) && base + |data| + STEP <= U64_LIMIT
    requires forall l :: 0 <= l < |workerLists| ==> NonEmptyBlocks(workerLists[l])
    ensures var found := Cuts(ranges, base, base + |data|);
      && (found.Err? ==> r == Err(found.error))
      && (found.Ok? && found.value == [] ==> r == DissasmResult(whole))
      && (found.Ok? && found.value != [] ==> r == Ok(MergeSpec(workerLists, Ascending)))
    ensures r.Ok? ==> forall k :: 0 <= k < |r.value| ==> r.value[k].serialNumber == k
  {
    var split := PartitionSplits(ranges, base, |data|);
    ghost var found := Cuts(ranges, base, base + |data|);
    if split.Err? {
      assert found.Err? && found.error == split.error;
      return Err(split.error);
    }
    assert found.Ok? && split.value == (found.value != []);
    if !split.value {
      r := Dissasm(whole);
      return;
    }
    var merged := MergeLinkedLists(workerLists, Ascending);
    r := Ok(merged);
  }

  /** `dissasm_fast` with the merge its comment describes (streams kept in
      descending order, so the smallest next block is taken first); with
      each worker's blocks ascending, the merged blocks ascend too
      (`Merge.CorrectedMergeAscends`). */
  method DissasmFastCorrected(ranges: RangeOracle, data: seq<bv8>, base: u64, whole: Disassembly,
                              workerLists: seq<seq<Block>>) returns (r: Result<seq<InstructionDetail>, Error>)
    requires Progressing(ranges) && base + |data| + STEP <= U64_LIMIT
    requires forall l :: 0 <= l < |workerLists| ==> NonEmptyBlocks(workerLists[l])
    ensures var found := Cuts(ranges, base, base + |data|);
      && (found.Err? ==> r == Err(found.error))
      && (found.Ok? && found.value == [] ==> r == DissasmResult(whole))
      && (found.Ok? && found.value != [] ==> r == Ok(MergeSpec(workerLists, Descending)))
    ensures r.Ok? ==> forall k :: 0 <= k < |r.value| ==> r.value[k].serialNumber == k
  {
    var split := PartitionSplits(ranges, base, |data|);
    ghost var found := Cuts(ranges, base, base + |data|);
    if split.Err? {
      assert found.Err? && found.error == split.error;
      return Err(split.error);
    }
    assert found.Ok? && split.value == (found.value != []);
    if !split.value {
      r := Dissasm(whole);
      return;
    }
    var merged := MergeLinkedLists(workerLists, Descending);
    r := Ok(merged);
  }

  /** Steps 1 and "bail if it is too small" of `dissasm_fast`: run the
      partition loop and report whether it produced more than one region. */
  method PartitionSplits(ranges: RangeOracle, base: u64, len: nat) returns (r: Result<bool, Error>)
    requires Progressing(ranges) && base + len + STEP <= U64_LIMIT
    ensures var found := Cuts(ranges, base, base + len);
      && (found.Err? <==> r.Err?)
      && (found.Err? ==> r.error == found.error)
      && (found.Ok? ==> r.value == (found.value != []))
  {
    var diffs := PartitionRegions(ranges, base, len);
    ghost var found := Cuts(ranges, base, base + len);
    if diffs.Err? {
      assert found.Err?;
      return Err(diffs.error);
    }
    assert found.Ok? && |diffs.value| == |found.value| + 1;
    r := Ok(|diffs.value| > 1);
  }
}
