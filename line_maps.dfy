/** `MachineFile::get_lines_map` (src/file_parser.rs): every instruction of
    every code section is filed under the source position the line table
    gives for its address, in a map from file to line to instructions. The
    line-table lookup (`addr2line`'s `find_location`) and the decoder are
    inputs here. */
module LineMaps {
  import opened Basics
  import opened Errors
  import opened Instructions
  import opened FileParser

  /** What `find_location` reports for one address. */
  datatype Location = Location(file: Option<Path>, line: Option<u32>)

  type Lookup = u64 -> Result<Option<Location>, Error>

  /** `LineMap`: the instructions of one file by line, and those of the file
      whose line is unknown. */
  datatype LineMap = LineMap(inner: map<u32, seq<InstructionDetail>>, extra: seq<InstructionDetail>)

  /** `FileMap`: the line maps by file, and the instructions without a
      known position. */
  datatype FileMap = FileMap(inner: map<Path, LineMap>, extra: seq<InstructionDetail>)

  const EMPTY_FILE_MAP := FileMap(map[], [])

  /** The places an instruction can be filed under. */
  datatype Bucket = AtLine(file: Path, line: u32) | InFile(file: Path) | Unplaced

  /** A lookup that finds a position without a file: `get_lines_map`
      reaches `todo!()` on it. */
  predicate Fileless(found: Result<Option<Location>, Error>) {
    found.Ok? && found.value.Some? && found.value.value.file.None?
  }

  /** Every instruction of `xs` has a lookup `get_lines_map` can file. */
  predicate Locatable(lookup: Lookup, xs: seq<InstructionDetail>) {
    forall i :: 0 <= i < |xs| ==> !Fileless(lookup(xs[i].address))
  }

  /** Where the lookup result sends an instruction: under its file and line,
      under its file alone, or (lookup failed or found nothing) at the top. */
  function BucketOf(found: Result<Option<Location>, Error>): Bucket
    requires !Fileless(found)
  {
    if found.Ok? && found.value.Some? then
      var loc := found.value.value;
      if loc.line.Some? then AtLine(loc.file.value, loc.line.value) else InFile(loc.file.value)
    else Unplaced
  }

  /** The line map of file `f`, or an empty one (`entry(file).or_default()`). */
  function FileEntry(m: FileMap, f: Path): LineMap {
    if f in m.inner then m.inner[f] else LineMap(map[], [])
  }

  /** Appends `x` to bucket `b`, creating the entries on the way. */
  function Push(m: FileMap, b: Bucket, x: InstructionDetail): FileMap {
    match b
    case Unplaced => m.(extra := m.extra + [x])
    case InFile(f) =>
      var lm := FileEntry(m, f);
      m.(inner := m.inner[f := lm.(extra := lm.extra + [x])])
    case AtLine(f, l) =>
      var lm := FileEntry(m, f);
      var v := if l in lm.inner then lm.inner[l] else [];
      m.(inner := m.inner[f := lm.(inner := lm.inner[l := v + [x]])])
  }

  /** The contents of bucket `b`; a bucket without an entry is empty. */
  function Contents(m: FileMap, b: Bucket): seq<InstructionDetail> {
    match b
    case Unplaced => m.extra
    case InFile(f) => if f in m.inner then m.inner[f].extra else []
    case AtLine(f, l) => if f in m.inner && l in m.inner[f].inner then m.inner[f].inner[l] else []
  }

  /** The file a bucket belongs to, if any. */
  function FileOf(b: Bucket): Option<Path> {
    match b
    case Unplaced => None
    case InFile(f) => Some(f)
    case AtLine(f, _) => Some(f)
  }

  /** The map `get_lines_map` builds by filing the instructions `xs` one by
      one. */
  function Group(lookup: Lookup, xs: seq<InstructionDetail>): FileMap
    requires Locatable(lookup, xs)
  {
    if xs == [] then EMPTY_FILE_MAP
    else
      var n := |xs| - 1;
      Push(Group(lookup, xs[..n]), BucketOf(lookup(xs[n].address)), xs[n])
  }

  /** The instructions of `xs` that belong in bucket `b`, in order. */
  function Filter(lookup: Lookup, xs: seq<InstructionDetail>, b: Bucket): seq<InstructionDetail>
    requires Locatable(lookup, xs)
  {
    if xs == [] then []
    else
      var n := |xs| - 1;
      Filter(lookup, xs[..n], b) + (if BucketOf(lookup(xs[n].address)) == b then [xs[n]] else [])
  }

  /** A lookup that can file every instruction of `ys` can file those of a
      prefix of it. */
  lemma LocatablePrefix(lookup: Lookup, xs: seq<InstructionDetail>, ys: seq<InstructionDetail>)
    requires xs <= ys && Locatable(lookup, ys)
    ensures Locatable(lookup, xs)
  {
    forall i | 0 <= i < |xs|
      ensures !Fileless(lookup(xs[i].address))
    {
      assert xs[i] == ys[i];
    }
  }

  // ---------------------------------------------------------------------
  // What the grouping holds

  lemma PushContents(m: FileMap, b: Bucket, x: InstructionDetail, c: Bucket)
    ensures Contents(Push(m, b, x), c) == Contents(m, c) + (if b == c then [x] else [])
  {
    match c
    case Unplaced =>
    case InFile(f) =>
      if b != c {
        assert Contents(m, c) + [] == Contents(m, c);
      }
    case AtLine(f, l) =>
      if b != c {
        assert Contents(m, c) + [] == Contents(m, c);
      }
  }

  /** Each bucket holds exactly the instructions whose lookup leads to it,
      in their original order: every instruction is filed once, under the
      one bucket its lookup names. */
  lemma {:induction false} GroupContents(lookup: Lookup, xs: seq<InstructionDetail>, b: Bucket)
    requires Locatable(lookup, xs)
    ensures Contents(Group(lookup, xs), b) == Filter(lookup, xs, b)
  {
    if xs != [] {
      var n := |xs| - 1;
      GroupContents(lookup, xs[..n], b);
      PushContents(Group(lookup, xs[..n]), BucketOf(lookup(xs[n].address)), xs[n], b);
    }
  }

  /** A file has an entry exactly when some instruction is filed under it. */
  lemma {:induction false} GroupFiles(lookup: Lookup, xs: seq<InstructionDetail>, f: Path)
    requires Locatable(lookup, xs)
    ensures f in Group(lookup, xs).inner <==>
      exists i :: 0 <= i < |xs| && FileOf(BucketOf(lookup(xs[i].address))) == Some(f)
  {
    if xs != [] {
      var n := |xs| - 1;
      GroupFiles(lookup, xs[..n], f);
      if f in Group(lookup, xs[..n]).inner {
        var i :| 0 <= i < n && FileOf(BucketOf(lookup(xs[..n][i].address))) == Some(f);
        assert xs[..n][i] == xs[i];
      }
      if exists i :: 0 <= i < |xs| && FileOf(BucketOf(lookup(xs[i].address))) == Some(f) {
        var i :| 0 <= i < |xs| && FileOf(BucketOf(lookup(xs[i].address))) == Some(f);
        if i < n {
          assert xs[..n][i] == xs[i];
        }
      }
    }
  }

  /** A line of a file has an entry exactly when its bucket is not empty. */
  lemma {:induction false} GroupLines(lookup: Lookup, xs: seq<InstructionDetail>, f: Path, l: u32)
    requires Locatable(lookup, xs)
    ensures var m := Group(lookup, xs);
      l in FileEntry(m, f).inner <==> Filter(lookup, xs, AtLine(f, l)) != []
  {
    if xs != [] {
      var n := |xs| - 1;
      GroupLines(lookup, xs[..n], f, l);
    }
  }

  // ---------------------------------------------------------------------
  // Which instructions are filed

  /** How far `get_lines_map` gets through the sections: the instructions of
      the code sections decoded so far, and the decoding error it stopped
      at, if any. */
  datatype Progress = Progress(insns: seq<InstructionDetail>, failure: Option<Error>)

  /** The code sections of `secs` are decoded in order (`get_asm`); the first
      decoding error ends the walk. */
  function Reached(secs: seq<Section>, decode: CodeSection -> Disassembly): Progress {
    if secs == [] then Progress([], None)
    else
      var n := |secs| - 1;
      var p := Reached(secs[..n], decode);
      if p.failure.Some? then p
      else
        match secs[n]
        case Info(_) => p
        case Code(c) =>
          match DissasmResult(decode(c))
          case Err(e) => Progress(p.insns, Some(e))
          case Ok(v) => Progress(p.insns + v, None)
  }

  /** Once the walk has failed, later sections change nothing. */
  lemma {:induction false} ReachedSticky(secs: seq<Section>, decode: CodeSection -> Disassembly, i: nat)
    requires i <= |secs| && Reached(secs[..i], decode).failure.Some?
    ensures Reached(secs, decode) == Reached(secs[..i], decode)
    decreases |secs|
  {
    if i < |secs| {
      var n := |secs| - 1;
      assert secs[..n][..i] == secs[..i];
      ReachedSticky(secs[..n], decode, i);
    } else {
      assert secs[..i] == secs;
    }
  }

  /** The instructions filed after the first sections come first among
      those filed after all of them. */
  lemma {:induction false} ReachedPrefix(secs: seq<Section>, decode: CodeSection -> Disassembly, i: nat)
    requires i <= |secs|
    ensures Reached(secs[..i], decode).insns <= Reached(secs, decode).insns
    decreases |secs|
  {
    if i < |secs| {
      var n := |secs| - 1;
      assert secs[..n][..i] == secs[..i];
      ReachedPrefix(secs[..n], decode, i);
    } else {
      assert secs[..i] == secs;
    }
  }

  /** What `get_lines_map` computes: a failing line-table context or
      decoding error is passed on; otherwise the instructions of all code
      sections are grouped. */
  function LinesMap(contextError: Option<Error>, lookup: Lookup, secs: seq<Section>,
                    decode: CodeSection -> Disassembly): Result<FileMap, Error>
    requires contextError.None? ==> Locatable(lookup, Reached(secs, decode).insns)
  {
    if contextError.Some? then Err(contextError.value)
    else
      var p := Reached(secs, decode);
      if p.failure.Some? then Err(p.failure.value) else Ok(Group(lookup, p.insns))
  }

  // ---------------------------------------------------------------------
  // The parsed file and its cached line map

  /** `MachineFile`: the parsed sections, the line-table context (or the
      error building it), the lookup and the decoder, and the cache that
      `get_lines_map` fills on success. */
  class MachineFile {
    const sections: seq<Section>
    const contextError: Option<Error>
    const lookup: Lookup
    const decode: CodeSection -> Disassembly
    var fileLines: Option<FileMap>

    /** A cached map is what `get_lines_map` computes. */
    ghost predicate Valid()
      reads this
    {
      fileLines.Some? ==>
        && contextError.None?
        && Locatable(lookup, Reached(sections, decode).insns)
        && LinesMap(contextError, lookup, sections, decode) == Ok(fileLines.value)
    }

    constructor (sections: seq<Section>, contextError: Option<Error>, lookup: Lookup,
                 decode: CodeSection -> Disassembly)
      ensures Valid() && fileLines.None?
      ensures this.sections == sections && this.contextError == contextError
      ensures this.lookup == lookup && this.decode == decode
    {
      this.sections := sections;
      this.contextError := contextError;
      this.lookup := lookup;
      this.decode := decode;
      fileLines := None;
    }

    /** `get_lines_map`: a cached map is returned as is; otherwise the map is
        computed, and cached only when it is computed without error (a
        `OnceCell` keeps nothing when its initialiser fails). */
    method GetLinesMap() returns (r: Result<FileMap, Error>)
      requires Valid()
      requires fileLines.None? && contextError.None? ==> Locatable(lookup, Reached(sections, decode).insns)
      modifies this
      ensures Valid()
      ensures contextError.None? ==> Locatable(lookup, Reached(sections, decode).insns)
      ensures r == LinesMap(contextError, lookup, sections, decode)
      ensures old(fileLines).Some? ==> fileLines == old(fileLines)
      ensures old(fileLines).None? ==> fileLines == if r.Ok? then Some(r.value) else None
    {
      if fileLines.Some? {
        return Ok(fileLines.value);
      }
      r := BuildLinesMap();
      if r.Ok? {
        fileLines := Some(r.value);
      }
    }

    /** The body of the `get_or_try_init` closure. */
    method BuildLinesMap() returns (r: Result<FileMap, Error>)
      requires contextError.None? ==> Locatable(lookup, Reached(sections, decode).insns)
      ensures r == LinesMap(contextError, lookup, sections, decode)
    {
      if contextError.Some? {
        return Err(contextError.value);
      }
      var handle := EMPTY_FILE_MAP;
      ghost var done: seq<InstructionDetail> := [];
      for i := 0 to |sections|
        invariant Reached(sections[..i], decode) == Progress(done, None)
        invariant Locatable(lookup, done)
        invariant handle == Group(lookup, done)
      {
        ReachedPrefix(sections, decode, i + 1);
        assert sections[..i + 1][..i] == sections[..i];
        if sections[i].Code? {
          var asm := Dissasm(decode(sections[i].code));
          if asm.Err? {
            ReachedSticky(sections, decode, i + 1);
            return Err(asm.error);
          }
          assert Reached(sections[..i + 1], decode).insns == done + asm.value;
          LocatablePrefix(lookup, done + asm.value, Reached(sections, decode).insns);
          handle := FileInstructions(handle, done, asm.value);
          done := done + asm.value;
        }
      }
      assert sections[..|sections|] == sections;
      return Ok(handle);
    }

    /** The inner loop: files the instructions of one code section. */
    method FileInstructions(handle0: FileMap, ghost done: seq<InstructionDetail>,
                            insns: seq<InstructionDetail>) returns (handle: FileMap)
      requires Locatable(lookup, done + insns) && Locatable(lookup, done)
      requires handle0 == Group(lookup, done)
      ensures handle == Group(lookup, done + insns)
    {
      handle := handle0;
      assert done + insns[..0] == done;
      for j := 0 to |insns|
        invariant Locatable(lookup, done + insns[..j])
        invariant handle == Group(lookup, done + insns[..j])
      {
        var instruction := insns[j];
        ghost var all := done + insns[..j + 1];
        assert all <= done + insns && all[..|all| - 1] == done + insns[..j] && all[|all| - 1] == instruction;
        LocatablePrefix(lookup, all, done + insns);
        handle := Push(handle, BucketOf(lookup(instruction.address)), instruction);
      }
      assert insns[..|insns|] == insns;
    }
  }
}
