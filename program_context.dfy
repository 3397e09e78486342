/** The memoising registries of src/program_context.rs: `AsmRegistry` opens
    and parses each object file once, `CodeRegistry` reads each source file
    once and gathers, from every object file, the instructions its line
    tables attribute to that source file. Reading files and parsing object
    files are inputs; the iteration order of the registry's hash map is an
    explicit parameter. */
module ProgramContext {
  import opened Basics
  import opened OrderedKeys
  import opened Errors
  import opened Instructions
  import opened FileParser
  import opened LineMaps

  /** What `MachineFile::parse` builds from an object file's bytes. */
  datatype Parsed = Parsed(
    sections: seq<Section>,
    contextError: Option<Error>,
    lookup: Lookup,
    decode: CodeSection -> Disassembly)

  type FileReader = Path -> Result<seq<bv8>, Error>
  type ObjectParser = seq<bv8> -> Result<Parsed, Error>
  type TextReader = Path -> Result<string, Error>

  /** The line map of every parsed file can be built without reaching the
      `todo!()` for a position without a file. */
  predicate NoFileless(m: MachineFile) {
    m.contextError.None? ==> Locatable(m.lookup, Reached(m.sections, m.decode).insns)
  }

  /** What `get_lines_map` yields for a parsed file. */
  function MachineLines(m: MachineFile): Result<FileMap, Error>
    requires NoFileless(m)
  {
    LinesMap(m.contextError, m.lookup, m.sections, m.decode)
  }

  // ---------------------------------------------------------------------
  // AsmRegistry

  /** `AsmRegistry`: object files by path, parsed or failed. Failures are
      stored as `WrapedError`s. The ghost `readLog` records every path
      whose file was read. */
  class AsmRegistry {
    var machines: map<Path, Result<MachineFile, Error>>
    ghost var readLog: seq<Path>

    ghost function Machines(): set<MachineFile>
      reads this
    {
      set p | p in machines && machines[p].Ok? :: machines[p].value
    }

    /** Stored failures are wrapped errors, and every cached line map is
        the one `get_lines_map` computes. */
    ghost predicate Valid()
      reads this, Machines()
    {
      forall p :: p in machines ==>
        (machines[p].Err? ==> machines[p].error.Wraped?) &&
        (machines[p].Ok? ==> machines[p].value.Valid())
    }

    constructor ()
      ensures Valid() && machines == map[] && readLog == []
    {
      machines := map[];
      readLog := [];
    }

    /** `get_machine`: a path seen before gets its stored outcome back,
        failures included, and is not read again; a new path is read and
        parsed once, and its outcome (a read or parse error, wrapped, or
        the parsed file) is stored under it. */
    method GetMachine(path: Path, read: FileReader, parse: ObjectParser)
      returns (r: Result<MachineFile, Error>)
      requires Valid()
      modifies this
      ensures Valid()
      ensures path in machines && r == machines[path]
      ensures path in old(machines) ==> machines == old(machines) && readLog == old(readLog)
      ensures path !in old(machines) ==>
        && machines == old(machines)[path := r]
        && readLog == old(readLog) + [path]
        && (read(path).Err? ==> r == Err(Wrap(read(path).error)))
        && (read(path).Ok? && parse(read(path).value).Err? ==>
              r == Err(Wrap(parse(read(path).value).error)))
        && (read(path).Ok? && parse(read(path).value).Ok? ==>
              r.Ok? && fresh(r.value) && r.value.fileLines.None? &&
              Built(r.value, parse(read(path).value).value))
    {
      if path in machines {
        return machines[path];
      }
      readLog := readLog + [path];
      var buffer := read(path);
      if buffer.Err? {
        r := Err(Wrap(buffer.error));
      } else {
        var parsed := parse(buffer.value);
        if parsed.Err? {
          r := Err(Wrap(parsed.error));
        } else {
          var p := parsed.value;
          var m := new MachineFile(p.sections, p.contextError, p.lookup, p.decode);
          r := Ok(m);
        }
      }
      machines := machines[path := r];
    }
  }

  /** `m` holds what the parser produced. */
  ghost predicate Built(m: MachineFile, p: Parsed) {
    m.sections == p.sections && m.contextError == p.contextError &&
    m.lookup == p.lookup && m.decode == p.decode
  }

  // ---------------------------------------------------------------------
  // CodeFile

  /** The `asm` table of a `CodeFile`: line, then object path, then the
      instructions. */
  type AsmTable = map<u32, map<Path, seq<InstructionDetail>>>

  /** The instructions stored for a line and an object path; nothing stored
      reads as empty. */
  function Slot(t: AsmTable, line: int, obj: Path): seq<InstructionDetail> {
    if line in t && obj in t[line] then t[line][obj] else []
  }

  /** `entry(line).or_insert(..).entry(obj).or_insert(vec![])` followed by
      `extend_from_slice(v)`. */
  function Append(t: AsmTable, line: u32, obj: Path, v: seq<InstructionDetail>): AsmTable {
    var row := if line in t then t[line] else map[];
    t[line := row[obj := Slot(t, line, obj) + v]]
  }

  lemma AppendSlot(t: AsmTable, line: u32, obj: Path, v: seq<InstructionDetail>, l: int, o: Path)
    ensures Slot(Append(t, line, obj, v), l, o) == Slot(t, l, o) + (if line == l && obj == o then v else [])
  {
    if line != l || obj != o {
      assert Slot(t, l, o) + [] == Slot(t, l, o);
    }
  }

  /** The lines of a line map in ascending order, as its `BTreeMap` hands
      them out. */
  function LineOrder(lines: map<u32, seq<InstructionDetail>>): (keys: seq<u32>)
    ensures forall i :: 0 <= i < |keys| ==> keys[i] in lines
    ensures Ascending(keys)
  {
    var ks := SortedKeys(lines.Keys);
    AsU32s(ks)
  }

  /** A sequence of numbers known to be in `u32` range, at that type. */
  function AsU32s(ks: seq<int>): (r: seq<u32>)
    requires forall i :: 0 <= i < |ks| ==> 0 <= ks[i] < U32_LIMIT
    ensures |r| == |ks| && forall i :: 0 <= i < |r| ==> r[i] == ks[i]
  {
    seq(|ks|, i requires 0 <= i < |ks| => ks[i] as u32)
  }

  /** Every line of the map is handed out. */
  lemma LineOrderCovers(lines: map<u32, seq<InstructionDetail>>, l: u32)
    requires l in lines
    ensures l in LineOrder(lines)
  {
    var ks := SortedKeys(lines.Keys);
    SortedKeysCover(lines.Keys);
    var i :| 0 <= i < |ks| && ks[i] == l;
    assert LineOrder(lines)[i] == l;
  }

  /** The instructions of one line of a line map (none for a line it
      lacks, which `LineOrder` never hands out). */
  function LineAt(lines: map<u32, seq<InstructionDetail>>, l: u32): seq<InstructionDetail> {
    if l in lines then lines[l] else []
  }

  /** The lines `keys` of one line map appended, in order, under `obj`. */
  function AppendLines(t: AsmTable, obj: Path, lines: map<u32, seq<InstructionDetail>>, keys: seq<u32>): AsmTable {
    if keys == [] then t
    else
      var n := |keys| - 1;
      Append(AppendLines(t, obj, lines, keys[..n]), keys[n], obj, LineAt(lines, keys[n]))
  }

  /** One more line appended. */
  lemma AppendOne(t: AsmTable, obj: Path, lines: map<u32, seq<InstructionDetail>>, keys: seq<u32>, j: nat)
    requires j < |keys|
    ensures AppendLines(t, obj, lines, keys[..j + 1]) ==
      Append(AppendLines(t, obj, lines, keys[..j]), keys[j], obj, LineAt(lines, keys[j]))
  {
    assert keys[..j + 1][..j] == keys[..j];
  }

  /** Appending distinct lines fills each of their slots under `obj` with
      that line's instructions and leaves every other slot alone. */
  lemma {:induction false} AppendLinesSlot(t: AsmTable, obj: Path, lines: map<u32, seq<InstructionDetail>>,
                                           keys: seq<u32>, l: u32, o: Path)
    requires Ascending(keys)
    ensures Slot(AppendLines(t, obj, lines, keys), l, o) ==
      Slot(t, l, o) + (if o == obj && l in keys then LineAt(lines, l) else [])
  {
    if keys != [] {
      var n := |keys| - 1;
      AppendLinesSlot(t, obj, lines, keys[..n], l, o);
      AppendSlot(AppendLines(t, obj, lines, keys[..n]), keys[n], obj, LineAt(lines, keys[n]), l, o);
      if l in keys[..n] {
        var i :| 0 <= i < n && keys[..n][i] == l;
        assert keys[i] < keys[n];
      }
      assert l in keys <==> l in keys[..n] || l == keys[n] by {
        assert keys == keys[..n] + [keys[n]];
      }
    }
  }

  /** `CodeFile`: a source file's text, the instructions attributed to each
      of its lines by each object file, and the errors met on the way. */
  class CodeFile {
    const text: string
    var asm: AsmTable
    var errors: seq<(Error, Option<Path>)>

    constructor (text: string)
      ensures this.text == text && asm == map[] && errors == []
    {
      this.text := text;
      asm := map[];
      errors := [];
    }

    /** `get_asm`: the instructions stored for a line and an object path,
        or nothing when either is absent. */
    function GetAsm(line: u32, path: Path): (r: Option<seq<InstructionDetail>>)
      reads this
      ensures r.Some? <==> line in asm && path in asm[line]
      ensures r.GetOr([]) == Slot(asm, line, path)
    {
      if line in asm && path in asm[line] then Some(asm[line][path]) else None
    }
  }

  // ---------------------------------------------------------------------
  // What get_source_file gathers

  /** The lines that the object file stored as `entry` attributes to
      `path`: none when it failed to parse, when its line map failed, or
      when its line map does not mention `path`. */
  function LinesFrom(path: Path, entry: Result<MachineFile, Error>): map<u32, seq<InstructionDetail>>
    requires entry.Ok? ==> NoFileless(entry.value)
  {
    if entry.Err? then map[]
    else
      var lm := MachineLines(entry.value);
      if lm.Ok? && path in lm.value.inner then lm.value.inner[path].inner else map[]
  }

  /** The error recorded for an object file, if any. */
  function FailureOf(entry: Result<MachineFile, Error>): Option<Error>
    requires entry.Err? ==> entry.error.Wraped?
    requires entry.Ok? ==> NoFileless(entry.value)
  {
    if entry.Err? then Some(FromWraped(entry.error, "while getting machine"))
    else
      var lm := MachineLines(entry.value);
      if lm.Err? then Some(NewStacked(lm.error, "while making context")) else None
  }

  datatype Gathered = Gathered(asm: AsmTable, errors: seq<(Error, Option<Path>)>)

  /** The registry entries can be visited: each path of `order` is in the
      registry with a wrapped error or a parsed file whose line map can be
      built. */
  predicate Visitable(machines: map<Path, Result<MachineFile, Error>>, order: seq<Path>) {
    forall i :: 0 <= i < |order| ==>
      order[i] in machines &&
      (machines[order[i]].Err? ==> machines[order[i]].error.Wraped?) &&
      (machines[order[i]].Ok? ==> NoFileless(machines[order[i]].value))
  }

  /** The table and the error list after visiting one more object file:
      a failure is recorded, otherwise its lines for `path` are appended. */
  function Visit(path: Path, g: Gathered, obj: Path, entry: Result<MachineFile, Error>): Gathered
    requires entry.Err? ==> entry.error.Wraped?
    requires entry.Ok? ==> NoFileless(entry.value)
  {
    var failure := FailureOf(entry);
    if failure.Some? then g.(errors := g.errors + [(failure.value, None)])
    else
      var lines := LinesFrom(path, entry);
      g.(asm := AppendLines(g.asm, obj, lines, LineOrder(lines)))
  }

  /** The table and the error list after visiting the object files `order`
      one by one. */
  function Gather(path: Path, machines: map<Path, Result<MachineFile, Error>>, order: seq<Path>): Gathered
    requires Visitable(machines, order)
  {
    if order == [] then Gathered(map[], [])
    else
      var n := |order| - 1;
      Visit(path, Gather(path, machines, order[..n]), order[n], machines[order[n]])
  }

  /** Visiting one object file appends, to each of its slots, the
      instructions its line map gives that line of `path`. */
  lemma VisitSlot(path: Path, g: Gathered, obj: Path, entry: Result<MachineFile, Error>, l: u32, o: Path)
    requires entry.Err? ==> entry.error.Wraped?
    requires entry.Ok? ==> NoFileless(entry.value)
    ensures Slot(Visit(path, g, obj, entry).asm, l, o) ==
      Slot(g.asm, l, o) + (if o == obj && l in LinesFrom(path, entry) then LinesFrom(path, entry)[l] else [])
  {
    var lines := LinesFrom(path, entry);
    if FailureOf(entry).None? {
      if l in lines {
        LineOrderCovers(lines, l);
      }
      AppendLinesSlot(g.asm, obj, lines, LineOrder(lines), l, o);
    } else {
      assert lines == map[];
      assert Slot(g.asm, l, o) + [] == Slot(g.asm, l, o);
    }
  }

  /** Visiting each object file once, the slot of a line and an object file
      holds exactly the instructions that object file's line map gives that
      line of `path`, and is empty for an object file not visited. */
  lemma {:induction false} GatherSlot(path: Path, machines: map<Path, Result<MachineFile, Error>>,
                                      order: seq<Path>, l: u32, o: Path)
    requires Visitable(machines, order)
    requires forall i, j :: 0 <= i < j < |order| ==> order[i] != order[j]
    ensures Slot(Gather(path, machines, order).asm, l, o) ==
      if o in order && l in LinesFrom(path, machines[o]) then LinesFrom(path, machines[o])[l] else []
  {
    if order != [] {
      var n := |order| - 1;
      GatherSlot(path, machines, order[..n], l, o);
      assert o in order <==> o in order[..n] || o == order[n] by {
        assert order == order[..n] + [order[n]];
      }
      VisitSlot(path, Gather(path, machines, order[..n]), order[n], machines[order[n]], l, o);
      if o == order[n] && n > 0 {
        assert o !in order[..n];
      }
    }
  }

  /** The number of object files among `order` that record an error. */
  function CountFailed(machines: map<Path, Result<MachineFile, Error>>, order: seq<Path>): nat
    requires Visitable(machines, order)
  {
    if order == [] then 0
    else
      var n := |order| - 1;
      CountFailed(machines, order[..n]) + (if FailureOf(machines[order[n]]).Some? then 1 else 0)
  }

  /** One error per failed object file, each a stacked error naming no
      object path; the walk goes on past failures. */
  lemma {:induction false} GatherErrors(path: Path, machines: map<Path, Result<MachineFile, Error>>, order: seq<Path>)
    requires Visitable(machines, order)
    ensures var es := Gather(path, machines, order).errors;
      |es| == CountFailed(machines, order) &&
      forall i :: 0 <= i < |es| ==> es[i].1.None? && es[i].0.Stacked?
  {
    if order != [] {
      GatherErrors(path, machines, order[..|order| - 1]);
    }
  }

  // ---------------------------------------------------------------------
  // CodeRegistry

  /** `CodeRegistry`: source files by path, read or failed, over an
      `AsmRegistry`. */
  class CodeRegistry {
    var sourceFiles: map<Path, Result<CodeFile, Error>>
    const asm: AsmRegistry

    constructor (asm: AsmRegistry)
      ensures this.asm == asm && sourceFiles == map[]
    {
      this.asm := asm;
      sourceFiles := map[];
    }

    /** `get_source_file`: a path seen before gets its stored outcome back.
        A new path is read; a read error is wrapped, stored and returned.
        Otherwise the object files are visited in `order` (the registry's
        iteration order) and the new `CodeFile` holds what `Gather`
        describes; it is stored and returned. */
    method GetSourceFile(path: Path, order: seq<Path>, readText: TextReader)
      returns (r: Result<CodeFile, Error>)
      requires asm.Valid()
      requires forall p :: p in asm.machines <==> p in order
      requires forall i, j :: 0 <= i < j < |order| ==> order[i] != order[j]
      requires forall p :: p in asm.machines && asm.machines[p].Ok? ==> NoFileless(asm.machines[p].value)
      modifies this, asm.Machines()
      ensures asm.Valid() && asm.machines == old(asm.machines)
      ensures path in sourceFiles && r == sourceFiles[path]
      ensures path in old(sourceFiles) ==> sourceFiles == old(sourceFiles)
      ensures path !in old(sourceFiles) ==> sourceFiles == old(sourceFiles)[path := r]
      ensures path !in old(sourceFiles) && readText(path).Err? ==> r == Err(Wrap(readText(path).error))
      ensures path !in old(sourceFiles) && readText(path).Ok? ==>
        && r.Ok? && fresh(r.value)
        && Visitable(asm.machines, order)
        && r.value.text == readText(path).value
        && r.value.asm == Gather(path, asm.machines, order).asm
        && r.value.errors == Gather(path, asm.machines, order).errors
    {
      if path in sourceFiles {
        return sourceFiles[path];
      }
      var text := readText(path);
      if text.Err? {
        var err := Wrap(text.error);
        sourceFiles := sourceFiles[path := Err(err)];
        return Err(err);
      }
      assert Visitable(asm.machines, order);
      var codeFile := BuildCodeFile(asm, path, order, text.value);
      r := Ok(codeFile);
      sourceFiles := sourceFiles[path := r];
    }
  }

  /** The part of `get_source_file` after a successful read: a new
      `CodeFile` over `text`, filled by visiting the object files of the
      registry in `order`. */
  method BuildCodeFile(asm: AsmRegistry, path: Path, order: seq<Path>, text: string)
    returns (codeFile: CodeFile)
    requires asm.Valid() && Visitable(asm.machines, order)
    modifies asm.Machines()
    ensures asm.Valid() && asm.machines == old(asm.machines)
    ensures fresh(codeFile) && codeFile.text == text
    ensures Gathered(codeFile.asm, codeFile.errors) == Gather(path, asm.machines, order)
  {
    codeFile := new CodeFile(text);
    for i := 0 to |order|
      invariant asm.Valid() && asm.machines == old(asm.machines)
      invariant fresh(codeFile)
      invariant codeFile.text == text
      invariant Gathered(codeFile.asm, codeFile.errors) == Gather(path, asm.machines, order[..i])
    {
      assert order[..i + 1][..i] == order[..i];
      var objPath := order[i];
      VisitMachine(codeFile, path, objPath, asm.machines[objPath]);
    }
    assert order[..|order|] == order;
  }

  /** One turn of the loop of `get_source_file`: the object file stored as
      `entry` under `obj` is visited, and its line map built (and cached)
      if it parsed. */
  method VisitMachine(codeFile: CodeFile, path: Path, obj: Path, entry: Result<MachineFile, Error>)
    requires entry.Err? ==> entry.error.Wraped?
    requires entry.Ok? ==> entry.value.Valid() && NoFileless(entry.value)
    modifies codeFile, if entry.Ok? then {entry.value} else {}
    ensures entry.Ok? ==> entry.value.Valid()
    ensures Gathered(codeFile.asm, codeFile.errors) ==
      Visit(path, Gathered(old(codeFile.asm), old(codeFile.errors)), obj, entry)
  {
    if entry.Err? {
      var error := FromWraped(entry.error, "while getting machine");
      codeFile.errors := codeFile.errors + [(error, None)];
      return;
    }
    var machine := entry.value;
    var lineMap := machine.GetLinesMap();
    if lineMap.Err? {
      var error := NewStacked(lineMap.error, "while making context");
      codeFile.errors := codeFile.errors + [(error, None)];
    } else if path in lineMap.value.inner {
      AddLines(codeFile, obj, lineMap.value.inner[path].inner);
    } else {
      assert LinesFrom(path, entry) == map[];
    }
  }

  /** The inner loop of `get_source_file`: every line of one line map, in
      ascending order, is appended under `obj`. */
  method AddLines(codeFile: CodeFile, obj: Path, lines: map<u32, seq<InstructionDetail>>)
    modifies codeFile
    ensures codeFile.errors == old(codeFile.errors)
    ensures codeFile.asm == AppendLines(old(codeFile.asm), obj, lines, LineOrder(lines))
  {
    var keys := LineOrder(lines);
    ghost var t0 := codeFile.asm;
    for j := 0 to |keys|
      invariant codeFile.errors == old(codeFile.errors)
      invariant codeFile.asm == AppendLines(t0, obj, lines, keys[..j])
    {
      AppendOne(t0, obj, lines, keys, j);
      codeFile.asm := Append(codeFile.asm, keys[j], obj, LineAt(lines, keys[j]));
    }
    assert keys[..|keys|] == keys;
  }
}
