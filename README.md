# SourceViewer core in Dafny

SourceViewer disassembles object files and shows each line of a source file
next to the machine instructions compiled from it. This project models the
bookkeeping underneath the viewer and proves what that bookkeeping
guarantees. The object reader, the disassembler, the DWARF line tables and
the terminal are not modelled; they become parameters or oracle functions.

- **Instruction streams** (`src/file_parser.rs`). `dissasm` numbers decoded
  instructions. `merge_linked_lists` merges the per-region blocks.
  `dissasm_fast` partitions a code section into regions. `parse` and
  `should_disassemble` classify sections. `get_lines_map` groups
  instructions by file and line. Modules: `Instructions`, `Merge`,
  `FileParser`, `LineMaps`.
- **Viewer navigation** (`src/walk.rs`). The `GlobalState` address map and
  cursor, directory selection, the `FileState` line cursor and scroll
  offset, the per-line debug cache, and the separator rule of the assembly
  pane. Module `Walk`, with classes `GlobalState`, `Line` and `FileState`.
- **Memoising registries** (`src/program_context.rs`). `AsmRegistry`,
  `CodeFile` and `CodeRegistry`. Module `ProgramContext`.
- **DWARF attribute fold** (`src/skiper.rs`, `iter_function_ranges`). The
  fold follows DWARF 5: constant-class `DW_AT_high_pc` (section 2.17.2),
  `DW_AT_entry_pc` (section 2.18) and `DW_AT_declaration` (section
  2.13.1). Module `Skiper`.
- **Errors** (`src/errors.rs`). Error chains, `downcast_chain_ref` and the
  display formats. Module `Errors`.
- **Layout** (`src/config.rs`). `get_layout`. Module `Config`.

`Basics` holds `Option`, `Result`, the `u32` and `u64` ranges and a few
sequence facts. `OrderedKeys` holds the least and greatest keys and the
ascending key order that Rust's `BTreeMap` provides.

Where the source mutates state, the model is imperative. Classes have
`modifies` frames, and loops carry invariants. Each method is proved
against a specification function, and lemmas prove the source's promises
about that function.

Foreign calls are parameters:

- reading a file: `FileReader`, `TextReader`;
- object parsing: `ObjectParser`, `ObjectSection`;
- capstone decoding: a `Disassembly` outcome, or `decode`;
- the addr2line location lookup: `Lookup`;
- the line-table range query: `RangeOracle`;
- gimli decoding: already-decoded `Unit`, `Die` and `Attr` values.

The iteration order of a Rust `HashMap` is unspecified, so `get_source_file`
takes the order as a parameter. Its precondition says that the order lists
each registry key once.

## Model

| member | source | states |
|---|---|---|
| Errors.Source | src/errors.rs:34-64 | Stacked and wrapped errors always name the error they carry as `source()`, and a source is strictly smaller, so chains are finite |
| Errors.Chain | src/errors.rs:65-81 | The chain `downcast_chain_ref` walks starts at the origin and is never empty |
| Errors.NewStacked | src/errors.rs:14-33 | `StackedError::new` has the given source, its chain is itself followed by the source's chain, and it displays as "<source> <message>" |
| Errors.Wrap | src/errors.rs:47-58 | `WrapedError::new` names its source and displays exactly as that source |
| Errors.NewPrint | src/errors.rs:86-98 | `PrintError` names the I/O error as its source and displays as "Print error: <inner>" |
| Errors.FromWraped | src/errors.rs:21-33 | `from_wraped` keeps the wrapped error's source in place of the wrapper, so the chain keeps everything below the wrapper, and it displays as "<wrapped> <message>" |
| Errors.DowncastChainRef | src/errors.rs:65-81 | The loop returns a node of the requested type with no such node before it in the chain, and returns `None` exactly when no node in the chain has that type |
| Errors.ChainThroughWrapper | src/errors.rs:34-64 | Searching from a stacked or wrapped node of another type finds something exactly when searching from its source does |
| Errors.ChainEndsAtRoot | src/errors.rs:76-79 | Each chain link is the previous node's `source()`, and only the last node has none, which is where the search returns `None` |
| Config.CheckedSub | src/config.rs:23-24 | `checked_sub` succeeds exactly when the subtrahend is at most 100, and the difference then adds back to 100 |
| Config.DecimalString | src/config.rs:26 | The `{}` rendering of the share is a non-empty string of decimal digits with no leading zero |
| Config.DecimalRoundTrip | src/config.rs:26 | The rendered digits denote the number rendered |
| Config.GetLayout | src/config.rs:21-33 | The layout is an error exactly when the share p is above 100, with the source's message. Otherwise it is two ratios over 100: the second is p and the two numerators sum to 100 |
| Config.DefaultLayout | src/config.rs:22 | Without a configured share, the split is 47/100 and 53/100 |
| Config.LayoutBoundaries | src/config.rs:23-32 | 100 gives [0, 100], 0 gives [100, 0], and 101 is refused |
| Instructions.Detail | src/file_parser.rs:90-96 | A recorded instruction has the given serial number, the decoder's address and size, and "unknown" for a missing mnemonic or operand string |
| Instructions.Numbered | src/file_parser.rs:89-97 | The i-th decoded instruction is recorded as the i-th element with serial number i |
| Instructions.Dissasm | src/file_parser.rs:82-99 | A decoder failure is returned as is; otherwise there is one record per decoded instruction, in order, with serial numbers exactly 0..n-1 |
| FileParser.ShouldDisassemble | src/file_parser.rs:575-600 | A section is code exactly when its format's execute flag is set: ELF `SHF_EXECINSTR` (bit 2), Mach-O `S_ATTR_PURE_INSTRUCTIONS` (bit 31), COFF `IMAGE_SCN_MEM_EXECUTE` (bit 29). A section without flags is never code |
| FileParser.FirstUnreadable | src/file_parser.rs:434-436 | Every section before the returned position can be read, and the section at it cannot |
| FileParser.Parse | src/file_parser.rs:429-453 | A parser error is returned as is. Otherwise the first unreadable section's error is returned, or else there is one section per object section, in order, with the same name, data and address, and it is `Code` exactly when `should_disassemble` says so |
| FileParser.GetPastValid | src/file_parser.rs:504-511 | Fails exactly when the range query fails, with its error. Gives nothing exactly when the query reports no row, and otherwise gives an end past the probe |
| FileParser.Cuts | src/file_parser.rs:174-183 | Each region boundary found from the current address lies more than one `STEP` past the previous one, and is looked for only while the previous one is below the section end. The boundary itself may lie at or past the end |
| FileParser.LastRegionMayInvert | src/file_parser.rs:174-186 | A line-table row that starts inside the section and ends past it gives a boundary beyond the end: a one-byte section at 0 gets the regions [0, STEP + 1) and [STEP + 1, 1), the second inverted |
| FileParser.RegionsOf | src/file_parser.rs:171-186 | The boundaries delimit one region more than there are boundaries, each given by `RegionAt` |
| FileParser.RegionsPartition | src/file_parser.rs:180-186 | Well-spaced boundaries give a partition: the first region starts at the base, the last ends at the section end, and each region ends where the next starts |
| FileParser.PartitionShape | src/file_parser.rs:171-186 | Whatever the line table reports, a partition the loop completes starts at the base, ends at the end, and has no gaps |
| FileParser.CutsStep | src/file_parser.rs:174-183 | One round of the loop: a failed probe fails the partition, no row stops it, and a row closes the open region at its end and continues from there |
| FileParser.CutsAtEnd | src/file_parser.rs:174 | Once the current address reaches the end, no further boundary is found |
| FileParser.FoundAll | src/file_parser.rs:176-178 | When the probe reports no more rows, the boundaries found so far are all of them |
| FileParser.CloseOpen | src/file_parser.rs:180-181 | Closing the open region at a boundary and opening one there extends the regions by that boundary |
| FileParser.CloseLast | src/file_parser.rs:186 | Closing the last open region at the section end gives the regions ending at that end |
| FileParser.PartitionRegions | src/file_parser.rs:164-186 | The loop returns the query's error, or exactly the regions its boundaries delimit between the base and base + len |
| FileParser.PartitionSplits | src/file_parser.rs:166-192 | The partition loop fails exactly when the boundary search fails, with its error, and otherwise reports more than one region exactly when some boundary was found |
| FileParser.DissasmFast | src/file_parser.rs:156-290 | A failed probe is returned as is. A section left in one region is decoded sequentially by `dissasm`. Otherwise the result is `merge_linked_lists` as written (streams sorted ascending, popped from the back) of the workers' block lists, and serial numbers run 0..n-1 |
| FileParser.DissasmFastCorrected | src/file_parser.rs:156-290 | The same as `DissasmFast`, but merged with the streams in descending order, as the comment at line 130 intends; `Merge.CorrectedMergeAscends` then gives ascending addresses |
| Merge.InitialStreams | src/file_parser.rs:112-122 | One stream per non-empty list, in list order, each remembering the list it came from |
| Merge.InitialWellFormed | src/file_parser.rs:115-121 | Every stream built from non-empty block lists has a non-empty next block |
| Merge.InitialKeepsLists | src/file_parser.rs:112-122 | Every list's blocks are exactly the blocks of the stream built from it (none for an empty list), and no two streams share a list |
| Merge.InsertionIndex | src/file_parser.rs:139-144 | The index the bubble-up stops at lies within the stream vector |
| Merge.InsertionPoint | src/file_parser.rs:138-144 | Every stream right of the insertion index has a key after the new one, and the stream just left of it does not |
| Merge.ScanStep | src/file_parser.rs:140-144 | One step of the bubble-up: passing a larger key moves one place left, otherwise the scan stops there |
| Merge.ScanInsertIndex | src/file_parser.rs:139-144 | The `while insert_index > 0` loop computes the insertion index |
| Merge.Insert | src/file_parser.rs:145 | `streams.insert` adds exactly the new stream: the result is one longer and a permutation of the old vector plus that stream |
| Merge.InsertSorted | src/file_parser.rs:138-145 | Inserting at the bubble-up index keeps the stream vector sorted |
| Merge.InsertedPair | src/file_parser.rs:138-145 | After insertion at the bubble-up index, no stream is out of order with respect to an earlier one |
| Merge.LeftOfInsertion | src/file_parser.rs:139-144 | Every stream left of the insertion index has a key not after the new one |
| Merge.SortStreams | src/file_parser.rs:124-125 | The initial sort gives a sorted permutation of the streams |
| Merge.SortKeepsLists | src/file_parser.rs:124-125 | Sorting moves whole streams: each list's pending blocks, and the one-stream-per-list property, are unchanged |
| Merge.Advance | src/file_parser.rs:134-136 | Advancing a stream makes its next block the first of the remaining ones, from the same list |
| Merge.PendingInsert | src/file_parser.rs:145 | Reinserting a stream adds exactly its blocks to those pending |
| Merge.StepShrinks | src/file_parser.rs:129-146 | Each round of the outer loop emits exactly one pending block, so the loop ends |
| Merge.StepSorted | src/file_parser.rs:138-145 | The stream vector is still sorted after every pop and reinsertion |
| Merge.StepKeepsLists | src/file_parser.rs:129-146 | One round emits the popped stream's block and leaves every list's other blocks pending, in order |
| Merge.DrainKeepsLists | src/file_parser.rs:129-147 | The blocks the loop emits from one list are exactly that list's pending blocks, in their original order |
| Merge.MergeKeepsEachList | src/file_parser.rs:129-147 | Taking from the output the blocks of one input list gives that list back, unchanged: no block is lost, duplicated or reordered |
| Merge.Renumber | src/file_parser.rs:149-151 | The k-th merged instruction keeps everything but its serial number, which becomes k |
| Merge.RenumberInPlace | src/file_parser.rs:149-151 | The renumbering loop computes `Renumber` |
| Merge.EmitOne | src/file_parser.rs:131 | `merged.extend` appends the emitted block, whole and contiguous |
| Merge.StartStreams | src/file_parser.rs:112-125 | The streams the merge starts with are well formed, sorted, and the sorted initial streams |
| Merge.PopAndReinsert | src/file_parser.rs:129-146 | One round takes the back stream's block, keeps the vector sorted and well formed, and shrinks what is pending |
| Merge.EmitAll | src/file_parser.rs:127-147 | The outer loop appends the emitted blocks, concatenated in emission order |
| Merge.MergeLinkedLists | src/file_parser.rs:103-154 | The merge returns the blocks of every list, each list's blocks in their order, concatenated in the order the streams are drained, with serial numbers 0..n-1 |
| Merge.AsWrittenEmitsLargestFirst | src/file_parser.rs:129-131 | With the vector sorted ascending as written, `pop` takes the stream with the largest key, not the smallest |
| Merge.AsWrittenMergeOutOfOrder | src/file_parser.rs:125-131 | Two one-block lists at addresses 0 and 100 merge as written to address 100 first; with the vector kept in descending order they merge to 0 first |
| Merge.CorrectedStep | src/file_parser.rs:129-146 | With the vector in descending order, a round keeps it sorted, and every remaining key is at least the key just emitted |
| Merge.AdvanceAscends | src/file_parser.rs:134-136 | Advancing a stream whose blocks ascend does not lower its key |
| Merge.CorrectedDrainAscends | src/file_parser.rs:129-147 | With the vector in descending order, blocks are emitted in ascending address order |
| Merge.CorrectedMergeAscends | src/file_parser.rs:124-147 | When each list's blocks ascend, the corrected merge emits all blocks in ascending address order, as the comment at line 130 intends |
| LineMaps.PushContents | src/file_parser.rs:361-390 | Pushing an instruction into a bucket appends it to that bucket and changes no other |
| LineMaps.GroupContents | src/file_parser.rs:361-390 | Each bucket of the grouped map (file and line, file only, or unplaced) holds exactly the instructions whose lookup selects it, in instruction order |
| LineMaps.GroupFiles | src/file_parser.rs:364-385 | A file has an entry exactly when some instruction's location names that file |
| LineMaps.GroupLines | src/file_parser.rs:364-375 | A line of a file has an entry exactly when some instruction is located at that file and line |
| LineMaps.ReachedSticky | src/file_parser.rs:361 | Once decoding a code section fails, later sections change nothing: the first failure is the result |
| LineMaps.ReachedPrefix | src/file_parser.rs:354-361 | The instructions reached over a prefix of the sections are a prefix of those reached over all of them |
| LineMaps.MachineFile.constructor | src/file_parser.rs:455-461 | A parsed file starts with no cached line map |
| LineMaps.MachineFile.GetLinesMap | src/file_parser.rs:345-396 | `get_lines_map` returns the line map of the file's sections, or the first error. A cached map is returned unchanged, and only a successful map is cached |
| LineMaps.MachineFile.BuildLinesMap | src/file_parser.rs:347-394 | The initialiser fails with the context error or the first decoding error, and otherwise groups every instruction of every code section, in order |
| LineMaps.MachineFile.FileInstructions | src/file_parser.rs:361-391 | The inner loop adds one code section's instructions to the grouping built so far, as if they had been grouped together |
| ProgramContext.AsmRegistry.constructor | src/program_context.rs:33-38 | The registry starts empty |
| ProgramContext.AsmRegistry.GetMachine | src/program_context.rs:42-64 | A path seen before returns its stored result, failures included, without reading again. A new path is read once and gets exactly one entry: the wrapped read error, the wrapped parse error, or a fresh parsed file |
| ProgramContext.AppendSlot | src/program_context.rs:256-263 | `or_insert` then `extend_from_slice` appends to exactly one (line, object) slot and leaves the others alone |
| ProgramContext.LineOrder | src/program_context.rs:255 | A line map's lines come out in strictly ascending order, each a line of the map |
| ProgramContext.LineOrderCovers | src/program_context.rs:255 | Every line of the map comes out |
| ProgramContext.AppendLinesSlot | src/program_context.rs:254-265 | Appending a line map's distinct lines under one object extends each of those slots with that line's instructions and leaves every other slot unchanged |
| ProgramContext.CodeFile.constructor | src/program_context.rs:174-181 | A source file read from disk starts with no instructions and no errors |
| ProgramContext.CodeFile.GetAsm | src/program_context.rs:187-190 | `get_asm` is `None` exactly when the line or the object path is absent, and otherwise gives the stored instructions |
| ProgramContext.VisitSlot | src/program_context.rs:235-266 | Visiting one object file extends only its own slots, by what its line map gives each line of the source file |
| ProgramContext.GatherSlot | src/program_context.rs:235-268 | After the loop, each (line, object) slot holds exactly what that object's line map gives that line, and nothing for objects that failed or have no entry |
| ProgramContext.GatherErrors | src/program_context.rs:236-252 | Each failed machine, and each machine whose line map fails, adds exactly one error with no path. The errors are stacked ("while getting machine" or "while making context"), and the loop goes on |
| ProgramContext.CodeRegistry.constructor | src/program_context.rs:207-213 | The source registry starts empty |
| ProgramContext.CodeRegistry.GetSourceFile | src/program_context.rs:218-275 | A cached path returns its stored result unchanged. A read failure caches and returns the wrapped error. Otherwise a fresh file is cached with its text and the gathered instructions and errors, and the machine registry is unchanged |
| ProgramContext.BuildCodeFile | src/program_context.rs:235-268 | The loop over the registry builds exactly the gathered table and error list |
| ProgramContext.VisitMachine | src/program_context.rs:236-265 | One iteration records the failure or appends the lines, as `Visit` says |
| ProgramContext.AddLines | src/program_context.rs:254-265 | The inner loop appends every line of the map, in ascending order, and adds no errors |
| Walk.PrevKey | src/walk.rs:123 | `range(..cur).next_back()` is the greatest key strictly below `cur`, and there is none exactly when no key is below it |
| Walk.NextKey | src/walk.rs:131 | `range(cur + 1..).next()` is the least key strictly above `cur`, and there is none exactly when no key is above it |
| Walk.UpAfterDown | src/walk.rs:121-134 | From a key, stepping down and then up returns to it |
| Walk.DownAfterUp | src/walk.rs:121-134 | From a key, stepping up and then down returns to it |
| Walk.ExtendContents | src/walk.rs:86-98 | After `extend`, the keys are the old ones plus the new addresses. Untouched keys keep their instruction, and each new address holds the last instruction given for it |
| Walk.ExtendThenRemove | src/walk.rs:86-111 | Adding a line's instructions and then removing them leaves the other addresses as they were |
| Walk.ExtendKeyed | src/walk.rs:91-95 | After `extend`, every instruction is still stored under its own address |
| Walk.AddressesFrom | src/walk.rs:115-118 | The addresses of `range(cur..)` are keys at or above `cur`, in strictly ascending order |
| Walk.AddressesFromCovers | src/walk.rs:115-118 | Every key at or above `cur` is in the range |
| Walk.LastKeyOrZero | src/walk.rs:105-110 | `last_key_value` then `unwrap_or_default` is the greatest key, or 0 for an empty map |
| Walk.ItemsShape | src/walk.rs:522-548 | Dropping separators from the pane gives every instruction once, in order, and the pane has n items plus one per break in the serial numbers |
| Walk.ConsecutiveNoBreaks | src/walk.rs:522-536 | Instructions numbered 0, 1, 2, ... get no separator |
| Walk.AssemblyItems | src/walk.rs:522-548 | The loop with `prev = -1` emits a separator before each instruction whose serial does not follow the previous one |
| Walk.NextSelection | src/walk.rs:275-281 | Down on no selection gives 0, and otherwise stays within the entries |
| Walk.PrevSelection | src/walk.rs:282-288 | Up on no selection gives 0, and from a valid selection stays within the entries |
| Walk.SelectionRoundTrip | src/walk.rs:275-288 | Down then Up, and Up then Down, return to the same entry |
| Walk.GlobalState.constructor | src/walk.rs:63-83 | The viewer starts with no selected instructions, the address cursor at 0 and line numbers hidden |
| Walk.GlobalState.AddAsmLine | src/walk.rs:86-99 | `None` changes nothing. Otherwise the instructions are inserted by address (see `ExtendContents`), and nothing else changes |
| Walk.GlobalState.RemoveAsmLine | src/walk.rs:101-112 | Exactly the given addresses are removed, and the cursor is pulled back to the last remaining key (0 when none) if it was beyond it |
| Walk.GlobalState.CurAsmRange | src/walk.rs:114-118 | The pane's rows are selected instructions at or above the cursor, in strictly ascending address order |
| Walk.GlobalState.CurAsmRangeCovers | src/walk.rs:115-118 | Every selected instruction at or above the cursor is in the range |
| Walk.GlobalState.AsmUp | src/walk.rs:120-126 | The cursor moves to the previous key if there is one, and otherwise stays; the map does not change |
| Walk.GlobalState.AsmDown | src/walk.rs:128-134 | The cursor moves to the next key if there is one, and otherwise stays; the map does not change |
| Walk.GlobalState.SelectDown | src/walk.rs:275-281 | Down selects `(i + 1) % len`, or 0 when nothing was selected |
| Walk.GlobalState.SelectUp | src/walk.rs:282-288 | Up selects `len - 1` from 0 and `i - 1` otherwise, or 0 when nothing was selected |
| Walk.GlobalState.ToggleShowLines | src/walk.rs:404 | `l` flips whether line numbers are shown, and nothing else |
| Walk.MakeAssemblyInner | src/walk.rs:522-548 | The pane shows the separator-annotated rows of `cur_asm_range` |
| Walk.Line.constructor | src/walk.rs:186-193 | A line starts unselected with no debug info loaded |
| Walk.Line.LoadDebug | src/walk.rs:195-206 | The first call looks the line up in the code file (by its number as a `u32`) and caches the answer. Later calls return the cache, and selection is untouched |
| Walk.FileState.constructor | src/walk.rs:327-337 | A file view starts at the top, with cursor and scroll at 0 |
| Walk.FileState.CursorUp | src/walk.rs:358-368 | Up moves the cursor back one line when it can and otherwise changes nothing. A cursor that moves above the view sets the scroll to the cursor, and otherwise the scroll stays |
| Walk.FileState.CursorDown | src/walk.rs:372-383 | Down moves the cursor forward one line, up to the last line. With `len - 1` visible lines, a cursor that reaches the bottom of the view sets the scroll to `cursor - (len - 1) + 1`, and otherwise the scroll stays |
| Walk.FileState.ClampScroll | src/walk.rs:470-474 | The scroll becomes the cursor when the cursor is above the view, `cursor - rows + 1` when it is at or below the bottom, and otherwise stays. With at least one visible row the cursor is then inside the view |
| Walk.FileState.ToggleSelection | src/walk.rs:385-401 | Enter flips the line's selection and loads its debug info once. Selecting adds its instructions to the global map and leaves the address cursor alone. Deselecting removes them and pulls the cursor back to the last remaining key (0 when none) if it was past it. The directory selection, the entry count and the line-number toggle are unchanged |
| Skiper.ScanDie | src/skiper.rs:285-344 | The attribute loop computes the fold: it fails at a read error and stops at `DW_AT_declaration` |
| Skiper.ReadAllAttrs | src/skiper.rs:381-396 | The printing pass's reads fail at the first unreadable attribute, declaration or not |
| Skiper.CollectUnit | src/skiper.rs:266-403 | One unit's DIEs after the root, appended to the results in order, or the first error |
| Skiper.IterFunctionRanges | src/skiper.rs:258-407 | The result is the records of every unit, in unit order, or the first error |
| Skiper.DieRecordsSticky | src/skiper.rs:284-403 | After a DIE fails, the remaining DIEs change nothing |
| Skiper.AllRecordsSticky | src/skiper.rs:264-265 | After a unit fails, the remaining units change nothing |
| Skiper.ScanFailsAtFirstBroken | src/skiper.rs:292 | The fold fails only at a read error, and then at the first one |
| Skiper.FirstBrokenExists | src/skiper.rs:381-382 | A first read error exists exactly when some attribute cannot be read |
| Skiper.DieOutcome | src/skiper.rs:291-401 | A readable DIE fails exactly when one of its attributes cannot be read, with the first such error; otherwise it adds the record of its fold, if any |
| Skiper.DeclarationStops | src/skiper.rs:338-341 | Attributes after `DW_AT_declaration` do not affect the fold |
| Skiper.ScanSnoc | src/skiper.rs:292-343 | Over readable, non-declaration attributes the fold never fails, and each attribute applies one step |
| Skiper.LowPcOf | src/skiper.rs:294-312 | The low pc is the last address-form `DW_AT_low_pc`, overriding anything before it; without one, it is the first address-form `DW_AT_entry_pc` |
| Skiper.NameOf | src/skiper.rs:318-337 | The name is the last one that resolves, from `DW_AT_name` or through `DW_AT_call_origin`; unresolved names change nothing |
| Skiper.HighPcOf | src/skiper.rs:299-307 | An address-form high pc is taken as is. A constant form is the low pc so far plus the offset (wrapping at 2^64), and is ignored while there is no low pc |
| Skiper.RecordsPerDie | src/skiper.rs:398-401 | There is one record per DIE whose fold ends with a low pc, and none for the others |
| Skiper.AllRecordsAppend | src/skiper.rs:264-284 | The records of consecutive units are concatenated in unit order |

## Left out

- The worker threads and channels of `dissasm_fast` (src/file_parser.rs:194-290) are not modelled. Their output enters `DissasmFast` as the workers' block lists, and only the partition and the merge are modelled.
- `create_capstone`, `get_asm`/`get_asm_fast`/`get_asm_capstone`, `fast_compile`/`slow_compile` and the `parse_asm` branch of `parse` (src/file_parser.rs:463-477) are not modelled. They drive capstone and the `OnceCell` instruction caches. A decoder outcome is a parameter.
- `load_dwarf`, `get_addr2line` and `make_context` are not modelled; their failure is `contextError`. The `find_location`, `find_location_range` and `Context` lookups of gimli and addr2line are the oracles `Lookup` and `RangeOracle`.
- `Merge.StartStreams`, `Merge.MergeLinkedLists`, `FileParser.DissasmFast` and `FileParser.DissasmFastCorrected` require every worker block to be non-empty (`NonEmptyBlocks`). The source panics on an empty block at `.first().unwrap()` (src/file_parser.rs:125, 135, 141), and a worker produces one whenever capstone decodes nothing in its region (src/file_parser.rs:230-241). That panic is not modelled.
- `FileParser.Cuts` and `FileParser.PartitionRegions` do not promise that the last region lies inside the section. When a reported row ends at or past the section end, the last region is empty or inverted (`FileParser.LastRegionMayInvert`). The worker's slice and its `end - start` (src/file_parser.rs:231) would then panic or underflow; the workers are not modelled.
- `FileParser.GetPastValid`: the oracle is assumed to report a row ending past the probe (`Progressing`); nothing in the source guarantees this.
- `Merge.SortStreams`: Rust's `sort_by_key` is stable, and the model's insertion sort is proved sorted and a permutation but not stable.
- Machine-integer overflow is excluded by preconditions. `base_address + len + STEP` must fit in `u64` (`PartitionRegions`, `DissasmFast`), and `AsmDown` requires `cur_asm + 1` to fit.
- `Skiper.HighPcOf`: `lp + off` is modelled as a release build's wrap-around (`WrappingAdd`); a debug build would panic instead.
- `todo!()` and `unreachable!()` panics become preconditions. Section flags must be of a handled kind (`Handled`). A location with no file must not occur (`Locatable`). Enter needs a line under the cursor (`ToggleSelection`).
- `Walk.NextSelection` and `Walk.PrevSelection`: with an empty directory the source divides by zero or underflows. Preconditions exclude that case.
- `Walk.FileState.ClampScroll`: with zero visible rows, the clamp sets the scroll one past the cursor. The later `state.cursor - state.file_scroll` (src/walk.rs:497) then underflows; that rendering step is not part of this model.
- Terminal I/O is not modelled: rendering, `event::read`, `create_terminal`, directory loading, and the Esc/Enter directory navigation, which reads the file system.
- The printing in `iter_function_ranges` is not modelled, apart from its attribute reads, which can fail.
- Skiper: failures of `to_string_lossy` and of reading the origin DIE's name for `DW_AT_call_origin` are not modelled. Names arrive resolved or not, and a root DIE is either readable or an error.
- Paths are compared by their text, not as file-system paths.
- `ProgramContext.CodeRegistry.GetSourceFile`: on a cache hit the source clones the stored `Box<WrapedError>` and boxes it again (src/program_context.rs:219). The returned error's first node is then a `Box<WrapedError>`, and `downcast_chain_ref::<WrapedError>` passes over it, though it matches on the first call. The model returns the stored error unchanged and does not capture this difference in type.
- `get_existing_source_file` and `visit_machine_file` (src/program_context.rs:214-216, 279-281) are not modelled. The first is a map lookup that panics on a missing path; the second forwards to `get_machine`.
- `WalkConfig::get_global` and the `println!` macro are not modelled; they read the configuration file and write to standard output.
- `get_source_file` takes the registry's iteration order as a parameter (see above); which order a `HashMap` uses is not modelled.
- `Section::name` is a field accessor and has no contract of its own.

## Findings

| source | as written | input that shows it | evidently intended | confidence | as-written member | corrected member |
|---|---|---|---|---|---|---|
| src/file_parser.rs:125-131 | `streams` is sorted ascending by first address, and `pop` takes the back, which is the stream with the LARGEST next address; the comment at line 130 says the smallest | two lists holding one block each, at addresses 0 and 100: the merge emits the block at 100 first | keep `streams` in descending order (or pop from the front), so the smallest next block is emitted first and each list's ascending blocks merge into one ascending stream | not executed | Merge.AsWrittenMergeOutOfOrder | Merge.CorrectedMergeAscends |

`FileParser.DissasmFast` uses the merge as written; `FileParser.DissasmFastCorrected` is the same operation with the corrected merge.
