/** The viewer's navigation state (src/walk.rs): the map of selected
    instructions by address and the address cursor over it, the selection in
    the directory list, the line cursor and scroll offset of the file view,
    the per-line cache of debug information, and the separator rule of the
    assembly pane. Terminal drawing, key reading and the file system are not
    part of this model: each key press is a method of its own. */
module Walk {
  import opened Basics
  import opened OrderedKeys
  import opened Instructions
  import opened ProgramContext

  // ---------------------------------------------------------------------
  // Moving between keys of an ordered map

  function Below(keys: set<int>, k: int): set<int> {
    set j | j in keys && j < k
  }

  function Above(keys: set<int>, k: int): set<int> {
    set j | j in keys && j > k
  }

  /** `range(..k).next_back()`: the greatest key strictly below `k`. */
  function PrevKey(keys: set<int>, k: int): (r: Option<int>)
    ensures r.None? <==> forall j :: j in keys ==> j >= k
    ensures r.Some? ==> (r.value in keys && r.value < k &&
      forall j :: j in keys && j < k ==> j <= r.value)
  {
    var lower := Below(keys, k);
    if lower == {} then
      assert forall j :: j in keys ==> j >= k by {
        forall j | j in keys ensures j >= k {
          assert j < k ==> j in lower;
        }
      }
      None
    else
      var m := MaxKey(lower);
      assert forall j :: j in keys && j < k ==> j <= m by {
        forall j | j in keys && j < k ensures j <= m {
          assert j in lower;
        }
      }
      Some(m)
  }

  /** `range(k + 1..).next()`: the least key strictly above `k`. */
  function NextKey(keys: set<int>, k: int): (r: Option<int>)
    ensures r.None? <==> forall j :: j in keys ==> j <= k
    ensures r.Some? ==> (r.value in keys && r.value > k &&
      forall j :: j in keys && j > k ==> j >= r.value)
  {
    var upper := Above(keys, k);
    if upper == {} then
      assert forall j :: j in keys ==> j <= k by {
        forall j | j in keys ensures j <= k {
          assert j > k ==> j in upper;
        }
      }
      None
    else
      var m := MinKey(upper);
      assert forall j :: j in keys && j > k ==> j >= m by {
        forall j | j in keys && j > k ensures j >= m {
          assert j in upper;
        }
      }
      Some(m)
  }

  /** Stepping down from a key and back up returns to it. */
  lemma UpAfterDown(keys: set<int>, k: int)
    requires k in keys && NextKey(keys, k).Some?
    ensures PrevKey(keys, NextKey(keys, k).value) == Some(k)
  {
    var n := NextKey(keys, k).value;
    assert k in keys && k < n;
  }

  /** Stepping up from a key and back down returns to it. */
  lemma DownAfterUp(keys: set<int>, k: int)
    requires k in keys && PrevKey(keys, k).Some?
    ensures NextKey(keys, PrevKey(keys, k).value) == Some(k)
  {
    var p := PrevKey(keys, k).value;
    assert k in keys && k > p;
  }

  // ---------------------------------------------------------------------
  // The selected instructions

  /** The addresses of a run of instructions. */
  function Addresses(d: seq<InstructionDetail>): set<u64> {
    set i | 0 <= i < |d| :: d[i].address
  }

  /** `selected_asm.extend(d.map(|x| (x.address, x)))`: the instructions
      inserted one by one under their address. */
  function Extend(m: map<u64, InstructionDetail>, d: seq<InstructionDetail>): map<u64, InstructionDetail> {
    if d == [] then m
    else
      var n := |d| - 1;
      Extend(m, d[..n])[d[n].address := d[n]]
  }

  /** After inserting, every address of `d` is a key, besides the old keys;
      the instruction stored under an address of `d` is the last one of `d`
      with that address, and every other key keeps its instruction. */
  lemma {:induction false} ExtendContents(m: map<u64, InstructionDetail>, d: seq<InstructionDetail>, a: u64)
    ensures a in Extend(m, d) <==> a in m || a in Addresses(d)
    ensures a !in Addresses(d) && a in m ==> Extend(m, d)[a] == m[a]
    ensures a in Addresses(d) ==>
      exists i :: 0 <= i < |d| && d[i].address == a && Extend(m, d)[a] == d[i] &&
        forall j :: i < j < |d| ==> d[j].address != a
  {
    if d != [] {
      var n := |d| - 1;
      ExtendContents(m, d[..n], a);
      assert Addresses(d) == Addresses(d[..n]) + {d[n].address} by {
        forall x | x in Addresses(d) ensures x in Addresses(d[..n]) + {d[n].address} {
          var i :| 0 <= i < |d| && d[i].address == x;
          if i < n {
            assert d[..n][i] == d[i];
          }
        }
        forall x | x in Addresses(d[..n]) ensures x in Addresses(d) {
          var i :| 0 <= i < n && d[..n][i].address == x;
          assert d[i] == d[..n][i];
        }
      }
      if a in Addresses(d) && a != d[n].address {
        var i :| 0 <= i < n && d[..n][i].address == a &&
          Extend(m, d[..n])[a] == d[..n][i] && forall j :: i < j < n ==> d[..n][j].address != a;
        assert d[i] == d[..n][i];
        forall j | i < j < |d| ensures d[j].address != a {
          if j < n {
            assert d[j] == d[..n][j];
          }
        }
      }
    }
  }

  /** Deselecting what was just selected leaves exactly the keys that were
      there before and are not among the deselected addresses. */
  lemma ExtendThenRemove(m: map<u64, InstructionDetail>, d: seq<InstructionDetail>)
    ensures Extend(m, d) - Addresses(d) == m - Addresses(d)
  {
    forall a | a in m - Addresses(d) ensures a in Extend(m, d) - Addresses(d) && Extend(m, d)[a] == m[a] {
      ExtendContents(m, d, a);
    }
    forall a | a in Extend(m, d) - Addresses(d) ensures a in m - Addresses(d) {
      ExtendContents(m, d, a);
    }
  }

  /** Every instruction is stored under its own address. */
  predicate Keyed(m: map<u64, InstructionDetail>) {
    forall k :: k in m ==> m[k].address == k
  }

  lemma ExtendKeyed(m: map<u64, InstructionDetail>, d: seq<InstructionDetail>)
    requires Keyed(m)
    ensures Keyed(Extend(m, d))
  {
    forall a | a in Extend(m, d) ensures Extend(m, d)[a].address == a {
      ExtendContents(m, d, a);
    }
  }

  /** The keys from `lo` on. */
  function From(keys: set<u64>, lo: int): set<u64> {
    set k | k in keys && k >= lo
  }

  /** `range(lo..)` over the keys: the keys from `lo` on, ascending. */
  function AddressesFrom(keys: set<u64>, lo: int): (r: seq<u64>)
    ensures forall i :: 0 <= i < |r| ==> r[i] in keys && r[i] >= lo
    ensures forall i, j :: 0 <= i < j < |r| ==> r[i] < r[j]
  {
    var ks := SortedKeys(From(keys, lo));
    var r: seq<u64> := seq(|ks|, i requires 0 <= i < |ks| => ks[i] as u64);
    assert forall i :: 0 <= i < |r| ==> r[i] == ks[i];
    r
  }

  lemma AddressesFromCovers(keys: set<u64>, lo: int, k: u64)
    requires k in keys && k >= lo
    ensures k in AddressesFrom(keys, lo)
  {
    var ks := SortedKeys(From(keys, lo));
    assert k in From(keys, lo);
    SortedKeysCover(From(keys, lo));
    var i :| 0 <= i < |ks| && ks[i] == k;
    assert AddressesFrom(keys, lo)[i] == k;
  }

  /** The address `remove_asm_line` pulls the cursor back to: the last key,
      or 0 when there is none (`unwrap_or_default`). */
  function LastKeyOrZero(keys: set<u64>): (r: int)
    ensures keys == {} ==> r == 0
    ensures keys != {} ==> IsGreatest(r, keys)
  {
    if keys == {} then 0 else MaxKey(keys)
  }

  // ---------------------------------------------------------------------
  // The separator rule of the assembly pane

  datatype Item = Detach | Row(instruction: InstructionDetail)

  /** The serial number that comes before the next row: `-1` at the start. */
  function PrevSerial(xs: seq<InstructionDetail>): int {
    if xs == [] then -1 else xs[|xs| - 1].serialNumber
  }

  /** The items of the assembly pane: each instruction as a row, preceded by
      a separator when its serial number does not follow the previous one. */
  function ItemsOf(xs: seq<InstructionDetail>): seq<Item> {
    if xs == [] then []
    else
      var n := |xs| - 1;
      ItemsOf(xs[..n]) + (if xs[n].serialNumber != PrevSerial(xs[..n]) + 1 then [Detach] else []) + [Row(xs[n])]
  }

  /** The number of instructions whose serial number does not follow the
      previous one. */
  function Breaks(xs: seq<InstructionDetail>): nat {
    if xs == [] then 0
    else
      var n := |xs| - 1;
      Breaks(xs[..n]) + (if xs[n].serialNumber != PrevSerial(xs[..n]) + 1 then 1 else 0)
  }

  /** The rows of the pane, separators dropped. */
  function Rows(items: seq<Item>): seq<InstructionDetail> {
    if items == [] then []
    else
      var n := |items| - 1;
      Rows(items[..n]) + (if items[n].Row? then [items[n].instruction] else [])
  }

  lemma RowsAppend(a: seq<Item>, b: seq<Item>)
    ensures Rows(a + b) == Rows(a) + Rows(b)
    decreases |b|
  {
    if b != [] {
      var n := |b| - 1;
      assert (a + b)[..|a + b| - 1] == a + b[..n];
      RowsAppend(a, b[..n]);
    } else {
      assert a + b == a;
    }
  }

  lemma RowsOne(x: Item)
    ensures Rows([x]) == if x.Row? then [x.instruction] else []
  {
    assert [x][..0] == [];
  }

  /** The separator `ItemsOf` puts before the last instruction, if any. */
  function Separator(xs: seq<InstructionDetail>): (sep: seq<Item>)
    requires xs != []
    ensures sep == [] || sep == [Detach]
  {
    var n := |xs| - 1;
    if xs[n].serialNumber != PrevSerial(xs[..n]) + 1 then [Detach] else []
  }

  /** The last step of `ItemsOf` adds one row, for the last instruction. */
  lemma RowsStep(xs: seq<InstructionDetail>)
    requires xs != []
    ensures Rows(ItemsOf(xs)) == Rows(ItemsOf(xs[..|xs| - 1])) + [xs[|xs| - 1]]
  {
    var n := |xs| - 1;
    var a := ItemsOf(xs[..n]);
    var sep := Separator(xs);
    var last := [Row(xs[n])];
    assert ItemsOf(xs) == a + sep + last;
    RowsAppend(a + sep, last);
    RowsAppend(a, sep);
    RowsOne(Row(xs[n]));
    if sep != [] {
      RowsOne(Detach);
    }
    assert Rows(sep) == [];
    assert Rows(a) + Rows(sep) == Rows(a);
  }

  /** The last step of `ItemsOf` adds one item, plus one per break. */
  lemma LengthStep(xs: seq<InstructionDetail>)
    requires xs != []
    ensures |ItemsOf(xs)| == |ItemsOf(xs[..|xs| - 1])| + |Separator(xs)| + 1
    ensures Breaks(xs) == Breaks(xs[..|xs| - 1]) + |Separator(xs)|
  {
  }

  /** Every instruction appears once, in order, and there is one separator
      per break: the pane has `|xs| + Breaks(xs)` items. */
  lemma {:induction false} ItemsShape(xs: seq<InstructionDetail>)
    ensures Rows(ItemsOf(xs)) == xs
    ensures |ItemsOf(xs)| == |xs| + Breaks(xs)
  {
    if xs != [] {
      var n := |xs| - 1;
      ItemsShape(xs[..n]);
      RowsStep(xs);
      LengthStep(xs);
      FrontLast(xs);
    }
  }

  /** Instructions numbered 0, 1, 2, ... get no separator at all. */
  lemma {:induction false} ConsecutiveNoBreaks(xs: seq<InstructionDetail>)
    requires forall i :: 0 <= i < |xs| ==> xs[i].serialNumber == i
    ensures Breaks(xs) == 0
  {
    if xs != [] {
      var n := |xs| - 1;
      ConsecutiveNoBreaks(xs[..n]);
    }
  }

  /** `make_assembly_inner`: walks the rows from the cursor on, keeping the
      previous serial number in `prev`. */
  method AssemblyItems(xs: seq<InstructionDetail>) returns (items: seq<Item>)
    ensures items == ItemsOf(xs)
  {
    var prev: int := -1;
    items := [];
    for i := 0 to |xs|
      invariant items == ItemsOf(xs[..i])
      invariant prev == PrevSerial(xs[..i])
    {
      assert xs[..i + 1][..i] == xs[..i];
      var ins := xs[i];
      if ins.serialNumber != prev + 1 {
        items := items + [Detach];
      }
      prev := ins.serialNumber;
      items := items + [Row(ins)];
    }
    assert xs[..|xs|] == xs;
  }

  // ---------------------------------------------------------------------
  // Directory list selection

  /** Down in the directory list: the next entry, wrapping round; the
      first entry when nothing is selected. With entries there, the result
      is one of them. */
  function NextSelection(selected: Option<nat>, count: nat): (r: nat)
    requires selected.Some? ==> count > 0
    ensures selected.None? ==> r == 0
    ensures selected.Some? ==> r < count
  {
    match selected
    case None => 0
    case Some(i) => (i + 1) % count
  }

  /** Up in the directory list: the previous entry, from the first to the
      last; the first entry when nothing is selected. */
  function PrevSelection(selected: Option<nat>, count: nat): (r: nat)
    requires selected == Some(0) ==> count > 0
    ensures selected.None? ==> r == 0
    ensures selected.Some? && selected.value < count ==> r < count
  {
    match selected
    case None => 0
    case Some(i) => if i == 0 then count - 1 else i - 1
  }

  /** Down then Up, or Up then Down, returns to the entry selected. */
  lemma SelectionRoundTrip(i: nat, count: nat)
    requires i < count
    ensures PrevSelection(Some(NextSelection(Some(i), count)), count) == i
    ensures NextSelection(Some(PrevSelection(Some(i), count)), count) == i
  {
    if i + 1 < count {
      assert (i + 1) % count == i + 1;
    } else {
      assert (i + 1) % count == 0;
    }
    if i > 0 {
      assert (i - 1 + 1) % count == i;
    } else {
      assert (count - 1 + 1) % count == 0;
    }
  }

  // ---------------------------------------------------------------------
  // GlobalState

  /** `GlobalState`: the directory list selection, the selected
      instructions by address and the address cursor. */
  class GlobalState {
    var selectedAsm: map<u64, InstructionDetail>
    var curAsm: u64
    var dirSelected: Option<nat>
    var dirCount: nat
    var showLines: bool

    /** Every selected instruction is stored under its own address. */
    ghost predicate Valid()
      reads this
    {
      Keyed(selectedAsm)
    }

    /** `start`, given the number of entries of the starting directory. */
    constructor (dirCount: nat)
      ensures Valid()
      ensures selectedAsm == map[] && curAsm == 0 && dirSelected.None?
      ensures this.dirCount == dirCount && !showLines
    {
      selectedAsm := map[];
      curAsm := 0;
      dirSelected := None;
      this.dirCount := dirCount;
      showLines := false;
    }

    /** `add_asm_line`: nothing to add changes nothing; otherwise the
        instructions are inserted by address. */
    method AddAsmLine(debug: Option<seq<InstructionDetail>>)
      requires Valid()
      modifies this
      ensures Valid()
      ensures debug.None? ==> selectedAsm == old(selectedAsm)
      ensures debug.Some? ==> selectedAsm == Extend(old(selectedAsm), debug.value)
      ensures curAsm == old(curAsm) && dirSelected == old(dirSelected)
      ensures dirCount == old(dirCount) && showLines == old(showLines)
    {
      if debug.Some? {
        var data := debug.value;
        for i := 0 to |data|
          invariant selectedAsm == Extend(old(selectedAsm), data[..i])
          invariant curAsm == old(curAsm) && dirSelected == old(dirSelected)
          invariant dirCount == old(dirCount) && showLines == old(showLines)
        {
          assert data[..i + 1][..i] == data[..i];
          selectedAsm := selectedAsm[data[i].address := data[i]];
        }
        assert data[..|data|] == data;
        ExtendKeyed(old(selectedAsm), data);
      }
    }

    /** `remove_asm_line`: exactly the given addresses stop being keys, and
        the cursor is pulled back to the last remaining key (to 0 when none
        is left) if it was past it. */
    method RemoveAsmLine(debug: Option<seq<InstructionDetail>>)
      requires Valid()
      modifies this
      ensures Valid()
      ensures selectedAsm == old(selectedAsm) - Addresses(debug.GetOr([]))
      ensures var last := LastKeyOrZero(selectedAsm.Keys);
        curAsm == if old(curAsm) <= last then old(curAsm) else last
      ensures dirSelected == old(dirSelected) && dirCount == old(dirCount) && showLines == old(showLines)
    {
      var data := debug.GetOr([]);
      for i := 0 to |data|
        invariant selectedAsm == old(selectedAsm) - Addresses(data[..i])
        invariant curAsm == old(curAsm) && dirSelected == old(dirSelected)
        invariant dirCount == old(dirCount) && showLines == old(showLines)
      {
        assert Addresses(data[..i + 1]) == Addresses(data[..i]) + {data[i].address} by {
          assert forall j :: 0 <= j < i ==> data[..i + 1][j] == data[..i][j];
          assert data[..i + 1][i] == data[i];
        }
        selectedAsm := selectedAsm - {data[i].address};
      }
      assert data[..|data|] == data;
      var last := LastKeyOrZero(selectedAsm.Keys);
      if last < curAsm {
        curAsm := last;
      }
    }

    /** `cur_asm_range`: the selected instructions at the cursor's address
        and after it, in ascending address order. */
    function CurAsmRange(): (r: seq<InstructionDetail>)
      reads this
      requires Valid()
      ensures forall i :: 0 <= i < |r| ==> r[i].address in selectedAsm && r[i].address >= curAsm
      ensures forall i, j :: 0 <= i < j < |r| ==> r[i].address < r[j].address
    {
      var m := selectedAsm;
      var keys := AddressesFrom(m.Keys, curAsm);
      seq(|keys|, i requires 0 <= i < |keys| => m[keys[i]])
    }

    /** Every selected instruction at or after the cursor is in the range. */
    lemma CurAsmRangeCovers(k: u64)
      requires Valid() && k in selectedAsm && k >= curAsm
      ensures selectedAsm[k] in CurAsmRange()
    {
      var keys := AddressesFrom(selectedAsm.Keys, curAsm);
      AddressesFromCovers(selectedAsm.Keys, curAsm, k);
      var i :| 0 <= i < |keys| && keys[i] == k;
      assert CurAsmRange()[i] == selectedAsm[k];
    }

    /** `asm_up`: to the greatest address below the cursor, if there is
        one; the selected instructions stay. */
    method AsmUp()
      modifies this
      ensures var p := PrevKey(old(selectedAsm).Keys, old(curAsm));
        curAsm == if p.Some? then p.value else old(curAsm)
      ensures selectedAsm == old(selectedAsm) && dirSelected == old(dirSelected)
      ensures dirCount == old(dirCount) && showLines == old(showLines)
    {
      var p := PrevKey(selectedAsm.Keys, curAsm);
      if p.Some? {
        curAsm := p.value;
      }
    }

    /** `asm_down`: to the least address above the cursor, if there is
        one; the selected instructions stay. */
    method AsmDown()
      requires curAsm + 1 < U64_LIMIT
      modifies this
      ensures var n := NextKey(old(selectedAsm).Keys, old(curAsm));
        curAsm == if n.Some? then n.value else old(curAsm)
      ensures selectedAsm == old(selectedAsm) && dirSelected == old(dirSelected)
      ensures dirCount == old(dirCount) && showLines == old(showLines)
    {
      var n := NextKey(selectedAsm.Keys, curAsm);
      if n.Some? {
        curAsm := n.value;
      }
    }

    /** Down in the directory list. */
    method SelectDown()
      requires dirSelected.Some? ==> dirCount > 0
      modifies this
      ensures dirCount == old(dirCount) && showLines == old(showLines)
      ensures dirSelected == Some(NextSelection(old(dirSelected), dirCount))
      ensures selectedAsm == old(selectedAsm) && curAsm == old(curAsm)
    {
      var i := match dirSelected
        case Some(i) => (i + 1) % dirCount
        case None => 0;
      dirSelected := Some(i);
    }

    /** Up in the directory list. */
    method SelectUp()
      requires dirSelected == Some(0) ==> dirCount > 0
      modifies this
      ensures dirCount == old(dirCount) && showLines == old(showLines)
      ensures dirSelected == Some(PrevSelection(old(dirSelected), dirCount))
      ensures selectedAsm == old(selectedAsm) && curAsm == old(curAsm)
    {
      var i := match dirSelected
        case Some(i) => if i == 0 then dirCount - 1 else i - 1
        case None => 0;
      dirSelected := Some(i);
    }

    /** The `l` key: line numbers shown or hidden, nothing else touched. */
    method ToggleShowLines()
      requires Valid()
      modifies this
      ensures Valid()
      ensures showLines == !old(showLines)
      ensures selectedAsm == old(selectedAsm) && curAsm == old(curAsm)
      ensures dirSelected == old(dirSelected) && dirCount == old(dirCount)
    {
      showLines := !showLines;
    }
  }

  /** The assembly pane of a state: the rows from the cursor on, with
      separators. */
  method MakeAssemblyInner(state: GlobalState) returns (items: seq<Item>)
    requires state.Valid()
    ensures items == ItemsOf(state.CurAsmRange())
  {
    items := AssemblyItems(state.CurAsmRange());
  }

  // ---------------------------------------------------------------------
  // Lines of the file view and FileState

  /** `line_number as u32`: the line number truncated to 32 bits. */
  function LineKey(lineNumber: nat): u32 {
    lineNumber % U32_LIMIT
  }

  /** `Line`: one line of the viewed file, whether it is selected, and its
      debug information once loaded. */
  class Line {
    const content: string
    const lineNumber: nat
    var isSelected: bool
    var debugInfo: Option<Option<seq<InstructionDetail>>>

    constructor (content: string, lineNumber: nat)
      ensures this.content == content && this.lineNumber == lineNumber
      ensures !isSelected && debugInfo.None?
    {
      this.content := content;
      this.lineNumber := lineNumber;
      isSelected := false;
      debugInfo := None;
    }

    /** The debug information of this line: the cached one, or what the
        source file holds for its line and the object file. */
    function Debug(codeFile: CodeFile, objPath: Path): Option<seq<InstructionDetail>>
      reads this, codeFile
    {
      if debugInfo.Some? then debugInfo.value else codeFile.GetAsm(LineKey(lineNumber), objPath)
    }

    /** `load_debug`: computed on first use, then returned from the cache. */
    method LoadDebug(codeFile: CodeFile, objPath: Path) returns (r: Option<seq<InstructionDetail>>)
      modifies this
      ensures r == old(Debug(codeFile, objPath))
      ensures debugInfo == Some(r) && isSelected == old(isSelected)
      ensures old(debugInfo).Some? ==> debugInfo == old(debugInfo)
    {
      match debugInfo
      case Some(x) =>
        r := x;
      case None =>
        debugInfo := Some(codeFile.GetAsm(LineKey(lineNumber), objPath));
        r := debugInfo.value;
    }
  }

  /** `saturating_sub(1)` */
  function LastIndex(n: nat): nat {
    if n == 0 then 0 else n - 1
  }

  /** `FileState`: the lines of the viewed file, the scroll offset and the
      line cursor, over the global state. */
  class FileState {
    var fileContent: seq<Line>
    var fileScroll: nat
    var cursor: nat
    const global: GlobalState

    /** The cursor is on a line, or at 0 in an empty file. */
    ghost predicate Valid()
      reads this
    {
      cursor <= LastIndex(|fileContent|)
    }

    /** `load_file`, given the lines read. */
    constructor (fileContent: seq<Line>, global: GlobalState)
      ensures Valid()
      ensures this.fileContent == fileContent && this.global == global
      ensures fileScroll == 0 && cursor == 0
    {
      this.fileContent := fileContent;
      this.global := global;
      fileScroll := 0;
      cursor := 0;
    }

    /** Up in the file view: one line up unless at the top; the view
        scrolls up to keep the cursor visible. */
    method CursorUp()
      requires Valid()
      modifies this
      ensures Valid()
      ensures old(cursor) > 0 ==> cursor == old(cursor) - 1 && fileScroll <= cursor
      ensures old(cursor) > 0 && old(fileScroll) <= cursor ==> fileScroll == old(fileScroll)
      ensures old(cursor) > 0 && cursor < old(fileScroll) ==> fileScroll == cursor
      ensures old(cursor) == 0 ==> cursor == 0 && fileScroll == old(fileScroll)
      ensures fileContent == old(fileContent)
    {
      if cursor > 0 {
        cursor := cursor - 1;
        if cursor < fileScroll {
          fileScroll := cursor;
        }
      }
    }

    /** Down in the file view: one line down unless on the last line; the
        view scrolls down so that the cursor is less than
        `len - 1` lines below the scroll offset. */
    method CursorDown()
      requires Valid()
      modifies this
      ensures Valid()
      ensures old(cursor) < LastIndex(|fileContent|) ==>
        cursor == old(cursor) + 1 && cursor < fileScroll + LastIndex(|fileContent|)
          && (old(fileScroll) <= cursor < old(fileScroll) + LastIndex(|fileContent|) ==> fileScroll == old(fileScroll))
      ensures old(cursor) < LastIndex(|fileContent|) ==>
        fileScroll == if cursor >= old(fileScroll) + LastIndex(|fileContent|)
                      then cursor - LastIndex(|fileContent|) + 1 else old(fileScroll)
      ensures old(cursor) == LastIndex(|fileContent|) ==> cursor == old(cursor) && fileScroll == old(fileScroll)
      ensures fileContent == old(fileContent)
    {
      if cursor < LastIndex(|fileContent|) {
        cursor := cursor + 1;
        var maxVisibleLines := LastIndex(|fileContent|);
        if cursor >= fileScroll + maxVisibleLines {
          fileScroll := cursor - maxVisibleLines + 1;
        }
      }
    }

    /** The scroll clamp of `render_file_asm_viewer`: with room for at
        least one line the cursor ends up in the visible window, and the
        view only moves when the cursor was outside it. With no room at all
        the offset lands one past the cursor. */
    method ClampScroll(maxVisibleLines: nat)
      modifies this
      ensures maxVisibleLines >= 1 ==> fileScroll <= cursor < fileScroll + maxVisibleLines
      ensures old(fileScroll) <= cursor < old(fileScroll) + maxVisibleLines ==> fileScroll == old(fileScroll)
      ensures maxVisibleLines == 0 && old(fileScroll) <= cursor ==> fileScroll == cursor + 1
      ensures fileScroll == if cursor < old(fileScroll) then cursor
                            else if cursor >= old(fileScroll) + maxVisibleLines then cursor - maxVisibleLines + 1
                            else old(fileScroll)
      ensures cursor == old(cursor) && fileContent == old(fileContent)
    {
      if cursor < fileScroll {
        fileScroll := cursor;
      } else if cursor >= fileScroll + maxVisibleLines {
        fileScroll := cursor - maxVisibleLines + 1;
      }
    }

    /** Enter in the file view: the line under the cursor flips its
        selection; a newly selected line adds its instructions to the
        global selection, a deselected one removes them. */
    method ToggleSelection(codeFile: CodeFile, objPath: Path)
      requires Valid() && global.Valid()
      requires cursor < |fileContent|
      modifies fileContent[cursor], global
      ensures global.Valid()
      ensures var line := fileContent[cursor];
        && line.isSelected == !old(line.isSelected)
        && line.debugInfo == Some(old(line.Debug(codeFile, objPath)))
        && (line.isSelected ==>
              global.selectedAsm == Extend(old(global.selectedAsm), old(line.Debug(codeFile, objPath)).GetOr([])))
        && (!line.isSelected ==>
              global.selectedAsm == old(global.selectedAsm) - Addresses(old(line.Debug(codeFile, objPath)).GetOr([])))
      ensures fileContent[cursor].isSelected ==> global.curAsm == old(global.curAsm)
      ensures var last := LastKeyOrZero(global.selectedAsm.Keys);
        !fileContent[cursor].isSelected ==>
          global.curAsm == if old(global.curAsm) <= last then old(global.curAsm) else last
      ensures global.dirSelected == old(global.dirSelected) && global.dirCount == old(global.dirCount)
      ensures global.showLines == old(global.showLines)
    {
      var line := fileContent[cursor];
      line.isSelected := !line.isSelected;
      var info := line.LoadDebug(codeFile, objPath);
      if line.isSelected {
        global.AddAsmLine(info);
        if info.None? {
          assert Extend(old(global.selectedAsm), []) == old(global.selectedAsm);
        }
      } else {
        global.RemoveAsmLine(info);
      }
    }
  }
}
