/** The attribute fold of `iter_function_ranges` (src/skiper.rs): for every
    debugging information entry (DIE) after each unit's root, the attributes
    are read in order into a low pc, a high pc, a name and a range-list
    index, and a record (name, low pc, high pc) is kept for each DIE that
    ends with a low pc. The attribute meanings follow DWARF 5: a constant
    `DW_AT_high_pc` is an offset from the low pc (section 2.17.2),
    `DW_AT_entry_pc` names an entry address (section 2.18), and a
    `DW_AT_declaration` DIE describes no code (section 2.13.1).

    The DWARF decoder (`gimli`) is not part of this model: units, DIEs and
    attributes arrive decoded, a failed read is a `Broken` attribute or an
    erroneous unit or DIE, and string references arrive already resolved
    (or not). The printing in the same loop is left out. */
module Skiper {
  import opened Basics
  import opened Errors

  datatype AttrName =
    | LowPc          // DW_AT_low_pc
    | HighPc         // DW_AT_high_pc
    | EntryPc        // DW_AT_entry_pc
    | Ranges         // DW_AT_ranges
    | Name           // DW_AT_name
    | CallOrigin     // DW_AT_call_origin
    | Declaration    // DW_AT_declaration
    | OtherAttr(code: nat)

  /** An attribute value, in the forms the fold tells apart. `Text` is a
      value `attr_string` resolves (to `Some`) or not (`None`); `UnitRef` is
      a reference to a DIE of the same unit together with the resolved
      `DW_AT_name` of that DIE, if it has one that resolves. */
  datatype AttrValue =
    | Addr(addr: u64)
    | Udata(udata: u64)
    | RangeListsRef(offset: nat)
    | Text(resolved: Option<string>)
    | UnitRef(originName: Option<string>)
    | OtherValue

  /** One read of `attrs.next()`: an attribute, or a decoding error. */
  datatype Attr = Attr(name: AttrName, value: AttrValue) | Broken(error: Error)

  datatype Die = Die(attrs: seq<Attr>) | DieError(error: Error)

  datatype Unit = Unit(dies: seq<Die>) | UnitError(error: Error)

  /** The locals of the DIE loop. */
  datatype Scanned = Scanned(lowPc: Option<u64>, highPc: Option<u64>, name: Option<string>, rangesIndex: Option<nat>)

  const START := Scanned(None, None, None, None)

  /** What the caller gets per DIE: (name, low pc, high pc). */
  datatype Record = Record(name: Option<string>, lowPc: u64, highPc: Option<u64>)

  /** `lp + off` on `u64`, wrapping as a release build does. */
  function WrappingAdd(a: u64, b: u64): u64 {
    (a + b) % U64_LIMIT
  }

  /** The effect of one attribute other than `DW_AT_declaration`. */
  function Step(s: Scanned, name: AttrName, value: AttrValue): Scanned {
    match name
    case LowPc => if value.Addr? then s.(lowPc := Some(value.addr)) else s
    case HighPc =>
      if value.Addr? then s.(highPc := Some(value.addr))
      else if value.Udata? && s.lowPc.Some? then s.(highPc := Some(WrappingAdd(s.lowPc.value, value.udata)))
      else s
    case EntryPc => if value.Addr? && s.lowPc.None? then s.(lowPc := Some(value.addr)) else s
    case Ranges => if value.RangeListsRef? then s.(rangesIndex := Some(value.offset)) else s
    case Name => if value.Text? && value.resolved.Some? then s.(name := value.resolved) else s
    case CallOrigin => if value.UnitRef? && value.originName.Some? then s.(name := value.originName) else s
    case Declaration => s
    case OtherAttr(_) => s
  }

  /** The attribute loop of one DIE: a read error ends everything, a
      declaration ends the loop. */
  function Scan(attrs: seq<Attr>, s: Scanned): Result<Scanned, Error> {
    if attrs == [] then Ok(s)
    else
      match attrs[0]
      case Broken(e) => Err(e)
      case Attr(name, value) =>
        if name == Declaration then Ok(s) else Scan(attrs[1..], Step(s, name, value))
  }

  /** The record kept for a DIE: one exactly when it has a low pc. */
  function RecordOf(s: Scanned): seq<Record> {
    if s.lowPc.Some? then [Record(s.name, s.lowPc.value, s.highPc)] else []
  }

  /** The first read error among all the attributes of a DIE: the printing
      pass after the fold reads every attribute again, past a declaration
      too, and fails where a read fails. */
  function FirstBroken(attrs: seq<Attr>): Option<Error> {
    if attrs == [] then None
    else if attrs[0].Broken? then Some(attrs[0].error)
    else FirstBroken(attrs[1..])
  }

  /** One more DIE of the loop: a failure so far stays, an unreadable DIE
      or attribute fails, otherwise the DIE's record (if any) is added. */
  function DieStep(acc: Result<seq<Record>, Error>, d: Die): Result<seq<Record>, Error> {
    match acc
    case Err(e) => Err(e)
    case Ok(rs) =>
      match d
      case DieError(e) => Err(e)
      case Die(attrs) =>
        match Scan(attrs, START)
        case Err(e) => Err(e)
        case Ok(s) =>
          match FirstBroken(attrs)
          case Some(e) => Err(e)
          case None => Ok(rs + RecordOf(s))
  }

  /** The records of a run of DIEs, in order; the first error ends it. */
  function DieRecords(dies: seq<Die>): Result<seq<Record>, Error> {
    if dies == [] then Ok([])
    else DieStep(DieRecords(dies[..|dies| - 1]), dies[|dies| - 1])
  }

  /** The records of one unit: its root DIE is read and skipped. */
  function UnitRecords(u: Unit): Result<seq<Record>, Error> {
    match u
    case UnitError(e) => Err(e)
    case Unit(dies) =>
      if dies == [] then Ok([])
      else if dies[0].DieError? then Err(dies[0].error)
      else DieRecords(dies[1..])
  }

  /** One more unit: a failure so far stays, a failing unit fails,
      otherwise its records are added. */
  function UnitStep(acc: Result<seq<Record>, Error>, u: Unit): Result<seq<Record>, Error> {
    match acc
    case Err(e) => Err(e)
    case Ok(rs) =>
      match UnitRecords(u)
      case Err(e) => Err(e)
      case Ok(more) => Ok(rs + more)
  }

  /** The records of all units, unit by unit. */
  function AllRecords(units: seq<Unit>): Result<seq<Record>, Error> {
    if units == [] then Ok([])
    else UnitStep(AllRecords(units[..|units| - 1]), units[|units| - 1])
  }

  /** Once the DIE loop has failed, later DIEs change nothing. */
  lemma {:induction false} DieRecordsSticky(dies: seq<Die>, k: nat)
    requires k <= |dies| && DieRecords(dies[..k]).Err?
    ensures DieRecords(dies) == DieRecords(dies[..k])
    decreases |dies|
  {
    if k < |dies| {
      var n := |dies| - 1;
      assert dies[..n][..k] == dies[..k];
      DieRecordsSticky(dies[..n], k);
    } else {
      assert dies[..k] == dies;
    }
  }

  /** Once the unit loop has failed, later units change nothing. */
  lemma {:induction false} AllRecordsSticky(units: seq<Unit>, k: nat)
    requires k <= |units| && AllRecords(units[..k]).Err?
    ensures AllRecords(units) == AllRecords(units[..k])
    decreases |units|
  {
    if k < |units| {
      var n := |units| - 1;
      assert units[..n][..k] == units[..k];
      AllRecordsSticky(units[..n], k);
    } else {
      assert units[..k] == units;
    }
  }

  // ---------------------------------------------------------------------
  // The loops

  /** The attribute loop of one DIE. */
  method ScanDie(attrs: seq<Attr>) returns (r: Result<Scanned, Error>)
    ensures r == Scan(attrs, START)
  {
    var s := START;
    var k := 0;
    while k < |attrs|
      invariant k <= |attrs|
      invariant Scan(attrs, START) == Scan(attrs[k..], s)
    {
      match attrs[k]
      case Broken(e) =>
        return Err(e);
      case Attr(name, value) =>
        if name == Declaration {
          return Ok(s);
        }
        assert attrs[k..][1..] == attrs[k + 1..];
        s := Step(s, name, value);
      k := k + 1;
    }
    return Ok(s);
  }

  /** The printing pass over the attributes of one DIE, reduced to what it
      contributes to the result: the first read error, if any. */
  method ReadAllAttrs(attrs: seq<Attr>) returns (r: Option<Error>)
    ensures r == FirstBroken(attrs)
  {
    var k := 0;
    while k < |attrs|
      invariant k <= |attrs|
      invariant FirstBroken(attrs) == FirstBroken(attrs[k..])
    {
      if attrs[k].Broken? {
        return Some(attrs[k].error);
      }
      assert attrs[k..][1..] == attrs[k + 1..];
      k := k + 1;
    }
    return None;
  }

  /** The DIE loop of one unit, appending to `results`. */
  method CollectUnit(u: Unit, results: seq<Record>) returns (r: Result<seq<Record>, Error>)
    ensures UnitRecords(u).Err? ==> r == Err(UnitRecords(u).error)
    ensures UnitRecords(u).Ok? ==> r == Ok(results + UnitRecords(u).value)
  {
    if u.UnitError? {
      return Err(u.error);
    }
    var dies := u.dies;
    if dies == [] {
      assert results + [] == results;
      return Ok(results);
    }
    if dies[0].DieError? {
      return Err(dies[0].error);
    }
    var acc := results;
    var rest := dies[1..];
    for i := 0 to |rest|
      invariant DieRecords(rest[..i]).Ok?
      invariant acc == results + DieRecords(rest[..i]).value
    {
      assert rest[..i + 1][..i] == rest[..i];
      match rest[i]
      case DieError(e) =>
        DieRecordsSticky(rest, i + 1);
        return Err(e);
      case Die(attrs) =>
        var s := ScanDie(attrs);
        if s.Err? {
          DieRecordsSticky(rest, i + 1);
          return Err(s.error);
        }
        var broken := ReadAllAttrs(attrs);
        if broken.Some? {
          DieRecordsSticky(rest, i + 1);
          return Err(broken.value);
        }
        acc := acc + RecordOf(s.value);
    }
    assert rest[..|rest|] == rest;
    return Ok(acc);
  }

  /** `iter_function_ranges`: the records of all units, in unit order and,
      within a unit, in the order the DIEs are visited. */
  method IterFunctionRanges(units: seq<Unit>) returns (r: Result<seq<Record>, Error>)
    ensures r == AllRecords(units)
  {
    var results: seq<Record> := [];
    for i := 0 to |units|
      invariant AllRecords(units[..i]) == Ok(results)
    {
      assert units[..i + 1][..i] == units[..i];
      var next := CollectUnit(units[i], results);
      if next.Err? {
        AllRecordsSticky(units, i + 1);
        return next;
      }
      results := next.value;
    }
    assert units[..|units|] == units;
    return Ok(results);
  }

  // ---------------------------------------------------------------------
  // What the fold computes

  /** Attributes that neither fail nor stop the loop. */
  predicate Plain(attrs: seq<Attr>) {
    forall i :: 0 <= i < |attrs| ==> attrs[i].Attr? && attrs[i].name != Declaration
  }

  /** The fold fails only at a read error, and then at the first one. */
  lemma {:induction false} ScanFailsAtFirstBroken(attrs: seq<Attr>, s: Scanned)
    ensures Scan(attrs, s).Err? ==> FirstBroken(attrs) == Some(Scan(attrs, s).error)
  {
    if attrs != [] && attrs[0].Attr? && attrs[0].name != Declaration {
      ScanFailsAtFirstBroken(attrs[1..], Step(s, attrs[0].name, attrs[0].value));
    }
  }

  /** There is a first read error exactly when some attribute is unreadable. */
  lemma {:induction false} FirstBrokenExists(attrs: seq<Attr>)
    ensures FirstBroken(attrs).None? <==> forall i :: 0 <= i < |attrs| ==> attrs[i].Attr?
  {
    if attrs != [] {
      FirstBrokenExists(attrs[1..]);
      assert forall i :: 1 <= i < |attrs| ==> attrs[i] == attrs[1..][i - 1];
    }
  }

  /** A readable DIE fails exactly when one of its attributes, before or
      after a declaration, cannot be read, and then with the first such
      error; otherwise it adds the record of its fold, if any. */
  lemma DieOutcome(rs: seq<Record>, attrs: seq<Attr>)
    ensures var r := DieStep(Ok(rs), Die(attrs));
      && (r.Err? <==> exists i :: 0 <= i < |attrs| && attrs[i].Broken?)
      && (r.Err? ==> Some(r.error) == FirstBroken(attrs))
      && (r.Ok? ==> Scan(attrs, START).Ok? && r.value == rs + RecordOf(Scan(attrs, START).value))
  {
    ScanFailsAtFirstBroken(attrs, START);
    FirstBrokenExists(attrs);
  }

  /** Attributes past a declaration are never read by the fold. */
  lemma {:induction false} DeclarationStops(pre: seq<Attr>, v: AttrValue, post: seq<Attr>, s: Scanned)
    ensures Scan(pre + [Attr(Declaration, v)] + post, s) == Scan(pre + [Attr(Declaration, v)], s)
  {
    if pre == [] {
      assert ([Attr(Declaration, v)] + post)[0] == Attr(Declaration, v);
    } else {
      assert (pre + [Attr(Declaration, v)] + post)[1..] == pre[1..] + [Attr(Declaration, v)] + post;
      assert (pre + [Attr(Declaration, v)])[1..] == pre[1..] + [Attr(Declaration, v)];
      if pre[0].Attr? && pre[0].name != Declaration {
        DeclarationStops(pre[1..], v, post, Step(s, pre[0].name, pre[0].value));
      }
    }
  }

  /** The fold over plain attributes, attribute by attribute from the
      front: one more plain attribute applies one more `Step`. */
  lemma {:induction false} ScanSnoc(pre: seq<Attr>, name: AttrName, value: AttrValue, s: Scanned)
    requires Plain(pre) && name != Declaration
    ensures Scan(pre, s).Ok?
    ensures Scan(pre + [Attr(name, value)], s) == Ok(Step(Scan(pre, s).value, name, value))
  {
    if pre == [] {
      assert [Attr(name, value)][1..] == [];
    } else {
      assert (pre + [Attr(name, value)])[1..] == pre[1..] + [Attr(name, value)];
      ScanSnoc(pre[1..], name, value, Step(s, pre[0].name, pre[0].value));
    }
  }

  /** The last `Addr`-form low pc among plain attributes. */
  function LastLowPc(attrs: seq<Attr>): Option<u64>
    requires Plain(attrs)
  {
    if attrs == [] then None
    else
      var n := |attrs| - 1;
      if attrs[n].name == LowPc && attrs[n].value.Addr? then Some(attrs[n].value.addr) else LastLowPc(attrs[..n])
  }

  /** The first `Addr`-form entry pc among plain attributes. */
  function FirstEntryPc(attrs: seq<Attr>): Option<u64>
    requires Plain(attrs)
  {
    if attrs == [] then None
    else
      var n := |attrs| - 1;
      var earlier := FirstEntryPc(attrs[..n]);
      if earlier.None? && attrs[n].name == EntryPc && attrs[n].value.Addr? then Some(attrs[n].value.addr) else earlier
  }

  /** The low pc of a DIE is its last `Addr`-form `DW_AT_low_pc`, whatever
      comes before it; without one, its first `Addr`-form `DW_AT_entry_pc`. */
  lemma {:induction false} LowPcOf(attrs: seq<Attr>)
    requires Plain(attrs)
    ensures Scan(attrs, START).Ok?
    ensures Scan(attrs, START).value.lowPc ==
      if LastLowPc(attrs).Some? then LastLowPc(attrs) else FirstEntryPc(attrs)
  {
    if attrs == [] {
    } else {
      var n := |attrs| - 1;
      assert attrs[..n] + [attrs[n]] == attrs;
      LowPcOf(attrs[..n]);
      ScanSnoc(attrs[..n], attrs[n].name, attrs[n].value, START);
    }
  }

  /** The last name that resolves, from `DW_AT_name` or through
      `DW_AT_call_origin`, among plain attributes. */
  function LastName(attrs: seq<Attr>): Option<string>
    requires Plain(attrs)
  {
    if attrs == [] then None
    else
      var n := |attrs| - 1;
      var a := attrs[n];
      if a.name == Name && a.value.Text? && a.value.resolved.Some? then a.value.resolved
      else if a.name == CallOrigin && a.value.UnitRef? && a.value.originName.Some? then a.value.originName
      else LastName(attrs[..n])
  }

  /** Later names overwrite earlier ones; names that do not resolve change
      nothing. */
  lemma {:induction false} NameOf(attrs: seq<Attr>)
    requires Plain(attrs)
    ensures Scan(attrs, START).Ok? && Scan(attrs, START).value.name == LastName(attrs)
  {
    if attrs != [] {
      var n := |attrs| - 1;
      assert attrs[..n] + [attrs[n]] == attrs;
      NameOf(attrs[..n]);
      ScanSnoc(attrs[..n], attrs[n].name, attrs[n].value, START);
    }
  }

  /** A constant-form high pc is an offset from the low pc read so far, and
      is ignored while there is none; an address-form high pc is taken as
      is. */
  lemma HighPcOf(pre: seq<Attr>, value: AttrValue)
    requires Plain(pre)
    ensures Scan(pre, START).Ok?
    ensures var t := Scan(pre, START).value;
      var r := Scan(pre + [Attr(HighPc, value)], START);
      && (value.Addr? ==> r == Ok(t.(highPc := Some(value.addr))))
      && (value.Udata? && t.lowPc.Some? ==> r == Ok(t.(highPc := Some(WrappingAdd(t.lowPc.value, value.udata)))))
      && (value.Udata? && t.lowPc.None? ==> r == Ok(t))
  {
    ScanSnoc(pre, HighPc, value, START);
  }

  /** The number of DIEs of a run whose attributes yield a low pc. */
  function WithLowPc(dies: seq<Die>): nat
    requires DieRecords(dies).Ok?
  {
    if dies == [] then 0
    else
      var n := |dies| - 1;
      WithLowPc(dies[..n]) + (if Scan(dies[n].attrs, START).value.lowPc.Some? then 1 else 0)
  }

  /** One record per DIE that ends with a low pc, and none for the others. */
  lemma {:induction false} RecordsPerDie(dies: seq<Die>)
    requires DieRecords(dies).Ok?
    ensures |DieRecords(dies).value| == WithLowPc(dies)
  {
    if dies != [] {
      RecordsPerDie(dies[..|dies| - 1]);
    }
  }

  /** The records of consecutive units are concatenated in unit order. */
  lemma {:induction false} AllRecordsAppend(us: seq<Unit>, vs: seq<Unit>)
    requires AllRecords(us).Ok? && AllRecords(vs).Ok?
    ensures AllRecords(us + vs) == Ok(AllRecords(us).value + AllRecords(vs).value)
    decreases |vs|
  {
    if vs == [] {
      assert us + vs == us;
      assert AllRecords(us).value + [] == AllRecords(us).value;
    } else {
      var n := |vs| - 1;
      var front, last := vs[..n], vs[n];
      FrontLast(vs);
      AppendSnoc(us, vs);
      SnocOk(front, last);
      AllRecordsAppend(us, front);
      SnocOk(us + front, last);
      Assoc(AllRecords(us).value, AllRecords(front).value, UnitRecords(last).value);
    }
  }

  /** One more unit whose records can be read. */
  lemma SnocOk(front: seq<Unit>, u: Unit)
    requires AllRecords(front).Ok? && UnitRecords(u).Ok?
    ensures AllRecords(front + [u]) == Ok(AllRecords(front).value + UnitRecords(u).value)
  {
    assert (front + [u])[..|front|] == front;
  }
}
