/** The viewer's error values and the walk along their `source()` chain
    (src/errors.rs). Errors coming from libraries (I/O, object parsing, DWARF
    decoding) are `Foreign` nodes: an opaque type identity, a display text and
    an optional cause. */
module Errors {
  import opened Basics

  datatype Error =
    | Stacked(source: Error, message: string)
    | Wraped(source: Error)
    | Print(inner: Error)
    | Foreign(kind: nat, text: string, cause: Option<Error>)

  /** The concrete type of an error node, as `downcast_ref` sees it. */
  datatype TypeTag = StackedTag | WrapedTag | PrintTag | ForeignTag(kind: nat)

  function Tag(e: Error): TypeTag {
    match e
    case Stacked(_, _) => StackedTag
    case Wraped(_) => WrapedTag
    case Print(_) => PrintTag
    case Foreign(k, _, _) => ForeignTag(k)
  }

  /** `Error::source`: the three error types of the viewer always name the
      error they carry; a foreign error names its cause, if any. */
  function Source(e: Error): (r: Option<Error>)
    ensures !e.Foreign? ==> r.Some?
    ensures r.Some? ==> r.value < e
  {
    match e
    case Stacked(s, _) => Some(s)
    case Wraped(s) => Some(s)
    case Print(i) => Some(i)
    case Foreign(_, _, c) => c
  }

  /** The finite chain an error heads: the error itself, then its source,
      the source's source and so on until a node without one. */
  function Chain(e: Error): (c: seq<Error>)
    ensures |c| >= 1 && c[0] == e
    decreases e
  {
    match Source(e)
    case None => [e]
    case Some(n) => [e] + Chain(n)
  }

  /** The text `Display` renders. */
  function Display(e: Error): string {
    match e
    case Stacked(s, m) => Display(s) + " " + m
    case Wraped(s) => Display(s)
    case Print(i) => "Print error: " + Display(i)
    case Foreign(_, t, _) => t
  }

  /** `StackedError::new` */
  function NewStacked(source: Error, message: string): (r: Error)
    ensures Source(r) == Some(source)
    ensures Chain(r) == [r] + Chain(source)
    ensures Display(r) == Display(source) + " " + message
  {
    Stacked(source, message)
  }

  /** `WrapedError::new` */
  function Wrap(source: Error): (r: Error)
    ensures Source(r) == Some(source)
    ensures Display(r) == Display(source)
  {
    Wraped(source)
  }

  /** `PrintError`: a failed write to standard output, naming the I/O error
      as its source. */
  function NewPrint(inner: Error): (r: Error)
    ensures Source(r) == Some(inner)
    ensures Chain(r) == [r] + Chain(inner)
    ensures Display(r) == "Print error: " + Display(inner)
  {
    Print(inner)
  }

  /** `StackedError::from_wraped`: the wrapper node is replaced by a stacked
      node over the same source, so the chain keeps everything below it. */
  function FromWraped(w: Error, message: string): (r: Error)
    requires w.Wraped?
    ensures Tag(r) == StackedTag
    ensures Source(r) == Source(w)
    ensures Chain(r) == [r] + Chain(w)[1..]
    ensures Display(r) == Display(w) + " " + message
  {
    Stacked(w.source, message)
  }

  /** No node before index `i` of `c` has type `t`. */
  predicate NoneTaggedBefore(c: seq<Error>, t: TypeTag, i: nat)
    requires i <= |c|
  {
    forall j :: 0 <= j < i ==> Tag(c[j]) != t
  }

  /** `downcast_chain_ref`: the first node of type `t` along the chain of
      `origin`, the origin itself checked first. */
  method DowncastChainRef(origin: Error, t: TypeTag) returns (found: Option<Error>)
    ensures found.None? <==> NoneTaggedBefore(Chain(origin), t, |Chain(origin)|)
    ensures found.Some? ==>
      exists i :: 0 <= i < |Chain(origin)| && Chain(origin)[i] == found.value &&
        Tag(found.value) == t && NoneTaggedBefore(Chain(origin), t, i)
  {
    var err := origin;
    ghost var seen: seq<Error> := [];
    while true
      invariant Chain(origin) == seen + Chain(err)
      invariant NoneTaggedBefore(seen, t, |seen|)
      decreases err
    {
      if Tag(err) == t {
        assert Chain(origin)[|seen|] == err;
        return Some(err);
      }
      match Source(err)
      case Some(next) =>
        seen := seen + [err];
        err := next;
      case None =>
        assert Chain(origin) == seen + [err];
        return None;
    }
  }

  /** Searching never stops at a wrapper of another type: looking through a
      stacked or wrapped node is the same as looking from its source. */
  lemma {:induction false} ChainThroughWrapper(e: Error, t: TypeTag)
    requires e.Stacked? || e.Wraped?
    requires Tag(e) != t
    ensures NoneTaggedBefore(Chain(e), t, |Chain(e)|) <==>
            NoneTaggedBefore(Chain(e.source), t, |Chain(e.source)|)
  {
    var c := Chain(e);
    assert c == [e] + Chain(e.source);
    if NoneTaggedBefore(Chain(e.source), t, |Chain(e.source)|) {
      forall j | 0 <= j < |c| ensures Tag(c[j]) != t {
        if j > 0 { assert c[j] == Chain(e.source)[j - 1]; }
      }
    } else {
      var j :| 0 <= j < |Chain(e.source)| && Tag(Chain(e.source)[j]) == t;
      assert c[j + 1] == Chain(e.source)[j];
    }
  }

  /** Every chain ends in a node without a source, and only there. */
  lemma {:induction false} ChainEndsAtRoot(e: Error)
    ensures Source(Chain(e)[|Chain(e)| - 1]).None?
    ensures forall i :: 0 <= i < |Chain(e)| - 1 ==> Source(Chain(e)[i]) == Some(Chain(e)[i + 1])
    decreases e
  {
    match Source(e)
    case None =>
    case Some(n) =>
      ChainEndsAtRoot(n);
      var c := Chain(e);
      assert c == [e] + Chain(n);
      forall i | 0 <= i < |c| - 1 ensures Source(c[i]) == Some(c[i + 1]) {
        if i > 0 { assert c[i] == Chain(n)[i - 1]; }
      }
  }
}
