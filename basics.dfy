/** Shared vocabulary of the viewer model: optional values, results with an
    error side, machine integer ranges and paths. */
module Basics {

  datatype Option<+T> = None | Some(value: T) {
    /** `Option::unwrap_or` */
    function GetOr(default: T): T {
      match this
      case Some(v) => v
      case None => default
    }
  }

  datatype Result<+T, +E> = Ok(value: T) | Err(error: E)

  const U64_LIMIT: int := 0x1_0000_0000_0000_0000
  const U32_LIMIT: int := 0x1_0000_0000

  type u64 = x: int | 0 <= x < U64_LIMIT
  type u32 = x: int | 0 <= x < U32_LIMIT

  /** A file-system path, compared by its text. */
  type Path = string

  /** A non-empty sequence is its front followed by its last element. */
  lemma FrontLast<T>(xs: seq<T>)
    requires xs != []
    ensures xs[..|xs| - 1] + [xs[|xs| - 1]] == xs
  {
  }

  /** A concatenation with a non-empty tail, split before its last element. */
  lemma AppendSnoc<T>(us: seq<T>, vs: seq<T>)
    requires vs != []
    ensures us + vs == (us + vs[..|vs| - 1]) + [vs[|vs| - 1]]
  {
  }

  lemma Assoc<T>(a: seq<T>, b: seq<T>, c: seq<T>)
    ensures (a + b) + c == a + (b + c)
  {
  }
}

/** The least and greatest element of a finite set of keys: what an ordered
    map (`BTreeMap`) hands out through `first_key_value`, `last_key_value` and
    the ends of its ranges. */
module OrderedKeys {

  predicate IsGreatest(k: int, keys: set<int>) {
    k in keys && forall j :: j in keys ==> j <= k
  }

  predicate IsLeast(k: int, keys: set<int>) {
    k in keys && forall j :: j in keys ==> k <= j
  }

  /** Some element of a non-empty set. */
  lemma PickKey<T>(keys: set<T>) returns (x: T)
    requires keys != {}
    ensures x in keys
  {
    x :| x in keys;
  }

  lemma {:induction false} GreatestExists(keys: set<int>)
    requires keys != {}
    ensures exists k :: IsGreatest(k, keys)
    decreases |keys|
  {
    var x := PickKey(keys);
    if keys == {x} {
      assert IsGreatest(x, keys);
    } else {
      var rest := keys - {x};
      assert keys == rest + {x};
      GreatestExists(rest);
      var hi :| IsGreatest(hi, rest);
      assert IsGreatest(if x <= hi then hi else x, keys);
    }
  }

  lemma {:induction false} LeastExists(keys: set<int>)
    requires keys != {}
    ensures exists k :: IsLeast(k, keys)
    decreases |keys|
  {
    var x := PickKey(keys);
    if keys == {x} {
      assert IsLeast(x, keys);
    } else {
      var rest := keys - {x};
      assert keys == rest + {x};
      LeastExists(rest);
      var lo :| IsLeast(lo, rest);
      assert IsLeast(if lo <= x then lo else x, keys);
    }
  }

  /** The greatest key of a non-empty finite set. */
  function MaxKey(keys: set<int>): (k: int)
    requires keys != {}
    ensures IsGreatest(k, keys)
  {
    GreatestExists(keys);
    var k :| IsGreatest(k, keys); k
  }

  /** The least key of a non-empty finite set. */
  function MinKey(keys: set<int>): (k: int)
    requires keys != {}
    ensures IsLeast(k, keys)
  {
    LeastExists(keys);
    var k :| IsLeast(k, keys); k
  }

  /** Strictly ascending, hence without repeats. */
  predicate Ascending(s: seq<int>) {
    forall i, j :: 0 <= i < j < |s| ==> s[i] < s[j]
  }

  lemma AscendingCons(m: int, rest: seq<int>)
    requires Ascending(rest)
    requires forall i :: 0 <= i < |rest| ==> m < rest[i]
    ensures Ascending([m] + rest)
  {
    var s := [m] + rest;
    forall i, j | 0 <= i < j < |s|
      ensures s[i] < s[j]
    {
      assert s[j] == rest[j - 1];
      if i > 0 {
        assert s[i] == rest[i - 1];
      }
    }
  }

  /** The keys in ascending order: the order in which an ordered map
      iterates over them. */
  function SortedKeys(keys: set<int>): (s: seq<int>)
    ensures forall i :: 0 <= i < |s| ==> s[i] in keys
    ensures Ascending(s)
    decreases |keys|
  {
    if keys == {} then []
    else
      var m := MinKey(keys);
      var rest := SortedKeys(keys - {m});
      AscendingCons(m, rest);
      [m] + rest
  }

  /** Every key is handed out, so the ascending keys number as many as the
      set has. */
  lemma {:induction false} SortedKeysCover(keys: set<int>)
    ensures forall k :: k in keys ==> k in SortedKeys(keys)
    ensures |SortedKeys(keys)| == |keys|
    decreases |keys|
  {
    if keys != {} {
      var m := MinKey(keys);
      SortedKeysCover(keys - {m});
      assert SortedKeys(keys) == [m] + SortedKeys(keys - {m});
    }
  }
}
