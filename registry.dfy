/**
 * The tracker's allocation registry as values: the effect of recording and
 * releasing an address on the address-to-record map, the order in which the
 * map is walked, and the map left behind by a whole sequence of calls.
 */
module Registry {
  import opened Wrappers
  import opened Records

  type Entries = map<Addr, MemoryStruct>

  /**
   * The map after recording `data` for `ptr`: the entry for `ptr` is
   * inserted or, for an address already tracked, overwritten.
   */
  function Tracked(m: Entries, ptr: Addr, data: MemoryStruct): (r: Entries)
    ensures ptr in r && r[ptr] == data
    ensures forall q :: q != ptr ==> (q in r <==> q in m)
    ensures forall q :: q != ptr && q in m ==> r[q] == m[q]
    ensures |r| == if ptr in m then |m| else |m| + 1
  {
    m[ptr := data]
  }

  /**
   * The map after releasing `ptr`: its entry is erased when present; an
   * absent address, or an empty map, leaves the map as it was.
   */
  function UnTracked(m: Entries, ptr: Addr): (r: Entries)
    ensures ptr !in r
    ensures forall q :: q != ptr ==> (q in r <==> q in m)
    ensures forall q :: q in r ==> r[q] == m[q]
    ensures |r| == if ptr in m then |m| - 1 else |m|
    ensures ptr !in m ==> r == m
  {
    if |m| == 0 then m
    else if ptr in m then
      assert m.Keys == (m - {ptr}).Keys + {ptr};
      m - {ptr}
    else m
  }

  /** The early return on an empty map changes nothing: release is erase. */
  lemma UnTrackedIsErase(m: Entries, ptr: Addr)
    ensures UnTracked(m, ptr) == m - {ptr}
  {
  }

  /** Releasing an address twice leaves the same map as releasing it once. */
  lemma UnTrackedIdempotent(m: Entries, ptr: Addr)
    ensures UnTracked(UnTracked(m, ptr), ptr) == UnTracked(m, ptr)
  {
  }

  /**
   * Recording an address that is already tracked replaces its record: the
   * map is as if only the second record had been made.
   */
  lemma TrackedOverwrites(m: Entries, ptr: Addr, first: MemoryStruct, second: MemoryStruct)
    ensures Tracked(Tracked(m, ptr, first), ptr, second) == Tracked(m, ptr, second)
  {
  }

  /** Recording a fresh address and releasing it at once leaves the map as it was. */
  lemma TrackThenUnTrack(m: Entries, ptr: Addr, data: MemoryStruct)
    requires ptr !in m
    ensures UnTracked(Tracked(m, ptr, data), ptr) == m
  {
  }

  // ----- the order of the shutdown walk -----

  predicate IsLeast(k: Addr, s: set<Addr>) {
    k in s && forall x :: x in s ==> k <= x
  }

  lemma {:induction false} LeastExists(s: set<Addr>)
    requires s != {}
    ensures exists k :: IsLeast(k, s)
    decreases |s|
  {
    var x :| x in s;
    if s != {x} {
      var rest := s - {x};
      LeastExists(rest);
      var k :| IsLeast(k, rest);
      assert s == rest + {x};
      if x < k {
        assert IsLeast(x, s);
      } else {
        assert IsLeast(k, s);
      }
    } else {
      assert IsLeast(x, s);
    }
  }

  ghost function Least(s: set<Addr>): (k: Addr)
    requires s != {}
    ensures IsLeast(k, s)
  {
    LeastExists(s);
    var k :| IsLeast(k, s); k
  }

  /**
   * The keys of a map in the order its iterator visits them: ascending
   * address order, as an ordered map keyed by pointer walks them.
   */
  ghost function AscendingKeys(s: set<Addr>): (keys: seq<Addr>)
    ensures |keys| == |s|
    decreases s
  {
    if s == {} then []
    else
      var k := Least(s);
      assert s == (s - {k}) + {k};
      [k] + AscendingKeys(s - {k})
  }

  /** The walk starts at the least key and goes on with the others. */
  lemma AscendingKeysUnfold(s: set<Addr>)
    requires s != {}
    ensures AscendingKeys(s) == [Least(s)] + AscendingKeys(s - {Least(s)})
  {
  }

  /** The walk visits every key once, and only keys, in strictly ascending order. */
  lemma AscendingKeysSpec(s: set<Addr>)
    ensures |AscendingKeys(s)| == |s|
    ensures forall x :: x in AscendingKeys(s) <==> x in s
    ensures forall i, j :: 0 <= i < j < |AscendingKeys(s)| ==> AscendingKeys(s)[i] < AscendingKeys(s)[j]
  {
    AscendingKeysMembers(s);
    AscendingKeysSorted(s);
  }

  lemma {:induction false} AscendingKeysMembers(s: set<Addr>)
    ensures forall x :: x in AscendingKeys(s) <==> x in s
    decreases s
  {
    if s != {} {
      AscendingKeysMembers(s - {Least(s)});
      AscendingKeysUnfold(s);
    }
  }

  lemma {:induction false} AscendingKeysSorted(s: set<Addr>)
    ensures forall i, j :: 0 <= i < j < |AscendingKeys(s)| ==> AscendingKeys(s)[i] < AscendingKeys(s)[j]
    decreases s
  {
    if s != {} {
      var k := Least(s);
      var rest := s - {k};
      AscendingKeysSorted(rest);
      AscendingKeysMembers(rest);
      AscendingKeysUnfold(s);
      assert forall x :: x in AscendingKeys(rest) ==> k < x;
      SortedCons(k, AscendingKeys(rest));
    }
  }

  /** A smaller key in front of a strictly ascending sequence keeps it ascending. */
  lemma SortedCons(k: Addr, t: seq<Addr>)
    requires forall i, j :: 0 <= i < j < |t| ==> t[i] < t[j]
    requires forall x :: x in t ==> k < x
    ensures forall i, j :: 0 <= i < j < |[k] + t| ==> ([k] + t)[i] < ([k] + t)[j]
  {
    var r := [k] + t;
    forall i, j | 0 <= i < j < |r| ensures r[i] < r[j] {
      assert r[j] == t[j - 1] && r[j] in t;
      if i > 0 {
        assert r[i] == t[i - 1];
      } else {
        assert r[i] == k;
      }
    }
  }

  // ----- sequences of calls -----

  /** One call into the registry: record an allocation, or release an address. */
  datatype Call = Track(ptr: Addr, data: MemoryStruct) | UnTrack(ptr: Addr)

  function Apply(m: Entries, c: Call): Entries {
    match c
    case Track(ptr, data) => Tracked(m, ptr, data)
    case UnTrack(ptr) => UnTracked(m, ptr)
  }

  /** The map left by making the calls in order, starting from m. */
  function Run(m: Entries, calls: seq<Call>): Entries
    decreases |calls|
  {
    if calls == [] then m else Apply(Run(m, calls[..|calls| - 1]), calls[|calls| - 1])
  }

  /** The last call in the sequence that concerns address p, if any. */
  function LastCallOn(calls: seq<Call>, p: Addr): Option<Call>
    decreases |calls|
  {
    if calls == [] then None
    else if calls[|calls| - 1].ptr == p then Some(calls[|calls| - 1])
    else LastCallOn(calls[..|calls| - 1], p)
  }


  /**
   * The registry's invariant over any history: an address is tracked
   * afterwards exactly when the last call on it recorded it, and then it
   * holds the metadata of that last record; an address no call touched
   * keeps what it had.
   */
  lemma {:induction false} RunEntry(m: Entries, calls: seq<Call>, p: Addr)
    ensures LastCallOn(calls, p).None? ==>
              (p in Run(m, calls) <==> p in m) && (p in m ==> Run(m, calls)[p] == m[p])
    ensures LastCallOn(calls, p).Some? && LastCallOn(calls, p).value.Track? ==>
              p in Run(m, calls) && Run(m, calls)[p] == LastCallOn(calls, p).value.data
    ensures LastCallOn(calls, p).Some? && LastCallOn(calls, p).value.UnTrack? ==>
              p !in Run(m, calls)
    decreases |calls|
  {
    if calls != [] {
      RunEntry(m, calls[..|calls| - 1], p);
    }
  }

  lemma {:induction false} RunAppend(m: Entries, xs: seq<Call>, ys: seq<Call>)
    ensures Run(m, xs + ys) == Run(Run(m, xs), ys)
    decreases |ys|
  {
    if ys == [] {
      assert xs + ys == xs;
    } else {
      assert (xs + ys)[..|xs + ys| - 1] == xs + ys[..|ys| - 1];
      RunAppend(m, xs, ys[..|ys| - 1]);
    }
  }

  /** Each allocation immediately followed by its release. */
  function Paired(allocations: seq<(Addr, MemoryStruct)>): seq<Call>
    decreases |allocations|
  {
    if allocations == [] then []
    else
      var (ptr, data) := allocations[|allocations| - 1];
      Paired(allocations[..|allocations| - 1]) + [Track(ptr, data), UnTrack(ptr)]
  }

  /**
   * Recording each address and releasing it straight away, on addresses not
   * tracked at the start, leaves the map as it was.
   */
  lemma {:induction false} PairedLeavesMap(m: Entries, allocations: seq<(Addr, MemoryStruct)>)
    requires forall i :: 0 <= i < |allocations| ==> allocations[i].0 !in m
    ensures Run(m, Paired(allocations)) == m
    decreases |allocations|
  {
    if allocations != [] {
      var (ptr, data) := allocations[|allocations| - 1];
      var front := allocations[..|allocations| - 1];
      var pair := [Track(ptr, data), UnTrack(ptr)];
      assert Paired(allocations) == Paired(front) + pair;
      PairedLeavesMap(m, front);
      RunAppend(m, Paired(front), pair);
      RunPair(m, ptr, data);
      TrackThenUnTrack(m, ptr, data);
    }
  }

  lemma RunPair(m: Entries, ptr: Addr, data: MemoryStruct)
    ensures Run(m, [Track(ptr, data), UnTrack(ptr)]) == UnTracked(Tracked(m, ptr, data), ptr)
  {
    var one := [Track(ptr, data)];
    var pair := one + [UnTrack(ptr)];
    assert one[..0] == [];
    assert Run(m, one) == Tracked(m, ptr, data);
    assert pair[..1] == one;
    assert Run(m, pair) == UnTracked(Run(m, one), ptr);
    assert pair == [Track(ptr, data), UnTrack(ptr)];
  }

  /** The addresses whose last call recorded them: the ones never released. */
  function Unreleased(calls: seq<Call>): set<Addr> {
    set i | 0 <= i < |calls| && calls[i].Track? && LastCallOn(calls, calls[i].ptr) == Some(calls[i]) :: calls[i].ptr
  }

  lemma {:induction false} LastCallOnIn(calls: seq<Call>, p: Addr)
    requires LastCallOn(calls, p).Some?
    ensures exists i :: 0 <= i < |calls| && calls[i] == LastCallOn(calls, p).value && calls[i].ptr == p
    decreases |calls|
  {
    if calls[|calls| - 1].ptr != p {
      LastCallOnIn(calls[..|calls| - 1], p);
      var i :| 0 <= i < |calls| - 1 && calls[..|calls| - 1][i] == LastCallOn(calls, p).value
                && calls[..|calls| - 1][i].ptr == p;
      assert calls[i] == calls[..|calls| - 1][i];
    }
  }

  /**
   * Starting from an empty registry, the addresses left at the end are
   * exactly those recorded and not released afterwards.
   */
  lemma RunFromEmpty(calls: seq<Call>)
    ensures Run(map[], calls).Keys == Unreleased(calls)
  {
    var m: Entries := map[];
    forall p | p in Run(m, calls) ensures p in Unreleased(calls) {
      RunEntry(m, calls, p);
      LastCallOnIn(calls, p);
    }
    forall p | p in Unreleased(calls) ensures p in Run(m, calls) {
      RunEntry(m, calls, p);
    }
  }
}
