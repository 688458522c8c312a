/** Collecting a descriptor chain from tables the driver wrote: links may cycle, leave the table or
    point nowhere, and one descriptor may stand for a whole second table. */
module ChainWalk {
  import opened Segments
  import opened Wrappers
  import opened Requests

  const DESC_SIZE: nat := 16
  const F_NEXT: nat := 1
  const F_WRITE: nat := 2
  const F_INDIRECT: nat := 4

  datatype Entry = Entry(addr: nat, len: nat, flags: nat, next: nat)

  predicate HasNext(e: Entry) {
    e.flags / F_NEXT % 2 == 1
  }

  predicate Indirect(e: Entry) {
    e.flags / F_INDIRECT % 2 == 1
  }

  function AsDesc(e: Entry): Desc {
    Desc(e.addr, e.len, e.flags / F_WRITE % 2 == 1)
  }

  /** What a table at some address holds at some index, where guest memory has it at all. */
  type Reader = (nat, nat) -> Option<Entry>

  /** Descriptors as guest memory lays them out. */
  function ReadDesc(mem: seq<Byte>, table: nat, idx: nat): Option<Entry> {
    var base := table + idx * DESC_SIZE;
    match (ReadLE(mem, base, 8), ReadLE(mem, base + 8, 4), ReadLE(mem, base + 12, 2), ReadLE(mem, base + 14, 2))
    case (Some(addr), Some(len), Some(flags), Some(next)) => Some(Entry(addr, len, flags, next))
    case _ => None
  }

  function FromMemory(mem: seq<Byte>): Reader {
    (table: nat, idx: nat) => ReadDesc(mem, table, idx)
  }

  // ---- the walk ----

  function TableEntries(len: nat, max: nat): nat {
    if len / DESC_SIZE < max then len / DESC_SIZE else max
  }

  /** The descriptors the walk ends with, from `idx` with `steps` left and `found` so far. */
  function Walk(read: Reader, table: nat, idx: nat, max: nat, steps: nat, found: seq<Desc>, follow: bool): seq<Desc>
    decreases follow, steps
  {
    if steps == 0 then found
    else match read(table, idx)
      case None => found
      case Some(e) =>
        if Indirect(e) then
          if follow then
            Walk(read, e.addr, 0, TableEntries(e.len, max), TableEntries(e.len, max), found, false)
          else found
        else
          var more := found + [AsDesc(e)];
          if |more| >= max || !HasNext(e) || e.next >= max then more
          else Walk(read, table, e.next, max, steps - 1, more, follow)
  }

  function Collected(read: Reader, table: nat, head: nat, max: nat, follow: bool): seq<Desc> {
    if head >= max then [] else Walk(read, table, head, max, max, [], follow)
  }

  /** `walk_chain` */
  method WalkChain(read: Reader, table: nat, head: nat, max: nat, before: seq<Desc>, follow: bool)
    returns (found: seq<Desc>)
    ensures found == if head >= max then before else Walk(read, table, head, max, max, before, follow)
    decreases follow, 1
  {
    found := before;
    if head >= max {
      return;
    }
    var idx, i: nat := head, 0;
    while i < max
      invariant i <= max
      invariant Walk(read, table, head, max, max, before, follow) == Walk(read, table, idx, max, max - i, found, follow)
    {
      var got := read(table, idx);
      if got.None? {
        return;
      }
      var e := got.value;
      if Indirect(e) {
        if follow {
          found := WalkIndirect(read, e.addr, e.len, max, found);
        }
        return;
      }
      found := found + [AsDesc(e)];
      if |found| >= max || !HasNext(e) || e.next >= max {
        return;
      }
      idx, i := e.next, i + 1;
    }
  }

  /** `walk_indirect` */
  method WalkIndirect(read: Reader, table: nat, len: nat, max: nat, before: seq<Desc>) returns (found: seq<Desc>)
    ensures found == Walk(read, table, 0, TableEntries(len, max), TableEntries(len, max), before, false)
    decreases true, 0
  {
    var entries := TableEntries(len, max);
    if entries == 0 {
      return before;
    }
    found := WalkChain(read, table, 0, entries, before, false);
  }

  /** `collect_descs_with`, over the bytes of guest memory. */
  method CollectDescs(mem: seq<Byte>, table: nat, head: nat, max: nat, follow: bool) returns (found: seq<Desc>)
    ensures found == Collected(FromMemory(mem), table, head, max, follow)
    ensures |found| <= max
  {
    found := WalkChain(FromMemory(mem), table, head, max, [], follow);
    Bounded(FromMemory(mem), table, head, max, follow);
  }

  // ---- every memory ----

  lemma {:induction false} WalkBounded(
    read: Reader, table: nat, idx: nat, max: nat, steps: nat, found: seq<Desc>, follow: bool, limit: nat)
    requires |found| < limit && max <= limit
    ensures |Walk(read, table, idx, max, steps, found, follow)| <= limit
    decreases follow, steps
  {
    if steps > 0 && read(table, idx).Some? {
      var e := read(table, idx).value;
      if Indirect(e) {
        if follow {
          var entries := TableEntries(e.len, max);
          WalkBounded(read, e.addr, 0, entries, entries, found, false, limit);
        }
      } else {
        var more := found + [AsDesc(e)];
        if |more| < max && HasNext(e) && e.next < max {
          WalkBounded(read, table, e.next, max, steps - 1, more, follow, limit);
        }
      }
    }
  }

  /** Whatever the driver wrote, a chain is never longer than the ring it advertised. */
  lemma Bounded(read: Reader, table: nat, head: nat, max: nat, follow: bool)
    ensures |Collected(read, table, head, max, follow)| <= max
  {
    if head < max {
      WalkBounded(read, table, head, max, max, [], follow, max);
    }
  }

  // ---- chains ----

  /** Indices that can be read, below the end of the table. */
  ghost predicate Readable(read: Reader, table: nat, max: nat, idxs: seq<nat>) {
    forall j :: 0 <= j < |idxs| ==> idxs[j] < max && read(table, idxs[j]).Some?
  }

  ghost function At(read: Reader, table: nat, max: nat, idxs: seq<nat>, j: nat): Entry
    requires Readable(read, table, max, idxs) && j < |idxs|
  {
    read(table, idxs[j]).value
  }

  /** Each index but the last is a plain descriptor that links to the following one. */
  ghost predicate Linked(read: Reader, table: nat, max: nat, idxs: seq<nat>) {
    && Readable(read, table, max, idxs)
    && forall j :: 0 <= j < |idxs| - 1 ==>
         var e := At(read, table, max, idxs, j);
         !Indirect(e) && HasNext(e) && e.next == idxs[j + 1]
  }

  /** Links followed to where they end: at a descriptor without a successor, or an indirect one. */
  ghost predicate Trail(read: Reader, table: nat, max: nat, idxs: seq<nat>) {
    && idxs != [] && Linked(read, table, max, idxs)
    && var last := At(read, table, max, idxs, |idxs| - 1);
       Indirect(last) || !HasNext(last)
  }

  /** A chain of plain descriptors, all of it. */
  ghost predicate Chain(read: Reader, table: nat, max: nat, idxs: seq<nat>) {
    Trail(read, table, max, idxs) && !Indirect(At(read, table, max, idxs, |idxs| - 1))
  }

  ghost function Descs(read: Reader, table: nat, max: nat, idxs: seq<nat>, n: nat): seq<Desc>
    requires Readable(read, table, max, idxs) && n <= |idxs|
  {
    seq(n, j requires 0 <= j < n => AsDesc(At(read, table, max, idxs, j)))
  }

  // ---- a chain that ends does not cycle, so it is short ----

  lemma {:induction false} SameFrom(read: Reader, table: nat, max: nat, idxs: seq<nat>, i: nat, j: nat, t: nat)
    requires Linked(read, table, max, idxs) && i < j && j + t < |idxs|
    ensures idxs[i] == idxs[j] ==> idxs[i + t] == idxs[j + t]
  {
    if t > 0 {
      SameFrom(read, table, max, idxs, i, j, t - 1);
      assert At(read, table, max, idxs, i + t - 1).next == idxs[i + t];
      assert At(read, table, max, idxs, j + t - 1).next == idxs[j + t];
    }
  }

  lemma TrailIsAcyclic(read: Reader, table: nat, max: nat, idxs: seq<nat>, i: nat, j: nat)
    requires Trail(read, table, max, idxs) && i < j < |idxs|
    ensures idxs[i] != idxs[j]
  {
    var t := |idxs| - 1 - j;
    SameFrom(read, table, max, idxs, i, j, t);
    var e := At(read, table, max, idxs, i + t);
    assert !Indirect(e) && HasNext(e);
  }

  function Below(n: nat): (r: set<nat>)
    ensures |r| == n && forall x: nat :: x in r <==> x < n
  {
    if n == 0 then {} else Below(n - 1) + {n - 1}
  }

  /** Distinct numbers below `max`: the set of them is as large as the list. */
  lemma {:induction false} Pigeonhole(idxs: seq<nat>, max: nat, n: nat) returns (seen: set<nat>)
    requires n <= |idxs|
    requires forall i :: 0 <= i < |idxs| ==> idxs[i] < max
    requires forall i, j :: 0 <= i < j < |idxs| ==> idxs[i] != idxs[j]
    ensures seen <= Below(max) && |seen| == n
    ensures forall x :: x in seen ==> exists i :: 0 <= i < n && idxs[i] == x
  {
    if n == 0 {
      seen := {};
    } else {
      var before := Pigeonhole(idxs, max, n - 1);
      seen := before + {idxs[n - 1]};
    }
  }

  lemma {:induction false} SubsetCounts(a: set<nat>, b: set<nat>)
    requires a <= b
    ensures |a| <= |b|
  {
    if a != {} {
      var x :| x in a;
      SubsetCounts(a - {x}, b - {x});
    }
  }

  /** However the driver linked it, a trail visits no more entries than the table has. */
  lemma TrailFits(read: Reader, table: nat, max: nat, idxs: seq<nat>)
    requires Trail(read, table, max, idxs)
    ensures |idxs| <= max
  {
    forall i, j | 0 <= i < j < |idxs| ensures idxs[i] != idxs[j] {
      TrailIsAcyclic(read, table, max, idxs, i, j);
    }
    var seen := Pigeonhole(idxs, max, |idxs|);
    SubsetCounts(seen, Below(max));
  }

  // ---- what the walk returns on a trail ----

  /** The walk is at the `j`th entry of the trail, as long as the count did not stop it earlier. */
  lemma {:induction false} Reaches(
    read: Reader, table: nat, max: nat, idxs: seq<nat>, before: seq<Desc>, follow: bool, j: nat)
    requires Linked(read, table, max, idxs) && j < |idxs| <= max
    requires j == 0 || |before| + j < max
    ensures Walk(read, table, idxs[0], max, max, before, follow)
         == Walk(read, table, idxs[j], max, max - j, before + Descs(read, table, max, idxs, j), follow)
  {
    if j == 0 {
      assert before + Descs(read, table, max, idxs, 0) == before;
    } else {
      Reaches(read, table, max, idxs, before, follow, j - 1);
      DescsGrow(read, table, max, idxs, before, j - 1);
      assert At(read, table, max, idxs, j - 1).next == idxs[j];
    }
  }

  lemma DescsGrow(read: Reader, table: nat, max: nat, idxs: seq<nat>, before: seq<Desc>, j: nat)
    requires Readable(read, table, max, idxs) && j < |idxs|
    ensures before + Descs(read, table, max, idxs, j) + [AsDesc(At(read, table, max, idxs, j))]
         == before + Descs(read, table, max, idxs, j + 1)
  {
  }

  /** How much of a chain of `n` is taken with `k` collected already and `max` the ceiling. */
  function Taken(k: nat, n: nat, max: nat): nat {
    if k + n <= max then n else if k + 1 >= max then 1 else max - k
  }

  lemma WalkOfChain(read: Reader, table: nat, max: nat, idxs: seq<nat>, before: seq<Desc>, follow: bool)
    requires Chain(read, table, max, idxs)
    ensures 1 <= Taken(|before|, |idxs|, max) <= |idxs|
    ensures Walk(read, table, idxs[0], max, max, before, follow)
         == before + Descs(read, table, max, idxs, Taken(|before|, |idxs|, max))
  {
    TrailFits(read, table, max, idxs);
    var n := Taken(|before|, |idxs|, max);
    Reaches(read, table, max, idxs, before, follow, n - 1);
    DescsGrow(read, table, max, idxs, before, n - 1);
    assert n < |idxs| ==> |before| + n >= max;
    assert At(read, table, max, idxs, n - 1) == read(table, idxs[n - 1]).value;
  }

  /** A chain of plain descriptors that ends is returned whole and in order, whatever its links. */
  lemma WholeChain(read: Reader, table: nat, max: nat, idxs: seq<nat>, follow: bool)
    requires Chain(read, table, max, idxs)
    ensures Collected(read, table, idxs[0], max, follow) == Descs(read, table, max, idxs, |idxs|)
  {
    TrailFits(read, table, max, idxs);
    WalkOfChain(read, table, max, idxs, [], follow);
  }

  /** A trail of `k` plain descriptors that ends in an indirect one, whose table holds a chain. */
  ghost predicate Mixed(read: Reader, table: nat, max: nat, outer: seq<nat>, inner: seq<nat>) {
    && Trail(read, table, max, outer)
    && var hop := At(read, table, max, outer, |outer| - 1);
       && Indirect(hop)
       && Chain(read, hop.addr, TableEntries(hop.len, max), inner) && inner[0] == 0
  }

  ghost function Hop(read: Reader, table: nat, max: nat, outer: seq<nat>): Entry
    requires Readable(read, table, max, outer) && outer != []
  {
    At(read, table, max, outer, |outer| - 1)
  }

  /** What the walk makes of it: every plain descriptor, then as much of the inner chain as fits
      below the inner table's own size, and at least one. */
  lemma MixedChain(read: Reader, table: nat, max: nat, outer: seq<nat>, inner: seq<nat>)
    requires Mixed(read, table, max, outer, inner)
    ensures var hop := Hop(read, table, max, outer);
      var entries := TableEntries(hop.len, max);
      var k := |outer| - 1;
      && 1 <= Taken(k, |inner|, entries) <= |inner|
      && Collected(read, table, outer[0], max, true)
           == Descs(read, table, max, outer, k)
              + Descs(read, hop.addr, entries, inner, Taken(k, |inner|, entries))
  {
    var hop := Hop(read, table, max, outer);
    var entries := TableEntries(hop.len, max);
    var k := |outer| - 1;
    var direct := Descs(read, table, max, outer, k);
    TrailFits(read, table, max, outer);
    Reaches(read, table, max, outer, [], true, k);
    assert [] + direct == direct;
    WalkOfChain(read, hop.addr, entries, inner, direct, false);
  }

  /** A table on its own is returned whole. */
  lemma WholeTable(read: Reader, table: nat, max: nat, head: nat, inner: seq<nat>)
    requires Mixed(read, table, max, [head], inner)
    ensures var hop := Hop(read, table, max, [head]);
      Collected(read, table, head, max, true)
        == Descs(read, hop.addr, TableEntries(hop.len, max), inner, |inner|)
  {
    var hop := Hop(read, table, max, [head]);
    var entries := TableEntries(hop.len, max);
    TrailFits(read, hop.addr, entries, inner);
    MixedChain(read, table, max, [head], inner);
    assert Descs(read, table, max, [head], 0) == [];
  }

  /** With plain descriptors before the table, exactly the chains that fit the *table* together with
      them survive, although the ring may have room for more. */
  lemma MixedWholeIff(read: Reader, table: nat, max: nat, outer: seq<nat>, inner: seq<nat>)
    requires Mixed(read, table, max, outer, inner)
    ensures var hop := Hop(read, table, max, outer);
      var entries := TableEntries(hop.len, max);
      var k := |outer| - 1;
      Collected(read, table, outer[0], max, true)
        == Descs(read, table, max, outer, k) + Descs(read, hop.addr, entries, inner, |inner|)
      <==> |inner| == 1 || k + |inner| <= entries
  {
    MixedChain(read, table, max, outer, inner);
    var hop := Hop(read, table, max, outer);
    var entries := TableEntries(hop.len, max);
    var k := |outer| - 1;
    assert Taken(k, |inner|, entries) == |inner| <==> |inner| == 1 || k + |inner| <= entries;
  }

  const RING: nat := 0x1000
  const TABLE: nat := 0x8000

  /** A ring of 256 at `RING`: one plain descriptor, then a table of two at `TABLE`. */
  function Sample(table: nat, idx: nat): Option<Entry> {
    if table == RING && idx == 0 then Some(Entry(100, 16, F_NEXT, 1))
    else if table == RING && idx == 1 then Some(Entry(TABLE, 2 * DESC_SIZE, F_INDIRECT, 0))
    else if table == TABLE && idx == 0 then Some(Entry(200, 512, F_NEXT, 1))
    else if table == TABLE && idx == 1 then Some(Entry(300, 1, F_WRITE, 0))
    else None
  }

  /** The last of its three buffers is lost, far below the size of the ring. */
  lemma MixedLosesABuffer()
    ensures Mixed(Sample, RING, 256, [0, 1], [0, 1])
    ensures Collected(Sample, RING, 0, 256, true) == [Desc(100, 16, false), Desc(200, 512, false)]
  {
    assert Linked(Sample, RING, 256, [0, 1]);
    assert Linked(Sample, TABLE, 2, [0, 1]);
    MixedChain(Sample, RING, 256, [0, 1], [0, 1]);
  }

  // ---- one level only ----

  /** Plain descriptors visited by following links from `start`. */
  ghost predicate Path(read: Reader, table: nat, max: nat, start: nat, idxs: seq<nat>) {
    && Linked(read, table, max, idxs)
    && (idxs != [] ==> idxs[0] == start && !Indirect(At(read, table, max, idxs, |idxs| - 1)))
  }

  /** The index such a path leads to. */
  ghost function After(read: Reader, table: nat, max: nat, start: nat, idxs: seq<nat>): nat
    requires Path(read, table, max, start, idxs)
  {
    if idxs == [] then start else At(read, table, max, idxs, |idxs| - 1).next
  }

  /** From the end of one path: the walk stops somewhere along a longer one, or leaves it for the
      table of the indirect descriptor it leads to. */
  lemma {:induction false} Along(
    read: Reader, table: nat, max: nat, start: nat, idxs: seq<nat>, steps: nat, before: seq<Desc>, follow: bool)
    returns (all: seq<nat>, hop: Option<Entry>)
    requires Path(read, table, max, start, idxs) && After(read, table, max, start, idxs) < max
    requires idxs != [] ==> HasNext(At(read, table, max, idxs, |idxs| - 1))
    ensures Path(read, table, max, start, all)
    ensures var walked := Walk(read, table, After(read, table, max, start, idxs), max, steps,
                               before + Descs(read, table, max, idxs, |idxs|), follow);
      var got := before + Descs(read, table, max, all, |all|);
      match hop
      case None => walked == got
      case Some(e) =>
        && follow && Indirect(e) && After(read, table, max, start, all) < max
        && read(table, After(read, table, max, start, all)) == hop
        && walked == Walk(read, e.addr, 0, TableEntries(e.len, max), TableEntries(e.len, max), got, false)
    decreases steps
  {
    var idx := After(read, table, max, start, idxs);
    all, hop := idxs, None;
    if steps > 0 && read(table, idx).Some? {
      var e := read(table, idx).value;
      if Indirect(e) {
        hop := if follow then Some(e) else None;
      } else {
        all := idxs + [idx];
        Lengthened(read, table, max, start, idxs);
        DescsPrefix(read, table, max, idxs, all, before);
        if |before| + |all| < max && HasNext(e) && e.next < max {
          all, hop := Along(read, table, max, start, all, steps - 1, before, follow);
        }
      }
    }
  }

  lemma Lengthened(read: Reader, table: nat, max: nat, start: nat, idxs: seq<nat>)
    requires Path(read, table, max, start, idxs)
    requires idxs != [] ==> HasNext(At(read, table, max, idxs, |idxs| - 1))
    requires var idx := After(read, table, max, start, idxs);
      idx < max && read(table, idx).Some? && !Indirect(read(table, idx).value)
    ensures Path(read, table, max, start, idxs + [After(read, table, max, start, idxs)])
  {
    var idx := After(read, table, max, start, idxs);
    var all := idxs + [idx];
    assert Readable(read, table, max, all);
    forall j | 0 <= j < |all| - 1
      ensures var e := At(read, table, max, all, j); !Indirect(e) && HasNext(e) && e.next == all[j + 1]
    {
      assert At(read, table, max, all, j) == At(read, table, max, idxs, j);
    }
  }

  lemma DescsPrefix(read: Reader, table: nat, max: nat, idxs: seq<nat>, all: seq<nat>, before: seq<Desc>)
    requires Readable(read, table, max, all) && Readable(read, table, max, idxs)
    requires |all| == |idxs| + 1 && all[..|idxs|] == idxs
    ensures before + Descs(read, table, max, all, |all|)
         == before + Descs(read, table, max, idxs, |idxs|) + [AsDesc(At(read, table, max, all, |idxs|))]
  {
    forall j | 0 <= j < |idxs| ensures all[j] == idxs[j] {
      assert all[..|idxs|][j] == idxs[j];
    }
  }

  /** Where everything collected came from, in any memory: plain descriptors linked from the head,
      and then, only when following was allowed, plain descriptors linked from the start of the one
      table named by the indirect descriptor they lead to. No table is entered from a table. */
  lemma OneLevel(read: Reader, table: nat, head: nat, max: nat, follow: bool)
    returns (outer: seq<nat>, hop: Option<Entry>, inner: seq<nat>)
    ensures Path(read, table, max, head, outer)
    ensures match hop
      case None => Collected(read, table, head, max, follow) == Descs(read, table, max, outer, |outer|)
      case Some(e) =>
        && follow && Indirect(e) && read(table, After(read, table, max, head, outer)) == hop
        && Path(read, e.addr, TableEntries(e.len, max), 0, inner)
        && Collected(read, table, head, max, follow)
             == Descs(read, table, max, outer, |outer|)
                + Descs(read, e.addr, TableEntries(e.len, max), inner, |inner|)
  {
    outer, hop, inner := [], None, [];
    if head < max {
      assert [] + Descs(read, table, max, [], 0) == [];
      outer, hop := Along(read, table, max, head, [], max, [], follow);
      var direct := Descs(read, table, max, outer, |outer|);
      assert [] + direct == direct;
      if hop.Some? {
        var e := hop.value;
        var entries := TableEntries(e.len, max);
        assert direct + Descs(read, e.addr, entries, [], 0) == direct;
        if entries > 0 {
          var none;
          inner, none := Along(read, e.addr, entries, 0, [], entries, direct, false);
        }
      }
    }
  }
}
