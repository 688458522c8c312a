/** Scatter-gather lists over a byte-addressed memory: what reading, writing and advancing
    through a list of segments means, independently of how the devices loop over one. */
module Segments {

  type Byte = x: int | 0 <= x < 256

  datatype Seg = Seg(addr: nat, len: nat)

  function Total(segs: seq<Seg>): nat {
    if segs == [] then 0 else segs[0].len + Total(segs[1..])
  }

  predicate InBounds(segs: seq<Seg>, size: nat) {
    forall i :: 0 <= i < |segs| ==> segs[i].addr + segs[i].len <= size
  }

  predicate Apart(a: Seg, b: Seg) {
    a.addr + a.len <= b.addr || b.addr + b.len <= a.addr
  }

  predicate Disjoint(segs: seq<Seg>) {
    forall i, j :: 0 <= i < j < |segs| ==> Apart(segs[i], segs[j])
  }

  predicate Covers(segs: seq<Seg>, a: int) {
    exists i :: 0 <= i < |segs| && segs[i].addr <= a < segs[i].addr + segs[i].len
  }

  function WriteAt(mem: seq<Byte>, at: nat, data: seq<Byte>): (r: seq<Byte>)
    requires at + |data| <= |mem|
    ensures |r| == |mem|
    ensures forall i :: 0 <= i < |mem| ==> r[i] == if at <= i < at + |data| then data[i - at] else mem[i]
  {
    seq(|mem|, i requires 0 <= i < |mem| => if at <= i < at + |data| then data[i - at] else mem[i])
  }

  /** The bytes of the segments, in order. */
  function Gather(mem: seq<Byte>, segs: seq<Seg>): (r: seq<Byte>)
    requires InBounds(segs, |mem|)
    ensures |r| == Total(segs)
  {
    if segs == [] then []
    else mem[segs[0].addr..segs[0].addr + segs[0].len] + Gather(mem, segs[1..])
  }

  /** `data` laid over the segments in order, cut at their total length. */
  function Scatter(mem: seq<Byte>, segs: seq<Seg>, data: seq<Byte>): (r: seq<Byte>)
    requires InBounds(segs, |mem|)
    ensures |r| == |mem|
    decreases segs
  {
    if segs == [] then mem
    else if |data| <= segs[0].len then WriteAt(mem, segs[0].addr, data)
    else Scatter(WriteAt(mem, segs[0].addr, data[..segs[0].len]), segs[1..], data[segs[0].len..])
  }

  /** `data` over the front of `base`, cut at its length. */
  function Overlay(data: seq<Byte>, base: seq<Byte>): seq<Byte> {
    seq(|base|, k requires 0 <= k < |base| => if k < |data| then data[k] else base[k])
  }

  /** What is left of a scatter-gather list after its first `n` bytes. */
  function DropBytes(segs: seq<Seg>, n: nat): seq<Seg>
    decreases segs
  {
    if segs == [] || n == 0 then segs
    else if n >= segs[0].len then DropBytes(segs[1..], n - segs[0].len)
    else segs[0 := Seg(segs[0].addr + n, segs[0].len - n)]
  }

  // ---- dropping ----

  lemma {:induction false} DropKeepsShape(segs: seq<Seg>, n: nat, size: nat)
    requires InBounds(segs, size)
    ensures InBounds(DropBytes(segs, n), size)
    ensures Total(DropBytes(segs, n)) == if n <= Total(segs) then Total(segs) - n else 0
    ensures forall a :: Covers(DropBytes(segs, n), a) ==> Covers(segs, a)
    decreases segs
  {
    if segs != [] && n != 0 {
      if n >= segs[0].len {
        DropKeepsShape(segs[1..], n - segs[0].len, size);
        CoversTail(segs);
      } else {
        var rest := segs[0 := Seg(segs[0].addr + n, segs[0].len - n)];
        assert rest[1..] == segs[1..];
        forall a | Covers(rest, a) ensures Covers(segs, a) {
          var i :| 0 <= i < |rest| && rest[i].addr <= a < rest[i].addr + rest[i].len;
          assert segs[i].addr <= a < segs[i].addr + segs[i].len;
        }
      }
    }
  }

  lemma CoversTail(segs: seq<Seg>)
    requires segs != []
    ensures forall a :: Covers(segs[1..], a) ==> Covers(segs, a)
  {
    forall a | Covers(segs[1..], a) ensures Covers(segs, a) {
      var i :| 0 <= i < |segs[1..]| && segs[1..][i].addr <= a < segs[1..][i].addr + segs[1..][i].len;
      assert segs[i + 1] == segs[1..][i];
    }
  }

  lemma {:induction false} DropDrop(segs: seq<Seg>, a: nat, b: nat)
    ensures DropBytes(DropBytes(segs, a), b) == DropBytes(segs, a + b)
    decreases segs
  {
    if segs != [] && a != 0 && b != 0 {
      if a >= segs[0].len {
        DropDrop(segs[1..], a - segs[0].len, b);
      } else {
        var rest := segs[0 := Seg(segs[0].addr + a, segs[0].len - a)];
        assert rest[1..] == segs[1..];
        if a + b < segs[0].len {
          assert DropBytes(rest, b) == segs[0 := Seg(segs[0].addr + a + b, segs[0].len - a - b)];
        }
      }
    }
  }

  lemma GatherStep(mem: seq<Byte>, segs: seq<Seg>, head: seq<Byte>, tail: seq<Seg>)
    requires InBounds(segs, |mem|) && segs != []
    requires head == mem[segs[0].addr..segs[0].addr + segs[0].len] && segs[1..] == tail
    ensures Gather(mem, segs) == head + Gather(mem, tail)
  {}

  // ---- reading ----

  /** A gather only depends on the bytes the segments cover. */
  lemma {:induction false} GatherLocal(m1: seq<Byte>, m2: seq<Byte>, segs: seq<Seg>)
    requires InBounds(segs, |m1|) && |m1| == |m2|
    requires forall a :: 0 <= a < |m1| && Covers(segs, a) ==> m1[a] == m2[a]
    ensures Gather(m1, segs) == Gather(m2, segs)
  {
    if segs != [] {
      CoversTail(segs);
      GatherLocal(m1, m2, segs[1..]);
      var h1, h2 := HeadOf(m1, segs), HeadOf(m2, segs);
      forall q: nat | q < |h1| ensures h1[q] == h2[q] {
        assert Covers(segs, segs[0].addr + q);
      }
      SeqExt(h1, h2);
      GatherParts(m1, segs);
      GatherParts(m2, segs);
    }
  }

  // ---- writing ----

  /** A scatter touches no byte outside the segments. */
  lemma {:induction false} ScatterFrame(mem: seq<Byte>, segs: seq<Seg>, data: seq<Byte>, a: nat)
    requires InBounds(segs, |mem|) && a < |mem| && !Covers(segs, a)
    ensures Scatter(mem, segs, data)[a] == mem[a]
    decreases segs
  {
    if segs != [] {
      CoversTail(segs);
      var s := segs[0];
      assert !(s.addr <= a < s.addr + s.len);
      if |data| > s.len {
        ScatterFrame(WriteAt(mem, s.addr, data[..s.len]), segs[1..], data[s.len..], a);
      }
    }
  }

  lemma ScatterNothing(mem: seq<Byte>, segs: seq<Seg>)
    requires InBounds(segs, |mem|)
    ensures Scatter(mem, segs, []) == mem
  {
    if segs != [] {
      assert WriteAt(mem, segs[0].addr, []) == mem;
    }
  }

  /** The first segment takes as much of the data as it holds, the others the rest. */
  function Head(data: seq<Byte>, n: nat): seq<Byte> {
    if |data| <= n then data else data[..n]
  }

  function Rest(data: seq<Byte>, n: nat): seq<Byte> {
    if |data| <= n then [] else data[n..]
  }

  lemma ScatterParts(mem: seq<Byte>, segs: seq<Seg>, data: seq<Byte>)
    requires InBounds(segs, |mem|) && segs != []
    ensures var n := segs[0].len;
      Scatter(mem, segs, data) == Scatter(WriteAt(mem, segs[0].addr, Head(data, n)), segs[1..], Rest(data, n))
  {
    ScatterNothing(WriteAt(mem, segs[0].addr, Head(data, segs[0].len)), segs[1..]);
  }

  lemma OverlayParts(data: seq<Byte>, head: seq<Byte>, tail: seq<Byte>)
    ensures Overlay(data, head + tail) == Overlay(Head(data, |head|), head) + Overlay(Rest(data, |head|), tail)
  {
    SeqExt(Overlay(data, head + tail), Overlay(Head(data, |head|), head) + Overlay(Rest(data, |head|), tail));
  }

  /** Scattering over the other segments leaves the first one alone. */
  lemma HeadStays(mem: seq<Byte>, segs: seq<Seg>, data: seq<Byte>)
    requires InBounds(segs, |mem|) && Disjoint(segs) && segs != []
    ensures HeadOf(Scatter(mem, segs[1..], data), segs) == HeadOf(mem, segs)
  {
    var r := Scatter(mem, segs[1..], data);
    forall q: nat | q < segs[0].len ensures HeadOf(r, segs)[q] == HeadOf(mem, segs)[q] {
      HeadNotInTail(segs, segs[0].addr + q);
      ScatterFrame(mem, segs[1..], data, segs[0].addr + q);
    }
    SeqExt(HeadOf(r, segs), HeadOf(mem, segs));
  }

  lemma HeadWritten(mem: seq<Byte>, segs: seq<Seg>, x: seq<Byte>)
    requires InBounds(segs, |mem|) && segs != [] && |x| <= segs[0].len
    ensures HeadOf(WriteAt(mem, segs[0].addr, x), segs) == Overlay(x, HeadOf(mem, segs))
  {
    SeqExt(HeadOf(WriteAt(mem, segs[0].addr, x), segs), Overlay(x, HeadOf(mem, segs)));
  }

  /** What a scatter wrote over disjoint segments reads back, over what was there. */
  lemma {:induction false} GatherScatter(mem: seq<Byte>, segs: seq<Seg>, data: seq<Byte>)
    requires InBounds(segs, |mem|) && Disjoint(segs)
    ensures Gather(Scatter(mem, segs, data), segs) == Overlay(data, Gather(mem, segs))
    decreases segs
  {
    if segs != [] {
      var x, y := Head(data, segs[0].len), Rest(data, segs[0].len);
      var m := WriteAt(mem, segs[0].addr, x);
      var r := Scatter(m, segs[1..], y);
      ScatterParts(mem, segs, data);
      GatherScatter(m, segs[1..], y);
      TailUntouched(mem, m, segs);
      HeadStays(m, segs, y);
      HeadWritten(mem, segs, x);
      GatherParts(r, segs);
      GatherParts(mem, segs);
      OverlayParts(data, HeadOf(mem, segs), Gather(mem, segs[1..]));
    }
  }

  lemma GatherAt(mem: seq<Byte>, segs: seq<Seg>, k: nat)
    requires InBounds(segs, |mem|) && segs != [] && k < Total(segs)
    ensures Gather(mem, segs)[k]
         == if k < segs[0].len then mem[segs[0].addr + k] else Gather(mem, segs[1..])[k - segs[0].len]
  {
    GatherParts(mem, segs);
    ConcatAt(HeadOf(mem, segs), Gather(mem, segs[1..]), k);
  }

  lemma ConcatAt(a: seq<Byte>, b: seq<Byte>, k: nat)
    requires k < |a| + |b|
    ensures (a + b)[k] == if k < |a| then a[k] else b[k - |a|]
  {}

  lemma HeadNotInTail(segs: seq<Seg>, a: nat)
    requires segs != [] && Disjoint(segs)
    requires segs[0].addr <= a < segs[0].addr + segs[0].len
    ensures !Covers(segs[1..], a)
  {
    var tail := segs[1..];
    forall i | 0 <= i < |tail| ensures !(tail[i].addr <= a < tail[i].addr + tail[i].len) {
      assert Apart(segs[0], segs[i + 1]);
    }
  }

  /** Memory that changed only inside the first segment reads the same through the others. */
  lemma TailUntouched(m1: seq<Byte>, m2: seq<Byte>, segs: seq<Seg>)
    requires segs != [] && InBounds(segs, |m1|) && |m1| == |m2| && Disjoint(segs)
    requires forall a :: 0 <= a < |m1| && !(segs[0].addr <= a < segs[0].addr + segs[0].len) ==> m1[a] == m2[a]
    ensures Gather(m1, segs[1..]) == Gather(m2, segs[1..])
  {
    forall a | 0 <= a < |m1| && Covers(segs[1..], a) ensures m1[a] == m2[a] {
      if segs[0].addr <= a < segs[0].addr + segs[0].len {
        HeadNotInTail(segs, a);
      }
    }
    GatherLocal(m1, m2, segs[1..]);
  }

  // ---- resuming ----

  /** Where byte `k` of the concatenated segments lives. */
  function AddrAt(segs: seq<Seg>, k: nat): nat
    requires k < Total(segs)
    decreases segs
  {
    if k < segs[0].len then segs[0].addr + k else AddrAt(segs[1..], k - segs[0].len)
  }

  lemma AddrInMemory(segs: seq<Seg>, k: nat, size: nat)
    requires InBounds(segs, size) && k < Total(segs)
    ensures Covers(segs, AddrAt(segs, k)) && AddrAt(segs, k) < size
  {
    AddrCovered(segs, k);
    var i :| 0 <= i < |segs| && segs[i].addr <= AddrAt(segs, k) < segs[i].addr + segs[i].len;
  }

  /** A byte past the first segment is one of the others'. */
  lemma GatherPastHead(mem: seq<Byte>, segs: seq<Seg>, tail: seq<Seg>, k: nat)
    requires InBounds(segs, |mem|) && segs != [] && tail == segs[1..] && segs[0].len <= k < Total(segs)
    ensures InBounds(tail, |mem|) && k - segs[0].len < Total(tail)
    ensures AddrAt(segs, k) == AddrAt(tail, k - segs[0].len)
    ensures Gather(mem, segs)[k] == Gather(mem, tail)[k - segs[0].len]
  {
    GatherAt(mem, segs, k);
  }

  lemma GatherInHead(mem: seq<Byte>, segs: seq<Seg>, k: nat)
    requires InBounds(segs, |mem|) && segs != [] && k < segs[0].len
    ensures AddrAt(segs, k) == segs[0].addr + k < |mem| && Gather(mem, segs)[k] == mem[segs[0].addr + k]
  {
    GatherAt(mem, segs, k);
  }

  lemma {:induction false} GatherIsAddrAt(mem: seq<Byte>, segs: seq<Seg>, k: nat)
    requires InBounds(segs, |mem|) && k < Total(segs)
    ensures AddrAt(segs, k) < |mem| && Gather(mem, segs)[k] == mem[AddrAt(segs, k)]
    decreases segs
  {
    if k >= segs[0].len {
      var tail := segs[1..];
      GatherPastHead(mem, segs, tail, k);
      GatherIsAddrAt(mem, tail, k - segs[0].len);
    } else {
      GatherInHead(mem, segs, k);
    }
  }

  /** The length of the segments before segment `i`. */
  function Before(segs: seq<Seg>, i: nat): nat
    requires i <= |segs|
  {
    if i == 0 then 0 else Before(segs, i - 1) + segs[i - 1].len
  }

  lemma {:induction false} BeforeTail(segs: seq<Seg>, i: nat)
    requires 0 < i <= |segs|
    ensures Before(segs, i) == segs[0].len + Before(segs[1..], i - 1)
  {
    if i > 1 {
      BeforeTail(segs, i - 1);
    }
  }

  lemma {:induction false} BeforeAll(segs: seq<Seg>)
    ensures Before(segs, |segs|) == Total(segs)
  {
    if segs != [] {
      BeforeTail(segs, |segs|);
      BeforeAll(segs[1..]);
    }
  }

  lemma {:induction false} BeforeGrows(segs: seq<Seg>, i: nat)
    requires i <= |segs|
    ensures Before(segs, i) <= Total(segs)
    decreases |segs| - i
  {
    if i == |segs| {
      BeforeAll(segs);
    } else {
      BeforeGrows(segs, i + 1);
    }
  }

  /** Byte `k` of segment `i` comes after all the bytes of the segments before it. */
  lemma {:induction false} AddrInSegment(segs: seq<Seg>, i: nat, k: nat)
    requires i < |segs| && k < segs[i].len
    ensures Before(segs, i) + k < Total(segs)
    ensures AddrAt(segs, Before(segs, i) + k) == segs[i].addr + k
    decreases segs
  {
    if i > 0 {
      BeforeTail(segs, i);
      AddrInSegment(segs[1..], i - 1, k);
    }
  }

  /** In disjoint segments no two positions share an address. */
  lemma {:induction false} AddrInjective(segs: seq<Seg>, p: nat, q: nat)
    requires Disjoint(segs) && p < q < Total(segs)
    ensures AddrAt(segs, p) != AddrAt(segs, q)
    decreases segs
  {
    var s, tail := segs[0], segs[1..];
    if q >= s.len {
      if p < s.len {
        HeadNotInTail(segs, s.addr + p);
        AddrCovered(tail, q - s.len);
      } else {
        AddrInjective(tail, p - s.len, q - s.len);
      }
    }
  }

  lemma {:induction false} AddrCovered(segs: seq<Seg>, k: nat)
    requires k < Total(segs)
    ensures Covers(segs, AddrAt(segs, k))
    decreases segs
  {
    if k >= segs[0].len {
      AddrCovered(segs[1..], k - segs[0].len);
      CoversTail(segs);
    } else {
      assert segs[0].addr <= AddrAt(segs, k) < segs[0].addr + segs[0].len;
    }
  }

  // ---- scattering over any list, byte by byte ----

  /** Of the first `n` positions none after `k` shares its address. */
  ghost predicate LastAt(segs: seq<Seg>, n: nat, k: nat) {
    k < n <= Total(segs) && forall j: nat :: k < j < n ==> AddrAt(segs, j) != AddrAt(segs, k)
  }

  /** Some position in `lo..hi` has this address. */
  ghost predicate Names(segs: seq<Seg>, lo: nat, hi: nat, a: nat)
    requires hi <= Total(segs)
  {
    exists j: nat :: lo <= j < hi && AddrAt(segs, j) == a
  }

  lemma AddrInTail(segs: seq<Seg>, j: nat)
    requires segs != [] && j < Total(segs[1..])
    ensures AddrAt(segs, segs[0].len + j) == AddrAt(segs[1..], j)
  {
  }

  lemma {:induction false} ScatterElse(mem: seq<Byte>, segs: seq<Seg>, data: seq<Byte>, a: nat)
    requires InBounds(segs, |mem|) && |data| <= Total(segs) && a < |mem| && !Names(segs, 0, |data|, a)
    ensures Scatter(mem, segs, data)[a] == mem[a]
    decreases segs
  {
    if segs != [] {
      var n, tail := segs[0].len, segs[1..];
      var m, rest := WriteAt(mem, segs[0].addr, Head(data, n)), Rest(data, n);
      ScatterParts(mem, segs, data);
      assert m[a] == mem[a] by {
        if segs[0].addr <= a < segs[0].addr + |Head(data, n)| {
          assert AddrAt(segs, a - segs[0].addr) == a;
        }
      }
      forall j: nat | j < |rest| ensures AddrAt(tail, j) != a {
        AddrInTail(segs, j);
      }
      ScatterElse(m, tail, rest, a);
    }
  }

  lemma {:induction false} ScatterLast(mem: seq<Byte>, segs: seq<Seg>, data: seq<Byte>, k: nat)
    requires InBounds(segs, |mem|) && LastAt(segs, |data|, k)
    ensures AddrAt(segs, k) < |mem| && Scatter(mem, segs, data)[AddrAt(segs, k)] == data[k]
    decreases segs
  {
    var n, tail := segs[0].len, segs[1..];
    var m, rest := WriteAt(mem, segs[0].addr, Head(data, n)), Rest(data, n);
    ScatterParts(mem, segs, data);
    forall j: nat | j < |rest| && (k < n || k - n < j) ensures AddrAt(tail, j) != AddrAt(segs, k) {
      AddrInTail(segs, j);
    }
    if k < n {
      ScatterElse(m, tail, rest, AddrAt(segs, k));
    } else {
      AddrInTail(segs, k - n);
      ScatterLast(m, tail, rest, k - n);
    }
  }

  lemma {:induction false} AddrInRest(segs: seq<Seg>, n: nat, k: nat)
    requires n + k < Total(segs)
    ensures k < Total(DropBytes(segs, n)) && AddrAt(DropBytes(segs, n), k) == AddrAt(segs, n + k)
    decreases segs
  {
    if n >= segs[0].len > 0 || (n > 0 && segs[0].len == 0) {
      AddrInRest(segs[1..], n - segs[0].len, k);
    } else if n > 0 {
      assert DropBytes(segs, n)[1..] == segs[1..];
    }
  }

  lemma GatherDrop(mem: seq<Byte>, segs: seq<Seg>, n: nat)
    requires InBounds(segs, |mem|) && n <= Total(segs)
    ensures InBounds(DropBytes(segs, n), |mem|)
    ensures Gather(mem, DropBytes(segs, n)) == Gather(mem, segs)[n..]
  {
    DropKeepsShape(segs, n, |mem|);
    var got, want := Gather(mem, DropBytes(segs, n)), Gather(mem, segs)[n..];
    forall k: nat | k < |got| ensures got[k] == want[k] {
      AddrInRest(segs, n, k);
      GatherIsAddrAt(mem, DropBytes(segs, n), k);
      GatherIsAddrAt(mem, segs, n + k);
    }
    SeqExt(got, want);
  }

  /** The rest of the list names what the positions left name. */
  lemma NamesInRest(segs: seq<Seg>, n: nat, m: nat, a: nat)
    requires n + m <= Total(segs) && m <= Total(DropBytes(segs, n))
    ensures Names(DropBytes(segs, n), 0, m, a) ==> Names(segs, n, n + m, a)
  {
    if Names(DropBytes(segs, n), 0, m, a) {
      var j: nat :| 0 <= j < m && AddrAt(DropBytes(segs, n), j) == a;
      AddrInRest(segs, n, j);
      assert AddrAt(segs, n + j) == a;
    }
  }

  lemma LastInRest(segs: seq<Seg>, n: nat, m: nat, k: nat)
    requires n <= k && LastAt(segs, n + m, k) && m <= Total(DropBytes(segs, n))
    ensures LastAt(DropBytes(segs, n), m, k - n) && AddrAt(DropBytes(segs, n), k - n) == AddrAt(segs, k)
  {
    AddrInRest(segs, n, k - n);
    forall j: nat | k - n < j < m ensures AddrAt(DropBytes(segs, n), j) != AddrAt(segs, k) {
      AddrInRest(segs, n, j);
    }
  }

  lemma ResumeLeaves(mem: seq<Byte>, segs: seq<Seg>, n: nat, rest: seq<Seg>, data: seq<Byte>, a: nat)
    requires InBounds(segs, |mem|) && n + |data| <= Total(segs) && a < |mem| && rest == DropBytes(segs, n)
    requires !Names(segs, n, n + |data|, a)
    ensures InBounds(rest, |mem|) && Scatter(mem, rest, data)[a] == mem[a]
  {
    DropKeepsShape(segs, n, |mem|);
    NamesInRest(segs, n, |data|, a);
    ScatterElse(mem, rest, data, a);
  }

  lemma ResumePuts(mem: seq<Byte>, segs: seq<Seg>, n: nat, rest: seq<Seg>, data: seq<Byte>, k: nat)
    requires InBounds(segs, |mem|) && n <= k && LastAt(segs, n + |data|, k) && rest == DropBytes(segs, n)
    ensures InBounds(rest, |mem|) && AddrAt(segs, k) < |mem|
    ensures Scatter(mem, rest, data)[AddrAt(segs, k)] == data[k - n]
  {
    DropKeepsShape(segs, n, |mem|);
    LastInRest(segs, n, |data|, k);
    ScatterLast(mem, rest, data, k - n);
  }

  // ---- and in terms of where each byte lives ----

  /** Of the first `n` bytes none after `k` lives in its place. */
  ghost predicate LastIn(at: seq<nat>, n: nat, k: nat) {
    k < n <= |at| && forall j: nat :: k < j < n ==> at[j] != at[k]
  }

  /** None of the bytes `lo..hi` lives at `a`. */
  ghost predicate Unnamed(at: seq<nat>, lo: nat, hi: nat, a: nat) {
    forall j: nat :: lo <= j < hi && j < |at| ==> at[j] != a
  }

  /** `data` was put in the places from the `n`th on, the last one winning where places coincide, and
      every other address was left alone. */
  ghost predicate PutAt(at: seq<nat>, n: nat, data: seq<Byte>, before: seq<Byte>, after: seq<Byte>) {
    && n + |data| <= |at| && |after| == |before|
    && (forall a: nat :: a < |before| && Unnamed(at, n, n + |data|, a) ==> after[a] == before[a])
    && (forall k: nat :: n <= k && LastIn(at, n + |data|, k) ==> at[k] < |after| && after[at[k]] == data[k - n])
  }

  /** Continuing a transfer where it stopped, over any list: writing into what is left after `n` bytes
      puts the new ones right after those. */
  lemma ScatterResumes(
    mem: seq<Byte>, segs: seq<Seg>, n: nat, rest: seq<Seg>, data: seq<Byte>, after: seq<Byte>)
    requires InBounds(segs, |mem|) && n + |data| <= Total(segs) && rest == DropBytes(segs, n)
    requires InBounds(rest, |mem|) && after == Scatter(mem, rest, data)
    ensures PutAt(Addresses(segs), n, data, mem, after)
  {
    var at := Addresses(segs);
    forall a: nat | a < |mem| && Unnamed(at, n, n + |data|, a) ensures after[a] == mem[a] {
      forall j: nat | n <= j < n + |data| ensures AddrAt(segs, j) != a {
        assert at[j] == AddrAt(segs, j);
      }
      ResumeLeaves(mem, segs, n, rest, data, a);
    }
    forall k: nat | n <= k && LastIn(at, n + |data|, k) ensures at[k] < |after| && after[at[k]] == data[k - n] {
      LastIsLast(segs, n + |data|, k);
      ResumePuts(mem, segs, n, rest, data, k);
    }
  }

  lemma LastIsLast(segs: seq<Seg>, n: nat, k: nat)
    requires LastIn(Addresses(segs), n, k)
    ensures LastAt(segs, n, k) && Addresses(segs)[k] == AddrAt(segs, k)
  {
    forall j: nat | k < j < n ensures AddrAt(segs, j) != AddrAt(segs, k) {
      assert Addresses(segs)[j] != Addresses(segs)[k];
    }
  }

  /** A byte before them that counts in the end stays, */
  lemma PutLeaves(at: seq<nat>, n: nat, data: seq<Byte>, before: seq<Byte>, after: seq<Byte>, k: nat)
    requires PutAt(at, n, data, before, after) && k < n && LastIn(at, |at|, k) && at[k] < |before|
    ensures after[at[k]] == before[at[k]]
  {
    assert Unnamed(at, n, n + |data|, at[k]);
  }

  /** and one of theirs is there. */
  lemma PutLands(at: seq<nat>, n: nat, data: seq<Byte>, before: seq<Byte>, after: seq<Byte>, k: nat)
    requires PutAt(at, n, data, before, after) && n <= k < n + |data| && LastIn(at, |at|, k)
    ensures at[k] < |after| && after[at[k]] == data[k - n]
  {
    assert LastIn(at, n + |data|, k);
  }

  /** An address the list covers is that of one of its positions. */
  lemma CoveredHasPosition(segs: seq<Seg>, a: nat) returns (k: nat)
    requires Covers(segs, a)
    ensures k < Total(segs) && AddrAt(segs, k) == a
  {
    var i :| 0 <= i < |segs| && segs[i].addr <= a < segs[i].addr + segs[i].len;
    AddrInSegment(segs, i, a - segs[i].addr);
    k := Before(segs, i) + (a - segs[i].addr);
  }

  /** What is left of the list after `n` bytes covers the places of those left, */
  lemma RestCovers(segs: seq<Seg>, n: nat, k: nat)
    requires n <= k < Total(segs)
    ensures Covers(DropBytes(segs, n), Addresses(segs)[k])
  {
    AddrInRest(segs, n, k - n);
    AddrCovered(DropBytes(segs, n), k - n);
  }

  lemma NoneAfter(at: seq<nat>, k: nat, j: nat)
    requires LastIn(at, |at|, k) && k < j < |at|
    ensures at[j] != at[k]
  {
  }

  /** and of those before no place that counts in the end. */
  lemma RestSpares(segs: seq<Seg>, n: nat, size: nat, k: nat)
    requires InBounds(segs, size) && k < n <= Total(segs) && LastIn(Addresses(segs), Total(segs), k)
    ensures !Covers(DropBytes(segs, n), Addresses(segs)[k])
  {
    var rest := DropBytes(segs, n);
    if Covers(rest, Addresses(segs)[k]) {
      DropKeepsShape(segs, n, size);
      var j := CoveredHasPosition(rest, Addresses(segs)[k]);
      NoneAfter(Addresses(segs), k, n + j);
      AddrInRest(segs, n, j);
    }
  }

  /** The last byte that lives where byte `k` does. */
  lemma {:induction false} LastOf(at: seq<nat>, k: nat) returns (last: nat)
    requires k < |at|
    ensures k <= last && LastIn(at, |at|, last) && at[last] == at[k]
    decreases |at| - k
  {
    if j: nat :| k < j < |at| && at[j] == at[k] {
      last := LastOf(at, j);
    } else {
      last := k;
    }
  }

  lemma SeqExt<T>(a: seq<T>, b: seq<T>)
    requires |a| == |b| && forall q: nat :: q < |a| ==> a[q] == b[q]
    ensures a == b
  {}

  function HeadOf(mem: seq<Byte>, segs: seq<Seg>): (r: seq<Byte>)
    requires segs != [] && InBounds(segs, |mem|)
    ensures |r| == segs[0].len
  {
    mem[segs[0].addr..segs[0].addr + segs[0].len]
  }

  lemma GatherParts(mem: seq<Byte>, segs: seq<Seg>)
    requires segs != [] && InBounds(segs, |mem|)
    ensures Gather(mem, segs) == HeadOf(mem, segs) + Gather(mem, segs[1..])
  {
  }

  // ---- where each byte lives ----

  /** The address of each byte of the concatenation. */
  ghost function Addresses(segs: seq<Seg>): seq<nat> {
    seq(Total(segs), q requires 0 <= q < Total(segs) => AddrAt(segs, q))
  }

  lemma GatherIsAddresses(mem: seq<Byte>, segs: seq<Seg>)
    requires InBounds(segs, |mem|)
    ensures forall q: nat :: q < Total(segs) ==>
      Addresses(segs)[q] < |mem| && Gather(mem, segs)[q] == mem[Addresses(segs)[q]]
  {
    forall q: nat | q < Total(segs)
      ensures Addresses(segs)[q] < |mem| && Gather(mem, segs)[q] == mem[Addresses(segs)[q]]
    {
      GatherIsAddrAt(mem, segs, q);
    }
  }

  /** The `n` bytes from the `p`th on live at `a`, in order. */
  ghost predicate Run(at: seq<nat>, p: nat, a: nat, n: nat) {
    p + n <= |at| && forall q: nat :: p <= q < p + n ==> at[q] == a + (q - p)
  }

  /** And no other byte lives there. */
  ghost predicate Alone(at: seq<nat>, p: nat, a: nat, n: nat) {
    forall q: nat :: q < |at| && !(p <= q < p + n) ==> !(a <= at[q] < a + n)
  }

  /** A piece of one segment is such a run, and in disjoint segments it is alone. */
  lemma PieceIsRun(segs: seq<Seg>, i: nat, k: nat, n: nat)
    requires i < |segs| && k + n <= segs[i].len
    ensures Run(Addresses(segs), Before(segs, i) + k, segs[i].addr + k, n)
  {
    var p := Before(segs, i) + k;
    BeforeGrows(segs, i + 1);
    forall q: nat | p <= q < p + n ensures AddrAt(segs, q) == segs[i].addr + k + (q - p) {
      AddrInSegment(segs, i, k + (q - p));
    }
  }

  lemma PieceIsAlone(segs: seq<Seg>, i: nat, k: nat, n: nat)
    requires Disjoint(segs) && i < |segs| && k + n <= segs[i].len
    ensures Alone(Addresses(segs), Before(segs, i) + k, segs[i].addr + k, n)
  {
    var p, a := Before(segs, i) + k, segs[i].addr + k;
    forall q: nat | q < Total(segs) && !(p <= q < p + n) ensures !(a <= AddrAt(segs, q) < a + n) {
      if a <= AddrAt(segs, q) < a + n {
        ElsewhereDiffers(segs, i, k + (AddrAt(segs, q) - a), q);
      }
    }
  }

  lemma ElsewhereDiffers(segs: seq<Seg>, i: nat, k: nat, q: nat)
    requires Disjoint(segs) && i < |segs| && k < segs[i].len && q < Total(segs) && q != Before(segs, i) + k
    ensures AddrAt(segs, q) != segs[i].addr + k
  {
    AddrInSegment(segs, i, k);
    var p := Before(segs, i) + k;
    if q < p {
      AddrInjective(segs, q, p);
    } else {
      AddrInjective(segs, p, q);
    }
  }
}
