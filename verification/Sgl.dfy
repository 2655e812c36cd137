/**
  Scatter/gather lists of the Ceph proxy: a chain of blocks of 64 entries is gathered into a
  flat buffer on write, and the result of a read is scattered back over such a chain.

  The two walks differ. Gathering leaves a block after `entrySumInSgl` entries (but looks at one
  entry even if that is zero), scattering leaves it after 64, and zero-filling, which comes
  before the scattering of a read of unexpected length, visits exactly `entrySumInSgl`.

  A `Spot` is one byte of one entry of the chain, a `Cell` the memory behind it. A walk is the list
  of spots it meets; what the code does to memory is said through any list of cells one cares to
  look at. Only cells that are touched have to be in bounds or apart.
 */
module Sgl {

  const ENTRY_PER_SGL: nat := 64
  const DEFAULT_SGL_PAGE: nat := 4096
  const WORD: nat := 0x1_0000_0000

  type Byte = x: int | 0 <= x < 256

  /** `buf` of the source is the address of `memory[start]`. */
  datatype Entry = Entry(memory: array<Byte>, start: nat, len: nat)

  class Block {
    const nextSgl: Block?
    const entrySumInSgl: nat
    const entrys: seq<Entry>

    constructor (next: Block?, sum: nat, es: seq<Entry>)
      ensures nextSgl == next && entrySumInSgl == sum && entrys == es
    {
      nextSgl, entrySumInSgl, entrys := next, sum, es;
    }
  }

  // ------------------------------------------------------------------ cells

  datatype Cell = Cell(memory: array<Byte>, at: nat)

  ghost predicate InBounds(cs: seq<Cell>) {
    forall i :: 0 <= i < |cs| ==> cs[i].at < cs[i].memory.Length
  }

  ghost function Arrays(cs: seq<Cell>): set<array<Byte>> {
    set i | 0 <= i < |cs| :: cs[i].memory
  }

  ghost function Load(cs: seq<Cell>): (bytes: seq<Byte>)
    requires InBounds(cs)
    reads Arrays(cs)
    ensures |bytes| == |cs|
  {
    seq(|cs|, i requires 0 <= i < |cs| reads Arrays(cs) => cs[i].memory[cs[i].at])
  }

  /** What the cells of `view` show when they showed `was` and `put` was written since. */
  ghost function Seen(was: seq<Byte>, view: seq<Cell>, put: map<Cell, Byte>): (r: seq<Byte>)
    requires |was| == |view|
    ensures |r| == |view|
  {
    seq(|view|, i requires 0 <= i < |view| => ByteSeen(was[i], view[i], put))
  }

  ghost function ByteSeen(was: Byte, c: Cell, put: map<Cell, Byte>): Byte {
    if c in put then put[c] else was
  }

  // ------------------------------------------------------------------ spots and walks

  /** Byte `at` of entry number `index` of block number `b`. */
  datatype Spot = Spot(b: nat, index: nat, entry: Entry, at: nat)

  ghost function CellOf(s: Spot): Cell { Cell(s.entry.memory, s.entry.start + s.at) }

  ghost function Cells(ss: seq<Spot>): (cs: seq<Cell>)
    ensures |cs| == |ss| && forall i :: 0 <= i < |ss| ==> cs[i] == CellOf(ss[i])
  {
    seq(|ss|, i requires 0 <= i < |ss| => CellOf(ss[i]))
  }

  /** Bytes moved per entry: its length, or a whole page in page mode. */
  function Size(e: Entry, page: bool): nat {
    if page then DEFAULT_SGL_PAGE else e.len
  }

  ghost function EntrySpots(b: nat, index: nat, e: Entry, page: bool): (ss: seq<Spot>)
    ensures |ss| == Size(e, page)
  {
    seq(Size(e, page), i requires 0 <= i < Size(e, page) => Spot(b, index, e, i))
  }

  datatype Walk = Gathering | Scattering | Declared

  /** Entries a walk visits in a block. */
  function Stride(b: Block, w: Walk): nat {
    match w
    case Gathering => if b.entrySumInSgl == 0 then 1 else b.entrySumInSgl
    case Scattering => ENTRY_PER_SGL
    case Declared => b.entrySumInSgl
  }

  ghost predicate BlockOk(b: Block) {
    |b.entrys| == ENTRY_PER_SGL && b.entrySumInSgl <= ENTRY_PER_SGL
  }

  ghost predicate BlocksOk(blocks: seq<Block>) {
    forall i :: 0 <= i < |blocks| ==> BlockOk(blocks[i])
  }

  ghost function BlockAt(blocks: seq<Block>, b: nat): Block? {
    if b < |blocks| then blocks[b] else null
  }

  /** `blocks` is the chain that starts at `sgl`. */
  ghost predicate Chain(sgl: Block?, blocks: seq<Block>) {
    && sgl == BlockAt(blocks, 0)
    && forall i :: 0 <= i < |blocks| ==> BlockOk(blocks[i]) && blocks[i].nextSgl == BlockAt(blocks, i + 1)
  }

  /** The spots a walk meets from entry `index` of block `b` on. */
  ghost function SpotsFrom(blocks: seq<Block>, b: nat, index: nat, w: Walk, page: bool): seq<Spot>
    requires BlocksOk(blocks)
    decreases |blocks| - b, ENTRY_PER_SGL - index
  {
    if b >= |blocks| then []
    else if index >= Stride(blocks[b], w) then SpotsFrom(blocks, b + 1, 0, w, page)
    else EntrySpots(b, index, blocks[b].entrys[index], page) + SpotsFrom(blocks, b, index + 1, w, page)
  }

  ghost function Spots(blocks: seq<Block>, w: Walk, page: bool): seq<Spot>
    requires BlocksOk(blocks)
  {
    SpotsFrom(blocks, 0, 0, w, page)
  }

  function Min(a: nat, b: nat): nat { if a < b then a else b }

  /** Entry `e` owns the spots from `done` on. */
  ghost predicate Owns(spots: seq<Spot>, done: nat, e: Entry, page: bool) {
    && done + Size(e, page) <= |spots|
    && forall i :: done <= i < done + Size(e, page) ==> spots[i].entry == e && spots[i].at == i - done
  }

  /** One stop of a walk: entry `index` of block `b`, with `done` spots behind it. */
  datatype Stop = Stop(b: nat, index: nat, done: nat)

  ghost function NextStop(blocks: seq<Block>, s: Stop, w: Walk, page: bool): Stop
    requires BlocksOk(blocks) && s.b < |blocks| && s.index < Stride(blocks[s.b], w)
  {
    var n := s.done + Size(blocks[s.b].entrys[s.index], page);
    if s.index + 1 >= Stride(blocks[s.b], w) then Stop(s.b + 1, 0, n) else Stop(s.b, s.index + 1, n)
  }

  ghost predicate StopOk(tour: seq<Stop>, i: nat, spots: seq<Spot>, blocks: seq<Block>, w: Walk, page: bool)
    requires BlocksOk(blocks) && i < |tour|
  {
    var s := tour[i];
    && s.b < |blocks| && s.index < Stride(blocks[s.b], w) && Owns(spots, s.done, blocks[s.b].entrys[s.index], page)
    && if i + 1 < |tour| then tour[i + 1] == NextStop(blocks, s, w, page)
       else s.done + Size(blocks[s.b].entrys[s.index], page) == |spots|
  }

  /** The stops of a walk that starts at `s` and meets the rest of `spots`, each at an entry that owns the next spots. */
  ghost predicate Tour(tour: seq<Stop>, s: Stop, spots: seq<Spot>, blocks: seq<Block>, w: Walk, page: bool)
    requires BlocksOk(blocks)
  {
    && (if tour == [] then s.done == |spots| else tour[0] == s)
    && forall i :: 0 <= i < |tour| ==> StopOk(tour, i, spots, blocks, w, page)
  }

  lemma OwnsNext(spots: seq<Spot>, s: Stop, e: Entry, behind: seq<Spot>, page: bool)
    requires s.done <= |spots| && spots[s.done..] == EntrySpots(s.b, s.index, e, page) + behind
    ensures Owns(spots, s.done, e, page) && spots[s.done + Size(e, page)..] == behind
  {
    var own := EntrySpots(s.b, s.index, e, page);
    var n := s.done + |own|;
    assert forall i :: s.done <= i < n ==> spots[i] == spots[s.done..][i - s.done] == own[i - s.done];
    assert spots[n..] == spots[s.done..][|own|..] == behind;
  }

  lemma SpotsNext(blocks: seq<Block>, s: Stop, n: Stop, w: Walk, page: bool)
    requires BlocksOk(blocks) && !w.Declared? && s.b < |blocks| && s.index < Stride(blocks[s.b], w)
    requires n == NextStop(blocks, s, w, page)
    ensures n.b < |blocks| ==> n.index < Stride(blocks[n.b], w)
    ensures SpotsFrom(blocks, s.b, s.index, w, page) ==
            EntrySpots(s.b, s.index, blocks[s.b].entrys[s.index], page) + SpotsFrom(blocks, n.b, n.index, w, page)
  {
  }

  lemma TourCons(s: Stop, next: seq<Stop>, spots: seq<Spot>, blocks: seq<Block>, w: Walk, page: bool)
    requires BlocksOk(blocks) && s.b < |blocks| && s.index < Stride(blocks[s.b], w)
    requires Owns(spots, s.done, blocks[s.b].entrys[s.index], page)
    requires Tour(next, NextStop(blocks, s, w, page), spots, blocks, w, page)
    ensures Tour([s] + next, s, spots, blocks, w, page)
  {
    var tour := [s] + next;
    forall i | 0 <= i < |tour|
      ensures StopOk(tour, i, spots, blocks, w, page)
    {
      assert i > 0 ==> StopOk(next, i - 1, spots, blocks, w, page);
    }
  }

  lemma {:induction false} TourFrom(spots: seq<Spot>, blocks: seq<Block>, s: Stop, w: Walk, page: bool)
    returns (tour: seq<Stop>)
    requires BlocksOk(blocks) && !w.Declared? && s.b <= |blocks| && (s.b < |blocks| ==> s.index < Stride(blocks[s.b], w))
    requires s.done <= |spots| && spots[s.done..] == SpotsFrom(blocks, s.b, s.index, w, page)
    ensures Tour(tour, s, spots, blocks, w, page)
    decreases |blocks| - s.b, ENTRY_PER_SGL - s.index
  {
    if s.b == |blocks| {
      tour := [];
    } else {
      var n := NextStop(blocks, s, w, page);
      SpotsNext(blocks, s, n, w, page);
      OwnsNext(spots, s, blocks[s.b].entrys[s.index], SpotsFrom(blocks, n.b, n.index, w, page), page);
      var next := TourFrom(spots, blocks, n, w, page);
      tour := [s] + next;
      TourCons(s, next, spots, blocks, w, page);
    }
  }

  /** After `i` stops a walk stands before entry `index` of `cur` ... */
  ghost predicate Standing(tour: seq<Stop>, i: nat, cur: Block?, index: int, blocks: seq<Block>) {
    i <= |tour| && (i < |tour| ==> tour[i].index == index && BlockAt(blocks, tour[i].b) == cur)
  }

  /** ... with this many spots behind it. */
  ghost function Behind(tour: seq<Stop>, i: nat, spots: seq<Spot>): nat {
    if i < |tour| then tour[i].done else |spots|
  }

  lemma Onward(tour: seq<Stop>, i: nat, cur: Block?, index: int, spots: seq<Spot>, sgl: Block?, blocks: seq<Block>,
               w: Walk, page: bool)
    requires Chain(sgl, blocks) && Tour(tour, Stop(0, 0, 0), spots, blocks, w, page)
    requires Standing(tour, i, cur, index, blocks) && Behind(tour, i, spots) < |spots|
    ensures i < |tour| && cur != null && 0 <= index < |cur.entrys| && Owns(spots, tour[i].done, cur.entrys[index], page)
    ensures Behind(tour, i + 1, spots) == tour[i].done + Size(cur.entrys[index], page)
    ensures if index + 1 >= Stride(cur, w) then Standing(tour, i + 1, cur.nextSgl, 0, blocks)
            else Standing(tour, i + 1, cur, index + 1, blocks)
  {
    assert StopOk(tour, i, spots, blocks, w, page);
  }

  // ------------------------------------------------------------------ gather

  /** The first `n` cells of a walk. */
  ghost function First(spots: seq<Spot>, n: nat): (cs: seq<Cell>)
    requires n <= |spots|
    ensures |cs| == n && forall i :: 0 <= i < n ==> cs[i] == CellOf(spots[i])
  {
    Cells(spots[..n])
  }

  lemma ReadEntry(spots: seq<Spot>, cells: seq<Cell>, done: nat, e: Entry, page: bool, size: nat)
    requires |cells| <= |spots| && cells == First(spots, |cells|) && InBounds(cells)
    requires Owns(spots, done, e, page) && size <= Size(e, page) && done + size <= |cells|
    ensures size > 0 ==> e.start + size <= e.memory.Length
    ensures size > 0 ==> Load(cells)[..done] + e.memory[e.start..e.start + size] == Load(cells)[..done + size]
  {
    if size > 0 {
      assert forall i :: done <= i < done + size ==> cells[i] == Cell(e.memory, e.start + (i - done));
      assert cells[done + size - 1] == Cell(e.memory, e.start + size - 1);
    }
  }

  /** The loop shared by the four gathering writes; `isRelease` selects page mode. */
  method GatherEntries(sgl: Block?, len: nat, isRelease: bool, ghost blocks: seq<Block>, ghost spots: seq<Spot>)
    returns (bl: seq<Byte>)
    requires Chain(sgl, blocks) && spots == Spots(blocks, Gathering, isRelease)
    requires len <= |spots| && InBounds(First(spots, len))
    ensures bl == Load(First(spots, len))
  {
    var leftLen: nat, cur, index := len, sgl, 0;
    ghost var i: nat, cells := 0, First(spots, len);
    ghost var tour := TourFrom(spots, blocks, Stop(0, 0, 0), Gathering, isRelease);
    bl := [];
    while leftLen > 0
      invariant |bl| + leftLen == len && Standing(tour, i, cur, index, blocks)
      invariant leftLen > 0 ==> |bl| == Behind(tour, i, spots)
      invariant bl == Load(cells)[..|bl|]
      decreases |tour| - i
    {
      Onward(tour, i, cur, index, spots, sgl, blocks, Gathering, isRelease);
      var e := cur.entrys[index];
      var size := Min(Size(e, isRelease), leftLen);
      ReadEntry(spots, cells, tour[i].done, e, isRelease, size);
      if size > 0 {
        bl := bl + e.memory[e.start..e.start + size];
      }
      leftLen := leftLen - size;
      index := index + 1;
      if index >= cur.entrySumInSgl {
        index, cur := 0, cur.nextSgl;
      }
      i := i + 1;
    }
  }

  /** `RadosWriteOpWriteSGL`: alignment bytes around the gathered ones; the length is cut to 32 bits. */
  method WriteSgl(sgl: Block?, len: nat, isRelease: bool, prev: seq<Byte>, back: seq<Byte>, ghost blocks: seq<Block>,
                  ghost spots: seq<Spot>)
    returns (bl: seq<Byte>)
    requires Chain(sgl, blocks) && spots == Spots(blocks, Gathering, isRelease)
    requires len % WORD <= |spots| && InBounds(First(spots, len % WORD))
    ensures bl == prev + Load(First(spots, len % WORD)) + back
  {
    var middle := GatherEntries(sgl, len % WORD, isRelease, blocks, spots);
    bl := prev + middle + back;
  }

  // ------------------------------------------------------------------ scatter

  /** The first `k` bytes of `data` written to the first `k` of `cells`, in this order. */
  ghost function StoreAll(cells: seq<Cell>, data: seq<Byte>, k: nat): map<Cell, Byte>
    requires k <= |cells| && k <= |data|
  {
    if k == 0 then map[] else StoreAll(cells, data, k - 1)[cells[k - 1] := data[k - 1]]
  }

  /** The cell lies in a stretch of `n` bytes of memory. */
  ghost predicate Within(c: Cell, memory: array<Byte>, start: nat, n: nat) {
    c.memory == memory && start <= c.at < start + n
  }

  /** Writing on over a stretch changes the cells in it and no other. */
  lemma {:induction false} StoreMore(cells: seq<Cell>, data: seq<Byte>, k: nat, n: nat, memory: array<Byte>, start: nat,
                                     c: Cell)
    requires k + n <= |cells| && k + n <= |data|
    requires forall i :: k <= i < k + n ==> cells[i] == Cell(memory, start + (i - k))
    ensures var before, after := StoreAll(cells, data, k), StoreAll(cells, data, k + n);
            if Within(c, memory, start, n) then c in after && after[c] == data[k + (c.at - start)]
            else (c in after <==> c in before) && (c in before ==> after[c] == before[c])
  {
    if n > 0 {
      StoreMore(cells, data, k, n - 1, memory, start, c);
      assert cells[k + n - 1] == Cell(memory, start + (n - 1));
    }
  }

  method Memcpy(memory: array<Byte>, start: nat, chunk: seq<Byte>)
    requires start + |chunk| <= memory.Length
    modifies memory
    ensures forall i :: 0 <= i < memory.Length ==>
      memory[i] == if start <= i < start + |chunk| then chunk[i - start] else old(memory[i])
  {
    forall i | 0 <= i < |chunk| {
      memory[start + i] := chunk[i];
    }
  }

  /** `memcpy` into one entry, seen through any list of cells. */
  method CopyInto(e: Entry, chunk: seq<Byte>, ghost view: seq<Cell>, ghost flat: seq<Byte>)
    requires e.start + |chunk| <= e.memory.Length && InBounds(view) && flat == Load(view)
    modifies e.memory
    ensures forall j :: 0 <= j < |view| ==>
      Load(view)[j] == if Within(view[j], e.memory, e.start, |chunk|) then chunk[view[j].at - e.start] else flat[j]
  {
    Memcpy(e.memory, e.start, chunk);
  }

  /** Cells of `view` that showed `was` show `flat`: the first `k` bytes of `data` on the first `k` of `cells`. */
  ghost predicate Shows(flat: seq<Byte>, was: seq<Byte>, view: seq<Cell>, cells: seq<Cell>, data: seq<Byte>, k: nat) {
    && |flat| == |was| == |view| && k <= |cells| == |data|
    && forall j :: 0 <= j < |view| ==> flat[j] == ByteSeen(was[j], view[j], StoreAll(cells, data, k))
  }

  lemma ShowsNothing(was: seq<Byte>, view: seq<Cell>, cells: seq<Cell>, data: seq<Byte>)
    requires |was| == |view| && |cells| == |data|
    ensures Shows(was, was, view, cells, data, 0)
  {
  }

  lemma ShowsMore(flat: seq<Byte>, now: seq<Byte>, was: seq<Byte>, view: seq<Cell>, cells: seq<Cell>, data: seq<Byte>,
                  k: nat, n: nat, memory: array<Byte>, start: nat)
    requires Shows(flat, was, view, cells, data, k) && k + n <= |data| && |now| == |view|
    requires forall i :: k <= i < k + n ==> cells[i] == Cell(memory, start + (i - k))
    requires forall j :: 0 <= j < |view| ==>
      now[j] == if Within(view[j], memory, start, n) then data[k..k + n][view[j].at - start] else flat[j]
    ensures Shows(now, was, view, cells, data, k + n)
  {
    forall j | 0 <= j < |view|
      ensures now[j] == ByteSeen(was[j], view[j], StoreAll(cells, data, k + n))
    {
      StoreMore(cells, data, k, n, memory, start, view[j]);
    }
  }

  /** One round of the scatter loop. */
  method FillEntry(ghost spots: seq<Spot>, ghost cells: seq<Cell>, e: Entry, data: seq<Byte>, offset: nat, page: bool,
                   ghost view: seq<Cell>, ghost was: seq<Byte>, ghost flat: seq<Byte>)
    returns (size: nat, ghost now: seq<Byte>, ghost end: nat)
    requires |cells| <= |spots| && cells == First(spots, |cells|) && InBounds(cells) && InBounds(view)
    requires Owns(spots, offset, e, page) && offset < |data|
    requires flat == Load(view) && Shows(flat, was, view, cells, data, offset)
    modifies Arrays(cells)
    ensures size == Min(Size(e, page), |data| - offset)
    ensures end == offset + size && now == Load(view) && Shows(now, was, view, cells, data, end)
  {
    size, now := Min(Size(e, page), |data| - offset), flat;
    end := offset + size;
    if size > 0 {
      assert forall i :: offset <= i < offset + size ==> cells[i] == Cell(e.memory, e.start + (i - offset));
      assert cells[offset + size - 1] == Cell(e.memory, e.start + size - 1);
      CopyInto(e, data[offset..offset + size], view, flat);
      now := Load(view);
      ShowsMore(flat, now, was, view, cells, data, offset, size, e.memory, e.start);
    }
  }

  /** The scatter loop of `ReadCallback`; `page` is its `buildType`. */
  method Scatter(sgl: Block?, data: seq<Byte>, page: bool, ghost blocks: seq<Block>, ghost spots: seq<Spot>,
                 ghost view: seq<Cell>)
    requires Chain(sgl, blocks) && spots == Spots(blocks, Scattering, page)
    requires |data| <= |spots| && InBounds(First(spots, |data|)) && InBounds(view)
    modifies Arrays(First(spots, |data|))
    ensures Load(view) == Seen(old(Load(view)), view, StoreAll(First(spots, |data|), data, |data|))
  {
    ghost var cells := First(spots, |data|);
    ghost var tour := TourFrom(spots, blocks, Stop(0, 0, 0), Scattering, page);
    ScatterEntries(sgl, data, page, blocks, spots, tour, cells, view, Load(view));
  }

  method ScatterEntries(sgl: Block?, data: seq<Byte>, page: bool, ghost blocks: seq<Block>, ghost spots: seq<Spot>,
                        ghost tour: seq<Stop>, ghost cells: seq<Cell>, ghost view: seq<Cell>, ghost was: seq<Byte>)
    requires Chain(sgl, blocks) && Tour(tour, Stop(0, 0, 0), spots, blocks, Scattering, page)
    requires |data| == |cells| <= |spots| && cells == First(spots, |cells|) && InBounds(cells) && InBounds(view)
    requires was == Load(view)
    modifies Arrays(cells)
    ensures Shows(Load(view), was, view, cells, data, |data|)
  {
    var leftLen: nat, cur, index, offset: nat, size := |data|, sgl, 0, 0, 0;
    ghost var i: nat, flat, k: nat := 0, was, 0;
    ShowsNothing(was, view, cells, data);
    while leftLen > 0
      invariant offset + leftLen == |data| && Standing(tour, i, cur, index, blocks)
      invariant leftLen > 0 ==> offset == Behind(tour, i, spots)
      invariant k == offset && flat == Load(view) && Shows(flat, was, view, cells, data, k)
      decreases |tour| - i
    {
      Onward(tour, i, cur, index, spots, sgl, blocks, Scattering, page);
      size, flat, k := FillEntry(spots, cells, cur.entrys[index], data, offset, page, view, was, flat);
      leftLen := leftLen - size;
      index := index + 1;
      if index >= ENTRY_PER_SGL {
        index, cur := 0, cur.nextSgl;
      }
      offset := offset + size;
      i := i + 1;
    }
  }

  // ------------------------------------------------------------------ zero-fill

  /** What the cells of `view` show when they showed `was` and those in `zeroed` were cleared since. */
  ghost function Blanked(was: seq<Byte>, view: seq<Cell>, zeroed: set<Cell>): (r: seq<Byte>)
    requires |was| == |view|
    ensures |r| == |view|
  {
    seq(|view|, i requires 0 <= i < |view| => if view[i] in zeroed then 0 else was[i])
  }

  ghost function CellSet(ss: seq<Spot>): set<Cell> {
    set i | 0 <= i < |ss| :: CellOf(ss[i])
  }

  lemma CellSetConcat(a: seq<Spot>, b: seq<Spot>)
    ensures CellSet(a + b) == CellSet(a) + CellSet(b)
  {
    forall c
      ensures c in CellSet(a + b) <==> c in CellSet(a) || c in CellSet(b)
    {
      if c in CellSet(a) {
        var i :| 0 <= i < |a| && CellOf(a[i]) == c;
        assert CellOf((a + b)[i]) == c;
      } else if c in CellSet(b) {
        var i :| 0 <= i < |b| && CellOf(b[i]) == c;
        assert CellOf((a + b)[|a| + i]) == c;
      }
    }
  }

  method Memset(e: Entry, ghost b: nat, ghost index: nat, ghost view: seq<Cell>)
    requires InBounds(view) && InBounds(Cells(EntrySpots(b, index, e, false)))
    modifies Arrays(Cells(EntrySpots(b, index, e, false)))
    ensures Load(view) == Blanked(old(Load(view)), view, CellSet(EntrySpots(b, index, e, false)))
  {
    ghost var own := EntrySpots(b, index, e, false);
    if e.len > 0 {
      assert Cells(own)[0] == Cell(e.memory, e.start) && Cells(own)[e.len - 1] == Cell(e.memory, e.start + e.len - 1);
      forall i | e.start <= i < e.start + e.len {
        e.memory[i] := 0;
      }
    }
    forall j | 0 <= j < |view|
      ensures view[j] in CellSet(own) <==> Within(view[j], e.memory, e.start, e.len)
    {
      var k := view[j].at - e.start;
      assert Within(view[j], e.memory, e.start, e.len) ==> CellOf(own[k]) == view[j];
    }
  }

  lemma BlankMore(was: seq<Byte>, view: seq<Cell>, seen: set<Cell>, own: set<Cell>)
    requires |was| == |view|
    ensures Blanked(Blanked(was, view, seen), view, own) == Blanked(was, view, seen + own)
  {
  }

  /** `seen` and the cells before entry `index` of block `b` make up all declared cells. */
  ghost predicate ZeroedTo(all: seq<Spot>, seen: set<Cell>, blocks: seq<Block>, b: nat, index: nat) {
    BlocksOk(blocks) && CellSet(all) == seen + CellSet(SpotsFrom(blocks, b, index, Declared, false))
  }

  lemma ZeroedMore(all: seq<Spot>, seen: set<Cell>, blocks: seq<Block>, b: nat, index: nat)
    requires ZeroedTo(all, seen, blocks, b, index) && b < |blocks| && index < blocks[b].entrySumInSgl
    requires InBounds(Cells(all))
    ensures var own := EntrySpots(b, index, blocks[b].entrys[index], false);
            && ZeroedTo(all, seen + CellSet(own), blocks, b, index + 1)
            && InBounds(Cells(own)) && Arrays(Cells(own)) <= Arrays(Cells(all))
  {
    var own := EntrySpots(b, index, blocks[b].entrys[index], false);
    CellSetConcat(own, SpotsFrom(blocks, b, index + 1, Declared, false));
    forall i | 0 <= i < |own|
      ensures Cells(own)[i].at < Cells(own)[i].memory.Length && Cells(own)[i].memory in Arrays(Cells(all))
    {
      assert CellOf(own[i]) in CellSet(all);
      var k :| 0 <= k < |all| && CellOf(all[k]) == CellOf(own[i]);
      assert Cells(all)[k] == Cells(own)[i];
    }
  }

  /** The inner loop of the zero-fill: the declared entries of one block. */
  method ZeroBlock(sgl: Block, ghost blocks: seq<Block>, ghost b: nat, ghost view: seq<Cell>, ghost all: seq<Spot>,
                   ghost before: set<Cell>, ghost was: seq<Byte>)
    returns (ghost seen: set<Cell>)
    requires b < |blocks| && blocks[b] == sgl && ZeroedTo(all, before, blocks, b, 0) && InBounds(Cells(all))
    requires InBounds(view) && |was| == |view| && Load(view) == Blanked(was, view, before)
    modifies Arrays(Cells(all))
    ensures ZeroedTo(all, seen, blocks, b + 1, 0) && Load(view) == Blanked(was, view, seen)
  {
    var currentEntry: nat := 0;
    seen := before;
    while currentEntry < sgl.entrySumInSgl
      invariant currentEntry <= sgl.entrySumInSgl && ZeroedTo(all, seen, blocks, b, currentEntry)
      invariant Load(view) == Blanked(was, view, seen)
    {
      ghost var own := CellSet(EntrySpots(b, currentEntry, sgl.entrys[currentEntry], false));
      ZeroedMore(all, seen, blocks, b, currentEntry);
      BlankMore(was, view, seen, own);
      Memset(sgl.entrys[currentEntry], b, currentEntry, view);
      seen := seen + own;
      currentEntry := currentEntry + 1;
    }
  }

  /** The zero-filling walk of `ReadCallback`, seen through any list of cells. */
  method ZeroFill(first: Block?, ghost blocks: seq<Block>, ghost all: seq<Spot>, ghost view: seq<Cell>)
    requires Chain(first, blocks) && all == Spots(blocks, Declared, false) && InBounds(Cells(all)) && InBounds(view)
    modifies Arrays(Cells(all))
    ensures Load(view) == Blanked(old(Load(view)), view, CellSet(all))
  {
    var sgl := first;
    ghost var b: nat, seen: set<Cell>, was := 0, {}, Load(view);
    while sgl != null
      invariant b <= |blocks| && sgl == BlockAt(blocks, b) && ZeroedTo(all, seen, blocks, b, 0)
      invariant Load(view) == Blanked(was, view, seen)
      decreases |blocks| - b
    {
      seen := ZeroBlock(sgl, blocks, b, view, all, seen, was);
      sgl := sgl.nextSgl;
      b := b + 1;
    }
  }

  // ------------------------------------------------------------------ layout

  /** Bytes in entries `i` to `j` of a block. */
  function Capacity(b: Block, i: nat, j: nat, page: bool): nat
    requires i <= j <= |b.entrys|
    decreases j - i
  {
    if i == j then 0 else Size(b.entrys[i], page) + Capacity(b, i + 1, j, page)
  }

  /**
    The layout under which a scatter and a gather of `len` bytes meet the same spots: as long as
    bytes remain, the entries of a block that only the scatter visits hold nothing.
   */
  predicate LayoutOk(blocks: seq<Block>, b: nat, len: nat, page: bool)
    requires BlocksOk(blocks) && b <= |blocks|
    decreases |blocks| - b
  {
    b == |blocks| ||
    var n := Stride(blocks[b], Gathering);
    var own := Capacity(blocks[b], 0, n, page);
    len <= own ||
    (Capacity(blocks[b], n, ENTRY_PER_SGL, page) == 0 && LayoutOk(blocks, b + 1, len - own, page))
  }

  ghost function RangeSpots(k: nat, b: Block, i: nat, j: nat, page: bool): (ss: seq<Spot>)
    requires i <= j <= |b.entrys|
    ensures |ss| == Capacity(b, i, j, page) && forall x :: x in ss ==> x.b == k
    decreases j - i
  {
    if i == j then [] else EntrySpots(k, i, b.entrys[i], page) + RangeSpots(k, b, i + 1, j, page)
  }

  lemma {:induction false} BlockSpots(blocks: seq<Block>, b: nat, index: nat, w: Walk, page: bool)
    requires BlocksOk(blocks) && b < |blocks| && index <= Stride(blocks[b], w)
    ensures SpotsFrom(blocks, b, index, w, page) ==
            RangeSpots(b, blocks[b], index, Stride(blocks[b], w), page) + SpotsFrom(blocks, b + 1, 0, w, page)
    decreases Stride(blocks[b], w) - index
  {
    if index < Stride(blocks[b], w) {
      BlockSpots(blocks, b, index + 1, w, page);
    }
  }

  lemma {:induction false} RangeSplit(k: nat, b: Block, i: nat, j: nat, n: nat, page: bool)
    requires i <= j <= n <= |b.entrys|
    ensures RangeSpots(k, b, i, n, page) == RangeSpots(k, b, i, j, page) + RangeSpots(k, b, j, n, page)
    decreases j - i
  {
    if i < j {
      RangeSplit(k, b, i + 1, j, n, page);
    }
  }

  /** One block: the scatter meets what the gather meets, then the surplus of the block. */
  lemma BothWalks(blocks: seq<Block>, b: nat, page: bool) returns (own: seq<Spot>, surplus: seq<Spot>)
    requires BlocksOk(blocks) && b < |blocks|
    ensures SpotsFrom(blocks, b, 0, Gathering, page) == own + SpotsFrom(blocks, b + 1, 0, Gathering, page)
    ensures SpotsFrom(blocks, b, 0, Scattering, page) == own + surplus + SpotsFrom(blocks, b + 1, 0, Scattering, page)
    ensures |own| == Capacity(blocks[b], 0, Stride(blocks[b], Gathering), page)
    ensures |surplus| == Capacity(blocks[b], Stride(blocks[b], Gathering), ENTRY_PER_SGL, page)
    ensures (forall x :: x in own ==> x.b == b) && (forall x :: x in surplus ==> x.b == b)
  {
    var n := Stride(blocks[b], Gathering);
    BlockSpots(blocks, b, 0, Gathering, page);
    BlockSpots(blocks, b, 0, Scattering, page);
    RangeSplit(b, blocks[b], 0, n, ENTRY_PER_SGL, page);
    own, surplus := RangeSpots(b, blocks[b], 0, n, page), RangeSpots(b, blocks[b], n, ENTRY_PER_SGL, page);
  }

  ghost predicate LayoutStep(blocks: seq<Block>, b: nat, len: nat, page: bool, own: nat, surplus: nat)
    requires BlocksOk(blocks) && b < |blocks|
  {
    LayoutOk(blocks, b, len, page) <==> len <= own || (surplus == 0 && LayoutOk(blocks, b + 1, len - own, page))
  }

  /** The same, with the layout condition of the block in terms of the two. */
  lemma OneBlock(blocks: seq<Block>, b: nat, page: bool) returns (own: seq<Spot>, surplus: seq<Spot>)
    requires BlocksOk(blocks) && b < |blocks|
    ensures SpotsFrom(blocks, b, 0, Gathering, page) == own + SpotsFrom(blocks, b + 1, 0, Gathering, page)
    ensures SpotsFrom(blocks, b, 0, Scattering, page) == own + surplus + SpotsFrom(blocks, b + 1, 0, Scattering, page)
    ensures (forall x :: x in own ==> x.b == b) && (forall x :: x in surplus ==> x.b == b)
    ensures forall len: nat :: LayoutStep(blocks, b, len, page, |own|, |surplus|)
    ensures blocks[b].entrySumInSgl == ENTRY_PER_SGL ==> surplus == []
  {
    own, surplus := BothWalks(blocks, b, page);
  }

  /** A chain reduced to what matters for its layout: per block, the spots both walks meet and those only a scatter meets. */
  datatype Layers = End | Layer(b: nat, own: seq<Spot>, surplus: seq<Spot>, rest: Layers)

  ghost function GatherSpots(ls: Layers): seq<Spot> {
    match ls
    case End => []
    case Layer(_, own, _, rest) => own + GatherSpots(rest)
  }

  ghost function ScatterSpots(ls: Layers): seq<Spot> {
    match ls
    case End => []
    case Layer(_, own, surplus, rest) => own + surplus + ScatterSpots(rest)
  }

  ghost predicate LayersOk(ls: Layers, len: nat) {
    match ls
    case End => true
    case Layer(_, own, surplus, rest) => len <= |own| || (surplus == [] && LayersOk(rest, len - |own|))
  }

  /** Block numbers go up by one. */
  ghost predicate Numbered(ls: Layers, b: nat) {
    match ls
    case End => true
    case Layer(n, own, surplus, rest) =>
      n == b && (forall x :: x in own ==> x.b == b) && (forall x :: x in surplus ==> x.b == b) && Numbered(rest, b + 1)
  }

  lemma {:induction false} LayersOf(blocks: seq<Block>, b: nat, page: bool) returns (ls: Layers)
    requires BlocksOk(blocks) && b <= |blocks|
    ensures GatherSpots(ls) == SpotsFrom(blocks, b, 0, Gathering, page)
    ensures ScatterSpots(ls) == SpotsFrom(blocks, b, 0, Scattering, page)
    ensures Numbered(ls, b) && forall len: nat :: LayersOk(ls, len) <==> LayoutOk(blocks, b, len, page)
    decreases |blocks| - b
  {
    if b == |blocks| {
      ls := End;
    } else {
      var own, surplus := OneBlock(blocks, b, page);
      var rest := LayersOf(blocks, b + 1, page);
      ls := Layer(b, own, surplus, rest);
      forall len: nat
        ensures LayersOk(ls, len) <==> LayoutOk(blocks, b, len, page)
      {
        assert LayoutStep(blocks, b, len, page, |own|, |surplus|);
        assert len > |own| ==> (LayersOk(rest, len - |own|) <==> LayoutOk(blocks, b + 1, len - |own|, page));
      }
    }
  }

  lemma {:induction false} GatherFrom(ls: Layers, b: nat)
    requires Numbered(ls, b)
    ensures |GatherSpots(ls)| <= |ScatterSpots(ls)|
    ensures forall x :: x in GatherSpots(ls) ==> x.b >= b
  {
    if ls.Layer? {
      GatherFrom(ls.rest, b + 1);
    }
  }

  lemma SkippedSurplus(own: seq<Spot>, surplus: seq<Spot>, g: seq<Spot>, s: seq<Spot>, len: nat, b: nat)
    requires |own| < len <= |own + g| && len <= |own + surplus + s| && surplus != []
    requires (forall x :: x in surplus ==> x.b == b) && (forall x :: x in g ==> x.b >= b + 1)
    ensures (own + g)[..len] != (own + surplus + s)[..len]
  {
    var k := |own|;
    assert (own + g)[..len][k] == g[0] && (own + surplus + s)[..len][k] == surplus[0];
    assert g[0] in g && surplus[0] in surplus;
  }

  lemma SameBehind(own: seq<Spot>, g: seq<Spot>, s: seq<Spot>, len: nat)
    requires |own| <= len <= |own + g| && len <= |own + s|
    ensures (own + g)[..len] == (own + s)[..len] <==> g[..len - |own|] == s[..len - |own|]
  {
    assert (own + g)[..len] == own + g[..len - |own|];
    assert (own + s)[..len] == own + s[..len - |own|];
    assert (own + g)[..len][|own|..] == g[..len - |own|];
    assert (own + s)[..len][|own|..] == s[..len - |own|];
  }

  lemma FirstSpots(own: seq<Spot>, surplus: seq<Spot>, g: seq<Spot>, s: seq<Spot>, len: nat, b: nat)
    requires |g| <= |s| && len <= |own + g|
    requires (forall x :: x in surplus ==> x.b == b) && (forall x :: x in g ==> x.b >= b + 1)
    ensures (own + g)[..len] == (own + surplus + s)[..len] <==>
            len <= |own| || (|surplus| == 0 && g[..len - |own|] == s[..len - |own|])
  {
    if len <= |own| {
      assert (own + g)[..len] == own[..len] == (own + surplus + s)[..len];
    } else if surplus != [] {
      SkippedSurplus(own, surplus, g, s, len, b);
    } else {
      assert own + surplus == own;
      SameBehind(own, g, s, len);
    }
  }

  lemma {:induction false} LayersIff(ls: Layers, len: nat, b: nat)
    requires Numbered(ls, b) && len <= |GatherSpots(ls)| && len <= |ScatterSpots(ls)|
    ensures LayersOk(ls, len) <==> GatherSpots(ls)[..len] == ScatterSpots(ls)[..len]
  {
    if ls.Layer? {
      GatherFrom(ls.rest, b + 1);
      FirstSpots(ls.own, ls.surplus, GatherSpots(ls.rest), ScatterSpots(ls.rest), len, b);
      if len > |ls.own| {
        LayersIff(ls.rest, len - |ls.own|, b + 1);
      }
    }
  }

  /** The layout condition is exactly that both walks meet the same first `len` spots. */
  lemma LayoutIff(blocks: seq<Block>, len: nat, page: bool, g: seq<Spot>, s: seq<Spot>)
    requires BlocksOk(blocks) && g == Spots(blocks, Gathering, page) && s == Spots(blocks, Scattering, page)
    requires len <= |g|
    ensures |g| <= |s| && (LayoutOk(blocks, 0, len, page) <==> g[..len] == s[..len])
  {
    var ls := LayersOf(blocks, 0, page);
    GatherFrom(ls, 0);
    LayersIff(ls, len, 0);
  }

  /** Non-final blocks that are full satisfy the layout condition for every length. */
  lemma {:induction false} FullBlocks(blocks: seq<Block>, b: nat, len: nat, page: bool)
    requires BlocksOk(blocks) && b <= |blocks| && len <= |SpotsFrom(blocks, b, 0, Gathering, page)|
    requires forall i :: b <= i < |blocks| - 1 ==> blocks[i].entrySumInSgl == ENTRY_PER_SGL
    ensures LayoutOk(blocks, b, len, page)
    decreases |blocks| - b
  {
    if b < |blocks| {
      var own, surplus := OneBlock(blocks, b, page);
      assert LayoutStep(blocks, b, len, page, |own|, |surplus|);
      if len > |own| {
        FullBlocks(blocks, b + 1, len - |own|, page);
      }
    }
  }

  /** Entries of a block a walk looks at: all 64 when scattering, else those it declares, but one at least when gathering. */
  predicate Visits(b: Block, index: nat, w: Walk) {
    match w
    case Gathering => index < b.entrySumInSgl || index == 0
    case Scattering => index < 64
    case Declared => index < b.entrySumInSgl
  }

  /** A walk meets the bytes of those entries, 4096 of each in page mode, and no other ... */
  lemma {:induction false} SpotsMembers(blocks: seq<Block>, b: nat, index: nat, w: Walk, page: bool, x: Spot)
    requires BlocksOk(blocks)
    ensures x in SpotsFrom(blocks, b, index, w, page) <==>
            && (x.b > b || (x.b == b && x.index >= index)) && x.b < |blocks| && Visits(blocks[x.b], x.index, w)
            && x.index < 64 && x.entry == blocks[x.b].entrys[x.index] && x.at < (if page then 4096 else x.entry.len)
    decreases |blocks| - b, ENTRY_PER_SGL - index
  {
    if b < |blocks| {
      if index >= Stride(blocks[b], w) {
        SpotsMembers(blocks, b + 1, 0, w, page, x);
      } else {
        SpotsMembers(blocks, b, index + 1, w, page, x);
        var own := EntrySpots(b, index, blocks[b].entrys[index], page);
        assert x in own <==> x.b == b && x.index == index && x.entry == blocks[b].entrys[index] && x.at < |own| by {
          assert x.at < |own| ==> own[x.at] == Spot(b, index, blocks[b].entrys[index], x.at);
        }
      }
    }
  }

  predicate Precedes(x: Spot, y: Spot) {
    x.b < y.b || (x.b == y.b && (x.index < y.index || (x.index == y.index && x.at < y.at)))
  }

  ghost predicate Ascend(ss: seq<Spot>) {
    forall i, j :: 0 <= i < j < |ss| ==> Precedes(ss[i], ss[j])
  }

  /** ... block after block, entry after entry, byte after byte. */
  lemma {:induction false} SpotsAscend(blocks: seq<Block>, b: nat, index: nat, w: Walk, page: bool)
    requires BlocksOk(blocks)
    ensures Ascend(SpotsFrom(blocks, b, index, w, page))
    decreases |blocks| - b, ENTRY_PER_SGL - index
  {
    if b < |blocks| {
      if index >= Stride(blocks[b], w) {
        SpotsAscend(blocks, b + 1, 0, w, page);
      } else {
        SpotsAscend(blocks, b, index + 1, w, page);
        AscendBehind(b, index, blocks[b].entrys[index], page, SpotsFrom(blocks, b, index + 1, w, page)) by {
          forall x | x in SpotsFrom(blocks, b, index + 1, w, page)
            ensures x.b > b || (x.b == b && x.index > index)
          {
            SpotsMembers(blocks, b, index + 1, w, page, x);
          }
        }
      }
    }
  }

  lemma AscendBehind(b: nat, index: nat, e: Entry, page: bool, behind: seq<Spot>)
    requires Ascend(behind) && forall x :: x in behind ==> x.b > b || (x.b == b && x.index > index)
    ensures Ascend(EntrySpots(b, index, e, page) + behind)
  {
    var own := EntrySpots(b, index, e, page);
    var ss := own + behind;
    forall i, j | 0 <= i < j < |ss|
      ensures Precedes(ss[i], ss[j])
    {
      if i < |own| <= j {
        assert ss[j] == behind[j - |own|] && ss[j] in behind;
      }
    }
  }

  // ------------------------------------------------------------------ round trips

  /** Entries before which a spot of a walk from entry `index` of block `b` on does not lie. */
  predicate NotBefore(x: Spot, b: nat, index: nat) {
    x.b > b || (x.b == b && x.index >= index)
  }

  ghost predicate Once(ss: seq<Spot>) {
    forall i, j :: 0 <= i < j < |ss| ==> ss[i] != ss[j]
  }

  lemma OncePrepend(b: nat, index: nat, e: Entry, page: bool, behind: seq<Spot>)
    requires Once(behind) && forall x :: x in behind ==> NotBefore(x, b, index + 1)
    ensures Once(EntrySpots(b, index, e, page) + behind)
    ensures forall x :: x in EntrySpots(b, index, e, page) + behind ==> NotBefore(x, b, index)
  {
    var own := EntrySpots(b, index, e, page);
    forall i, j | 0 <= i < |own| && 0 <= j < |behind|
      ensures own[i] != behind[j]
    {
      assert behind[j] in behind;
    }
  }

  /** A walk meets no spot twice. */
  lemma {:induction false} WalkOnce(blocks: seq<Block>, b: nat, index: nat, w: Walk, page: bool)
    requires BlocksOk(blocks)
    ensures Once(SpotsFrom(blocks, b, index, w, page))
    ensures forall x :: x in SpotsFrom(blocks, b, index, w, page) ==> NotBefore(x, b, index)
    decreases |blocks| - b, ENTRY_PER_SGL - index
  {
    if b < |blocks| {
      if index >= Stride(blocks[b], w) {
        WalkOnce(blocks, b + 1, 0, w, page);
      } else {
        WalkOnce(blocks, b, index + 1, w, page);
        OncePrepend(b, index, blocks[b].entrys[index], page, SpotsFrom(blocks, b, index + 1, w, page));
      }
    }
  }

  /** The spots that the first `m` steps of one walk and the first `n` of another touch lie in different cells. */
  ghost predicate Apart(g: seq<Spot>, m: nat, s: seq<Spot>, n: nat)
    requires m <= |g| && n <= |s|
  {
    && (forall i, j :: 0 <= i < j < n ==> CellOf(s[i]) != CellOf(s[j]))
    && (forall i, j :: 0 <= i < m && 0 <= j < n && g[i] != s[j] ==> CellOf(g[i]) != CellOf(s[j]))
  }

  /** What has been stored was stored at some position ... */
  lemma {:induction false} StoredFrom(cells: seq<Cell>, data: seq<Byte>, k: nat, c: Cell) returns (i: nat)
    requires k <= |cells| && k <= |data| && c in StoreAll(cells, data, k)
    ensures i < k && cells[i] == c && StoreAll(cells, data, k)[c] == data[i]
  {
    if cells[k - 1] == c {
      i := k - 1;
    } else {
      i := StoredFrom(cells, data, k - 1, c);
    }
  }

  /** ... and what was stored at a position is there if no later one is the same cell. */
  lemma {:induction false} StoredAt(cells: seq<Cell>, data: seq<Byte>, k: nat, i: nat)
    requires i < k <= |cells| && k <= |data| && forall j :: i < j < k ==> cells[j] != cells[i]
    ensures cells[i] in StoreAll(cells, data, k) && StoreAll(cells, data, k)[cells[i]] == data[i]
  {
    if i < k - 1 {
      StoredAt(cells, data, k - 1, i);
    }
  }

  /** What `|data|` gathered bytes are after `data` has been scattered: `g` and `s` are the cells the two walks touch. */
  ghost function ReadBack(g: seq<Cell>, s: seq<Cell>, was: seq<Byte>, data: seq<Byte>): seq<Byte>
    requires |was| == |g| && |data| == |s|
  {
    Seen(was, g, StoreAll(s, data, |data|))
  }

  lemma SameSpotsReadBack(g: seq<Spot>, s: seq<Spot>, was: seq<Byte>, data: seq<Byte>)
    requires |data| == |was| <= |g| && |data| <= |s| && g[..|data|] == s[..|data|] && Apart(g, |data|, s, |data|)
    ensures ReadBack(First(g, |data|), First(s, |data|), was, data) == data
  {
    var n := |data|;
    forall o | 0 <= o < n
      ensures ReadBack(First(g, n), First(s, n), was, data)[o] == data[o]
    {
      assert g[o] == g[..n][o] == s[..n][o] == s[o];
      StoredAt(First(s, n), data, n, o);
    }
  }

  function Marked(n: nat, o: nat, mark: Byte): (d: seq<Byte>)
    ensures |d| == n && forall i :: 0 <= i < n ==> d[i] == if i == o then mark else 0
  {
    seq(n, i => if i == o then mark else 0)
  }

  /** A byte read from another spot than it was written to can be told from it, over whatever was there. */
  lemma Misread(g: seq<Spot>, s: seq<Spot>, m: nat, n: nat, o: nat, other: Byte, data: seq<Byte>)
    requires m <= |g| && n <= |s| && o < m && o < n && g[o] != s[o] && Apart(g, m, s, n)
    requires data == Marked(n, o, if other == 1 then 2 else 1)
    ensures ByteSeen(other, CellOf(g[o]), StoreAll(First(s, n), data, n)) != data[o]
  {
    var c := CellOf(g[o]);
    if c in StoreAll(First(s, n), data, n) {
      var k := StoredFrom(First(s, n), data, n, c);
      assert k != o;
    }
  }

  ghost predicate RoundTrips(g: seq<Cell>, s: seq<Cell>, was: seq<Byte>)
    requires |was| == |g| == |s|
  {
    forall data: seq<Byte> :: |data| == |s| ==> ReadBack(g, s, was, data) == data
  }

  lemma MisreadRoundTrip(g: seq<Spot>, s: seq<Spot>, was: seq<Byte>, o: nat)
    requires |was| <= |g| && |was| <= |s| && o < |was| && g[o] != s[o] && Apart(g, |was|, s, |was|)
    ensures !RoundTrips(First(g, |was|), First(s, |was|), was)
  {
    var n := |was|;
    var data := Marked(n, o, if was[o] == 1 then 2 else 1);
    Misread(g, s, n, n, o, was[o], data);
    assert ReadBack(First(g, n), First(s, n), was, data)[o] != data[o];
  }

  /** A scatter followed by a gather returns every data of length `len` exactly when the layout condition holds. */
  lemma RoundTripIff(blocks: seq<Block>, page: bool, was: seq<Byte>, g: seq<Spot>, s: seq<Spot>)
    requires BlocksOk(blocks) && g == Spots(blocks, Gathering, page) && s == Spots(blocks, Scattering, page)
    requires |was| <= |g| && |was| <= |s| && Apart(g, |was|, s, |was|)
    ensures LayoutOk(blocks, 0, |was|, page) <==> RoundTrips(First(g, |was|), First(s, |was|), was)
  {
    var n := |was|;
    LayoutIff(blocks, n, page, g, s);
    if g[..n] == s[..n] {
      forall data: seq<Byte> | |data| == n
        ensures ReadBack(First(g, n), First(s, n), was, data) == data
      {
        SameSpotsReadBack(g, s, was, data);
      }
    } else {
      var o :| 0 <= o < n && g[..n][o] != s[..n][o];
      MisreadRoundTrip(g, s, was, o);
    }
  }

  /** Scatter `data`, then gather as many bytes from the same list. */
  method StoreThenLoad(sgl: Block?, data: seq<Byte>, page: bool, ghost blocks: seq<Block>, ghost g: seq<Spot>,
                       ghost s: seq<Spot>)
    returns (back: seq<Byte>)
    requires Chain(sgl, blocks) && g == Spots(blocks, Gathering, page) && s == Spots(blocks, Scattering, page)
    requires |data| <= |g| && |data| <= |s| && InBounds(First(g, |data|)) && InBounds(First(s, |data|))
    modifies Arrays(First(s, |data|))
    ensures back == ReadBack(First(g, |data|), First(s, |data|), old(Load(First(g, |data|))), data)
    ensures LayoutOk(blocks, 0, |data|, page) && Apart(g, |data|, s, |data|) ==> back == data
  {
    ghost var cells := First(g, |data|);
    ghost var was := Load(cells);
    if LayoutOk(blocks, 0, |data|, page) && Apart(g, |data|, s, |data|) {
      LayoutIff(blocks, |data|, page, g, s);
      SameSpotsReadBack(g, s, was, data);
    }
    Scatter(sgl, data, page, blocks, s, cells);
    back := GatherEntries(sgl, |data|, page, blocks, g);
  }

  /** Storing what is there changes nothing. */
  lemma {:induction false} StoredAlready(cells: seq<Cell>, k: nat, c: Cell)
    requires InBounds(cells) && k <= |cells| && c in StoreAll(cells, Load(cells), k)
    ensures c.at < c.memory.Length && StoreAll(cells, Load(cells), k)[c] == c.memory[c.at]
  {
    if cells[k - 1] != c {
      StoredAlready(cells, k - 1, c);
    }
  }

  lemma StoredBack(view: seq<Cell>, cells: seq<Cell>)
    requires InBounds(view) && InBounds(cells)
    ensures Seen(Load(view), view, StoreAll(cells, Load(cells), |cells|)) == Load(view)
  {
    forall j | 0 <= j < |view|
      ensures Seen(Load(view), view, StoreAll(cells, Load(cells), |cells|))[j] == Load(view)[j]
    {
      if view[j] in StoreAll(cells, Load(cells), |cells|) {
        StoredAlready(cells, |cells|, view[j]);
      }
    }
  }

  /** Gather `len` bytes and scatter them back over the same list: no memory changes, wherever one looks. */
  method LoadThenStore(sgl: Block?, len: nat, page: bool, ghost blocks: seq<Block>, ghost g: seq<Spot>,
                       ghost s: seq<Spot>, ghost view: seq<Cell>)
    requires Chain(sgl, blocks) && g == Spots(blocks, Gathering, page) && s == Spots(blocks, Scattering, page)
    requires len <= |g| && len <= |s| && InBounds(First(g, len)) && LayoutOk(blocks, 0, len, page) && InBounds(view)
    modifies Arrays(First(s, len))
    ensures Load(view) == old(Load(view))
  {
    LayoutIff(blocks, len, page, g, s);
    ghost var cells := First(s, len);
    assert First(g, len) == cells by { assert g[..len] == s[..len]; }
    StoredBack(view, cells);
    var data := GatherEntries(sgl, len, page, blocks, g);
    Scatter(sgl, data, page, blocks, s, view);
  }

  // ------------------------------------------------------------------ read callback

  /** What `view` shows after `ReadCallback`: blanked if the length is unexpected, then the result on `cells`. */
  ghost function AfterRead(was: seq<Byte>, view: seq<Cell>, blank: bool, zeroed: set<Cell>, cells: seq<Cell>,
                           data: seq<Byte>): seq<Byte>
    requires |was| == |view| && |cells| == |data|
  {
    Seen(if blank then Blanked(was, view, zeroed) else was, view, StoreAll(cells, data, |data|))
  }

  /** The list branch of `ReadCallback`: on success blank if the length is unexpected, then scatter. */
  method ReadCallback(ret: int, results: seq<Byte>, sgl: Block?, len: nat, buildType: bool, ghost blocks: seq<Block>,
                      ghost s: seq<Spot>, ghost all: seq<Spot>, ghost view: seq<Cell>)
    requires Chain(sgl, blocks) && s == Spots(blocks, Scattering, buildType) && all == Spots(blocks, Declared, false)
    requires |results| % WORD <= |s| && InBounds(First(s, |results| % WORD)) && InBounds(view)
    requires |results| != len ==> InBounds(Cells(all))
    modifies Arrays(First(s, |results| % WORD)), if |results| != len then Arrays(Cells(all)) else {}
    ensures ret != 0 || sgl == null ==> Load(view) == old(Load(view))
    ensures ret == 0 && sgl != null ==>
      Load(view) == AfterRead(old(Load(view)), view, |results| != len, CellSet(all), First(s, |results| % WORD),
                              results[..|results| % WORD])
  {
    if ret == 0 && sgl != null {
      if |results| != len {
        ZeroFill(sgl, blocks, all, view);
      }
      Scatter(sgl, results[..|results| % WORD], buildType, blocks, s, view);
    }
  }

  ghost function Zeros(n: nat): (z: seq<Byte>)
    ensures |z| == n && forall i :: 0 <= i < n ==> z[i] == 0
  {
    seq(n, i => 0)
  }

  /** The zero-fill reaches every cell that a gather of `m` bytes reads beyond the first `n`. */
  ghost predicate Covered(g: seq<Spot>, n: nat, m: nat, zeroed: set<Cell>)
    requires n <= m <= |g|
  {
    forall o :: n <= o < m ==> CellOf(g[o]) in zeroed
  }

  /** After a read of `n` bytes, blanked before, `m` gathered bytes are the result and zeros, over any memory. */
  ghost predicate ResultThenZeros(g: seq<Cell>, zeroed: set<Cell>, s: seq<Cell>)
    requires |s| <= |g|
  {
    forall data: seq<Byte>, was: seq<Byte> :: |data| == |s| && |was| == |g| ==>
      AfterRead(was, g, true, zeroed, s, data) == data + Zeros(|g| - |s|)
  }

  /** Beyond the result nothing is stored where a gather reads. */
  lemma NotStored(g: seq<Spot>, m: nat, s: seq<Spot>, n: nat, data: seq<Byte>, o: nat)
    requires n <= o < m <= |g| && n <= |s| && n == |data| && g[..n] == s[..n] && Once(g) && Apart(g, m, s, n)
    ensures CellOf(g[o]) !in StoreAll(First(s, n), data, n)
  {
    forall k | 0 <= k < n
      ensures s[k] != g[o]
    {
      assert g[k] == g[..n][k] == s[..n][k] == s[k];
    }
    if CellOf(g[o]) in StoreAll(First(s, n), data, n) {
      var k := StoredFrom(First(s, n), data, n, CellOf(g[o]));
    }
  }

  lemma ShortRead(g: seq<Spot>, m: nat, s: seq<Spot>, zeroed: set<Cell>, was: seq<Byte>, data: seq<Byte>)
    requires |data| <= m == |was| <= |g| && |data| <= |s| && g[..|data|] == s[..|data|] && Once(g)
    requires Apart(g, m, s, |data|) && Covered(g, |data|, m, zeroed)
    ensures AfterRead(was, First(g, m), true, zeroed, First(s, |data|), data) == data + Zeros(m - |data|)
  {
    var n, r := |data|, AfterRead(was, First(g, m), true, zeroed, First(s, |data|), data);
    forall o | 0 <= o < m
      ensures r[o] == (data + Zeros(m - n))[o]
    {
      if o < n {
        assert g[o] == g[..n][o] == s[..n][o] == s[o];
        StoredAt(First(s, n), data, n, o);
      } else {
        NotStored(g, m, s, n, data, o);
      }
    }
  }

  /** Memory of ones shows through where the zero-fill does not reach. */
  lemma NotZeroed(g: seq<Spot>, m: nat, s: seq<Spot>, n: nat, zeroed: set<Cell>, o: nat)
    requires n <= o < m <= |g| && n <= |s| && CellOf(g[o]) !in zeroed
    requires g[..n] == s[..n] && Once(g) && Apart(g, m, s, n)
    ensures !ResultThenZeros(First(g, m), zeroed, First(s, n))
  {
    var data, was: seq<Byte> := Zeros(n), seq(m, i => 1);
    var r := AfterRead(was, First(g, m), true, zeroed, First(s, n), data);
    NotStored(g, m, s, n, data, o);
    assert r[o] == 1 && (data + Zeros(m - n))[o] == 0;
  }

  lemma NotScattered(g: seq<Spot>, m: nat, s: seq<Spot>, n: nat, zeroed: set<Cell>, o: nat)
    requires o < n <= m <= |g| && n <= |s| && g[o] != s[o] && Apart(g, m, s, n)
    ensures !ResultThenZeros(First(g, m), zeroed, First(s, n))
  {
    var was: seq<Byte> := Zeros(m);
    var data := Marked(n, o, 1);
    Misread(g, s, m, n, o, 0, data);
    assert Blanked(was, First(g, m), zeroed)[o] == 0;
    assert AfterRead(was, First(g, m), true, zeroed, First(s, n), data)[o] != (data + Zeros(m - n))[o];
  }

  /**
    In either mode: after a read of `n` bytes with an unexpected length, `m` gathered bytes are the
    result and then zeros, for every result and every prior memory, exactly when the layout condition
    holds for `n` and the zero-fill reaches all that the gather reads beyond.
   */
  lemma ShortReadIff(blocks: seq<Block>, page: bool, n: nat, m: nat, g: seq<Spot>, s: seq<Spot>, zeroed: set<Cell>)
    requires BlocksOk(blocks) && g == Spots(blocks, Gathering, page) && s == Spots(blocks, Scattering, page)
    requires n <= m <= |g| && n <= |s| && Apart(g, m, s, n)
    ensures LayoutOk(blocks, 0, n, page) && Covered(g, n, m, zeroed) <==>
            ResultThenZeros(First(g, m), zeroed, First(s, n))
  {
    LayoutIff(blocks, n, page, g, s);
    WalkOnce(blocks, 0, 0, Gathering, page);
    if g[..n] != s[..n] {
      var o :| 0 <= o < n && g[..n][o] != s[..n][o];
      NotScattered(g, m, s, n, zeroed, o);
    } else if !Covered(g, n, m, zeroed) {
      var o :| n <= o < m && CellOf(g[o]) !in zeroed;
      NotZeroed(g, m, s, n, zeroed, o);
    } else {
      forall data: seq<Byte>, was: seq<Byte> | |data| == n && |was| == m
        ensures AfterRead(was, First(g, m), true, zeroed, First(s, n), data) == data + Zeros(m - n)
      {
        ShortRead(g, m, s, zeroed, was, data);
      }
    }
  }

  /** In plain mode the zero-fill reaches everything if every block declares an entry. */
  lemma {:induction false} DeclaredIsGathered(blocks: seq<Block>, b: nat, index: nat)
    requires BlocksOk(blocks) && b <= |blocks| && forall i :: 0 <= i < |blocks| ==> blocks[i].entrySumInSgl > 0
    ensures SpotsFrom(blocks, b, index, Declared, false) == SpotsFrom(blocks, b, index, Gathering, false)
    decreases |blocks| - b, ENTRY_PER_SGL - index
  {
    if b < |blocks| {
      if index < blocks[b].entrySumInSgl {
        DeclaredIsGathered(blocks, b, index + 1);
      } else {
        DeclaredIsGathered(blocks, b + 1, 0);
      }
    }
  }

  /** Every block declares an entry and, in page mode, every declared entry holds a page. */
  ghost predicate Declares(blocks: seq<Block>, page: bool)
    requires BlocksOk(blocks)
  {
    forall b :: 0 <= b < |blocks| ==>
      && blocks[b].entrySumInSgl > 0
      && (page ==> forall i :: 0 <= i < blocks[b].entrySumInSgl ==> blocks[b].entrys[i].len >= DEFAULT_SGL_PAGE)
  }

  lemma EntryWithin(b: nat, index: nat, e: Entry, page: bool)
    requires Size(e, page) <= e.len
    ensures CellSet(EntrySpots(b, index, e, page)) <= CellSet(EntrySpots(b, index, e, false))
  {
    var some, all := EntrySpots(b, index, e, page), EntrySpots(b, index, e, false);
    forall i | 0 <= i < |some|
      ensures CellOf(some[i]) in CellSet(all)
    {
      assert some[i] == all[i];
    }
  }

  lemma {:induction false} GatheredWithin(blocks: seq<Block>, b: nat, index: nat, page: bool)
    requires BlocksOk(blocks) && b <= |blocks| && Declares(blocks, page)
    ensures CellSet(SpotsFrom(blocks, b, index, Gathering, page)) <= CellSet(SpotsFrom(blocks, b, index, Declared, false))
    decreases |blocks| - b, ENTRY_PER_SGL - index
  {
    if b < |blocks| {
      if index < blocks[b].entrySumInSgl {
        var e := blocks[b].entrys[index];
        GatheredWithin(blocks, b, index + 1, page);
        EntryWithin(b, index, e, page);
        CellSetConcat(EntrySpots(b, index, e, page), SpotsFrom(blocks, b, index + 1, Gathering, page));
        CellSetConcat(EntrySpots(b, index, e, false), SpotsFrom(blocks, b, index + 1, Declared, false));
      } else {
        GatheredWithin(blocks, b + 1, 0, page);
      }
    }
  }

  /** Then the zero-fill reaches everything a gather reads. */
  lemma AllCovered(blocks: seq<Block>, page: bool, n: nat, m: nat, g: seq<Spot>)
    requires BlocksOk(blocks) && Declares(blocks, page) && g == Spots(blocks, Gathering, page) && n <= m <= |g|
    ensures Covered(g, n, m, CellSet(Spots(blocks, Declared, false)))
  {
    GatheredWithin(blocks, 0, 0, page);
    assert forall o :: 0 <= o < |g| ==> CellOf(g[o]) in CellSet(g);
  }

  /** One entry of less than a page in page mode: a short read of nothing leaves the rest of the page as it was. */
  lemma PageNotCovered(b: Block, g: seq<Spot>)
    requires BlockOk(b) && b.entrySumInSgl == 1 && b.entrys[0].len < DEFAULT_SGL_PAGE && g == Spots([b], Gathering, true)
    ensures |g| == DEFAULT_SGL_PAGE && !Covered(g, 0, |g|, CellSet(Spots([b], Declared, false)))
    ensures !ResultThenZeros(First(g, |g|), CellSet(Spots([b], Declared, false)), First(Spots([b], Scattering, true), 0))
  {
    var e := b.entrys[0];
    OneEntry(b, Gathering, true);
    OneEntry(b, Declared, false);
    var last := DEFAULT_SGL_PAGE - 1;
    assert g[last] == Spot(0, 0, e, last);
    var all := Spots([b], Declared, false);
    assert forall i :: 0 <= i < |all| ==> CellOf(all[i]).at < e.start + e.len;
    assert CellOf(g[last]) !in CellSet(all);
    ShortReadIff([b], true, 0, |g|, g, Spots([b], Scattering, true), CellSet(all));
  }

  /** A block that declares no entry is not blanked, but a gather looks at its first entry. */
  lemma UndeclaredNotCovered(b: Block, g: seq<Spot>)
    requires BlockOk(b) && b.entrySumInSgl == 0 && b.entrys[0].len > 0 && g == Spots([b], Gathering, false)
    ensures |g| == b.entrys[0].len && !Covered(g, 0, |g|, CellSet(Spots([b], Declared, false)))
    ensures !ResultThenZeros(First(g, |g|), CellSet(Spots([b], Declared, false)), First(Spots([b], Scattering, false), 0))
  {
    OneEntry(b, Gathering, false);
    assert SpotsFrom([b], 0, 0, Declared, false) == SpotsFrom([b], 1, 0, Declared, false) == [];
    assert CellOf(g[0]) !in CellSet([]);
    ShortReadIff([b], false, 0, |g|, g, Spots([b], Scattering, false), CellSet(Spots([b], Declared, false)));
  }

  lemma OneEntry(b: Block, w: Walk, page: bool)
    requires BlockOk(b) && Stride(b, w) == 1
    ensures Spots([b], w, page) == EntrySpots(0, 0, b.entrys[0], page)
  {
    assert SpotsFrom([b], 0, 1, w, page) == SpotsFrom([b], 1, 0, w, page) == [];
  }

  lemma ShortReadResult(blocks: seq<Block>, page: bool, m: nat, g: seq<Spot>, s: seq<Spot>, zeroed: set<Cell>,
                        was: seq<Byte>, data: seq<Byte>)
    requires BlocksOk(blocks) && g == Spots(blocks, Gathering, page) && s == Spots(blocks, Scattering, page)
    requires |data| <= m == |was| <= |g| && |data| <= |s| && Apart(g, m, s, |data|)
    requires LayoutOk(blocks, 0, |data|, page) && Covered(g, |data|, m, zeroed)
    ensures AfterRead(was, First(g, m), true, zeroed, First(s, |data|), data) == data + Zeros(m - |data|)
  {
    ShortReadIff(blocks, page, |data|, m, g, s, zeroed);
  }

  /** A read of unexpected length in either mode, then a gather of `m` bytes. */
  method ReadThenGather(results: seq<Byte>, sgl: Block, len: nat, m: nat, page: bool, ghost blocks: seq<Block>,
                        ghost g: seq<Spot>, ghost s: seq<Spot>, ghost all: seq<Spot>)
    returns (back: seq<Byte>)
    requires Chain(sgl, blocks) && g == Spots(blocks, Gathering, page) && s == Spots(blocks, Scattering, page)
    requires all == Spots(blocks, Declared, false) && InBounds(Cells(all))
    requires |results| != len && |results| < WORD && m <= |g| && |results| <= |s|
    requires InBounds(First(g, m)) && InBounds(First(s, |results|))
    modifies Arrays(First(s, |results|)), Arrays(Cells(all))
    ensures back == AfterRead(old(Load(First(g, m))), First(g, m), true, CellSet(all), First(s, |results|), results)
  {
    assert |results| % WORD == |results| && results[..|results|] == results;
    ReadCallback(0, results, sgl, len, page, blocks, s, all, First(g, m));
    back := GatherEntries(sgl, m, page, blocks, g);
  }

  /** A short read leaves the result followed by zeros. */
  method ShortReadCallback(results: seq<Byte>, sgl: Block, len: nat, m: nat, page: bool, ghost blocks: seq<Block>,
                           ghost g: seq<Spot>, ghost s: seq<Spot>, ghost all: seq<Spot>)
    returns (back: seq<Byte>)
    requires Chain(sgl, blocks) && g == Spots(blocks, Gathering, page) && s == Spots(blocks, Scattering, page)
    requires all == Spots(blocks, Declared, false) && InBounds(Cells(all))
    requires |results| != len && |results| < WORD && |results| <= m <= |g| && |results| <= |s|
    requires InBounds(First(g, m)) && InBounds(First(s, |results|)) && Apart(g, m, s, |results|)
    requires LayoutOk(blocks, 0, |results|, page) && Covered(g, |results|, m, CellSet(all))
    modifies Arrays(First(s, |results|)), Arrays(Cells(all))
    ensures back == results + Zeros(m - |results|)
  {
    ghost var was := Load(First(g, m));
    back := ReadThenGather(results, sgl, len, m, page, blocks, g, s, all);
    ShortReadResult(blocks, page, m, g, s, CellSet(all), was, results);
  }
}
