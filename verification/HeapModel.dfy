/**
 * The allocator's heap as a value: raw bytes, list heads, and the bookkeeping that gives them
 * meaning. Blocks never overlap; every block is on the free list of its bucket or live; links
 * and headers are kept in the blocks themselves, out of the way of every live payload.
 */
module HeapModel {
  import opened Lists
  import opened Bytes
  import opened Placement

  const MAGIC: byte := 0xef

  /**
   * `carved` gives the bucket of every block ever carved, `frees` the free list of every bucket,
   * `live` the block of every payload handed out and not yet freed, and `holder` its inverse.
   */
  datatype Heap = Heap(mem: Memory, nextf: seq<nat>, coreBase: nat,
                       carved: map<nat, nat>, frees: seq<seq<nat>>, live: map<nat, nat>, holder: map<nat, nat>)

  /** The k-th block of a list, or the null pointer past its end. */
  function At(l: seq<nat>, k: nat): nat {
    if k < |l| then l[k] else 0
  }

  /** Blocks lie inside the part of the arena given out so far, aligned, and apart from each other. */
  ghost predicate Apart(carved: map<nat, nat>, coreBase: nat) {
    && (forall a | a in carved :: 16 <= a && a % 16 == 0 && carved[a] <= 26 && a + Size(carved[a]) <= coreBase)
    && (forall a, b | a in carved && b in carved && a < b :: a + Size(carved[a]) <= b)
  }

  /** The list heads and the links in memory spell out the free lists. */
  ghost predicate Linked(mem: Memory, nextf: seq<nat>, frees: seq<seq<nat>>) {
    && |nextf| == |frees| == NBUCKETS
    && (forall i | 0 <= i < NBUCKETS :: nextf[i] == At(frees[i], 0))
    && (forall i, k | 0 <= i < NBUCKETS && 0 <= k < |frees[i]| ::
          frees[i][k] + WORD <= |mem| && Load(mem, frees[i][k]) == At(frees[i], k + 1))
  }

  /** Every block is free, in its own bucket's list and once, or it is live, for one payload. */
  ghost predicate Owned(carved: map<nat, nat>, frees: seq<seq<nat>>, live: map<nat, nat>, holder: map<nat, nat>) {
    && |frees| == NBUCKETS
    && (forall i | 0 <= i < NBUCKETS :: NoDup(frees[i]))
    && (forall i, x | 0 <= i < NBUCKETS && x in frees[i] :: x in carved && carved[x] == i && x !in holder)
    && (forall p | p in live :: live[p] in holder && holder[live[p]] == p)
    && (forall a | a in holder :: a in carved && holder[a] in live && live[holder[a]] == a)
    && (forall a | a in carved :: carved[a] < NBUCKETS && (a in frees[carved[a]] || a in holder))
  }

  predicate Header(mem: Memory, p: nat, a: nat, b: nat)
    requires OVERHEAD <= p <= |mem|
  {
    Load(mem, p - OVERHEAD) == p - a && mem[p - WORD] == MAGIC && mem[p - WORD + 1] == b
  }

  /** Every payload starts past its header, inside its block, and the header in front of it is intact. */
  ghost predicate Headed(mem: Memory, carved: map<nat, nat>, live: map<nat, nat>) {
    forall p | p in live :: live[p] in carved && WellHeaded(mem, p, live[p], carved[live[p]])
  }

  predicate WellHeaded(mem: Memory, p: nat, a: nat, b: nat) {
    a + OVERHEAD <= p <= a + Size(b) <= |mem| && Header(mem, p, a, b)
  }

  /** The end of what has been given out; core_base itself can be rounded past the end of the arena. */
  function Top(h: Heap): nat {
    if h.coreBase <= |h.mem| then h.coreBase else |h.mem|
  }

  ghost predicate Inv(h: Heap) {
    && |h.mem| <= TWO64
    && Apart(h.carved, Top(h))
    && Linked(h.mem, h.nextf, h.frees)
    && Owned(h.carved, h.frees, h.live, h.holder)
    && Headed(h.mem, h.carved, h.live)
  }

  /** Where the block of a live payload ends. */
  function End(h: Heap, p: nat): nat
    requires p in h.live && h.live[p] in h.carved
  {
    h.live[p] + Size(h.carved[h.live[p]])
  }

  // ----- memory changes that touch no link and no header -----

  /** No free block begins, and no live header stands, between `lo` and `hi`. */
  ghost predicate Quiet(frees: seq<seq<nat>>, live: map<nat, nat>, lo: nat, hi: nat) {
    && (forall i, x | 0 <= i < |frees| && x in frees[i] :: x + WORD <= lo || hi <= x)
    && (forall p | p in live :: p <= lo || hi + OVERHEAD <= p)
  }

  lemma QuietLinks(mem: Memory, mem': Memory, nextf: seq<nat>, frees: seq<seq<nat>>, live: map<nat, nat>,
      lo: nat, hi: nat)
    requires Linked(mem, nextf, frees) && Quiet(frees, live, lo, hi)
    requires Same(mem, mem', 0, lo) && Same(mem, mem', hi, |mem|)
    ensures Linked(mem', nextf, frees)
  {
    forall i, k | 0 <= i < NBUCKETS && 0 <= k < |frees[i]|
      ensures Load(mem', frees[i][k]) == At(frees[i], k + 1)
    {
      assert frees[i][k] in frees[i];
      LoadSame(mem, mem', frees[i][k]);
    }
  }

  lemma QuietHeaders(mem: Memory, mem': Memory, carved: map<nat, nat>, frees: seq<seq<nat>>, live: map<nat, nat>,
      lo: nat, hi: nat)
    requires Headed(mem, carved, live) && Quiet(frees, live, lo, hi)
    requires Same(mem, mem', 0, lo) && Same(mem, mem', hi, |mem|)
    ensures Headed(mem', carved, live)
  {
    forall p | p in live
      ensures WellHeaded(mem', p, live[p], carved[live[p]])
    {
      LoadSame(mem, mem', p - OVERHEAD);
    }
  }

  lemma FreeIsElsewhere(h: Heap, i: nat, x: nat, p: nat)
    requires Inv(h) && p in h.live && i < NBUCKETS && x in h.frees[i]
    ensures x + WORD <= h.live[p] || End(h, p) <= x
  {
    hide Linked, Headed, Size;
    assert x != h.live[p];
    PageFits(h.carved[x]);
  }

  lemma LiveIsElsewhere(h: Heap, q: nat, p: nat)
    requires Inv(h) && p in h.live && q in h.live && p != q
    ensures End(h, q) <= h.live[p] || End(h, p) + OVERHEAD <= q
    ensures End(h, q) <= h.live[p] || End(h, p) <= h.live[q]
  {
    hide Linked, Size, Header;
    assert h.live[q] != h.live[p];
  }

  lemma LiveIsInside(h: Heap, p: nat)
    requires Inv(h) && p in h.live
    ensures h.live[p] + OVERHEAD <= p <= End(h, p) <= Top(h) && h.carved[h.live[p]] <= 26
  {
    hide Linked, Size, Header;
  }

  /** The payload of a live block is quiet, and so is its whole block but for its own header. */
  lemma PayloadIsQuiet(h: Heap, p: nat)
    requires Inv(h) && p in h.live
    ensures Quiet(h.frees, h.live, p, End(h, p))
    ensures Quiet(h.frees, h.live - {p}, h.live[p], End(h, p))
  {
    hide Inv;
    Shape(h);
    LiveIsInside(h, p);
    forall i, x | 0 <= i < |h.frees| && x in h.frees[i] && i < NBUCKETS
      ensures x + WORD <= h.live[p] || End(h, p) <= x
    {
      FreeIsElsewhere(h, i, x, p);
    }
    forall q | q in h.live && q != p && h.live[q] in h.carved
      ensures q <= h.live[p] || End(h, p) + OVERHEAD <= q
    {
      LiveIsElsewhere(h, q, p);
      LiveIsInside(h, q);
    }
  }

  lemma Shape(h: Heap)
    requires Inv(h)
    ensures |h.frees| == NBUCKETS && forall q | q in h.live :: h.live[q] in h.carved
  {
  }

  // ----- what the allocator shows its callers -----

  ghost function Payload(h: Heap, p: nat): Memory
    requires Inv(h) && p in h.live
  {
    LiveIsInside(h, p);
    h.mem[p..End(h, p)]
  }

  /** The usable bytes of every live payload. */
  ghost function Contents(h: Heap): (c: map<nat, Memory>)
    requires Inv(h)
  {
    map p | p in h.live :: Payload(h, p)
  }

  lemma ContentsKeys(h: Heap)
    requires Inv(h)
    ensures Contents(h).Keys == h.live.Keys
  {
  }

  lemma ContentsOf(h: Heap, p: nat)
    requires Inv(h) && p in h.live
    ensures h.live[p] in h.carved && p <= End(h, p) <= |h.mem| && p in Contents(h)
      && Contents(h)[p] == h.mem[p..End(h, p)]
  {
    LiveIsInside(h, p);
  }

  function Poke(mem: Memory, x: nat, v: byte): (r: Memory)
    requires x < |mem|
  {
    mem[x := v]
  }

  function Written(h: Heap, x: nat, v: byte): Heap
    requires x < |h.mem|
  {
    h.(mem := Poke(h.mem, x, v))
  }

  /** One payload more, of `n` usable bytes; the others have the bytes they had. */
  ghost predicate Adds(c: map<nat, Memory>, c': map<nat, Memory>, p: nat, n: nat) {
    && p !in c && c'.Keys == c.Keys + {p} && |c'[p]| == n
    && forall q | q in c :: c'[q] == c[q]
  }

  /** A payload whose block and bytes are as before shows as before. */
  lemma ContentsSame(h: Heap, h': Heap, q: nat)
    requires Inv(h) && Inv(h') && q in h.live && q in h'.live && h'.live[q] == h.live[q]
    requires h.live[q] in h.carved && h.live[q] in h'.carved && h'.carved[h.live[q]] == h.carved[h.live[q]]
    requires Same(h.mem, h'.mem, q, End(h, q))
    ensures q in Contents(h) && q in Contents(h') && Contents(h')[q] == Contents(h)[q]
  {
    hide Inv, Contents, Size;
    ContentsOf(h, q);
    ContentsOf(h', q);
    assert h.mem[q..End(h, q)] == h'.mem[q..End(h, q)];
  }

  lemma WriteInv(h: Heap, p: nat, x: nat, v: byte)
    requires Inv(h) && p in h.live && h.live[p] in h.carved && p <= x < End(h, p) <= |h.mem|
    ensures Inv(Written(h, x, v))
  {
    var mem' := Poke(h.mem, x, v);
    PayloadIsQuiet(h, p);
    hide Linked, Headed, Quiet, Owned, Apart, End;
    QuietLinks(h.mem, mem', h.nextf, h.frees, h.live, p, End(h, p));
    QuietHeaders(h.mem, mem', h.carved, h.frees, h.live, p, End(h, p));
  }

  lemma WriteBytes(h: Heap, p: nat, x: nat, v: byte)
    requires Inv(h) && p in h.live && h.live[p] in h.carved && p <= x < End(h, p) <= |h.mem| && Inv(Written(h, x, v))
    ensures p in Contents(h) && x - p < |Contents(h)[p]| && p in Contents(Written(h, x, v))
    ensures Contents(Written(h, x, v))[p] == Poke(Contents(h)[p], x - p, v)
  {
    hide Inv, Contents, Size;
    ContentsOf(h, p);
    ContentsOf(Written(h, x, v), p);
  }

  /** A caller's write inside a payload changes that payload and nothing else. */
  lemma WriteKeeps(h: Heap, p: nat, x: nat, v: byte)
    requires Inv(h) && p in h.live && h.live[p] in h.carved && p <= x < End(h, p)
    ensures x < |h.mem| && Inv(Written(h, x, v)) && p in Contents(h) && x - p < |Contents(h)[p]|
    ensures Contents(Written(h, x, v)) == Contents(h)[p := Poke(Contents(h)[p], x - p, v)]
  {
    hide Inv, Contents, Size, Poke;
    LiveIsInside(h, p);
    InArena(h);
    WriteInv(h, p, x, v);
    var h' := Written(h, x, v);
    WriteBytes(h, p, x, v);
    Shape(h);
    ContentsKeys(h);
    ContentsKeys(h');
    forall q | q in h.live && q != p
      ensures q in Contents(h) && q in Contents(h') && Contents(h')[q] == Contents(h)[q]
    {
      LiveIsElsewhere(h, q, p);
      LiveIsInside(h, q);
      WriteElsewhere(h.mem, x, v, q, End(h, q));
      ContentsSame(h, h', q);
    }
  }

  lemma WriteElsewhere(mem: Memory, x: nat, v: byte, lo: nat, hi: nat)
    requires x < |mem| && (hi <= x || x < lo)
    ensures Same(mem, Poke(mem, x, v), lo, hi)
  {
  }

  lemma InArena(h: Heap)
    requires Inv(h)
    ensures Top(h) <= |h.mem| <= TWO64
  {
  }

  // ----- granting a free block -----

  function SetHeader(mem: Memory, p: nat, pad: nat, b: byte): (r: Memory)
    requires OVERHEAD <= p <= |mem|
    ensures |r| == |mem|
  {
    Store(mem, p - OVERHEAD, pad)[p - WORD := MAGIC][p - WORD + 1 := b]
  }

  lemma HeaderIsSet(mem: Memory, p: nat, pad: nat, b: byte)
    requires OVERHEAD <= p <= |mem| && pad < TWO64 && pad <= p
    ensures Header(SetHeader(mem, p, pad, b), p, p - pad, b)
    ensures Same(mem, SetHeader(mem, p, pad, b), 0, p - OVERHEAD) && Same(mem, SetHeader(mem, p, pad, b), p, |mem|)
  {
    LoadStored(mem, p - OVERHEAD, pad);
    LoadSame(Store(mem, p - OVERHEAD, pad), SetHeader(mem, p, pad, b), p - OVERHEAD);
  }

  function Granted(h: Heap, b: byte, p: nat): Heap
    requires b < |h.frees| && h.frees[b] != [] && b < |h.nextf| && h.frees[b][0] <= p && OVERHEAD <= p <= |h.mem|
  {
    var a := h.frees[b][0];
    Heap(SetHeader(h.mem, p, p - a, b), h.nextf[b := At(h.frees[b], 1)], h.coreBase,
         h.carved, h.frees[b := h.frees[b][1..]], h.live[p := a], h.holder[a := p])
  }

  lemma PopLinks(mem: Memory, nextf: seq<nat>, frees: seq<seq<nat>>, b: nat)
    requires Linked(mem, nextf, frees) && b < NBUCKETS && frees[b] != []
    ensures Linked(mem, nextf[b := At(frees[b], 1)], frees[b := frees[b][1..]])
  {
    var frees' := frees[b := frees[b][1..]];
    forall i, k | 0 <= i < NBUCKETS && 0 <= k < |frees'[i]|
      ensures frees'[i][k] + WORD <= |mem| && Load(mem, frees'[i][k]) == At(frees'[i], k + 1)
    {
      if i == b {
        assert frees'[b][k] == frees[b][k + 1];
      }
    }
  }

  lemma FreeBlock(h: Heap, b: nat)
    requires Inv(h) && b < NBUCKETS && h.frees[b] != []
    ensures var a := h.frees[b][0];
            && a in h.carved && h.carved[a] == b <= 26 && 16 <= a && a % 16 == 0 && a + Size(b) <= Top(h) <= |h.mem|
            && h.nextf[b] == a && Load(h.mem, a) == At(h.frees[b], 1)
            && a !in h.holder && |h.nextf| == NBUCKETS
  {
    hide Headed, Size, Load;
    assert h.frees[b][0] in h.frees[b];
  }

  lemma FreesAreApart(h: Heap, b: nat, i: nat, x: nat)
    requires Inv(h) && b < NBUCKETS && h.frees[b] != [] && i < NBUCKETS && x in h.frees[i] && x != h.frees[b][0]
    ensures x + WORD <= h.frees[b][0] || h.frees[b][0] + Size(b) <= x
  {
    FreeBlock(h, b);
    hide Linked, Headed, Size;
    PageFits(h.carved[x]);
  }

  lemma FreeAndLiveAreApart(h: Heap, b: nat, q: nat)
    requires Inv(h) && b < NBUCKETS && h.frees[b] != [] && q in h.live
    ensures var a := h.frees[b][0]; End(h, q) <= a || a + Size(b) <= h.live[q]
  {
    FreeBlock(h, b);
    hide Linked, Headed, Size;
    assert h.live[q] != h.frees[b][0];
  }

  /** The first block of a list is far from everything else. */
  lemma FreeIsQuiet(h: Heap, b: nat)
    requires Inv(h) && b < NBUCKETS && h.frees[b] != []
    ensures var a := h.frees[b][0]; Quiet(h.frees[b := h.frees[b][1..]], h.live, a, a + Size(b))
  {
    var a := h.frees[b][0];
    var frees' := h.frees[b := h.frees[b][1..]];
    Shape(h);
    hide Inv, Size;
    forall i, x | 0 <= i < |frees'| && x in frees'[i]
      ensures x + WORD <= a || a + Size(b) <= x
    {
      assert x in h.frees[i] && x != a by { NotAgain(h, b, i, x); }
      FreesAreApart(h, b, i, x);
    }
    forall q | q in h.live
      ensures q <= a || a + Size(b) + OVERHEAD <= q
    {
      LiveIsInside(h, q);
      FreeAndLiveAreApart(h, b, q);
    }
  }

  lemma NotAgain(h: Heap, b: nat, i: nat, x: nat)
    requires Inv(h) && b < NBUCKETS && h.frees[b] != [] && i < NBUCKETS
    requires x in h.frees[b := h.frees[b][1..]][i]
    ensures x in h.frees[i] && x != h.frees[b][0]
  {
    FreeBlock(h, b);
    hide Linked, Headed, Apart;
  }

  lemma GrantOwned(carved: map<nat, nat>, frees: seq<seq<nat>>, live: map<nat, nat>, holder: map<nat, nat>,
      b: nat, p: nat)
    requires Owned(carved, frees, live, holder) && b < NBUCKETS && frees[b] != [] && p !in live
    ensures Owned(carved, frees[b := frees[b][1..]], live[p := frees[b][0]], holder[frees[b][0] := p])
  {
    hide NoDup;
    PopFrees(carved, frees, live, holder, b);
  }

  lemma PopFrees(carved: map<nat, nat>, frees: seq<seq<nat>>, live: map<nat, nat>, holder: map<nat, nat>, b: nat)
    requires Owned(carved, frees, live, holder) && b < NBUCKETS && frees[b] != []
    ensures var a, frees' := frees[b][0], frees[b := frees[b][1..]];
            && a in frees[b] && NoDup(frees'[b])
            && (forall i, x | 0 <= i < NBUCKETS && x in frees'[i] :: x in frees[i] && x != a)
            && (forall c | c in carved && c != a && c in frees[carved[c]] :: c in frees'[carved[c]])
  {
    hide NoDup;
    PopMembers(frees[b]);
    var a, frees' := frees[b][0], frees[b := frees[b][1..]];
    assert a in frees[b] && frees'[b] == frees[b][1..];
    forall i, x | 0 <= i < NBUCKETS && x in frees'[i]
      ensures x in frees[i] && x != a
    {
      assert x in frees[i] && carved[x] == i && carved[a] == b;
    }
    forall c | c in carved && c != a && c in frees[carved[c]]
      ensures c in frees'[carved[c]]
    {
    }
  }

  lemma PopMembers(l: seq<nat>)
    requires NoDup(l) && l != []
    ensures NoDup(l[1..]) && l[0] !in l[1..]
    ensures forall x :: x in l <==> x == l[0] || x in l[1..]
  {
    assert l == [l[0]] + l[1..];
  }

  lemma GrantIsNew(h: Heap, b: nat, p: nat)
    requires Inv(h) && b < NBUCKETS && h.frees[b] != []
    requires h.frees[b][0] + OVERHEAD <= p <= h.frees[b][0] + Size(b)
    ensures p !in h.live
  {
    FreeIsQuiet(h, b);
  }

  lemma GrantHeaded(mem: Memory, mem': Memory, carved: map<nat, nat>, frees: seq<seq<nat>>, live: map<nat, nat>,
      p: nat, a: nat, b: nat)
    requires Headed(mem, carved, live) && a in carved && carved[a] == b && a + OVERHEAD <= p <= a + Size(b) <= |mem|
    requires Quiet(frees, live, a, a + Size(b)) && |mem'| == |mem|
    requires Same(mem, mem', 0, p - OVERHEAD) && Same(mem, mem', p, |mem|) && Header(mem', p, a, b)
    ensures Headed(mem', carved, live[p := a])
  {
    QuietHeaders(mem, mem', carved, frees, live, a, a + Size(b));
    hide Header, Size;
  }

  lemma GrantInv(h: Heap, b: nat, p: nat)
    requires Inv(h) && b < |h.frees| && h.frees[b] != []
    requires h.frees[b][0] + OVERHEAD <= p <= h.frees[b][0] + Size(b)
    ensures p <= |h.mem| && |h.nextf| == NBUCKETS && Inv(Granted(h, b, p)) && p !in h.live
    ensures Same(h.mem, Granted(h, b, p).mem, 0, p - OVERHEAD) && Same(h.mem, Granted(h, b, p).mem, p, |h.mem|)
  {
    hide Linked, Headed, Quiet, Owned, Apart, Header, SetHeader, Size, Load;
    Shape(h);
    var a := h.frees[b][0];
    FreeBlock(h, b);
    FreeIsQuiet(h, b);
    GrantIsNew(h, b, p);
    var h' := Granted(h, b, p);
    HeaderIsSet(h.mem, p, p - a, b);
    PopLinks(h.mem, h.nextf, h.frees, b);
    QuietLinks(h.mem, h'.mem, h'.nextf, h'.frees, h.live, a, a + Size(b));
    GrantHeaded(h.mem, h'.mem, h.carved, h'.frees, h.live, p, a, b);
    GrantOwned(h.carved, h.frees, h.live, h.holder, b, p);
  }

  lemma GrantBytes(h: Heap, b: nat, p: nat, q: nat)
    requires Inv(h) && b < |h.frees| && h.frees[b] != [] && q in h.live
    requires h.frees[b][0] + OVERHEAD <= p <= h.frees[b][0] + Size(b)
    ensures p <= |h.mem| && |h.nextf| == NBUCKETS && h.live[q] in h.carved
      && Same(h.mem, Granted(h, b, p).mem, q, End(h, q))
  {
    hide Inv, SetHeader, Size, Load;
    Shape(h);
    GrantInv(h, b, p);
    FreeAndLiveAreApart(h, b, q);
    LiveIsInside(h, q);
  }

  lemma GrantContents(h: Heap, h': Heap, p: nat)
    requires Inv(h) && Inv(h') && p !in h.live && p in h'.live && h'.live == h.live[p := h'.live[p]]
      && h'.carved == h.carved
    requires forall q | q in h.live :: h.live[q] in h.carved && Same(h.mem, h'.mem, q, End(h, q))
    ensures h'.live[p] in h'.carved && End(h', p) >= p && Adds(Contents(h), Contents(h'), p, End(h', p) - p)
  {
    hide Inv, Contents, Size, Same;
    ContentsKeys(h);
    ContentsKeys(h');
    ContentsOf(h', p);
    forall q | q in h.live
      ensures q in Contents(h) && q in Contents(h') && Contents(h')[q] == Contents(h)[q]
    {
      ContentsSame(h, h', q);
    }
  }

  /**
   * Taking the first block of a list for payload `p` keeps the heap in order, and every other
   * payload keeps its bytes.
   */
  lemma GrantKeeps(h: Heap, b: nat, p: nat)
    requires Inv(h) && b < |h.frees| && h.frees[b] != []
    requires h.frees[b][0] + OVERHEAD <= p <= h.frees[b][0] + Size(b)
    ensures p <= |h.mem| && |h.nextf| == NBUCKETS && Inv(Granted(h, b, p)) && p !in h.live
    ensures Adds(Contents(h), Contents(Granted(h, b, p)), p, h.frees[b][0] + Size(b) - p)
  {
    hide Inv, SetHeader, Size, Load, Contents, Same, Adds;
    GrantInv(h, b, p);
    Shape(h);
    FreeBlock(h, b);
    forall q | q in h.live
      ensures h.live[q] in h.carved && Same(h.mem, Granted(h, b, p).mem, q, End(h, q))
    {
      GrantBytes(h, b, p, q);
    }
    GrantContents(h, Granted(h, b, p), p);
  }

  // ----- giving a block back -----

  function Released(h: Heap, p: nat): Heap
    requires p in h.live && h.live[p] in h.carved && h.carved[h.live[p]] < |h.nextf| && h.carved[h.live[p]] < |h.frees|
    requires h.live[p] + WORD <= |h.mem|
  {
    var a := h.live[p];
    var b := h.carved[a];
    Heap(Store(h.mem, a, h.nextf[b]), h.nextf[b := a], h.coreBase,
         h.carved, h.frees[b := [a] + h.frees[b]], h.live - {p}, h.holder - {a})
  }

  lemma PushLinks(mem: Memory, nextf: seq<nat>, frees: seq<seq<nat>>, b: nat, a: nat)
    requires Linked(mem, nextf, frees) && b < NBUCKETS && a + WORD <= |mem| && Load(mem, a) == nextf[b]
    ensures Linked(mem, nextf[b := a], frees[b := [a] + frees[b]])
  {
    var l' := [a] + frees[b];
    var frees' := frees[b := l'];
    forall i, k | 0 <= i < NBUCKETS && 0 <= k < |frees'[i]|
      ensures frees'[i][k] + WORD <= |mem| && Load(mem, frees'[i][k]) == At(frees'[i], k + 1)
    {
      if i == b && k > 0 {
        assert l'[k] == frees[b][k - 1];
      }
    }
  }

  lemma ReleaseOwned(carved: map<nat, nat>, frees: seq<seq<nat>>, live: map<nat, nat>, holder: map<nat, nat>, p: nat)
    requires Owned(carved, frees, live, holder) && p in live
    ensures var a := live[p];
            && a in carved && carved[a] < NBUCKETS
            && Owned(carved, frees[carved[a] := [a] + frees[carved[a]]], live - {p}, holder - {a})
  {
    var a := live[p];
    var b := carved[a];
    assert forall x :: x in [a] + frees[b] <==> x == a || x in frees[b];
  }

  lemma LiveBlock(h: Heap, p: nat)
    requires Inv(h) && p in h.live
    ensures h.live[p] in h.carved && 16 <= h.live[p] && h.live[p] % 16 == 0 && h.carved[h.live[p]] <= 26
    ensures |h.nextf| == |h.frees| == NBUCKETS && h.nextf[h.carved[h.live[p]]] < TWO64
    ensures WellHeaded(h.mem, p, h.live[p], h.carved[h.live[p]])
  {
    hide Size, Load;
    var b := h.carved[h.live[p]];
    if h.frees[b] != [] {
      FreeBlock(h, b);
    }
  }

  lemma ReleaseInv(h: Heap, p: nat)
    requires Inv(h) && p in h.live
    ensures h.live[p] in h.carved && h.carved[h.live[p]] < |h.nextf| && h.carved[h.live[p]] < |h.frees|
      && h.live[p] + WORD <= |h.mem|
    ensures Inv(Released(h, p))
  {
    hide Linked, Headed, Quiet, Owned, Apart, Header, Size, Load, Store;
    LiveBlock(h, p);
    LiveIsInside(h, p);
    PayloadIsQuiet(h, p);
    var a := h.live[p];
    var b := h.carved[a];
    var h' := Released(h, p);
    LoadStored(h.mem, a, h.nextf[b]);
    StoreElsewhere(h.mem, a, h.nextf[b]);
    QuietLinks(h.mem, h'.mem, h.nextf, h.frees, h'.live, a, End(h, p));
    PushLinks(h'.mem, h.nextf, h.frees, b, a);
    assert Headed(h.mem, h.carved, h'.live) by { FewerHeaded(h.mem, h.carved, h.live, p); }
    QuietHeaders(h.mem, h'.mem, h.carved, h.frees, h'.live, a, End(h, p));
    ReleaseOwned(h.carved, h.frees, h.live, h.holder, p);
  }

  lemma FewerHeaded(mem: Memory, carved: map<nat, nat>, live: map<nat, nat>, p: nat)
    requires Headed(mem, carved, live)
    ensures Headed(mem, carved, live - {p})
  {
  }

  /** Freeing a payload keeps the heap in order and leaves the bytes of every other payload alone. */
  lemma ReleaseKeeps(h: Heap, p: nat)
    requires Inv(h) && p in h.live
    ensures h.live[p] in h.carved && h.carved[h.live[p]] < |h.nextf| && h.carved[h.live[p]] < |h.frees|
      && h.live[p] + WORD <= |h.mem|
    ensures Inv(Released(h, p)) && Contents(Released(h, p)) == Contents(h) - {p}
  {
    hide Inv, Contents, Size, Same, Store;
    ReleaseInv(h, p);
    var h' := Released(h, p);
    ContentsKeys(h);
    ContentsKeys(h');
    Shape(h);
    forall q | q in h'.live
      ensures q in Contents(h) && q in Contents(h') && Contents(h')[q] == Contents(h)[q]
    {
      LiveIsElsewhere(h, q, p);
      LiveIsInside(h, p);
      LiveIsInside(h, q);
      StoreElsewhere(h.mem, h.live[p], h.nextf[h.carved[h.live[p]]]);
      assert Same(h.mem, h'.mem, q, End(h, q)) by {
        SameParts(h.mem, h'.mem, h.live[p], h.live[p] + WORD, q, End(h, q));
      }
      ContentsSame(h, h', q);
    }
    assert Contents(h') == Contents(h) - {p};
  }

  lemma SameParts(mem: Memory, mem': Memory, a: nat, b: nat, lo: nat, hi: nat)
    requires Same(mem, mem', 0, a) && Same(mem, mem', b, |mem|) && (hi <= a || b <= lo)
    ensures Same(mem, mem', lo, hi)
  {
  }

  // ----- carving new blocks -----

  /** The blocks carved out of `n` times `size` bytes at `base`, in list order. */
  function Blocks(base: nat, size: nat, n: nat): (l: seq<nat>)
    ensures |l| == n
    ensures forall k | 0 <= k < n :: l[k] == base + k * size
  {
    seq(n, k requires k >= 0 => base + k * size)
  }

  function WithBlocks(carved: map<nat, nat>, l: seq<nat>, b: nat): map<nat, nat> {
    carved + map x | x in l :: b
  }

  lemma StepsApart(j: nat, k: nat, size: nat)
    requires j < k
    ensures j * size + size <= k * size
  {
    assert (k - j - 1) * size >= 0;
    assert k * size == j * size + size + (k - j - 1) * size;
  }

  lemma SizeIsMultiple(b: nat)
    ensures Size(b) % 16 == 0 && Size(b) >= 32
  {
    Pow2Add(b + 1, 4);
    assert Pow2(4) == 16 && Pow2(b + 1) >= 2;
    MulMod(Pow2(b + 1), 16);
  }

  lemma BlockBounds(base: nat, size: nat, n: nat, x: nat) returns (k: nat)
    requires x in Blocks(base, size, n) && base % 16 == 0 && size % 16 == 0
    ensures k < n && x == base + k * size
    ensures base <= x && x + size <= base + n * size && x % 16 == 0
  {
    k :| 0 <= k < n && Blocks(base, size, n)[k] == x;
    StepsApart(k, n, size);
    Times16(k, size);
    Plus16(base, k * size);
  }

  lemma Plus16(x: nat, y: nat)
    requires x % 16 == 0 && y % 16 == 0
    ensures (x + y) % 16 == 0
  {
  }

  lemma Times16(k: nat, size: nat)
    requires size % 16 == 0
    ensures k * size >= 0 && (k * size) % 16 == 0
  {
    var j := size / 16;
    assert k * size == (k * j) * 16;
    MulMod(k * j, 16);
  }

  lemma BlockPair(base: nat, size: nat, n: nat, x: nat, y: nat)
    requires x in Blocks(base, size, n) && y in Blocks(base, size, n) && x < y && base % 16 == 0 && size % 16 == 0
    ensures x + size <= y
  {
    var j := BlockBounds(base, size, n, x);
    var k := BlockBounds(base, size, n, y);
    if k < j {
      StepsApart(k, j, size);
    } else if j < k {
      StepsApart(j, k, size);
    }
  }

  lemma BlocksNoDup(base: nat, size: nat, n: nat)
    requires size > 0
    ensures NoDup(Blocks(base, size, n))
  {
    forall j, k | 0 <= j < k < n
      ensures Blocks(base, size, n)[j] != Blocks(base, size, n)[k]
    {
      StepsApart(j, k, size);
    }
  }

  lemma BlocksApart(carved: map<nat, nat>, coreBase: nat, coreBase': nat, base: nat, b: nat, n: nat)
    requires Apart(carved, coreBase) && b <= 26 && coreBase <= base && base % 16 == 0 && base >= 16
    requires base + n * Size(b) <= coreBase'
    ensures Apart(WithBlocks(carved, Blocks(base, Size(b), n), b), coreBase')
  {
    hide Size, Blocks, Apart, WithBlocks;
    SizeIsMultiple(b);
    var l := Blocks(base, Size(b), n);
    forall x | x in l
      ensures base <= x && x + Size(b) <= coreBase' && x % 16 == 0
    {
      var _ := BlockBounds(base, Size(b), n, x);
    }
    forall x, y | x in l && y in l && x < y
      ensures x + Size(b) <= y
    {
      BlockPair(base, Size(b), n, x, y);
    }
    ScaleUp(n, Size(b));
    AddApart(carved, coreBase, coreBase', base, l, b);
  }

  lemma ScaleUp(n: nat, size: nat)
    ensures n * size >= 0
  {
  }

  lemma AddApart(carved: map<nat, nat>, coreBase: nat, coreBase': nat, base: nat, l: seq<nat>, b: nat)
    requires Apart(carved, coreBase) && b <= 26 && coreBase <= base <= coreBase' && base >= 16
    requires forall x | x in l :: base <= x && x + Size(b) <= coreBase' && x % 16 == 0
    requires forall x, y | x in l && y in l && x < y :: x + Size(b) <= y
    ensures Apart(WithBlocks(carved, l, b), coreBase')
  {
    hide Size;
  }

  /** The heap after `n` blocks at `base` have become the free list of bucket `b`. */
  function Extended(h: Heap, mem': Memory, b: nat, base: nat, n: nat, coreBase': nat): Heap
    requires b < |h.frees| && b < |h.nextf|
  {
    Heap(mem', h.nextf[b := base], coreBase', WithBlocks(h.carved, Blocks(base, Size(b), n), b),
         h.frees[b := Blocks(base, Size(b), n)], h.live, h.holder)
  }

  lemma ExtendLinks(mem: Memory, nextf: seq<nat>, frees: seq<seq<nat>>, b: nat, l: seq<nat>)
    requires Linked(mem, nextf, frees) && b < NBUCKETS && l != []
    requires Chained(mem, l)
    ensures Linked(mem, nextf[b := l[0]], frees[b := l])
  {
  }

  /** Each block's link leads to the next, and the last one's is null. */
  ghost predicate Chained(mem: Memory, l: seq<nat>) {
    forall k | 0 <= k < |l| :: l[k] + WORD <= |mem| && Load(mem, l[k]) == At(l, k + 1)
  }

  lemma ExtendOwned(carved: map<nat, nat>, frees: seq<seq<nat>>, live: map<nat, nat>, holder: map<nat, nat>,
      b: nat, l: seq<nat>)
    requires Owned(carved, frees, live, holder) && b < NBUCKETS && frees[b] == [] && NoDup(l)
    requires forall x | x in l :: x !in carved
    ensures Owned(WithBlocks(carved, l, b), frees[b := l], live, holder)
  {
  }

  lemma ExtendHeaded(mem: Memory, carved: map<nat, nat>, live: map<nat, nat>, b: nat, l: seq<nat>)
    requires Headed(mem, carved, live) && forall x | x in l :: x !in carved
    ensures Headed(mem, WithBlocks(carved, l, b), live)
  {
  }

  /** The part of the arena not yet given out is quiet. */
  lemma UnusedIsQuiet(h: Heap, base: nat, hi: nat)
    requires Inv(h) && h.coreBase <= base
    ensures Quiet(h.frees, h.live, base, hi)
    ensures forall x | x in h.carved :: x < base
  {
    Shape(h);
    forall i, x | 0 <= i < |h.frees| && x in h.frees[i]
      ensures x + WORD <= base
    {
      SizeIsMultiple(h.carved[x]);
    }
    forall p | p in h.live
      ensures p <= base
    {
      LiveIsInside(h, p);
    }
    forall x | x in h.carved
      ensures x < base
    {
      SizeIsMultiple(h.carved[x]);
    }
  }

  ghost predicate CanExtend(h: Heap, mem': Memory, b: nat, base: nat, n: nat, len: nat, coreBase': nat) {
    && b <= 26 && b < |h.frees| && b < |h.nextf| && h.frees[b] == [] && n >= 1 && len == n * Size(b)
    && h.coreBase <= base && base % 16 == 0 && base >= 16 && base + len <= coreBase' <= |h.mem|
    && Same(h.mem, mem', 0, base) && Same(h.mem, mem', base + len, |h.mem|)
    && Chained(mem', Blocks(base, Size(b), n))
  }

  lemma NewBlocks(h: Heap, base: nat, size: nat, n: nat)
    requires Inv(h) && h.coreBase <= base && base % 16 == 0 && size % 16 == 0 && size > 0 && n >= 1
    ensures forall x | x in Blocks(base, size, n) :: x !in h.carved
    ensures Blocks(base, size, n)[0] == base && NoDup(Blocks(base, size, n))
  {
    UnusedIsQuiet(h, base, base);
    hide Inv;
    forall x | x in Blocks(base, size, n)
      ensures x !in h.carved
    {
      var _ := BlockBounds(base, size, n, x);
    }
    BlocksNoDup(base, size, n);
  }

  lemma ExtendInv(h: Heap, mem': Memory, b: nat, base: nat, n: nat, len: nat, coreBase': nat)
    requires Inv(h) && CanExtend(h, mem', b, base, n, len, coreBase')
    ensures Inv(Extended(h, mem', b, base, n, coreBase'))
  {
    hide Linked, Headed, Quiet, Owned, Apart, Size, WithBlocks, Blocks, Chained, Same;
    var l := Blocks(base, Size(b), n);
    UnusedIsQuiet(h, base, base + len);
    SizeIsMultiple(b);
    NewBlocks(h, base, Size(b), n);
    BlocksApart(h.carved, Top(h), coreBase', base, b, n);
    QuietLinks(h.mem, mem', h.nextf, h.frees, h.live, base, base + len);
    ExtendLinks(mem', h.nextf, h.frees, b, l);
    QuietHeaders(h.mem, mem', h.carved, h.frees, h.live, base, base + len);
    ExtendHeaded(mem', h.carved, h.live, b, l);
    ExtendOwned(h.carved, h.frees, h.live, h.holder, b, l);
    assert |mem'| == |h.mem| by { SameLength(h.mem, mem', 0, base); }
  }

  lemma SameLength(mem: Memory, mem': Memory, lo: nat, hi: nat)
    requires Same(mem, mem', lo, hi)
    ensures |mem| == |mem'|
  {
  }

  /** Carving fresh memory into blocks keeps the heap in order; no payload changes. */
  lemma ExtendKeeps(h: Heap, mem': Memory, b: nat, base: nat, n: nat, len: nat, coreBase': nat)
    requires Inv(h) && CanExtend(h, mem', b, base, n, len, coreBase')
    ensures Inv(Extended(h, mem', b, base, n, coreBase'))
    ensures Contents(Extended(h, mem', b, base, n, coreBase')) == Contents(h)
  {
    hide Inv, Contents, Size, Blocks, Chained;
    ExtendInv(h, mem', b, base, n, len, coreBase');
    var h' := Extended(h, mem', b, base, n, coreBase');
    ContentsKeys(h);
    ContentsKeys(h');
    SizeIsMultiple(b);
    NewBlocks(h, base, Size(b), n);
    Shape(h);
    forall q | q in h.live
      ensures q in Contents(h) && q in Contents(h') && Contents(h')[q] == Contents(h)[q]
    {
      LiveIsInside(h, q);
      ContentsSame(h, h', q);
    }
  }

  /** Moving core_base up, as a failed mmap() does, changes nothing else. */
  lemma BaseMoves(h: Heap, coreBase': nat)
    requires Inv(h) && h.coreBase <= coreBase'
    ensures Inv(h.(coreBase := coreBase')) && Contents(h.(coreBase := coreBase')) == Contents(h)
  {
    hide Linked, Headed, Owned, Size, Contents;
    var h' := h.(coreBase := coreBase');
    ContentsKeys(h);
    ContentsKeys(h');
    forall q | q in h.live
      ensures q in Contents(h) && q in Contents(h') && Contents(h')[q] == Contents(h)[q]
    {
      ContentsOf(h, q);
      ContentsOf(h', q);
    }
  }

  // ----- what the invariant says about payloads and buckets -----

  /** Payloads do not overlap, and no header lies in any payload. */
  lemma PayloadsAreSafe(h: Heap, p: nat, q: nat)
    requires Inv(h) && p in h.live && q in h.live
    ensures h.live[p] in h.carved && h.live[q] in h.carved && p <= End(h, p) <= |h.mem|
    ensures p != q ==> End(h, p) <= q || End(h, q) <= p
    ensures q <= p || End(h, p) <= q - OVERHEAD
  {
    LiveIsInside(h, p);
    LiveIsInside(h, q);
    if p != q {
      LiveIsElsewhere(h, p, q);
      LiveIsElsewhere(h, q, p);
    }
  }

  /** No link of a free list lies in any payload. */
  lemma LinksAreSafe(h: Heap, i: nat, x: nat, p: nat)
    requires Inv(h) && p in h.live && i < |h.frees| && x in h.frees[i]
    ensures h.live[p] in h.carved && (x + WORD <= p || End(h, p) <= x)
  {
    Shape(h);
    LiveIsInside(h, p);
    FreeIsElsewhere(h, i, x, p);
  }

  ghost function Carved(h: Heap, i: nat): set<nat> {
    set a | a in h.carved && h.carved[a] == i
  }

  ghost function Live(h: Heap, i: nat): set<nat> {
    set a | a in h.holder && a in h.carved && h.carved[a] == i
  }

  function Elements(l: seq<nat>): set<nat> {
    set x | x in l
  }

  lemma {:induction false} CountNoDup(l: seq<nat>)
    requires NoDup(l)
    ensures |Elements(l)| == |l|
  {
    if l != [] {
      CountNoDup(l[1..]);
      assert l[0] !in Elements(l[1..]);
      assert Elements(l) == {l[0]} + Elements(l[1..]);
    }
  }

  /** Of every bucket, the blocks carved are the blocks on the free list plus the live ones. */
  lemma Conservation(h: Heap, i: nat)
    requires Inv(h) && i < |h.frees|
    ensures |Carved(h, i)| == |h.frees[i]| + |Live(h, i)|
    ensures |h.live| == |h.holder|
  {
    hide Linked, Headed, Apart;
    CountNoDup(h.frees[i]);
    var f := Elements(h.frees[i]);
    assert f !! Live(h, i);
    assert Carved(h, i) == f + Live(h, i);
    CountInverse(h.live, h.holder);
  }

  lemma CountInverse(live: map<nat, nat>, holder: map<nat, nat>)
    requires forall p | p in live :: live[p] in holder && holder[live[p]] == p
    requires forall a | a in holder :: holder[a] in live && live[holder[a]] == a
    ensures |live| == |holder|
    decreases |live|
  {
    if live == map[] {
      assert holder == map[] by {
        if a :| a in holder {
          assert holder[a] in live;
        }
      }
    } else {
      var p :| p in live;
      var live', holder' := live - {p}, holder - {live[p]};
      assert live'.Keys == live.Keys - {p} && holder'.Keys == holder.Keys - {live[p]};
      CountInverse(live', holder');
    }
  }
}
