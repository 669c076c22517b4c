/** Passing strings in and out of wasm linear memory: the ASCII fast path, the
    two reallocations, views that growth detaches, and the other blocks' bytes. */
module WasmStrings {
  import opened Options
  import opened Utf

  // ----- Memory contents and blocks, as values -----

  type Blocks = map<nat, nat>

  ghost predicate BlockWithin(blocks: Blocks, p: nat, top: nat)
    requires p in blocks
  {
    0 < blocks[p] && p + blocks[p] <= top
  }

  ghost predicate Apart(blocks: Blocks, p: nat, q: nat)
    requires p in blocks && q in blocks
  {
    p < q ==> p + blocks[p] <= q
  }

  /** Allocated blocks lie below `top` and do not overlap. */
  ghost predicate BlocksOk(blocks: Blocks, top: nat) {
    && (forall p {:trigger BlockWithin(blocks, p, top)} :: p in blocks ==> BlockWithin(blocks, p, top))
    && (forall p, q {:trigger Apart(blocks, p, q)} :: p in blocks && q in blocks ==> Apart(blocks, p, q))
  }

  /** The block's bytes are the same in both contents. */
  ghost predicate BlockKept(blocks: Blocks, p: nat, before: seq<Byte>, after: seq<Byte>)
    requires p in blocks
  {
    && p + blocks[p] <= |before| && p + blocks[p] <= |after|
    && before[p..p + blocks[p]] == after[p..p + blocks[p]]
  }

  ghost predicate Kept(blocks: Blocks, before: seq<Byte>, after: seq<Byte>) {
    forall p {:trigger BlockKept(blocks, p, before, after)} :: p in blocks ==> BlockKept(blocks, p, before, after)
  }

  function Splice(mem: seq<Byte>, at: nat, bs: seq<Byte>): (r: seq<Byte>)
    requires at + |bs| <= |mem|
    ensures |r| == |mem|
    ensures forall k :: 0 <= k < |mem| ==> r[k] == if at <= k < at + |bs| then bs[k - at] else mem[k]
  {
    mem[..at] + bs + mem[at + |bs|..]
  }

  /** Writing into one block keeps the others. */
  lemma SpliceKeeps(blocks: Blocks, top: nat, r: nat, mem: seq<Byte>, at: nat, bs: seq<Byte>)
    requires BlocksOk(blocks, top) && top <= |mem| && r in blocks
    requires r <= at && at + |bs| <= r + blocks[r] && at + |bs| <= |mem|
    ensures Kept(blocks - {r}, mem, Splice(mem, at, bs))
  {
    assert BlockWithin(blocks, r, top);
    forall p | p in blocks - {r} ensures BlockKept(blocks - {r}, p, mem, Splice(mem, at, bs)) {
      assert BlockWithin(blocks, p, top) && Apart(blocks, p, r) && Apart(blocks, r, p);
    }
  }

  lemma KeptTransitive(blocks: Blocks, a: seq<Byte>, b: seq<Byte>, c: seq<Byte>)
    requires Kept(blocks, a, b) && Kept(blocks, b, c)
    ensures Kept(blocks, a, c)
  {
    forall p | p in blocks ensures BlockKept(blocks, p, a, c) {
      assert BlockKept(blocks, p, a, b) && BlockKept(blocks, p, b, c);
    }
  }

  lemma KeptSubset(blocks: Blocks, fewer: Blocks, a: seq<Byte>, b: seq<Byte>)
    requires Kept(blocks, a, b) && forall p :: p in fewer ==> p in blocks && fewer[p] == blocks[p]
    ensures Kept(fewer, a, b)
  {
    forall p | p in fewer ensures BlockKept(fewer, p, a, b) {
      assert BlockKept(blocks, p, a, b);
    }
  }

  lemma BlocksAdd(blocks: Blocks, top: nat, size: nat)
    requires BlocksOk(blocks, top) && size > 0
    ensures top !in blocks && BlocksOk(blocks[top := size], top + size)
  {
    var more := blocks[top := size];
    forall p | p in blocks ensures p < top { assert BlockWithin(blocks, p, top); }
    forall p | p in more ensures BlockWithin(more, p, top + size) {
      if p != top { assert BlockWithin(blocks, p, top); }
    }
    forall p, q | p in more && q in more ensures Apart(more, p, q) {
      if p != top && q != top { assert Apart(blocks, p, q); }
      if p != top { assert BlockWithin(blocks, p, top); }
      if q != top { assert BlockWithin(blocks, q, top); }
    }
  }

  lemma BlocksRemove(blocks: Blocks, top: nat, r: nat)
    requires BlocksOk(blocks, top)
    ensures BlocksOk(blocks - {r}, top)
  {
    var fewer := blocks - {r};
    forall p | p in fewer ensures BlockWithin(fewer, p, top) {
      assert BlockWithin(blocks, p, top);
    }
    forall p, q | p in fewer && q in fewer ensures Apart(fewer, p, q) {
      assert Apart(blocks, p, q);
    }
  }

  lemma BlocksShrink(blocks: Blocks, top: nat, r: nat, size: nat)
    requires BlocksOk(blocks, top) && r in blocks && 0 < size <= blocks[r]
    ensures BlocksOk(blocks[r := size], top)
  {
    var fewer := blocks[r := size];
    forall p | p in fewer ensures BlockWithin(fewer, p, top) {
      assert BlockWithin(blocks, p, top);
    }
    forall p, q | p in fewer && q in fewer ensures Apart(fewer, p, q) {
      assert Apart(blocks, p, q);
    }
  }

  lemma KeptSame(blocks: Blocks, top: nat, mem: seq<Byte>)
    requires BlocksOk(blocks, top) && top <= |mem|
    ensures Kept(blocks, mem, mem)
  {
    SamePrefixKeeps(blocks, top, mem, mem);
  }

  lemma SamePrefixKeeps(blocks: Blocks, top: nat, a: seq<Byte>, b: seq<Byte>)
    requires BlocksOk(blocks, top) && top <= |a| && top <= |b| && a[..top] == b[..top]
    ensures Kept(blocks, a, b)
  {
    forall p | p in blocks ensures BlockKept(blocks, p, a, b) {
      assert BlockWithin(blocks, p, top);
      assert a[p..p + blocks[p]] == a[..top][p..p + blocks[p]];
      assert b[p..p + blocks[p]] == b[..top][p..p + blocks[p]];
    }
  }

  lemma BlockInside(blocks: Blocks, p: nat, top: nat)
    requires BlocksOk(blocks, top) && p in blocks
    ensures p + blocks[p] <= top
  {
    assert BlockWithin(blocks, p, top);
  }

  lemma KeptBlockBytes(blocks: Blocks, p: nat, before: seq<Byte>, after: seq<Byte>, n: nat)
    requires Kept(blocks, before, after) && p in blocks && n <= blocks[p]
    ensures p + n <= |before| && p + n <= |after| && after[p..p + n] == before[p..p + n]
  {
    assert BlockKept(blocks, p, before, after);
    assert after[p..p + n] == after[p..p + blocks[p]][..n];
    assert before[p..p + n] == before[p..p + blocks[p]][..n];
  }

  /** Allocating `r`, then writing into it, keeps every block but the moved one. */
  lemma MoveKeeps(blocks: Blocks, all: Blocks, top: nat, ptr: nat, r: nat, start: seq<Byte>, mid: seq<Byte>, bytes: seq<Byte>)
    requires Kept(blocks, start, mid) && ptr in blocks && r !in blocks
    requires r in all && all == blocks[r := all[r]] && BlocksOk(all, top) && top <= |mid| && |bytes| <= all[r]
    ensures r + |bytes| <= |mid| && Kept(blocks - {ptr}, start, Splice(mid, r, bytes))
  {
    BlockInside(all, r, top);
    SpliceKeeps(all, top, r, mid, r, bytes);
    KeptSubset(all - {r}, blocks - {ptr}, mid, Splice(mid, r, bytes));
    KeptSubset(blocks, blocks - {ptr}, start, mid);
    KeptTransitive(blocks - {ptr}, start, mid, Splice(mid, r, bytes));
  }

  // ----- The instance -----

  /** A module instance with the glue code's cached state. Growing the memory
      replaces `buffer`; a view over the old one is detached. */
  class Instance {
    var buffer: array<Byte>
    var top: nat
    var cachedUint8Array: array?<Byte>
    var vectorLen: nat
    var numBytesDecoded: nat
    ghost var blocks: Blocks

    ghost predicate Valid()
      reads this, buffer
    {
      top <= buffer.Length && BlocksOk(blocks, top)
    }

    constructor (initial: nat)
      ensures Valid() && blocks == map[] && fresh(buffer) && cachedUint8Array == null
    {
      buffer := new Byte[initial];
      top, vectorLen, numBytesDecoded := 0, 0, 0;
      cachedUint8Array := null;
      blocks := map[];
    }

    /** The allocator: a block apart from all others, whose bytes it keeps. The
        memory may grow, which replaces the buffer. */
    method Malloc(size: nat) returns (ptr: nat)
      requires Valid()
      modifies this`buffer, this`top, this`blocks
      ensures Valid() && (buffer == old(buffer) || fresh(buffer))
      ensures ptr + size <= buffer.Length
      ensures size > 0 ==> ptr !in old(blocks) && blocks == old(blocks)[ptr := size]
      ensures size == 0 ==> blocks == old(blocks)
      ensures Kept(old(blocks), old(buffer[..]), buffer[..])
    {
      ptr := top;
      if buffer.Length - top < size {
        var bigger := new Byte[top + size + 0x10000];
        CopyInto(bigger, 0, buffer[..top]);
        assert bigger[..top] == buffer[..top];
        buffer := bigger;
      }
      SamePrefixKeeps(blocks, top, old(buffer[..]), buffer[..]);
      top := top + size;
      if size > 0 {
        BlocksAdd(blocks, ptr, size);
        blocks := blocks[ptr := size];
      }
    }

    /** Resizes a block in place or moves it: its leading bytes go with it, every other
        block is kept. */
    method Realloc(ptr: nat, oldSize: nat, newSize: nat) returns (r: nat)
      requires Valid() && newSize > 0 && ptr in blocks && blocks[ptr] == oldSize
      modifies this`buffer, this`top, this`blocks, buffer
      ensures Valid() && (buffer == old(buffer) || fresh(buffer))
      ensures r + newSize <= buffer.Length && ptr + oldSize <= old(buffer.Length)
      ensures (r == ptr || r !in old(blocks)) && blocks == (old(blocks) - {ptr})[r := newSize]
      ensures var n := if oldSize < newSize then oldSize else newSize;
              buffer[r..r + n] == old(buffer[ptr..ptr + n])
      ensures Kept(old(blocks) - {ptr}, old(buffer[..]), buffer[..])
    {
      hide Kept, BlocksOk, Splice;
      var n := if oldSize < newSize then oldSize else newSize;
      ghost var start := buffer[..];
      BlockInside(blocks, ptr, top);
      if newSize <= oldSize {
        BlocksShrink(blocks, top, ptr, newSize);
        BlocksRemove(blocks, top, ptr);
        KeptSame(blocks - {ptr}, top, start);
        blocks := blocks[ptr := newSize];
        assert blocks == (old(blocks) - {ptr})[ptr := newSize];
        return ptr;
      }
      r := Malloc(newSize);
      ghost var mid, all := buffer[..], blocks;
      KeptBlockBytes(old(blocks), ptr, start, mid, n);
      BlockInside(all, r, top);
      var bytes := buffer[ptr..ptr + n];
      assert bytes == mid[ptr..ptr + n];
      CopyInto(buffer, r, bytes);
      MoveKeeps(old(blocks), all, top, ptr, r, start, mid, bytes);
      BlocksRemove(all, top, ptr);
      blocks := blocks - {ptr};
    }

    /** The cached view, renewed when it is missing or detached. */
    method GetUint8ArrayMemory() returns (view: array<Byte>)
      modifies this`cachedUint8Array
      ensures view == buffer && cachedUint8Array == buffer
    {
      if cachedUint8Array == null || cachedUint8Array != buffer {
        cachedUint8Array := buffer;
      }
      view := cachedUint8Array;
    }
  }

  // ----- TextEncoder.encodeInto -----

  /** Writes as many whole scalar values as fit into view[start..end]. */
  method EncodeInto(s: seq<Unit>, view: array<Byte>, start: nat, end: nat) returns (read: nat, written: nat)
    requires start <= end <= view.Length
    modifies view
    ensures read <= |s| && written <= |Utf8(s)| && start + written <= end
    ensures view[..] == Splice(old(view[..]), start, Utf8(s)[..written])
    ensures Utf8(s) == Utf8(s)[..written] + Utf8(s[read..])
    ensures read < |s| ==> end - start < written + |EncodeScalar(First(s[read..]))|
  {
    hide Utf8, Splice, EncodeScalar, First, Width;
    read, written := 0, 0;
    ghost var done: seq<Byte> := [];
    ghost var contents := view[..];
    StartEncoding(s, contents, start);
    while read < |s|
      invariant read <= |s| && written == |done| && start + written <= end
      invariant Utf8(s) == done + Utf8(s[read..])
      invariant view[..] == Splice(contents, start, done)
    {
      var rest := s[read..];
      var bs := EncodeScalar(First(rest));
      if end - (start + written) < |bs| {
        break;
      }
      NextScalar(s, read, done, contents, start);
      CopyInto(view, start + written, bs);
      done := done + bs;
      read := read + Width(rest);
      written := written + |bs|;
    }
    Encoded(s, read, done);
  }

  lemma StartEncoding(s: seq<Unit>, contents: seq<Byte>, start: nat)
    requires start <= |contents|
    ensures Utf8(s) == [] + Utf8(s[0..]) && Splice(contents, start, []) == contents
  {
    assert s[0..] == s;
  }

  lemma Encoded(s: seq<Unit>, read: nat, done: seq<Byte>)
    requires read <= |s| && Utf8(s) == done + Utf8(s[read..])
    ensures |done| <= |Utf8(s)| && Utf8(s)[..|done|] == done
  {
    hide Utf8;
  }

  lemma NextScalar(s: seq<Unit>, read: nat, done: seq<Byte>, contents: seq<Byte>, start: nat)
    requires read < |s| && Utf8(s) == done + Utf8(s[read..])
    requires start + |done| + |EncodeScalar(First(s[read..]))| <= |contents|
    ensures var bs, more := EncodeScalar(First(s[read..])), read + Width(s[read..]);
            && more <= |s| && Utf8(s) == (done + bs) + Utf8(s[more..])
            && Splice(Splice(contents, start, done), start + |done|, bs) == Splice(contents, start, done + bs)
  {
    hide Utf8;
    var rest := s[read..];
    Utf8Step(rest);
    assert rest[Width(rest)..] == s[read + Width(rest)..];
  }

  lemma EmptyUtf8()
    ensures Utf8([]) == []
  {
  }

  /** With three bytes per unit everything is written. */
  lemma AllWritten(s: seq<Unit>, read: nat, written: nat, room: nat)
    requires read <= |s| && written <= |Utf8(s)| && 3 * |s| <= room
    requires Utf8(s) == Utf8(s)[..written] + Utf8(s[read..])
    requires read < |s| ==> room < written + |EncodeScalar(First(s[read..]))|
    ensures written == |Utf8(s)|
  {
    hide Utf8;
    Utf8Bound(s);
    if read < |s| {
      Utf8Step(s[read..]);
    } else {
      assert s[read..] == [];
      EmptyUtf8();
    }
  }

  /** The replacement installed where `encodeInto` is missing. */
  method EncodeIntoFallback(s: seq<Unit>, view: array<Byte>, start: nat, end: nat) returns (read: nat, written: nat)
    requires start + |Utf8(s)| <= end <= view.Length
    modifies view
    ensures read == |s| && written == |Utf8(s)|
    ensures view[..] == Splice(old(view[..]), start, Utf8(s))
  {
    var buf := Utf8(s);
    CopyInto(view, start, buf);
    read, written := |s|, |buf|;
  }

  method CopyInto(a: array<Byte>, at: nat, bs: seq<Byte>)
    requires at + |bs| <= a.Length
    modifies a
    ensures a[..] == Splice(old(a[..]), at, bs)
    ensures a[at..at + |bs|] == bs
  {
    for i := 0 to |bs|
      invariant a[..] == Splice(old(a[..]), at, bs[..i])
    {
      a[at + i] := bs[i];
    }
    assert bs[..|bs|] == bs;
  }

  // ----- Passing a string in -----

  /** The state after a string has been passed: its encoding sits in a block of its
      own, and every earlier block is as it was. */
  ghost predicate Passed(bytes: seq<Byte>, blocks0: Blocks, before: seq<Byte>, blocks: Blocks, after: seq<Byte>, ptr: nat, n: nat) {
    && n == |bytes| && ptr + n <= |after| && after[ptr..ptr + n] == bytes
    && (if n == 0 then blocks == blocks0 else ptr !in blocks0 && blocks == blocks0[ptr := n])
    && Kept(blocks0, before, after)
  }

  /** One ASCII unit more has been written. */
  lemma FastStep(mem: seq<Byte>, ptr: nat, arg: seq<Unit>, n: nat, cur: seq<Byte>)
    requires n < |arg| && ptr + |arg| <= |mem| && (forall i :: 0 <= i <= n ==> arg[i] < 0x80)
    requires cur == Splice(mem, ptr, AsBytes(arg[..n]))
    ensures cur[ptr + n := arg[n]] == Splice(mem, ptr, AsBytes(arg[..n + 1]))
  {
  }

  function AsBytes(s: seq<Unit>): (r: seq<Byte>)
    requires forall i :: 0 <= i < |s| ==> s[i] < 0x80
    ensures r == s
  {
    seq(|s|, i requires 0 <= i < |s| => s[i])
  }

  /** The fast path: the leading ASCII units go straight into the block. */
  method FastPath(inst: Instance, mem: array<Byte>, ptr: nat, arg: seq<Unit>) returns (offset: nat)
    requires mem == inst.buffer && ptr + |arg| <= mem.Length
    modifies mem
    ensures offset <= |arg| && (forall i :: 0 <= i < offset ==> arg[i] < 0x80)
    ensures offset < |arg| ==> arg[offset] >= 0x80
    ensures mem[..] == Splice(old(mem[..]), ptr, AsBytes(arg[..offset]))
  {
    offset := 0;
    while offset < |arg|
      invariant offset <= |arg| && (forall i :: 0 <= i < offset ==> arg[i] < 0x80)
      invariant mem[..] == Splice(old(mem[..]), ptr, AsBytes(arg[..offset]))
    {
      var code := arg[offset];
      if code > 0x7F {
        break;
      }
      FastStep(old(mem[..]), ptr, arg, offset, mem[..]);
      mem[ptr + offset] := code;
      offset := offset + 1;
    }
  }

  lemma FastDone(arg: seq<Unit>, offset: nat)
    requires offset <= |arg| && forall i :: 0 <= i < offset ==> arg[i] < 0x80
    ensures Utf8(arg) == AsBytes(arg[..offset]) + Utf8(arg[offset..])
    ensures offset == |arg| ==> Utf8(arg) == AsBytes(arg[..offset])
  {
    AsciiPrefix(arg, offset);
    if offset == |arg| {
      assert arg[offset..] == [];
      EmptyUtf8();
    }
  }

  /** Writing the slow part behind the fast part completes the encoding. */
  lemma SlowDone(mem: seq<Byte>, ptr: nat, fast: seq<Byte>, slow: seq<Byte>)
    requires ptr + |fast| + |slow| <= |mem| && mem[ptr..ptr + |fast|] == fast
    ensures var r := Splice(mem, ptr + |fast|, slow); r[ptr..ptr + |fast| + |slow|] == fast + slow
  {
  }

  lemma SplicedBytes(mem: seq<Byte>, ptr: nat, bs: seq<Byte>)
    requires ptr + |bs| <= |mem|
    ensures Splice(mem, ptr, bs)[ptr..ptr + |bs|] == bs
  {
  }

  /** Without a reallocator the string is encoded first. */
  method PassEncoded(inst: Instance, arg: seq<Unit>) returns (ptr: nat)
    requires inst.Valid()
    modifies inst, inst.buffer
    ensures inst.Valid() && (inst.buffer == old(inst.buffer) || fresh(inst.buffer))
    ensures Passed(Utf8(arg), old(inst.blocks), old(inst.buffer[..]), inst.blocks, inst.buffer[..], ptr, inst.vectorLen)
  {
    hide Kept, BlocksOk, Splice;
    var buf := Utf8(arg);
    ptr := inst.Malloc(|buf|);
    ghost var mid := inst.buffer[..];
    var view := inst.GetUint8ArrayMemory();
    WriteKeeps(old(inst.blocks), inst.blocks, inst.top, ptr, |buf|, old(inst.buffer[..]), mid, buf);
    CopyInto(view, ptr, buf);
    inst.vectorLen := |buf|;
  }

  /** Writing at the start of a fresh block keeps the earlier blocks. */
  lemma WriteKeeps(blocks: Blocks, all: Blocks, top: nat, ptr: nat, size: nat, start: seq<Byte>, mid: seq<Byte>, bs: seq<Byte>)
    requires Kept(blocks, start, mid) && BlocksOk(all, top) && top <= |mid| && ptr + size <= |mid| && |bs| <= size
    requires if size > 0 then ptr !in blocks && all == blocks[ptr := size] else all == blocks
    ensures Kept(blocks, start, Splice(mid, ptr, bs))
  {
    if size == 0 {
      assert Splice(mid, ptr, bs) == mid;
    } else {
      SpliceKeeps(all, top, ptr, mid, ptr, bs);
      KeptSubset(all - {ptr}, blocks, mid, Splice(mid, ptr, bs));
      KeptTransitive(blocks, start, mid, Splice(mid, ptr, bs));
    }
  }

  lemma WriteInside(blocks: Blocks, all: Blocks, top: nat, ptr: nat, start: seq<Byte>, mid: seq<Byte>, at: nat, bs: seq<Byte>)
    requires Kept(blocks, start, mid) && BlocksOk(all, top) && top <= |mid| && ptr in all && ptr !in blocks && all == blocks[ptr := all[ptr]]
    requires ptr <= at && at + |bs| <= ptr + all[ptr] && at + |bs| <= |mid|
    ensures Kept(blocks, start, Splice(mid, at, bs))
  {
    SpliceKeeps(all, top, ptr, mid, at, bs);
    KeptSubset(all - {ptr}, blocks, mid, Splice(mid, at, bs));
    KeptTransitive(blocks, start, mid, Splice(mid, at, bs));
  }

  lemma Reblocked(blocks0: Blocks, ptr: nat, n: nat, r: nat, k: nat)
    requires ptr !in blocks0
    ensures (blocks0[ptr := n] - {ptr})[r := k] == blocks0[r := k]
    ensures blocks0[ptr := n] - {ptr} == blocks0
  {
  }

  /** A block of its own that begins with `bytes`, every earlier block as it was. */
  ghost predicate Holding(bytes: seq<Byte>, blocks0: Blocks, start: seq<Byte>, blocks: Blocks, mem: seq<Byte>, ptr: nat, size: nat) {
    && ptr !in blocks0 && blocks == blocks0[ptr := size]
    && |bytes| <= size && ptr + size <= |mem| && mem[ptr..ptr + |bytes|] == bytes
    && Kept(blocks0, start, mem)
  }

  /** Moving the block to a new size that still holds the bytes. */
  method Resize(inst: Instance, ptr0: nat, oldSize: nat, newSize: nat,
                ghost bytes: seq<Byte>, ghost blocks0: Blocks, ghost start: seq<Byte>)
      returns (ptr: nat)
    requires inst.Valid() && 0 < newSize && |bytes| <= newSize
    requires Holding(bytes, blocks0, start, inst.blocks, inst.buffer[..], ptr0, oldSize)
    modifies inst, inst.buffer
    ensures inst.Valid() && (inst.buffer == old(inst.buffer) || fresh(inst.buffer))
    ensures Holding(bytes, blocks0, start, inst.blocks, inst.buffer[..], ptr, newSize)
    ensures inst.vectorLen == old(inst.vectorLen)
  {
    hide Kept, BlocksOk;
    ghost var entry := inst.buffer[..];
    Reblocked(blocks0, ptr0, oldSize, 0, 0);
    ptr := inst.Realloc(ptr0, oldSize, newSize);
    Reblocked(blocks0, ptr0, oldSize, ptr, newSize);
    ghost var n := if oldSize < newSize then oldSize else newSize;
    MovedBytes(blocks0, start, entry, inst.buffer[..], ptr0, ptr, n, bytes);
  }

  lemma MovedBytes(blocks0: Blocks, start: seq<Byte>, entry: seq<Byte>, after: seq<Byte>, ptr0: nat, ptr: nat, n: nat, bytes: seq<Byte>)
    requires |bytes| <= n && ptr0 + n <= |entry| && ptr + n <= |after| && after[ptr..ptr + n] == entry[ptr0..ptr0 + n]
    requires entry[ptr0..ptr0 + |bytes|] == bytes
    requires Kept(blocks0, start, entry) && Kept(blocks0, entry, after)
    ensures after[ptr..ptr + |bytes|] == bytes && Kept(blocks0, start, after)
  {
    assert after[ptr..ptr + |bytes|] == after[ptr..ptr + n][..|bytes|];
    assert entry[ptr0..ptr0 + |bytes|] == entry[ptr0..ptr0 + n][..|bytes|];
    KeptTransitive(blocks0, start, entry, after);
  }

  /** Encoding the rest of the string behind the bytes already there. */
  method AppendEncoded(inst: Instance, rest: seq<Unit>, ptr: nat, offset: nat, len: nat, native: bool,
                       ghost fast: seq<Byte>, ghost blocks0: Blocks, ghost start: seq<Byte>)
      returns (written: nat)
    requires inst.Valid() && offset == |fast| && offset + 3 * |rest| <= len
    requires Holding(fast, blocks0, start, inst.blocks, inst.buffer[..], ptr, len)
    modifies inst`cachedUint8Array, inst.buffer
    ensures inst.Valid() && inst.buffer == old(inst.buffer) && written == |Utf8(rest)|
    ensures Holding(fast + Utf8(rest), blocks0, start, inst.blocks, inst.buffer[..], ptr, len)
  {
    hide Kept, BlocksOk, Splice, Utf8;
    ghost var mid := inst.buffer[..];
    Utf8Bound(rest);
    var view := inst.GetUint8ArrayMemory();
    var read;
    read, written := EncodeRest(rest, view, ptr + offset, ptr + len, native);
    WriteInside(blocks0, inst.blocks, inst.top, ptr, start, mid, ptr + offset, Utf8(rest));
    SlowDone(mid, ptr, fast, Utf8(rest));
  }

  /** After the fast path stopped early: grow, encode the rest, shrink. */
  method SlowPath(inst: Instance, arg: seq<Unit>, ptr0: nat, offset0: nat, native: bool, ghost blocks0: Blocks, ghost start: seq<Byte>)
      returns (ptr: nat, offset: nat)
    requires inst.Valid() && offset0 < |arg| && (forall i :: 0 <= i < offset0 ==> arg[i] < 0x80)
    requires Holding(AsBytes(arg[..offset0]), blocks0, start, inst.blocks, inst.buffer[..], ptr0, |arg|)
    modifies inst, inst.buffer
    ensures inst.Valid() && (inst.buffer == old(inst.buffer) || fresh(inst.buffer))
    ensures Passed(Utf8(arg), blocks0, start, inst.blocks, inst.buffer[..], ptr, offset)
  {
    hide Kept, BlocksOk, Splice, Utf8, Holding;
    var rest := if offset0 != 0 then arg[offset0..] else arg;
    assert rest == arg[offset0..];
    ghost var fast := AsBytes(arg[..offset0]);
    FastDone(arg, offset0);
    var len := offset0 + |rest| * 3;
    ptr := Resize(inst, ptr0, |arg|, len, fast, blocks0, start);
    var written := AppendEncoded(inst, rest, ptr, offset0, len, native, fast, blocks0, start);
    offset := offset0 + written;
    Utf8Bound(arg);
    var grown := ptr;
    ptr := Resize(inst, grown, len, offset, Utf8(arg), blocks0, start);
    HoldingPassed(Utf8(arg), blocks0, start, inst.blocks, inst.buffer[..], ptr);
  }

  lemma HoldingPassed(bytes: seq<Byte>, blocks0: Blocks, start: seq<Byte>, blocks: Blocks, mem: seq<Byte>, ptr: nat)
    requires Holding(bytes, blocks0, start, blocks, mem, ptr, |bytes|) && bytes != []
    ensures Passed(bytes, blocks0, start, blocks, mem, ptr, |bytes|)
  {
    hide Kept;
  }

  /** `encodeInto`, native or replaced, into enough room. */
  method EncodeRest(s: seq<Unit>, view: array<Byte>, start: nat, end: nat, native: bool) returns (read: nat, written: nat)
    requires start + 3 * |s| <= end <= view.Length
    modifies view
    ensures read <= |s| && written == |Utf8(s)| && start + written <= view.Length
    ensures view[..] == Splice(old(view[..]), start, Utf8(s))
  {
    hide Splice, Utf8;
    Utf8Bound(s);
    if native {
      read, written := EncodeInto(s, view, start, end);
      AllWritten(s, read, written, end - start);
      assert Utf8(s)[..written] == Utf8(s);
    } else {
      read, written := EncodeIntoFallback(s, view, start, end);
    }
  }

  method PassString(inst: Instance, arg: seq<Unit>, native: bool) returns (ptr: nat)
    requires inst.Valid()
    modifies inst, inst.buffer
    ensures inst.Valid() && (inst.buffer == old(inst.buffer) || fresh(inst.buffer))
    ensures Passed(Utf8(arg), old(inst.blocks), old(inst.buffer[..]), inst.blocks, inst.buffer[..], ptr, inst.vectorLen)
  {
    hide Kept, BlocksOk, Splice, AsBytes, Utf8;
    var len := |arg|;
    ghost var blocks0, start := inst.blocks, inst.buffer[..];
    ptr := inst.Malloc(len);
    ghost var mid := inst.buffer[..];
    var mem := inst.GetUint8ArrayMemory();
    var offset := FastPath(inst, mem, ptr, arg);
    WriteKeeps(blocks0, inst.blocks, inst.top, ptr, len, start, mid, AsBytes(arg[..offset]));
    SplicedBytes(mid, ptr, AsBytes(arg[..offset]));
    FastDone(arg, offset);
    if offset != len {
      ptr, offset := SlowPath(inst, arg, ptr, offset, native, blocks0, start);
    }
    inst.vectorLen := offset;
  }

  // ----- Reading a string back -----

  lemma {:induction false} DecodedAreScalars(bs: seq<Byte>)
    requires DecodeFrom(START, bs).Some?
    ensures forall i :: 0 <= i < |DecodeFrom(START, bs).value| ==> IsScalar(DecodeFrom(START, bs).value[i])
  {
    var vs := EncodeDecoded(bs);
    forall i | 0 <= i < |vs| ensures IsScalar(vs[i]) {
      var v: Scalar := vs[i];
    }
  }

  /** `TextDecoder.decode` with a fatal decoder that keeps a byte order mark. */
  function DecodeText(bs: seq<Byte>): Option<seq<Unit>> {
    match DecodeFrom(START, bs)
    case None => None
    case Some(vs) =>
      DecodedAreScalars(bs);
      Some(AllUnits(seq(|vs|, i requires 0 <= i < |vs| => assert IsScalar(vs[i]); vs[i])))
  }

  /** What was passed reads back as the same string exactly when it has no lone surrogate. */
  lemma RoundTrip(s: seq<Unit>)
    ensures DecodeText(Utf8(s)) == Some(AllUnits(Scalars(s)))
    ensures DecodeText(Utf8(s)) == Some(s) <==> NoLoneSurrogate(s)
  {
    var vs := Scalars(s);
    DecodeEncoded(vs);
    DecodedAreScalars(Utf8(s));
    assert seq(|vs|, i requires 0 <= i < |vs| => vs[i]) == vs;
    UnitsOfScalars(s);
  }

  const MAX_DECODE_BYTES: nat := 2146435072

  method GetString(inst: Instance, ptr: nat, len: nat) returns (s: Option<seq<Unit>>)
    requires inst.Valid() && ptr + len <= inst.buffer.Length
    modifies inst`cachedUint8Array, inst`numBytesDecoded
    ensures s == DecodeText(inst.buffer[ptr..ptr + len])
    ensures old(inst.numBytesDecoded) + len < MAX_DECODE_BYTES ==> inst.numBytesDecoded == old(inst.numBytesDecoded) + len
    ensures old(inst.numBytesDecoded) + len >= MAX_DECODE_BYTES ==> inst.numBytesDecoded == len
  {
    inst.numBytesDecoded := inst.numBytesDecoded + len;
    if inst.numBytesDecoded >= MAX_DECODE_BYTES {
      inst.numBytesDecoded := len;
    }
    var view := inst.GetUint8ArrayMemory();
    s := DecodeText(view[ptr..ptr + len]);
  }
}
