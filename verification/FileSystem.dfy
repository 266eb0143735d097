/**
 The filesystem as the source has it: a bitmap, a flat byte array changed in place, and
 control blocks. Each method is proved to do to the state's value (`View`) what the disk
 function of the same request does.
 */
module FileSystem {
  import opened Options
  import opened Bytes
  import opened BlockPointers
  import opened Disk
  import opened DiskInvariant
  import opened DiskContent
  import opened FlatFile
  import opened FileView

  class FileSystem {
    const blockSize: nat
    const blockCount: nat
    const bitmap: array<bool>
    const blockFile: array<Byte>
    var fcbs: map<string, Fcb>

    ghost predicate Sized() {
      && blockSize > 0 && blockSize % 4 == 0 && 0 < blockCount < LIMIT
      && bitmap.Length == blockCount && blockFile.Length == blockCount * blockSize
    }

    ghost function Blocks(): (r: seq<seq<Byte>>)
      reads blockFile
    {
      Chop(blockFile[..], blockSize, blockCount)
    }

    ghost function View(): Disk
      reads this, blockFile, bitmap
    {
      Disk(blockSize, bitmap[..], Blocks(), fcbs)
    }

    ghost predicate Valid()
      reads this, blockFile, bitmap
    {
      Sized() && Inv(View())
    }

    lemma SizedIsSound()
      requires Sized()
      ensures ShapeSound(View()) && |View().blocks| == blockCount
    {
      ChopLengths(blockFile[..], blockSize, blockCount);
    }

    // ----- single blocks

    method ZeroBlock(b: nat)
      requires Sized() && b < blockCount
      modifies blockFile
      ensures Blocks() == old(Blocks())[b := Zeros(blockSize)]
    {
      BlockBounds(b, blockSize, blockCount);
      var start := b * blockSize;
      var i := start;
      while i < start + blockSize
        invariant start <= i <= start + blockSize
        invariant forall a :: start <= a < i ==> blockFile[a] == 0
        invariant forall a :: 0 <= a < blockFile.Length && !(start <= a < i) ==> blockFile[a] == old(blockFile[a])
      {
        blockFile[i] := 0;
        i := i + 1;
      }
      assert Window(blockFile[..], start, blockSize) == Zeros(blockSize);
      ChopChanged(old(blockFile[..]), blockFile[..], blockSize, blockCount, b, Zeros(blockSize));
    }

    method NextBitPosition() returns (r: int)
      modifies bitmap
      ensures r == FirstFree(old(bitmap[..]), 0)
      ensures bitmap[..] == if r == -1 then old(bitmap[..]) else old(bitmap[..])[r := true]
    {
      var i := 0;
      while i < bitmap.Length
        invariant 0 <= i <= bitmap.Length && bitmap[..] == old(bitmap[..])
        invariant forall j :: 0 <= j < i ==> bitmap[j]
      {
        if !bitmap[i] {
          FirstFreeIs(bitmap[..], i);
          bitmap[i] := true;
          return i;
        }
        i := i + 1;
      }
      return -1;
    }

    lemma FirstFreeIs(bits: seq<bool>, i: nat)
      requires i < |bits| && !bits[i] && forall j :: 0 <= j < i ==> bits[j]
      ensures FirstFree(bits, 0) == i
    {
    }

    method CopyIn(at: nat, data: seq<Byte>)
      requires at + |data| <= blockFile.Length
      modifies blockFile
      ensures blockFile[..] == Splice(old(blockFile[..]), at, data)
    {
      forall i | 0 <= i < |data| {
        blockFile[at + i] := data[i];
      }
    }

    method SetBfIp(indirect: nat, ptrs: seq<nat>)
      requires Sized() && indirect < blockCount && 4 * |ptrs| <= blockSize
      requires forall i :: 0 <= i < |ptrs| ==> ptrs[i] < LIMIT
      modifies blockFile
      ensures |old(Blocks())[indirect]| == blockSize
      ensures Blocks() == old(Blocks())[indirect := PutPtrs(old(Blocks())[indirect], ptrs)]
    {
      SizedIsSound();
      BlockBounds(indirect, blockSize, blockCount);
      ghost var flat := blockFile[..];
      ghost var start := indirect * blockSize;
      var i := 0;
      assert Splice(flat, start, EncodeAll(ptrs[..0])) == flat;
      while i < |ptrs|
        invariant 0 <= i <= |ptrs|
        invariant blockFile[..] == Splice(flat, start, EncodeAll(ptrs[..i]))
      {
        EncodeSnoc(ptrs, i);
        SpliceOn(flat, start, EncodeAll(ptrs[..i]), Encode(ptrs[i]));
        CopyIn(indirect * blockSize + i * 4, Encode(ptrs[i]));
        i := i + 1;
      }
      assert ptrs[..|ptrs|] == ptrs;
      WindowOfSplice(flat, start, blockSize, EncodeAll(ptrs));
      ChopChanged(flat, blockFile[..], blockSize, blockCount, indirect, PutPtrs(old(Blocks())[indirect], ptrs));
    }

    lemma {:induction false} EncodeSnoc(ptrs: seq<nat>, i: nat)
      requires i < |ptrs| && forall j :: 0 <= j < |ptrs| ==> ptrs[j] < LIMIT
      ensures EncodeAll(ptrs[..i + 1]) == EncodeAll(ptrs[..i]) + Encode(ptrs[i])
    {
      if i == 0 {
        assert ptrs[..1] == [ptrs[0]];
      } else {
        assert ptrs[..i + 1][1..] == ptrs[1..][..i] && ptrs[..i][1..] == ptrs[1..][..i - 1];
        EncodeSnoc(ptrs[1..], i - 1);
      }
    }

    method GetBfIp(indirect: nat) returns (list: seq<nat>)
      requires Sized() && indirect < blockCount
      ensures list == GetPtrs(Blocks()[indirect])
    {
      BlockBounds(indirect, blockSize, blockCount);
      var start := indirect * blockSize;
      ghost var slots, slot := blockSize / 4, 0;
      list := [];
      ReadEnds(blockFile[..], start, blockSize, list);
      var i := start;
      while i < start + blockSize
        invariant i == start + 4 * slot && slot <= slots
        invariant ReadUpTo(blockFile[..], start, blockSize, 4 * slot, list)
      {
        ReadSlot(blockFile[..], start, blockSize, 4 * slot, list);
        var number := Decode(blockFile[i..i + 4]);
        if number != 0 {
          list := list + [number];
        }
        i, slot := i + 4, slot + 1;
      }
      ReadEnds(blockFile[..], start, blockSize, list);
    }

    // ----- taking and giving back blocks

    method FreeBlock(b: nat)
      requires Sized() && b < blockCount
      modifies bitmap, blockFile
      ensures View() == Release(old(View()), [b])
    {
      SizedIsSound();
      ZeroBlock(b);
      bitmap[b] := false;
      assert View().bits == Release(old(View()), [b]).bits;
      assert View().blocks == Release(old(View()), [b]).blocks;
    }

    method FreeBlocks(list: seq<nat>)
      requires Sized() && forall i :: 0 <= i < |list| ==> list[i] < blockCount
      modifies bitmap, blockFile
      ensures View() == Release(old(View()), list)
    {
      SizedIsSound();
      ghost var d := View();
      ReleaseNone(d);
      var i := 0;
      while i < |list|
        invariant 0 <= i <= |list| && View() == Release(d, list[..i])
      {
        ReleaseMore(d, list[..i], [list[i]]);
        assert list[..i + 1] == list[..i] + [list[i]];
        FreeBlock(list[i]);
        i := i + 1;
      }
      assert list[..|list|] == list;
    }

    /** Frees the blocks of the list behind the first `keep`, the last one first. */
    method FreeTail(list: seq<nat>, keep: nat) returns (kept: seq<nat>)
      requires Sized() && keep <= |list| && forall i :: 0 <= i < |list| ==> list[i] < blockCount
      modifies bitmap, blockFile
      ensures View() == Release(old(View()), list[keep..]) && kept == list[..keep]
    {
      SizedIsSound();
      ghost var d := View();
      ReleaseNone(d);
      kept := list;
      var i, excess := 0, |list| - keep;
      while i < excess
        invariant 0 <= i <= excess && kept == list[..|list| - i] && View() == Release(d, list[|list| - i..])
      {
        var index := |list| - i - 1;
        ReleaseMore(d, list[index + 1..], [list[index]]);
        ReleaseSame(d, list[index + 1..] + [list[index]], list[index..]);
        FreeBlock(list[index]);
        kept := kept[..index];
        i := i + 1;
      }
    }

    /** One block more than the `gained` of `bits`. */
    method TakeNext(ghost bits: seq<bool>, ghost gained: seq<nat>) returns (b: nat)
      requires |gained| < FreeCount(bits) && Next(bits, gained) && bitmap[..] == Take(bits, gained)
      modifies bitmap
      ensures Next(bits, gained + [b]) && bitmap[..] == Take(bits, gained + [b])
      ensures b < |bits|
    {
      NextIsLowest(bits, gained, bitmap[..]);
      b := NextBitPosition();
    }

    method TakeList(list: seq<nat>, n: nat, ghost bits: seq<bool>, ghost gained: seq<nat>)
      returns (longer: seq<nat>, ghost more: seq<nat>)
      requires |gained| + n <= FreeCount(bits) && Next(bits, gained) && bitmap[..] == Take(bits, gained)
      modifies bitmap
      ensures longer == list + more && |more| == n && forall i :: 0 <= i < |more| ==> more[i] < |bits|
      ensures Next(bits, gained + more) && bitmap[..] == Take(bits, gained + more)
    {
      longer, more := list, [];
      var i := 0;
      assert gained + more == gained;
      while i < n
        invariant 0 <= i <= n && longer == list + more && |more| == i &&
                  forall i :: 0 <= i < |more| ==> more[i] < |bits|
        invariant Next(bits, gained + more) && bitmap[..] == Take(bits, gained + more)
      {
        var b := TakeNext(bits, gained + more);
        assert gained + more + [b] == gained + (more + [b]);
        longer, more := longer + [b], more + [b];
        i := i + 1;
      }
    }

    // ----- resize_block

    /** The numbers in a control block and its list are block numbers. */
    ghost predicate Pointed(f: Fcb, list: seq<nat>) {
      && (f.direct.Some? ==> f.direct.value < blockCount) && (f.indirect.Some? ==> f.indirect.value < blockCount)
      && forall i :: 0 <= i < |list| ==> list[i] < blockCount
    }

    lemma FileIsPointed(name: string)
      requires Valid() && name in fcbs
      ensures AsInt(fcbs[name].indirect) < blockCount
      ensures Pointed(fcbs[name], Listed(View(), fcbs[name]))
    {
      assert |View().blocks| == blockCount;
      ListedInRange(View(), name);
    }

    /** Size 0: every block is given back. */
    method ResizeToNothing(name: string, f: Fcb, list: seq<nat>)
      requires Sized() && name in fcbs && f == fcbs[name] && Pointed(f, list)
      modifies this`fcbs, bitmap, blockFile
      ensures View() == DropAll(old(View()), name, f, list)
    {
      SizedIsSound();
      ghost var d := View();
      ReleaseNone(d);
      if f.direct.Some? {
        FreeBlock(f.direct.value);
      }
      if f.indirect.Some? {
        ReleaseMore(d, if f.direct.Some? then [f.direct.value] else [], list);
        ReleaseMore(d, (if f.direct.Some? then [f.direct.value] else []) + list, [f.indirect.value]);
        FreeBlocks(list);
        FreeBlock(f.indirect.value);
      }
      fcbs := fcbs[name := Fcb(0, None, None)];
    }

    /** At most one block: the direct one, taken if there is none; the list goes. */
    method ResizeToOne(name: string, f: Fcb, n: nat, list: seq<nat>)
      requires Sized() && name in fcbs && f == fcbs[name] && Pointed(f, list)
      requires f.direct.None? ==> FreeCount(bitmap[..]) > 0
      modifies this`fcbs, bitmap, blockFile
      ensures View() == KeepOne(old(View()), name, f, n, list)
    {
      SizedIsSound();
      ghost var d, gained := View(), [];
      TakeNone(d.bits);
      var direct := AsInt(f.direct);
      if f.direct.None? {
        direct := TakeNext(d.bits, []);
        gained := [direct];
        assert [] + [direct] == [direct];
      }
      ghost var taken := View();
      assert taken == d.(bits := Take(d.bits, gained));
      ReleaseNone(taken);
      if f.indirect.Some? {
        ReleaseMore(taken, list, [f.indirect.value]);
        FreeBlocks(list);
        FreeBlock(f.indirect.value);
      }
      fcbs := fcbs[name := Fcb(n, Some(direct), None)];
    }

    /** The direct and the indirect block, taken if the file has none. */
    method TakePointers(f: Fcb) returns (direct: nat, indirect: nat, ghost gained: seq<nat>)
      requires (if f.direct.None? then 1 else 0) + (if f.indirect.None? then 1 else 0) <= FreeCount(bitmap[..])
      requires Sized() && (f.indirect.Some? ==> f.indirect.value < blockCount)
      modifies bitmap
      ensures gained == If(f.direct.None?, direct) + If(f.indirect.None?, indirect)
      ensures Next(old(bitmap[..]), gained) && bitmap[..] == Take(old(bitmap[..]), gained)
      ensures (f.direct.Some? ==> direct == f.direct.value) && (f.indirect.Some? ==> indirect == f.indirect.value)
      ensures indirect < blockCount
    {
      ghost var bits := bitmap[..];
      TakeNone(bits);
      direct, indirect, gained := AsInt(f.direct), AsInt(f.indirect), [];
      if f.direct.None? {
        direct := TakeNext(bits, gained);
        gained := gained + [direct];
      }
      if f.indirect.None? {
        indirect := TakeNext(bits, gained);
        gained := gained + [indirect];
      }
    }

    /** The end of the list given back, the rest written afresh. */
    method Shorten(indirect: nat, list: seq<nat>, need: nat)
      requires Sized() && ShapeSound(View()) && indirect < blockCount &&
               forall i :: 0 <= i < |list| ==> list[i] < blockCount
      requires 4 * need <= blockSize && need < |list|
      modifies bitmap, blockFile
      ensures View() == Relisted(old(View()), indirect, list, [], need)
    {
      var kept := FreeTail(list, need);
      SizedIsSound();
      ZeroBlock(indirect);
      SetBfIp(indirect, kept);
    }

    /** Blocks taken now added to the list, and the list written over the old one. */
    method Lengthen(indirect: nat, list: seq<nat>, need: nat, ghost bits: seq<bool>, ghost gained: seq<nat>)
      returns (ghost more: seq<nat>)
      requires Sized() && ShapeSound(View()) && indirect < blockCount &&
               forall i :: 0 <= i < |list| ==> list[i] < blockCount
      requires 4 * need <= blockSize && |bits| == blockCount && need > |list|
      requires Next(bits, gained) && bitmap[..] == Take(bits, gained) && |gained| + need - |list| <= FreeCount(bits)
      modifies bitmap, blockFile
      ensures |more| == need - |list| && Next(bits, gained + more) && forall i :: 0 <= i < |more| ==> more[i] < LIMIT
      ensures View() == Relisted(old(View()).(bits := Take(bits, gained + more)), indirect, list, more, need)
    {
      var longer;
      longer, more := TakeList(list, need - |list|, bits, gained);
      SetBfIp(indirect, longer);
    }

    /** The list made as long as it is to be. */
    method SetListLength(indirect: nat, list: seq<nat>, need: nat, ghost bits: seq<bool>, ghost gained: seq<nat>)
      returns (ghost more: seq<nat>)
      requires Sized() && ShapeSound(View()) && indirect < blockCount &&
               forall i :: 0 <= i < |list| ==> list[i] < blockCount
      requires 4 * need <= blockSize && |bits| == blockCount && Next(bits, gained) && bitmap[..] == Take(bits, gained)
      requires need > |list| ==> |gained| + need - |list| <= FreeCount(bits)
      modifies bitmap, blockFile
      ensures |more| == (if need > |list| then need - |list| else 0) && Next(bits, gained + more) &&
              forall i :: 0 <= i < |more| ==> more[i] < LIMIT
      ensures View() == Relisted(old(View()).(bits := Take(bits, gained + more)), indirect, list, more, need)
    {
      more := [];
      assert gained + more == gained;
      if need > |list| {
        more := Lengthen(indirect, list, need, bits, gained);
      } else if need < |list| {
        Shorten(indirect, list, need);
      }
    }

    /** The pointers and the list for `need` blocks behind the direct one. */
    method SetPointers(f: Fcb, list: seq<nat>, need: nat)
      returns (direct: nat, indirect: nat, ghost more: seq<nat>, ghost gained: seq<nat>)
      requires Sized() && ShapeSound(View()) && Pointed(f, list) && 4 * need <= blockSize
      requires (if f.direct.None? then 1 else 0) + (if f.indirect.None? then 1 else 0) +
               (if need > |list| then need - |list| else 0)
            <= FreeCount(bitmap[..])
      modifies bitmap, blockFile
      ensures gained == If(f.direct.None?, direct) + If(f.indirect.None?, indirect) + more &&
              Next(old(bitmap[..]), gained)
      ensures (f.direct.Some? ==> direct == f.direct.value) && (f.indirect.Some? ==> indirect == f.indirect.value) &&
              indirect < blockCount
      ensures |more| == (if need > |list| then need - |list| else 0) && forall i :: 0 <= i < |more| ==> more[i] < LIMIT
      ensures View() == Relisted(old(View()).(bits := Take(old(bitmap[..]), gained)), indirect, list, more, need)
    {
      ghost var bits := bitmap[..];
      direct, indirect, gained := TakePointers(f);
      more := SetListLength(indirect, list, need, bits, gained);
      gained := gained + more;
    }

    /** More than one block. */
    method ResizeToMany(name: string, f: Fcb, n: nat, list: seq<nat>)
      requires Sized() && ShapeSound(View()) && name in fcbs && f == fcbs[name] && Pointed(f, list)
      requires blockSize < n && n != f.size && 4 * (CeilDiv(n, blockSize) - 1) <= blockSize
      requires Demand(View(), f, n, |list|) <= FreeCount(bitmap[..])
      modifies this`fcbs, bitmap, blockFile
      ensures View() == Spread(old(View()), name, f, n, list)
    {
      ghost var d := View();
      DemandIs(d, f, n, |list|);
      var need: nat := (n + blockSize - 1) / blockSize - 1;
      var direct, indirect;
      ghost var more, gained;
      direct, indirect, more, gained := SetPointers(f, list, need);
      SpreadIs(d, name, f, n, need, list, direct, indirect, more, gained);
      fcbs := fcbs[name := Fcb(n, Some(direct), Some(indirect))];
    }

    method ResizeBlock(name: string, n: nat)
      requires Valid() && CanResize(View(), name, n)
      modifies this`fcbs, bitmap, blockFile
      ensures View() == Resize(old(View()), name, n)
    {
      var f := fcbs[name];
      if n != f.size {
        FileIsPointed(name);
        var list := GetBfIp(AsInt(f.indirect));
        if n == 0 {
          ResizeToNothing(name, f, list);
        } else if n <= blockSize {
          ResizeToOne(name, f, n, list);
        } else {
          NeedFits(blockSize, n);
          ResizeToMany(name, f, n, list);
        }
      }
    }

    // ----- iterate_block_file

    /** What has happened after `done` bytes: of a write, with `text` in the blocks, of a read, with `buffer` filled. */
    ghost predicate Transferred(write: bool, d: Disk, data: seq<nat>, pos: nat, text: seq<Byte>, size: nat, done: nat,
      buffer: seq<Byte>)
      reads this, blockFile, bitmap
    {
      && Sized() && Covers(d, data, pos, size) && done <= size && d.blockSize == blockSize
      && if write then |text| == size && View() == Written(d, WriteBytes(d, data, pos, text[..done]))
         else View() == d && buffer == ReadBytes(d, data, pos, done)
    }

    method PutNext(ghost d: Disk, ghost data: seq<nat>, ghost pos: nat, text: seq<Byte>, ghost size: nat, done: nat,
      ghost buffer: seq<Byte>, ghost i: nat, ghost o: nat, at: nat)
      requires Transferred(true, d, data, pos, text, size, done, buffer) && done < size
      requires Cell(pos + done, blockSize) == (i, o) && i < |data| && at == data[i] * blockSize + o
      modifies blockFile
      ensures Transferred(true, d, data, pos, text, size, done + 1, buffer)
    {
      SizedIsSound();
      ghost var b, flat := data[i], blockFile[..];
      BlockBounds(b, blockSize, blockCount);
      blockFile[at] := text[done];
      ChopPut(flat, blockFile[..], blockSize, blockCount, b, o, text[done]);
      assert text[..done + 1][..done] == text[..done];
    }

    method GetNext(ghost d: Disk, ghost data: seq<nat>, ghost pos: nat, ghost text: seq<Byte>, ghost size: nat,
      done: nat, buffer: seq<Byte>, ghost i: nat, ghost o: nat, at: nat) returns (buffer': seq<Byte>)
      requires Transferred(false, d, data, pos, text, size, done, buffer) && done < size
      requires Cell(pos + done, blockSize) == (i, o) && i < |data| && at == data[i] * blockSize + o
      ensures Transferred(false, d, data, pos, text, size, done + 1, buffer')
    {
      SizedIsSound();
      BlockBounds(data[i], blockSize, blockCount);
      assert Window(blockFile[..], data[i] * blockSize, blockSize)[o] == blockFile[at];
      ReadNext(d, data, pos, done, i, o);
      var byte := blockFile[at];
      buffer' := buffer + [if byte != 0 then byte else 32];
    }

    /** Byte `done` of the transfer, at offset `o` of block `i` of the file. */
    method TransferByte(write: bool, ghost d: Disk, ghost data: seq<nat>, ghost pos: nat, text: seq<Byte>, size: nat,
      done: nat, buffer: seq<Byte>, ghost i: nat, ghost o: nat, at: nat) returns (buffer': seq<Byte>)
      requires Transferred(write, d, data, pos, text, size, done, buffer) && done < size
      requires i < |data| && At(pos + done, i, o, blockSize) && at == data[i] * blockSize + o
      modifies blockFile
      ensures Transferred(write, d, data, pos, text, size, done + 1, buffer')
    {
      CellAt(pos + done, i, o, blockSize);
      if write {
        PutNext(d, data, pos, text, size, done, buffer, i, o, at);
        buffer' := buffer;
      } else {
        buffer' := GetNext(d, data, pos, text, size, done, buffer, i, o, at);
      }
    }

    /** The inner loop: one block, from the byte at offset `o` on, until its end or until all is done. */
    method TransferBlock(write: bool, ghost d: Disk, ghost data: seq<nat>, ghost pos: nat, text: seq<Byte>, size: nat,
      done: nat, buffer: seq<Byte>, ghost i: nat, ghost o: nat, start: nat, end: nat)
      returns (done': nat, buffer': seq<Byte>)
      requires Transferred(write, d, data, pos, text, size, done, buffer) && done < size
      requires i < |data| && At(pos + done, i, o, blockSize)
      requires start == data[i] * blockSize + o && end == data[i] * blockSize + blockSize
      modifies blockFile
      ensures Transferred(write, d, data, pos, text, size, done', buffer')
      ensures done' == if size - done < blockSize - o then size else done + (blockSize - o)
    {
      done', buffer' := done, buffer;
      var j := 0;
      while j < end - start
        invariant 0 <= j <= end - start && done' == done + j && done' <= size && (j < end - start ==> done' < size)
        invariant Transferred(write, d, data, pos, text, size, done', buffer')
      {
        assert At(pos + done', i, o + j, blockSize);
        buffer' := TransferByte(write, d, data, pos, text, size, done', buffer', i, o + j, start + j);
        done' := done' + 1;
        if done' == size {
          break;
        }
        j := j + 1;
      }
    }

    method CopyBlock(write: bool, ghost d: Disk, list: seq<nat>, pos: nat, text: seq<Byte>, size: nat, done: nat,
      buffer: seq<Byte>, i: nat, ghost o: nat) returns (done': nat, buffer': seq<Byte>)
      requires Transferred(write, d, list, pos, text, size, done, buffer) && done < size &&
               At(pos + done, i, o, blockSize)
      modifies blockFile
      ensures Transferred(write, d, list, pos, text, size, done', buffer')
      ensures done' == if size - done < blockSize - o then size else done + (blockSize - o)
    {
      CellAt(pos + done, i, o, blockSize);
      CellInRange(d, list, pos + done);
      ProductIsNat(list[i], blockSize);
      var startPositionInBlock := list[i] * blockSize;
      var endPositionInBlock := startPositionInBlock + blockSize;
      var startPosition := (pos + done - i * blockSize) + startPositionInBlock;
      assert startPosition == startPositionInBlock + o;
      done', buffer' := TransferBlock(write, d, list, pos, text, size, done, buffer, i, o, startPosition,
        endPositionInBlock);
    }

    /** The outer loop, over the blocks from the one of `pos` on. */
    method CopyBlocks(write: bool, ghost d: Disk, list: seq<nat>, pos: nat, text: seq<Byte>, size: nat)
      returns (buffer: seq<Byte>)
      requires Transferred(write, d, list, pos, text, size, 0, []) && size > 0
      modifies blockFile
      ensures Transferred(write, d, list, pos, text, size, size, buffer)
    {
      ghost var o: nat := FirstBlock(pos, blockSize);
      var positionInitialBlock := pos / blockSize;
      var blocksNeed := (size + blockSize - 1) / blockSize;
      var i: nat, done: nat := positionInitialBlock, 0;
      buffer := [];
      while i <= positionInitialBlock + blocksNeed
        invariant Transferred(write, d, list, pos, text, size, done, buffer)
        invariant done < size && At(pos + done, i, o, blockSize)
        decreases positionInitialBlock + blocksNeed - i
      {
        ghost var before := done;
        done, buffer := CopyBlock(write, d, list, pos, text, size, done, buffer, i, o);
        if done == size {
          return;
        }
        NextBlock(pos + before, i, o, blockSize, pos + done);
        i, o := i + 1, 0;
      }
      BlocksSuffice(pos, size, done, i, o, blockSize);
    }

    /** Writes the text, or reads into a buffer that ends in a terminator. */
    method IterateBlockFile(write: bool, name: string, pos: nat, size: nat, text: seq<Byte>) returns (str: seq<Byte>)
      requires Valid() && name in fcbs && size > 0 && pos + size <= |Content(View(), name)| &&
               (write ==> |text| == size)
      modifies blockFile
      ensures Covers(old(View()), Data(old(View()), fcbs[name]), pos, size)
      ensures write ==>
              View() == Written(old(View()), WriteBytes(old(View()), Data(old(View()), fcbs[name]), pos, text))
      ensures !write ==>
              View() == old(View()) && str == ReadBytes(old(View()), Data(old(View()), fcbs[name]), pos, size) + [0]
    {
      ghost var d := View();
      FileCovers(d, name, pos, size);
      var list := FileBlocks(name);
      TransferStarts(write, list, pos, text, size);
      str := CopyBlocks(write, d, list, pos, text, size);
      TransferEnds(write, d, list, pos, text, size, str);
      if !write {
        str := str + [0];
      }
    }

    /** The direct pointer and the list: what holds the file's bytes. */
    method FileBlocks(name: string) returns (list: seq<nat>)
      requires Valid() && name in fcbs && Content(View(), name) != []
      ensures list == Data(View(), fcbs[name])
    {
      FileIsPointed(name);
      var f := fcbs[name];
      assert FileOk(View(), f);
      ListedIsPtrs(View(), f);
      list := GetBfIp(AsInt(f.indirect));
      list := [AsInt(f.direct)] + list;
    }

    lemma TransferStarts(write: bool, data: seq<nat>, pos: nat, text: seq<Byte>, size: nat)
      requires Sized() && Covers(View(), data, pos, size) && (write ==> |text| == size)
      ensures Transferred(write, View(), data, pos, text, size, 0, [])
    {
      assert text[..0] == [];
    }

    lemma TransferEnds(write: bool, d: Disk, data: seq<nat>, pos: nat, text: seq<Byte>, size: nat, buffer: seq<Byte>)
      requires Transferred(write, d, data, pos, text, size, size, buffer)
      ensures if write then |text| == size && View() == Written(d, WriteBytes(d, data, pos, text))
              else View() == d && buffer == ReadBytes(d, data, pos, size)
    {
      assert write ==> text[..size] == text;
    }

    // ----- the requests

    method OpenFile(name: string, canCreate: bool) returns (ok: bool)
      requires Valid()
      modifies this`fcbs
      ensures ok == (name in old(fcbs) || canCreate)
      ensures View() == if name !in old(fcbs) && canCreate then Created(old(View()), name) else old(View())
    {
      if name !in fcbs {
        if !canCreate {
          return false;
        }
        fcbs := fcbs[name := Fcb(0, None, None)];
      }
      return true;
    }

    method ProcessInstruction(req: Request) returns (reply: Reply)
      requires Valid() && Legal(View(), req)
      modifies this`fcbs, bitmap, blockFile
      ensures Valid() && (View(), reply) == Serve(old(View()), req)
    {
      ServeRefines(View(), req);
      match req {
        case ReadFile(name, pos, size) =>
          var buffer := IterateBlockFile(false, name, pos, size, []);
          ReadIsText(View(), Data(View(), fcbs[name]), pos, size);
          reply := Text(CString(buffer));
        case WriteFile(name, pos, text) =>
          var _ := IterateBlockFile(true, name, pos, |text|, text);
          reply := Done;
        case OpenFile(name, canCreate) =>
          var ok := OpenFile(name, canCreate);
          reply := if ok then Done else Flaw;
        case TruncateFile(name, size) =>
          ResizeBlock(name, size);
          reply := Done;
      }
    }

    /** The requests served so far take the disk from `d` to here, and those left can be served. */
    ghost predicate Served(d: Disk, reqs: seq<Request>, replies: seq<Reply>)
      reads this, blockFile, bitmap
    {
      && Valid() && Runs(d, reqs) && |replies| <= |reqs| && Runs(d, reqs[..|replies|])
      && View() == After(d, reqs[..|replies|]) && replies == RepliesOf(d, reqs[..|replies|])
    }

    method HandleKernel(reqs: seq<Request>) returns (replies: seq<Reply>)
      requires Valid() && Runs(View(), reqs)
      modifies this`fcbs, bitmap, blockFile
      ensures Valid() && View() == After(old(View()), reqs) && replies == RepliesOf(old(View()), reqs)
    {
      ghost var d := View();
      replies := [];
      while |replies| < |reqs|
        invariant Served(d, reqs, replies)
        decreases |reqs| - |replies|
      {
        RunNext(d, reqs, |replies|);
        var reply := ProcessInstruction(reqs[|replies|]);
        replies := replies + [reply];
      }
      assert reqs[..|reqs|] == reqs;
    }
  }
}
