/**
 Byte-granular transfers over a flash that only moves blocks of up to sixteen
 dwords (nvm.c): unaligned reads, aligned writes, and one retry budget per transfer.
 */
module Nvm {
  import opened Dwords

  const BLOCK := 64
  const EIO := 5
  const ENODEV := 19
  const EINVAL := 22
  const ETIMEDOUT := 110

  /** The number of blocks a transfer of `size` bytes at `address` touches. */
  function Blocks(address: nat, size: nat): (n: nat) {
    (size + address % 4 + BLOCK - 1) / BLOCK
  }

  /** How many of `size` bytes wanted at `address` one block delivers. */
  function Chunk(address: nat, size: nat): (n: nat)
    ensures n <= size && (size > 0 ==> n > 0)
  {
    (if size + address % 4 < BLOCK then size + address % 4 else BLOCK) - address % 4
  }

  /** After `good` blocks, `done` of the `total` bytes at `start` have moved. */
  predicate InStep(start: nat, total: nat, done: nat, good: nat) {
    && done <= total
    && (good == 0 ==> done == 0)
    && (good > 0 && done < total ==> done + start % 4 == BLOCK * good)
    && (good > 0 && done == total > 0 ==> good == Blocks(start, total))
  }

  /** One more block keeps step, and an unfinished transfer has a block to go. */
  lemma ChunkStep(start: nat, total: nat, done: nat, good: nat)
    requires InStep(start, total, done, good) && (done < total || good == 0)
    ensures InStep(start, total, done + Chunk(start + done, total - done), good + 1)
    ensures total > 0 ==> good < Blocks(start, total)
  {
    if good > 0 {
      assert (start + done) % 4 == 0;
    }
  }

  /** The return code of call number `k`, as far as the caller knows: calls past the list succeed. */
  function FaultAt(faults: seq<int>, k: nat): (f: int) {
    if k < |faults| then faults[k] else 0
  }

  /** How many of the first `n` calls report a failure. */
  function Failures(faults: seq<int>, n: nat): (k: nat) {
    if n == 0 then 0 else Failures(faults, n - 1) + if FaultAt(faults, n - 1) != 0 then 1 else 0
  }

  lemma {:induction false} FailuresBounded(faults: seq<int>, n: nat)
    ensures Failures(faults, n) <= Failures(faults, |faults|)
    decreases if n < |faults| then |faults| - n else n - |faults|
  {
    if n < |faults| {
      FailuresBounded(faults, n + 1);
    } else if n > |faults| {
      FailuresBounded(faults, n - 1);
    }
  }

  /** `failed` of the `good + failed` calls made so far reported a failure, if those off the flash are left out. */
  predicate Counted(faults: seq<int>, good: nat, failed: nat, fits: bool) {
    fits ==> failed == Failures(faults, good + failed)
  }

  lemma CountCall(faults: seq<int>, good: nat, failed: nat, fits: bool, ret: int)
    requires Counted(faults, good, failed, fits) && Outcome(ret, FaultAt(faults, good + failed), fits)
    ensures ret == 0 ==> Counted(faults, good + 1, failed, fits)
    ensures ret != 0 ==> Counted(faults, good, failed + 1, fits)
    ensures ret != 0 && fits ==> ret in faults && failed + 1 <= Failures(faults, |faults|)
  {
    FailuresBounded(faults, good + failed + 1);
  }

  /** Where the dword that holds the byte before `n` ends. */
  function RoundedUp(n: nat): (m: nat)
    ensures n <= m < n + 4 && m % 4 == 0
  {
    (n + 3) / 4 * 4
  }

  /** Where the block read for `size` bytes at `address` ends. */
  function BlockEnd(address: nat, size: nat): (e: nat) {
    address - address % 4 + RoundedUp(if size + address % 4 < BLOCK then size + address % 4 else BLOCK)
  }

  lemma BlockFits(start: nat, total: nat, done: nat)
    requires done <= total
    ensures BlockEnd(start + done, total - done) <= RoundedUp(start + total)
  {
    var address := start + done;
    assert address - address % 4 + (total - done + address % 4) == start + total;
  }

  /** All dwords of the bytes to be read are on the flash; the bytes to be written are. */
  predicate ReadFits(start: nat, total: nat, length: nat) {
    RoundedUp(start + total) <= length
  }

  predicate WriteFits(start: nat, size: nat, length: nat) {
    start + Whole(size) <= length
  }

  /** A block call returns its fault; without one it can only fail off the flash. */
  predicate Outcome(ret: int, fault: int, fits: bool) {
    ret == fault || (fault == 0 && !fits && ret == -22)
  }

  /** What a block call returns for its fault and its place on the flash. */
  predicate Returns(ret: int, fault: int, fits: bool) {
    ret == if fault != 0 then fault else if fits then 0 else -22
  }

  /** The whole dwords of `n` bytes, in bytes. */
  function Whole(n: nat): (m: nat)
    ensures m <= n && m % 4 == 0 && n - m < 4
  {
    n / 4 * 4
  }

  predicate OnlyTimeouts(faults: seq<int>) {
    forall k | 0 <= k < |faults| :: faults[k] == 0 || faults[k] == -110
  }

  /** The error a write ends with after a last call that returned `fault`. */
  predicate FailsAs(fault: int, err: int) {
    err == if fault == -110 then -5 else if fault != 0 then fault else -22
  }

  /** The whole dwords of the first `done` bytes are on the flash, and nothing outside the transfer has changed. */
  predicate Written(was: seq<Byte>, now: seq<Byte>, start: nat, buf: seq<Byte>, done: nat)
    requires done <= |buf|
  {
    && |was| == |now|
    && (Whole(done) > 0 ==> start + Whole(done) <= |was|)
    && (forall i | 0 <= i < |now| :: Want(was, now[i], start, buf, done, i))
  }

  predicate Want(was: seq<Byte>, x: Byte, start: nat, buf: seq<Byte>, done: nat, i: nat)
    requires i < |was| && done <= |buf|
  {
    if start <= i < start + Whole(done) then x == buf[i - start]
    else start <= i < start + Whole(|buf|) || x == was[i]
  }

  /** A block of `n` bytes at `done`: written in full, or left in any state. */
  predicate BlockDone(mid: seq<Byte>, now: seq<Byte>, start: nat, buf: seq<Byte>, done: nat, n: nat, ok: bool)
    requires done + n <= |buf|
  {
    && |mid| == |now|
    && (ok ==> start + done + Whole(n) <= |mid|)
    && (forall i | 0 <= i < |now| && !(start + done <= i < start + done + Whole(n)) :: now[i] == mid[i])
    && (ok ==> forall i | start + done <= i < start + done + Whole(n) :: now[i] == buf[i - start])
  }

  lemma WrittenStep(was: seq<Byte>, mid: seq<Byte>, now: seq<Byte>, start: nat, buf: seq<Byte>, done: nat, n: nat, ok: bool)
    requires done + n <= |buf| && done % 4 == 0
    requires Written(was, mid, start, buf, done) && BlockDone(mid, now, start, buf, done, n, ok)
    ensures Written(was, now, start, buf, if ok then done + n else done)
  {
    assert Whole(done) == done && Whole(done + n) == done + Whole(n);
    forall i | 0 <= i < |now| ensures Want(was, now[i], start, buf, if ok then done + n else done, i) {
      assert Want(was, mid[i], start, buf, done, i);
    }
  }

  predicate OutsideSame(was: seq<Byte>, now: seq<Byte>, start: nat, buf: seq<Byte>) {
    |was| == |now| && forall i | 0 <= i < |now| && !(start <= i < start + Whole(|buf|)) :: now[i] == was[i]
  }

  lemma WrittenIsOverlay(was: seq<Byte>, now: seq<Byte>, start: nat, buf: seq<Byte>)
    requires Written(was, now, start, buf, |buf|) && Whole(|buf|) > 0
    ensures now == Overlay(was, start, buf[..Whole(|buf|)])
  {
    forall i | 0 <= i < |now| ensures now[i] == Overlay(was, start, buf[..Whole(|buf|)])[i] {
      assert Want(was, now[i], start, buf, |buf|, i);
    }
  }

  /** The first `done` bytes of the buffer are those of the flash from `start` on. */
  predicate Filled(flash: seq<Byte>, buf: seq<Byte>, start: nat, done: nat) {
    done > 0 ==> done <= |buf| && start + done <= |flash| && buf[..done] == flash[start..start + done]
  }

  lemma FilledStep(flash: seq<Byte>, was: seq<Byte>, now: seq<Byte>, start: nat, done: nat, n: nat)
    requires done + n <= |was| == |now| && Filled(flash, was, start, done)
    requires n > 0 ==> start + done + n <= |flash|
    requires now[..done + n] == was[..done] + if n > 0 then flash[start + done..start + done + n] else []
    ensures Filled(flash, now, start, done + n)
  {
    if done > 0 && n > 0 {
      Joined(flash, start, start + done, start + done + n);
    }
  }

  lemma ReadOutcome(start: nat, done: nat, size: nat, length: nat, ret: int, fault: int)
    requires Returns(ret, fault, BlockEnd(start + done, size) <= length)
    ensures Outcome(ret, fault, ReadFits(start, done + size, length))
  {
    BlockFits(start, done + size, done);
  }

  class Flash {
    const bytes: array<Byte>

    constructor (size: nat)
      ensures fresh(bytes) && bytes.Length == size
    {
      bytes := new Byte[size];
    }

    /** The block read of the device: it fails when told to, or when asked for more than it has. */
    method ReadBlock(dwaddress: nat, data: array<Byte>, dwords: nat, fault: int) returns (ret: int)
      requires data != bytes && 4 * dwords <= data.Length
      modifies data
      ensures ret == 0 <==> fault == 0 && 4 * (dwaddress + dwords) <= bytes.Length
      ensures ret == 0 ==> data[..4 * dwords] == bytes[4 * dwaddress..4 * (dwaddress + dwords)]
      ensures ret != 0 ==> ret == if fault != 0 then fault else -EINVAL
    {
      if fault != 0 {
        return fault;
      }
      if 4 * (dwaddress + dwords) > bytes.Length {
        return -EINVAL;
      }
      forall i | 0 <= i < 4 * dwords {
        data[i] := bytes[4 * dwaddress + i];
      }
      return 0;
    }

    /** The block write of the device. A write that fails may have left anything in the block. */
    method WriteBlock(dwaddress: nat, data: seq<Byte>, fault: int) returns (ret: int)
      requires |data| % 4 == 0
      modifies bytes
      ensures ret == 0 <==> fault == 0 && 4 * dwaddress + |data| <= bytes.Length
      ensures ret == 0 ==> bytes[..] == Overlay(old(bytes[..]), 4 * dwaddress, data)
      ensures ret != 0 ==> ret == if fault != 0 then fault else -EINVAL
      ensures forall i | 0 <= i < bytes.Length && !(4 * dwaddress <= i < 4 * dwaddress + |data|) :: bytes[i] == old(bytes[i])
    {
      if 4 * dwaddress + |data| > bytes.Length {
        return if fault != 0 then fault else -EINVAL;
      }
      for i := 0 to |data|
        invariant forall k | 0 <= k < bytes.Length :: bytes[k] ==
                    if 4 * dwaddress <= k < 4 * dwaddress + i then data[k - 4 * dwaddress] else old(bytes[k])
      {
        bytes[4 * dwaddress + i] := data[i];
      }
      if fault != 0 {
        ghost var was := old(bytes[..]);
        for i := 0 to |data|
          invariant forall k | 0 <= k < bytes.Length && !(4 * dwaddress <= k < 4 * dwaddress + |data|) :: bytes[k] == was[k]
        {
          bytes[4 * dwaddress + i] := *;
        }
        return fault;
      }
      assert bytes[..] == Overlay(old(bytes[..]), 4 * dwaddress, data);
      return 0;
    }

    /** memcpy() from the block to where the buffer has got to. */
    method Copy(buf: array<Byte>, at: nat, data: array<Byte>, from: nat, n: nat)
      requires buf != data && at + n <= buf.Length && from + n <= data.Length
      modifies buf
      ensures buf[..at + n] == old(buf[..at]) + data[..][from..from + n]
      ensures forall i | at + n <= i < buf.Length :: buf[i] == old(buf[i])
    {
      forall i | 0 <= i < n {
        buf[at + i] := data[from + i];
      }
    }

    /** One trip of the read loop: the next block of `size` bytes at `address`, copied to `buf` at `done`. */
    method ReadOne(address: nat, buf: array<Byte>, done: nat, size: nat, fault: int) returns (ret: int, n: nat)
      requires buf != bytes && done + size <= buf.Length
      modifies buf
      ensures n == Chunk(address, size) && Returns(ret, fault, BlockEnd(address, size) <= bytes.Length)
      ensures ret == 0 ==> address + n <= bytes.Length && buf[..done + n] == old(buf[..done]) + bytes[..][address..address + n]
      ensures ret != 0 ==> buf[..done] == old(buf[..done])
      ensures forall i | done + size <= i < buf.Length :: buf[i] == old(buf[i])
    {
      var data := new Byte[BLOCK];
      var offset := address % 4;
      var nbytes := if size + offset < BLOCK then size + offset else BLOCK;
      var dwaddress := address / 4;
      var dwords := (nbytes + 3) / 4;
      n := nbytes - offset;
      ret := ReadBlock(dwaddress, data, dwords, fault);
      if ret != 0 {
        return;
      }
      ghost var wanted := bytes[..][address..address + n];
      assert data[..][offset..offset + n] == wanted by {
        BlockSlice(bytes[..], data[..], 4 * dwaddress, 4 * dwords, offset, n);
        assert 4 * dwaddress + offset == address;
      }
      Copy(buf, done, data, offset, n);
    }

    /** A trip of the read loop after `good` that succeeded, and what the buffer holds after it. */
    method ReadTurn(start: nat, address: nat, buf: array<Byte>, done: nat, size: nat, good: nat, fault: int)
      returns (ret: int, n: nat)
      requires buf != bytes && done + size <= buf.Length && address == start + done
      requires Filled(bytes[..], buf[..], start, done)
      requires InStep(start, done + size, done, good) && (size > 0 || good == 0)
      modifies buf
      ensures n <= size && (size > 0 ==> n > 0) && InStep(start, done + size, done + n, good + 1)
      ensures done + size > 0 ==> good < Blocks(start, done + size)
      ensures Outcome(ret, fault, ReadFits(start, done + size, bytes.Length))
      ensures Filled(bytes[..], buf[..], start, if ret == 0 then done + n else done)
      ensures forall i | done + size <= i < buf.Length :: buf[i] == old(buf[i])
    {
      ChunkStep(start, done + size, done, good);
      ret, n := ReadStep(start, address, buf, done, size, fault);
      ReadOutcome(start, done, size, bytes.Length, ret, fault);
    }

    method ReadStep(start: nat, address: nat, buf: array<Byte>, done: nat, size: nat, fault: int) returns (ret: int, n: nat)
      requires buf != bytes && done + size <= buf.Length && address == start + done
      requires Filled(bytes[..], buf[..], start, done)
      modifies buf
      ensures n == Chunk(address, size) && Returns(ret, fault, BlockEnd(address, size) <= bytes.Length)
      ensures Filled(bytes[..], buf[..], start, if ret == 0 then done + n else done)
      ensures forall i | done + size <= i < buf.Length :: buf[i] == old(buf[i])
    {
      ghost var was := buf[..];
      ret, n := ReadOne(address, buf, done, size, fault);
      assert was[..done] == old(buf[..done]) && buf[..][..done] == buf[..done];
      FilledStep(bytes[..], was, buf[..], start, done, if ret == 0 then n else 0);
    }

    /** tb_nvm_read_data(): `good` and `failed` count the block calls. */
    method ReadData(start: nat, buf: array<Byte>, total: nat, budget: nat, faults: seq<int>)
      returns (err: int, good: nat, failed: nat)
      requires buf != bytes && total <= buf.Length && bytes.Length < 0x1_0000_0000
      modifies buf
      ensures err == 0 && total > 0 ==> start + total <= bytes.Length && buf[..total] == bytes[start..start + total]
      ensures err == 0 && total > 0 ==> good == Blocks(start, total) && failed <= budget
      ensures err != 0 ==> failed == budget + 1 || err == -ENODEV
      // the transfer succeeds if its dwords are on the flash, no more calls fail than may be retried, and the device stays
      ensures ReadFits(start, total, bytes.Length) && Failures(faults, |faults|) <= budget && -19 !in faults ==> err == 0
      // a failure is that of the last call made
      ensures err != 0 ==>
                good + failed > 0 && Outcome(err, FaultAt(faults, good + failed - 1), ReadFits(start, total, bytes.Length))
      ensures total > 0 ==> good + failed <= Blocks(start, total) + budget
      ensures forall i | total <= i < buf.Length :: buf[i] == old(buf[i])
    {
      var address: nat, size: nat, retries: nat := start, total, budget;
      good, failed := 0, 0;
      var done: nat := 0;
      var more := true;
      ghost var fits := ReadFits(start, total, bytes.Length);
      while more
        invariant size + done == total && address == start + done
        invariant failed + retries == budget
        invariant Counted(faults, good, failed, fits)
        invariant InStep(start, total, done, good) && (more <==> good == failed == 0 || size > 0)
        invariant Filled(bytes[..], buf[..], start, done)
        invariant forall i | total <= i < buf.Length :: buf[i] == old(buf[i])
        decreases size + retries, more
      {
        var ret, n := ReadTurn(start, address, buf, done, size, good, FaultAt(faults, good + failed));
        CountCall(faults, good, failed, fits, ret);
        if ret != 0 {
          failed := failed + 1;
          if ret != -ENODEV && retries > 0 {
            retries := retries - 1;
            more := size > 0;
            continue;
          }
          return ret, good, failed;
        }
        good, done := good + 1, done + n;
        size, address := size - n, address + n;
        more := size > 0;
      }
      assert buf[..][..total] == buf[..total];
      err := 0;
    }

    /**
     One trip of the write loop. `defined` says that its copy stays inside the caller's
     buffer and the block buffer; where it does not, nothing is said of the trip.
     */
    method WriteOne(start: nat, buf: seq<Byte>, done: nat, fault: int) returns (defined: bool, ret: int, n: nat)
      requires done <= |buf| && done % 4 == 0
      modifies bytes
      ensures defined <==> start % 4 == 0
      ensures defined ==> n == Chunk(start + done, |buf| - done)
      ensures defined ==> BlockDone(old(bytes[..]), bytes[..], start, buf, done, n, ret == 0)
      ensures defined ==> Returns(ret, fault, start + done + Whole(n) <= bytes.Length)
      ensures !defined ==> bytes[..] == old(bytes[..])
    {
      var address, size := start + done, |buf| - done;
      var offset := address % 4;
      n := CopyLength(address, size);
      WriteTripInside(address, size);
      if n > size || offset + n > BLOCK {
        return false, 0, 0;
      }
      defined := true;
      var data := buf[done..done + Whole(n)];
      ret := WriteBlock(address / 4, data, fault);
      assert 4 * (address / 4) == start + done;
    }

    /** A trip of the write loop, and what the flash holds after it. */
    method WriteTurn(start: nat, buf: seq<Byte>, done: nat, fault: int, ghost was: seq<Byte>)
      returns (defined: bool, ret: int, n: nat)
      requires done <= |buf| && done % 4 == 0 && Written(was, bytes[..], start, buf, done)
      modifies bytes
      ensures defined <==> start % 4 == 0
      ensures defined ==> n == Chunk(start + done, |buf| - done)
      ensures defined ==> Outcome(ret, fault, WriteFits(start, |buf|, bytes.Length))
      ensures defined ==> Written(was, bytes[..], start, buf, if ret == 0 then done + n else done)
      ensures OutsideSame(was, bytes[..], start, buf)
      ensures !defined ==> bytes[..] == old(bytes[..])
    {
      ghost var mid := bytes[..];
      defined, ret, n := WriteOne(start, buf, done, fault);
      if defined {
        assert Whole(done) == done && done + Whole(n) <= Whole(|buf|);
        WrittenStep(was, mid, bytes[..], start, buf, done, n, ret == 0);
        Untouched(was, bytes[..], start, buf, if ret == 0 then done + n else done);
      } else {
        Untouched(was, bytes[..], start, buf, done);
      }
    }

    /**
     tb_nvm_write_data(). It is `defined` exactly at dword-aligned addresses. Each block
     writes whole dwords, so the last `|buf| % 4` bytes never reach the flash.
     */
    method WriteData(start: nat, buf: seq<Byte>, budget: nat, faults: seq<int>)
      returns (defined: bool, err: int, good: nat, failed: nat)
      requires bytes.Length < 0x1_0000_0000 && |buf| < 0x1_0000_0000
      modifies bytes
      ensures defined <==> start % 4 == 0
      ensures defined && err == 0 && |buf| >= 4 ==>
                start + Whole(|buf|) <= bytes.Length && bytes[..] == Overlay(old(bytes[..]), start, buf[..Whole(|buf|)])
      ensures defined && err == 0 && |buf| > 0 ==> good == Blocks(start, |buf|) && failed <= budget
      ensures defined && |buf| > 0 ==> good + failed <= Blocks(start, |buf|) + budget
      ensures defined ==> err != -ETIMEDOUT
      // aligned and on the flash, with timeouts as the only failures and no more of them than retries, it succeeds
      ensures start % 4 == 0 && WriteFits(start, |buf|, bytes.Length) && OnlyTimeouts(faults)
                && Failures(faults, |faults|) <= budget ==>
              err == 0
      // a failure is that of the last call made, a timeout beyond the retries as -EIO
      ensures defined && err != 0 ==> good + failed > 0 && FailsAs(FaultAt(faults, good + failed - 1), err)
      ensures OutsideSame(old(bytes[..]), bytes[..], start, buf)
    {
      var size: nat, retries: nat := |buf|, budget;
      good, failed := 0, 0;
      var done: nat := 0;
      var more := true;
      ghost var was := bytes[..];
      while more
        invariant size + done == |buf| && failed + retries == budget
        invariant Counted(faults, good, failed, WriteFits(start, |buf|, bytes.Length))
        invariant InStep(start, |buf|, done, good) && (more <==> good == failed == 0 || size > 0)
        invariant done > 0 || !more || failed > 0 ==> start % 4 == 0
        invariant Written(was, bytes[..], start, buf, done) && OutsideSame(was, bytes[..], start, buf)
        decreases size + retries, more
      {
        assert done % 4 == 0;
        var ret, n;
        defined, ret, n := WriteTurn(start, buf, done, FaultAt(faults, good + failed), was);
        if !defined {
          return false, 0, good, failed;
        }
        ChunkStep(start, |buf|, done, good);
        CountCall(faults, good, failed, WriteFits(start, |buf|, bytes.Length), ret);
        if ret != 0 {
          failed := failed + 1;
          if ret == -ETIMEDOUT {
            if retries > 0 {
              retries := retries - 1;
              more := size > 0;
              continue;
            }
            ret := -EIO;
          }
          return true, ret, good, failed;
        }
        good, done, size := good + 1, done + n, size - n;
        more := size > 0;
      }
      if |buf| >= 4 {
        WrittenIsOverlay(was, bytes[..], start, buf);
      }
      defined, err := true, 0;
    }

    /**
     Write, then read back. The data comes back whenever its size is a whole number of
     dwords; otherwise exactly when the tail happened to be on the flash already.
     */
    method WriteThenRead(start: nat, buf: seq<Byte>, budget: nat, writeFaults: seq<int>, readFaults: seq<int>)
      returns (defined: bool, err: int, back: seq<Byte>)
      requires bytes.Length < 0x1_0000_0000 && |buf| < 0x1_0000_0000
      modifies bytes
      ensures defined <==> start % 4 == 0
      ensures defined && err == 0 && |buf| > 0 ==> start + |buf| <= bytes.Length && |back| == |buf|
      ensures defined && err == 0 && |buf| > 0 ==>
                (back == buf <==> buf[Whole(|buf|)..] == old(bytes[..])[start + Whole(|buf|)..start + |buf|])
      ensures defined && err == 0 && |buf| % 4 == 0 ==> back == buf
      ensures forall i | 0 <= i < bytes.Length && !(start <= i < start + |buf|) :: bytes[i] == old(bytes[i])
    {
      back := [];
      ghost var was := bytes[..];
      var good, failed;
      defined, err, good, failed := WriteData(start, buf, budget, writeFaults);
      if !defined || err != 0 {
        return;
      }
      var into := new Byte[|buf|];
      err, good, failed := ReadData(start, into, |buf|, budget, readFaults);
      if err != 0 {
        return;
      }
      back := into[..];
      if |buf| > 0 {
        if |buf| < 4 {
          SameBytes(was, bytes[..], start, buf);
        }
        TailDecides(was, bytes[..], start, buf, back);
      }
    }
  }

  lemma SameBytes(was: seq<Byte>, now: seq<Byte>, start: nat, buf: seq<Byte>)
    requires OutsideSame(was, now, start, buf) && |buf| < 4 && start <= |was|
    ensures now == Overlay(was, start, buf[..Whole(|buf|)])
  {
    assert buf[..Whole(|buf|)] == [];
  }

  // ----- unaligned writes

  /** How many bytes a trip of the write loop copies from the caller's buffer to its place in the block. */
  function CopyLength(address: nat, size: nat): (n: nat) {
    if size + address % 4 < BLOCK then size + address % 4 else BLOCK
  }

  /**
   A trip copies bytes it was given into the block, and no others, if and only if the
   address is dword-aligned: the length counts the offset, but the copy starts after it.
   */
  lemma WriteTripInside(address: nat, size: nat)
    ensures CopyLength(address, size) <= size && address % 4 + CopyLength(address, size) <= BLOCK <==> address % 4 == 0
    ensures address % 4 == 0 ==> CopyLength(address, size) == Chunk(address, size)
  {
  }

  /**
   A short unaligned write stays inside the block, but reads past the caller's buffer,
   and the remaining size, which is unsigned, wraps instead of reaching zero.
   */
  lemma ShortUnaligned(address: nat, size: nat)
    requires address % 4 != 0 && size + address % 4 <= BLOCK
    ensures CopyLength(address, size) == size + address % 4 > size
    ensures (size - CopyLength(address, size)) % 0x1_0000_0000_0000_0000 == 0x1_0000_0000_0000_0000 - address % 4
    ensures CopyLength(1, 4) == 5
  {
  }

  /** A long one copies a whole block's worth to after the offset, past the end of the block. */
  lemma LongUnaligned(address: nat, size: nat)
    requires address % 4 != 0 && size + address % 4 > BLOCK
    ensures address % 4 + CopyLength(address, size) == BLOCK + address % 4 > BLOCK
    ensures 1 % 4 + CopyLength(1, 100) == 65
  {
  }

  lemma TailDecides(was: seq<Byte>, now: seq<Byte>, start: nat, buf: seq<Byte>, back: seq<Byte>)
    requires start + |buf| <= |was| && now == Overlay(was, start, buf[..Whole(|buf|)])
    requires back == now[start..start + |buf|]
    ensures back == buf <==> buf[Whole(|buf|)..] == was[start + Whole(|buf|)..start + |buf|]
  {
    var w := Whole(|buf|);
    var tail := was[start + w..start + |buf|];
    assert back == buf[..w] + tail;
    assert buf == buf[..w] + buf[w..];
    assert back[w..] == tail;
  }

  lemma Untouched(was: seq<Byte>, now: seq<Byte>, start: nat, buf: seq<Byte>, done: nat)
    requires done <= |buf| && Written(was, now, start, buf, done)
    ensures OutsideSame(was, now, start, buf)
  {
    forall i | 0 <= i < |now| && !(start <= i < start + Whole(|buf|)) ensures now[i] == was[i] {
      assert Want(was, now[i], start, buf, done, i);
    }
  }

  lemma BlockSlice(flash: seq<Byte>, data: seq<Byte>, base: nat, len: nat, offset: nat, n: nat)
    requires base + len <= |flash| && len <= |data| && offset + n <= len
    requires data[..len] == flash[base..base + len]
    ensures data[offset..offset + n] == flash[base + offset..base + offset + n]
  {
    var a, b := data[offset..offset + n], flash[base + offset..base + offset + n];
    var block := flash[base..base + len];
    forall j | 0 <= j < n ensures a[j] == b[j] {
      assert a[j] == data[..len][offset + j] == block[offset + j];
    }
  }

  lemma Joined(s: seq<Byte>, a: nat, b: nat, c: nat)
    requires a <= b <= c <= |s|
    ensures s[a..b] + s[b..c] == s[a..c]
  {
  }
}
