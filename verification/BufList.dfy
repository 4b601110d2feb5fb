/** A memory range split into a chain of buffers from an inventory. */
module BufList {
  import opened Wrappers

  datatype Code = Success | InvalidValue | SdkError

  datatype Buffer = Buffer(addr: nat, len: nat, dataSet: bool)

  /** The inventory hands out buffers and takes them back. */
  class Inventory {
    var outstanding: nat
    /** How many calls into the SDK have failed. */
    ghost var failures: nat

    constructor ()
      ensures outstanding == 0 && failures == 0
    {
      outstanding, failures := 0, 0;
    }

    method Get() returns (ok: bool)
      modifies this
      ensures outstanding == old(outstanding) + if ok then 1 else 0
      ensures failures == old(failures) + if ok then 0 else 1
    {
      ok := *;
      if ok {
        outstanding := outstanding + 1;
      } else {
        failures := failures + 1;
      }
    }

    /** Setting the data position of a buffer, or linking two buffers. */
    method Prepare() returns (ok: bool)
      modifies this`failures
      ensures failures == old(failures) + if ok then 0 else 1
    {
      ok := *;
      if !ok {
        failures := failures + 1;
      }
    }

    /** Releasing the head of a chain releases the whole chain. */
    method Release(n: nat)
      requires n <= outstanding
      modifies this`outstanding
      ensures outstanding == old(outstanding) - n
    {
      outstanding := outstanding - n;
    }
  }

  /** The caller's pointer to the chain. */
  class Slot {
    var chain: Option<seq<Buffer>>

    constructor (chain: Option<seq<Buffer>>)
      ensures this.chain == chain
    {
      this.chain := chain;
    }
  }

  // ---------------------------------------------------------------- what a split is

  /** How many buffers a range is split into: a range shorter than the count is not split at all. */
  function Count(len: nat, num: nat): nat
    requires num > 0
  {
    if len < num then 1 else num
  }

  ghost predicate Contiguous(list: seq<Buffer>) {
    forall i :: 0 <= i < |list| - 1 ==> list[i].addr + list[i].len == list[i + 1].addr
  }

  ghost predicate NoneEmpty(list: seq<Buffer>) {
    forall i :: 0 <= i < |list| ==> list[i].len > 0
  }

  /** The buffers lie one after the other, none is empty, and together they are the range. */
  ghost predicate Covers(list: seq<Buffer>, addr: nat, len: nat) {
    && list != [] && Contiguous(list) && NoneEmpty(list)
    && list[0].addr == addr && list[|list| - 1].addr + list[|list| - 1].len == addr + len
  }

  /** All but the first have the same length, and the first takes the remainder. */
  ghost predicate Even(list: seq<Buffer>, len: nat, num: nat)
    requires num > 0
  {
    forall i :: 0 <= i < |list| ==> list[i].len == len / num + if i == 0 then len % num else 0
  }

  ghost predicate DataSet(list: seq<Buffer>, setData: bool) {
    forall i :: 0 <= i < |list| ==> list[i].dataSet == setData
  }

  lemma {:induction false} Ascending(list: seq<Buffer>, i: nat, j: nat)
    requires Contiguous(list) && NoneEmpty(list) && i < j < |list|
    ensures list[i].addr + list[i].len <= list[j].addr
    decreases j - i
  {
    if i + 1 < j {
      Ascending(list, i + 1, j);
    }
  }

  /** No two buffers of a cover overlap, and each stays inside the range. */
  lemma NoOverlap(list: seq<Buffer>, addr: nat, len: nat, i: nat, j: nat)
    requires Covers(list, addr, len) && i < j < |list|
    ensures addr <= list[i].addr && list[i].addr + list[i].len <= list[j].addr
    ensures list[j].addr + list[j].len <= addr + len
  {
    Ascending(list, i, j);
    if 0 < i {
      Ascending(list, 0, i);
    }
    if j < |list| - 1 {
      Ascending(list, j, |list| - 1);
    }
  }

  ghost predicate Within(b: Buffer, at: nat) {
    b.addr <= at < b.addr + b.len
  }

  /** Every byte of the range is in some buffer of a cover; by `NoOverlap` in exactly one. */
  lemma {:induction false} EachByteCovered(list: seq<Buffer>, addr: nat, len: nat, at: nat, k: nat) returns (i: nat)
    requires Covers(list, addr, len) && k < |list| && addr <= at < list[k].addr + list[k].len
    ensures i <= k && Within(list[i], at)
  {
    if list[k].addr <= at {
      i := k;
    } else {
      i := EachByteCovered(list, addr, len, at, k - 1);
    }
  }

  // ---------------------------------------------------------------- the code

  /** What is built after `i` buffers, and where it ends. */
  ghost predicate Partial(list: seq<Buffer>, addr: nat, len: nat, num: nat, end: nat, setData: bool)
    requires num > 0
  {
    && Contiguous(list) && NoneEmpty(list) && Even(list, len, num) && DataSet(list, setData)
    && (list != [] ==> list[0].addr == addr && list[|list| - 1].addr + list[|list| - 1].len == end)
    && (list == [] ==> end == addr)
  }

  lemma Chained(list: seq<Buffer>, addr: nat, len: nat, num: nat, end: nat, setData: bool, segLen: nat)
    requires num > 0 && Partial(list, addr, len, num, end, setData)
    requires 0 < segLen == len / num + if list == [] then len % num else 0
    ensures Partial(list + [Buffer(end, segLen, setData)], addr, len, num, end + segLen, setData)
  {}

  /** The end of the last of `n` buffers. */
  lemma {:induction false} EndOf(list: seq<Buffer>, addr: nat, len: nat, num: nat, end: nat, setData: bool)
    requires num > 0 && list != [] && Partial(list, addr, len, num, end, setData)
    ensures end == addr + len % num + |list| * (len / num)
  {
    hide DataSet, NoneEmpty;
    var n := |list| - 1;
    if n > 0 {
      var front := list[..n];
      assert Partial(front, addr, len, num, list[n].addr, setData) by { Shorter(list, addr, len, num, end, setData); }
      EndOf(front, addr, len, num, list[n].addr, setData);
      assert |list| * (len / num) == n * (len / num) + len / num;
    }
  }

  lemma Shorter(list: seq<Buffer>, addr: nat, len: nat, num: nat, end: nat, setData: bool)
    requires num > 0 && |list| > 1 && Partial(list, addr, len, num, end, setData)
    ensures Partial(list[..|list| - 1], addr, len, num, list[|list| - 1].addr, setData)
  {}

  lemma Finished(list: seq<Buffer>, addr: nat, len: nat, num: nat, end: nat, setData: bool)
    requires num > 0 && len > 0 && Partial(list, addr, len, num, end, setData) && |list| == Count(len, num)
    ensures Covers(list, addr, len) && Even(list, len, num) && DataSet(list, setData)
  {
    EndOf(list, addr, len, num, end, setData);
    assert len == num * (len / num) + len % num;
    if len < num {
      assert len / num == 0 && len % num == len;
    }
  }

  /**
   allocate_doca_buf_list. On success the chain covers the range with the expected number of buffers; when a
   call fails on the way, and only then, every buffer taken goes back and the output is null; invalid arguments change nothing.
   */
  method Allocate(inv: Inventory?, mmap: bool, addr: Option<nat>, len: nat, num: int, setData: bool, dbuf: Slot?)
    returns (ret: Code)
    modifies inv, dbuf
    ensures ret == InvalidValue <==> inv == null || !mmap || addr.None? || len == 0 || num <= 0 || dbuf == null
    ensures ret == InvalidValue ==> (inv != null ==> unchanged(inv)) && (dbuf != null ==> unchanged(dbuf))
    ensures inv != null ==>
      old(inv.failures) <= inv.failures && (ret == SdkError <==> old(inv.failures) < inv.failures)
    ensures ret == SdkError ==>
      inv != null && inv.outstanding == old(inv.outstanding) && dbuf != null && dbuf.chain == None
    ensures ret == Success ==>
      && inv != null && dbuf != null && addr.Some? && num > 0 && dbuf.chain.Some?
      && var list := dbuf.chain.value;
         && |list| == Count(len, num) && Covers(list, addr.value, len) && Even(list, len, num) && DataSet(list, setData)
         && inv.outstanding == old(inv.outstanding) + |list|
  {
    if inv == null || !mmap || addr.None? || len == 0 || num <= 0 || dbuf == null {
      return InvalidValue;
    }
    var ok := Build(inv, addr.value, len, num, setData, dbuf);
    ret := if ok then Success else SdkError;
  }

  /** One buffer, with its data position set and linked to the chain as asked for, or none. */
  method Acquire(inv: Inventory, setData: bool, link: bool) returns (ok: bool)
    modifies inv
    ensures inv.outstanding == old(inv.outstanding) + if ok then 1 else 0
    ensures inv.failures == old(inv.failures) + if ok then 0 else 1
  {
    ok := inv.Get();
    if !ok {
      return;
    }
    if setData {
      ok := inv.Prepare();
    }
    if ok && link {
      ok := inv.Prepare();
    }
    if !ok {
      inv.Release(1);
    }
  }

  /** The loop, with the rollback. */
  method Build(inv: Inventory, addr: nat, len: nat, num: nat, setData: bool, dbuf: Slot) returns (ok: bool)
    requires len > 0 && num > 0
    modifies inv, dbuf
    ensures inv.failures == old(inv.failures) + if ok then 0 else 1
    ensures !ok ==> inv.outstanding == old(inv.outstanding) && dbuf.chain == None
    ensures ok ==>
      && dbuf.chain.Some?
      && var list := dbuf.chain.value;
         && |list| == Count(len, num) && Covers(list, addr, len) && Even(list, len, num) && DataSet(list, setData)
         && inv.outstanding == old(inv.outstanding) + |list|
  {
    hide Contiguous, NoneEmpty, Even, DataSet, Covers, Partial;
    var other: nat := len / num;
    var segLen: nat := other + len % num;
    var segAddr: nat := addr;
    var list: seq<Buffer> := [];
    FirstNotEmpty(len, num);
    CountIs(len, num);
    NothingYet(addr, len, num, setData);
    var i: nat := 0;
    while i < num
      invariant i <= num && |list| == i
      invariant inv.outstanding == old(inv.outstanding) + i && inv.failures == old(inv.failures)
      invariant i == 0 ==> segAddr == addr && segLen == other + len % num
      invariant i > 0 ==> dbuf.chain == Some(list)
      invariant Partial(list, addr, len, num, if i == 0 then addr else segAddr + segLen, setData)
      invariant i > 1 ==> other > 0
    {
      if i > 0 {
        segAddr := segAddr + segLen;
        segLen := other;
        if segLen == 0 {
          break;
        }
      }
      ok := Acquire(inv, setData, i > 0);
      if !ok {
        if i > 0 {
          inv.Release(|list|);
        }
        dbuf.chain := None;
        return;
      }
      Chained(list, addr, len, num, segAddr, setData, segLen);
      list := list + [Buffer(segAddr, segLen, setData)];
      dbuf.chain := Some(list);
      i := i + 1;
    }
    Finished(list, addr, len, num, if other == 0 then segAddr else segAddr + segLen, setData);
    ok := true;
  }

  lemma FirstNotEmpty(len: nat, num: nat)
    requires num > 0 && len > 0
    ensures len / num + len % num > 0
  {}

  lemma NothingYet(addr: nat, len: nat, num: nat, setData: bool)
    requires num > 0
    ensures Partial([], addr, len, num, addr, setData)
  {}

  lemma CountIs(len: nat, num: nat)
    requires num > 0
    ensures len / num == 0 <==> len < num
  {}
}
