/**
 Node expansion: growing an LV, and the file system on it, to the record's capacity, safe to retry.
 */
module Resize {
  import opened Capacity

  /** The size of an LV and how much of it its file system covers. */
  datatype Extent = Extent(size: nat, fs: nat)

  /** What lvextend reports and what it leaves. */
  datatype Extension = Extension(ok: bool, extent: Extent)

  /**
   One call: the record's capacity, whether the file system grows too, whether the size can be
   read, what lvextend does.
   */
  datatype Request = Request(capacity: Int64, resizefs: bool, readable: bool, extension: Extension)

  /**
   lvextend never shrinks. When it succeeds the LV has at least the size asked for and, when it
   was told to, the file system too; it can grow the LV and then fail on the file system.
   */
  predicate Possible(before: Extent, q: Request) {
    var after := q.extension.extent;
    && before.size <= after.size && before.fs <= after.fs
    && (!q.resizefs ==> after.fs == before.fs)
    && (q.extension.ok ==> q.capacity <= after.size && (q.resizefs ==> q.capacity <= after.fs))
  }

  datatype Result = Result(extent: Extent, ok: bool, issued: bool)

  class LogicalVolume {
    var extent: Extent
    /** How often lvextend was issued. */
    var issued: nat

    constructor (extent: Extent)
      ensures this.extent == extent && issued == 0
    {
      this.extent, issued := extent, 0;
    }

    /**
     Without a file system to grow, lvextend is issued only when the LV is too small, since it is
     an error then to ask for the size it has. With one it is issued always: the LV may have grown
     when the file system did not.
     */
    method ResizeLVMVolume(q: Request) returns (ok: bool)
      requires Possible(extent, q)
      modifies this
      ensures Result(extent, ok, issued > old(issued)) == Resized(old(extent), q)
      ensures old(issued) <= issued <= old(issued) + 1
      ensures old(extent).size <= extent.size && old(extent).fs <= extent.fs
      ensures ok ==> q.capacity <= extent.size && (q.resizefs ==> q.capacity <= extent.fs)
      ensures !q.resizefs ==> extent.fs == old(extent).fs
      ensures !q.resizefs && q.readable && 0 <= q.capacity <= old(extent).size ==> ok && issued == old(issued)
      ensures !q.resizefs && (!q.readable || q.capacity < 0) ==> !ok && issued == old(issued)
      ensures q.resizefs || (q.readable && old(extent).size < q.capacity) ==>
                issued > old(issued) && ok == q.extension.ok && extent == q.extension.extent
    {
      if !q.resizefs {
        if q.capacity < 0 || !q.readable {
          return false;
        }
        if q.capacity <= extent.size {
          return true;
        }
      }
      issued := issued + 1;
      extent := q.extension.extent;
      ok := q.extension.ok;
    }
  }

  function Resized(extent: Extent, q: Request): Result {
    if !q.resizefs && (q.capacity < 0 || !q.readable) then Result(extent, false, false)
    else if !q.resizefs && q.capacity <= extent.size then Result(extent, true, false)
    else Result(q.extension.extent, q.extension.ok, true)
  }

  /** Calls in sequence, each with an outcome LVM can have. */
  predicate Calls(extent: Extent, qs: seq<Request>)
    decreases |qs|
  {
    qs != [] ==> Possible(extent, qs[0]) && Calls(Resized(extent, qs[0]).extent, qs[1..])
  }

  function ExtentAfter(extent: Extent, qs: seq<Request>): Extent
    decreases |qs|
  {
    if qs == [] then extent else ExtentAfter(Resized(extent, qs[0]).extent, qs[1..])
  }

  /**
   Over any sequence of calls and modes neither the LV nor the file system shrinks; what a call
   reported done stays provided, so repeating the call without a file system issues no lvextend.
   */
  lemma {:induction false} ExpansionIsRetriable(extent: Extent, q: Request, qs: seq<Request>, again: Request)
    requires Possible(extent, q) && Calls(Resized(extent, q).extent, qs)
    requires again.capacity == q.capacity && !again.resizefs && again.readable
    ensures var after := ExtentAfter(extent, [q] + qs);
            && extent.size <= after.size && extent.fs <= after.fs
            && (Resized(extent, q).ok && q.capacity >= 0 ==>
                  && q.capacity <= after.size && (q.resizefs ==> q.capacity <= after.fs)
                  && Resized(after, again) == Result(after, true, false))
  {
    assert ([q] + qs)[1..] == qs;
    NeverShrinks(Resized(extent, q).extent, qs);
  }

  lemma {:induction false} NeverShrinks(extent: Extent, qs: seq<Request>)
    requires Calls(extent, qs)
    ensures extent.size <= ExtentAfter(extent, qs).size && extent.fs <= ExtentAfter(extent, qs).fs
    decreases |qs|
  {
    if qs != [] {
      NeverShrinks(Resized(extent, qs[0]).extent, qs[1..]);
    }
  }

  /**
   A call that grew the LV and failed on the file system is repaired by the next one that works,
   however large the LV is by then.
   */
  lemma FileSystemCatchesUp(extent: Extent, qs: seq<Request>, q: Request)
    requires Calls(extent, qs) && Possible(ExtentAfter(extent, qs), q) && q.resizefs && q.extension.ok
    ensures var r := Resized(ExtentAfter(extent, qs), q);
            r.ok && q.capacity <= r.extent.size && q.capacity <= r.extent.fs
  {
  }
}
