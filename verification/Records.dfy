/**
 What the provisioning protocol is about: LVMVolume records in the Kubernetes store, the
 logical volumes (LVs) on the nodes, and what the agents and the controller remember of them.
 */
module Records {
  import opened Capacity

  datatype Option<+T> = None | Some(value: T)

  /** `matches(p, g)`: the regular expression `p` accepts the volume group name `g`. */
  type Matcher = (string, string) -> bool

  datatype Status = Pending | Ready | Failed

  datatype ErrorCode = Internal | InsufficientCapacity

  /** An LVMVolume. The store gives every version of a record a resource version never used before. */
  datatype Record = Record(
    rv: nat, uid: nat,
    owner: string, vgPattern: string, volGroup: string, capacity: Int64, thin: bool, shared: bool,
    finalizer: bool, marked: bool,
    state: Status, error: Option<ErrorCode>)

  /** A logical volume of the name at hand, on a node and in a volume group. */
  datatype Lv = Lv(node: string, vg: string)

  /** What a sync of one key does next; `rest` holds the volume groups not tried yet. */
  datatype Phase =
    | Destroying
    | Finalizing
    | Retrying
    | Listing
    | Assigning(rest: seq<string>)
    | Creating(rest: seq<string>)
    | Publishing
    | Failing(code: ErrorCode)

  datatype Sync = Sync(phase: Phase, copy: Record)

  datatype Request = Request(size: Int64, vgPattern: string, thin: bool, shared: bool)

  /** A CSI call in flight. `last` tells the wait after provisioning from the wait before it. */
  datatype Call =
    | CreateGet(req: Request)
    | CreateWaitGone(req: Request)
    | CreatePoll(req: Request, last: bool)
    | CreateDelete(req: Request, last: bool)
    | CreateWaitDestroy(req: Request, last: bool)
    | CreateProvision(req: Request)
    | DeleteValidate
    | DeleteGet
    | DeleteDelete
    | DeleteWait
    | ExpandValidate(size: Int64)
    | ExpandRead(size: Int64)
    | ExpandWrite(size: Int64, copy: Record)
  {
    predicate IsExpand() { ExpandValidate? || ExpandRead? || ExpandWrite? }
  }

  datatype Reply =
    | Provisioned(rec: Record)
    | ResourceExhausted
    | AlreadyExists
    | FailedWithoutError
    | Deleted
    | Expanded(size: Int64)
    | Error

  datatype Progress = Running(call: Call) | Returned(reply: Reply)

  /** The size a record was created with and the sizes of the expansions that succeeded on it, in order. */
  datatype History = History(created: Int64, expanded: seq<Int64>)

  /** Everything the cluster holds about one volume name. */
  datatype Volume = Volume(
    rec: Option<Record>,
    lvs: set<Lv>,
    syncs: map<string, Sync>,
    queue: set<string>,
    calls: map<nat, Call>,
    hist: History)

  const IDLE := Volume(None, {}, map[], {}, map[], History(0, []))

  /** The clock is the resource version the next write gets. */
  datatype Cluster = Cluster(vols: map<string, Volume>, clock: nat)

  function At(c: Cluster, n: string): Volume {
    if n in c.vols then c.vols[n] else IDLE
  }

  function Max(a: int, b: int): int {
    if a < b then b else a
  }

  /** The largest rounded size asked for. */
  function Peak(h: History): int
    decreases |h.expanded|
  {
    if h.expanded == [] then RoundedCapacity(h.created)
    else
      var k := |h.expanded| - 1;
      Max(Peak(History(h.created, h.expanded[..k])), RoundedCapacity(h.expanded[k]))
  }

  predicate PeakedAt(h: History, x: int) {
    && (x == RoundedCapacity(h.created) || exists q | q in h.expanded :: x == RoundedCapacity(q))
    && RoundedCapacity(h.created) <= x
    && forall q | q in h.expanded :: RoundedCapacity(q) <= x
  }

  /** `Peak` is the maximum, so the order of the expansions does not matter. */
  lemma {:induction false} PeakIsMaximum(h: History)
    ensures PeakedAt(h, Peak(h))
    ensures forall h': History | h'.created == h.created && multiset(h'.expanded) == multiset(h.expanded) ::
      PeakedAt(h', Peak(h))
    decreases |h.expanded|
  {
    if h.expanded != [] {
      var k := |h.expanded| - 1;
      var front := History(h.created, h.expanded[..k]);
      PeakIsMaximum(front);
      assert h.expanded == front.expanded + [h.expanded[k]];
    }
    assert PeakedAt(h, Peak(h));
    forall h': History | h'.created == h.created && multiset(h'.expanded) == multiset(h.expanded)
      ensures PeakedAt(h', Peak(h))
    {
      assert forall q :: q in h'.expanded <==> q in multiset(h'.expanded);
      assert forall q :: q in h.expanded <==> q in multiset(h.expanded);
    }
  }
}
