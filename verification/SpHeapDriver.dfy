/**
 sp_hlos_allocate and sp_hlos_release in the driver's own form: page by page clearing,
 a page array filled by a loop, and unwinding in reverse order on each failure.
 */
module SpHeapDriver {
  import opened Bytes
  import opened SpHeap

  class Heap {
    const pool: set<nat>
    var free: set<nat>
    var live: map<nat, seq<nat>>
    var owners: map<nat, set<Vmid>>
    var zeroed: set<nat>
    var nextId: nat

    ghost function State(): Memory
      reads this
    {
      Memory(pool, free, live, owners, zeroed, nextId)
    }

    constructor (area: set<nat>)
      ensures State() == Memory(area, area, map[], State().owners, {}, 0) && Init(State())
    {
      pool, free, live := area, area, map[];
      owners, zeroed, nextId := map p | p in area :: {Hlos}, {}, 0;
    }

    /** qcom_scm_assign_mem: all or nothing. */
    method Assign(run: seq<nat>, vms: set<Vmid>, works: bool) returns (ok: bool)
      modifies `owners
      ensures ok == works
      ensures State() == if works then old(State()).Share(run, vms) else old(State())
    {
      if works {
        owners := map p | p in owners :: if p in run then vms else owners[p];
      }
      return works;
    }

    method ClearPages(first: nat, count: nat, highMem: bool)
      modifies `zeroed
      ensures Adds(old(zeroed), zeroed, first, count)
      ensures zeroed == old(zeroed) + Pages(Run(first, count))
    {
      RunLists(first, count);
      if highMem {
        var page := 0;
        while page < count
          invariant page <= count
          invariant zeroed == old(zeroed) + Pages(Run(first, page))
        {
          zeroed := zeroed + {first + page};
          assert Run(first, page + 1) == Run(first, page) + [first + page];
          page := page + 1;
        }
      } else {
        zeroed := zeroed + Pages(Run(first, count));
      }
    }

    method FillPages(first: nat, count: nat) returns (pages: seq<nat>)
      ensures Lists(pages, first, count)
      ensures pages == Run(first, count)
    {
      RunLists(first, count);
      var table := new nat[count];
      var page := 0;
      while page < count
        invariant page <= count
        invariant table[..page] == Run(first, page)
      {
        table[page] := first + page;
        page := page + 1;
      }
      return table[..];
    }

    method OnAllocate(len: nat, heapFlags: nat, env: AllocEnv, highMem: bool) returns (r: AllocResult)
      requires CmaHonest(State(), len, env)
      modifies this
      ensures old(Inv(State())) ==> Inv(State())
      ensures (State(), r) == Allocate(old(State()), len, heapFlags, env)
    {
      if Inv(State()) {
        AllocateKeepsInv(State(), len, heapFlags, env);
      }
      if env.cma.Some? {
        HonestRun(State(), len, env);
      }
      hide Inv, CmaHonest, Adds, Lists;
      var size := PageAlign(len);
      var pagecount := size / PAGE_SIZE;
      if len == 0 || len > MAX_SIZE || heapFlags != 0 {
        return Failed(EINVAL);
      }
      if !env.bufferOk || env.cma.None? {
        return Failed(ENOMEM);
      }
      var first := env.cma.value;
      free := free - Pages(Run(first, pagecount));
      ClearPages(first, pagecount, highMem);
      if !env.pagesOk {
        GiveBack(first, pagecount);
        assert free == old(free);
        return Failed(ENOMEM);
      }
      var pages := FillPages(first, pagecount);
      var shared := Assign(pages, {Hlos, HlosShared}, env.shareOk);
      if !shared {
        GiveBack(first, pagecount);
        assert free == old(free);
        return Failed(EShare);
      }
      if !env.exportOk {
        var reclaimed := Assign(pages, {Hlos}, env.reclaimOk);
        assert reclaimed ==> owners == old(State()).Share(pages, {Hlos}).owners;
        if reclaimed {
          GiveBack(first, pagecount);
          assert free == old(free);
        }
        return Failed(EExport);
      }
      live := live[nextId := pages];
      nextId := nextId + 1;
      return Exported(nextId - 1);
    }

    /** cma_release. */
    method GiveBack(first: nat, count: nat)
      modifies `free
      ensures Adds(old(free), free, first, count)
      ensures free == old(free) + Pages(Run(first, count))
    {
      RunLists(first, count);
      free := free + Pages(Run(first, count));
    }

    method OnRelease(id: nat, reclaimOk: bool)
      requires Inv(State()) && id in live
      modifies `live, `free, `owners
      ensures Inv(State()) && live == old(live) - {id}
      ensures free == old(free) + (if reclaimOk then Pages(old(live[id])) else {})
      ensures State().Quarantined() == old(State().Quarantined()) + (if reclaimOk then {} else Pages(old(live[id])))
      ensures State() == Release(old(State()), id, reclaimOk)
    {
      ReleaseMoves(State(), id, reclaimOk);
      ReleaseKeepsInv(State(), id, reclaimOk);
      hide Inv;
      var pages := live[id];
      var reclaimed := Assign(pages, {Hlos}, reclaimOk);
      if reclaimed {
        free := free + Pages(pages);
      }
      live := map i | i in live && i != id :: live[i];
    }
  }
}
