/**
 The DMA-BUF heap shared with the secure processor (kernel/drivers/qcom_sp_hlos_heap.c):
 which pages are free, live or quarantined, who owns them, and what the firmware's and
 the kernel's failures do to that.
 */
module SpHeap {
  import opened Bytes

  const PAGE_SIZE: nat := 4096
  const MAX_SIZE: nat := 16 * 1024 * 1024

  datatype Vmid = Hlos | HlosShared    // HLOS and CP_SPSS_HLOS_SHARED

  /** What the rest of the system answers during one allocation. */
  datatype AllocEnv = AllocEnv(bufferOk: bool, cma: Option<nat>, pagesOk: bool,
                               shareOk: bool, exportOk: bool, reclaimOk: bool)

  datatype Error = EINVAL | ENOMEM | EShare | EExport
  datatype AllocResult = Exported(id: nat) | Failed(error: Error)

  /** Bytes rounded up to whole pages. */
  function PageAlign(len: nat): (size: nat)
    ensures size % PAGE_SIZE == 0 && len <= size < len + PAGE_SIZE
  {
    (len + PAGE_SIZE - 1) / PAGE_SIZE * PAGE_SIZE
  }

  function PageCount(len: nat): nat {
    PageAlign(len) / PAGE_SIZE
  }

  /** n contiguous page frames from first on. */
  function Run(first: nat, n: nat): seq<nat> {
    seq(n, i => first + i)
  }

  function Pages(run: seq<nat>): set<nat> {
    set p | p in run
  }

  /** These are the n frames from first on, each once and in order. */
  predicate Lists(pages: seq<nat>, first: nat, n: nat) {
    |pages| == n && forall k :: 0 <= k < n ==> pages[k] == first + k
  }

  /** b is a and the n frames from first on. */
  ghost predicate Adds(a: set<nat>, b: set<nat>, first: nat, n: nat) {
    forall p :: p in b <==> p in a || first <= p < first + n
  }

  /** What a run is, without saying how it is built. */
  lemma {:induction false} RunLists(first: nat, n: nat)
    ensures Lists(Run(first, n), first, n)
    ensures |Pages(Run(first, n))| == n && Adds({}, Pages(Run(first, n)), first, n)
  {
    var run, pages := Run(first, n), Pages(Run(first, n));
    forall p ensures p in pages <==> first <= p < first + n {
      if first <= p < first + n {
        assert run[p - first] == p;
      }
    }
    if n > 0 {
      RunLists(first, n - 1);
      assert pages == Pages(Run(first, n - 1)) + {first + n - 1};
    }
  }

  /** `live` maps each exported DMA-BUF to its pages array; `zeroed` is the set of pages
      that hold only zeros. */
  datatype Memory = Memory(pool: set<nat>, free: set<nat>, live: map<nat, seq<nat>>,
                           owners: map<nat, set<Vmid>>, zeroed: set<nat>, nextId: nat)
  {
    function LivePages(): set<nat> {
      set id, p | id in live && p in live[id] :: p
    }

    /** Pages that neither the CMA area nor any buffer has: nobody will ever get them. */
    function Quarantined(): set<nat> {
      pool - free - LivePages()
    }

    function Share(run: seq<nat>, vms: set<Vmid>): Memory {
      this.(owners := map p | p in owners :: if p in run then vms else owners[p])
    }

    function Drop(id: nat): Memory {
      this.(live := map i | i in live && i != id :: live[i])
    }
  }

  predicate CmaHonest(m: Memory, len: nat, env: AllocEnv) {
    env.cma.Some? ==> forall p :: env.cma.value <= p < env.cma.value + PageCount(len) ==> p in m.free
  }

  /** sp_hlos_allocate. */
  function Allocate(m: Memory, len: nat, heapFlags: nat, env: AllocEnv): (Memory, AllocResult) {
    if len == 0 || len > MAX_SIZE || heapFlags != 0 then (m, Failed(EINVAL))
    else if !env.bufferOk || env.cma.None? then (m, Failed(ENOMEM))
    else
      var run := Run(env.cma.value, PageCount(len));
      var cleared := m.(zeroed := m.zeroed + Pages(run));
      if !env.pagesOk then (cleared, Failed(ENOMEM))
      else if !env.shareOk then (cleared, Failed(EShare))
      else if !env.exportOk then
        if env.reclaimOk then (cleared.Share(run, {Hlos}), Failed(EExport))
        else (cleared.(free := m.free - Pages(run)).Share(run, {Hlos, HlosShared}), Failed(EExport))
      else
        (cleared.(free := m.free - Pages(run), live := m.live[m.nextId := run], nextId := m.nextId + 1)
           .Share(run, {Hlos, HlosShared}), Exported(m.nextId))
  }

  /** sp_hlos_release, when the last reference to the DMA-BUF goes. */
  function Release(m: Memory, id: nat, reclaimOk: bool): Memory
    requires id in m.live
  {
    var run := m.live[id];
    if reclaimOk then m.(free := m.free + Pages(run)).Share(run, {Hlos}).Drop(id)
    else m.Drop(id)
  }

  datatype Event =
    | OnAllocate(len: nat, heapFlags: nat, env: AllocEnv)
    | OnRelease(id: nat, reclaimOk: bool)
    | Scribble(pages: set<nat>)        // anybody writes to memory

  predicate Enabled(m: Memory, e: Event) {
    match e
    case OnAllocate(len, _, env) => CmaHonest(m, len, env)
    case OnRelease(id, _) => id in m.live
    case Scribble(_) => true
  }

  function Next(m: Memory, e: Event): Memory
    requires Enabled(m, e)
  {
    match e
    case OnAllocate(len, flags, env) => Allocate(m, len, flags, env).0
    case OnRelease(id, reclaimOk) => Release(m, id, reclaimOk)
    case Scribble(pages) => m.(zeroed := m.zeroed - pages)
  }

  predicate Init(m: Memory) {
    && m.free == m.pool == m.owners.Keys && m.live == map[]
    && forall p :: p in m.pool ==> m.owners[p] == {Hlos}
  }

  /** Live buffers are disjoint and outside the free pool, free pages are HLOS's alone and
      every other page is shared. */
  predicate Inv(m: Memory) {
    && m.owners.Keys == m.pool && m.free <= m.pool
    && (forall id :: id in m.live ==> id < m.nextId)
    && (forall id, p :: id in m.live && p in m.live[id] ==> p in m.pool && p !in m.free)
    && (forall id, id', p :: id in m.live && id' in m.live && p in m.live[id] && p in m.live[id'] ==> id == id')
    && (forall p :: p in m.pool ==> m.owners[p] == if p in m.free then {Hlos} else {Hlos, HlosShared})
  }

  lemma AllocateKeepsInv(m: Memory, len: nat, flags: nat, env: AllocEnv)
    requires Inv(m) && CmaHonest(m, len, env)
    ensures Inv(Allocate(m, len, flags, env).0)
  {
    if env.cma.Some? {
      HonestRun(m, len, env);
      var run := Run(env.cma.value, PageCount(len));
      assert forall p :: p in run ==> p in Pages(run);
      hide CmaHonest, PageCount, Run;
    }
  }

  lemma ReleaseKeepsInv(m: Memory, id: nat, reclaimOk: bool)
    requires Inv(m) && id in m.live
    ensures Inv(Release(m, id, reclaimOk))
  {
  }

  /** The first thing that fails decides the error; nothing else does. */
  lemma AllocateResult(m: Memory, len: nat, flags: nat, env: AllocEnv)
    ensures var r := Allocate(m, len, flags, env).1;
            var valid, backed := 0 < len <= MAX_SIZE && flags == 0, env.bufferOk && env.cma.Some? && env.pagesOk;
      && (r.Exported? <==> valid && backed && env.shareOk && env.exportOk)
      && (r == Failed(EINVAL) <==> !valid)
      && (r == Failed(ENOMEM) <==> valid && !backed)
      && (r == Failed(EShare) <==> valid && backed && !env.shareOk)
      && (r == Failed(EExport) <==> valid && backed && env.shareOk && !env.exportOk)
  {
  }

  /** A successful allocation takes exactly the frames the CMA area returned, which are as
      many as the length needs, lists them in order and clears them; no other page moves. */
  lemma AllocateTakes(m: Memory, len: nat, flags: nat, env: AllocEnv)
    requires Inv(m) && CmaHonest(m, len, env) && Allocate(m, len, flags, env).1.Exported?
    ensures var (m', r) := Allocate(m, len, flags, env);
      && env.cma.Some? && r.id !in m.live && r.id in m'.live
      && m'.live == m.live[r.id := m'.live[r.id]]
      && Lists(m'.live[r.id], env.cma.value, PageCount(len))
      && |Pages(m'.live[r.id])| * PAGE_SIZE == PageAlign(len)
      && Pages(m'.live[r.id]) <= m.free * m'.zeroed
      && m'.free == m.free - Pages(m'.live[r.id])
      && m'.Quarantined() == m.Quarantined()
  {
    RunLists(env.cma.value, PageCount(len));
    HonestRun(m, len, env);
    var (m', r) := Allocate(m, len, flags, env);
    LivePagesAdded(m, m', r.id, m'.live[r.id]);
    hide Lists, Adds, Inv, PageAlign;
    assert PageCount(len) * PAGE_SIZE == PageAlign(len);
  }

  lemma HonestRun(m: Memory, len: nat, env: AllocEnv)
    requires CmaHonest(m, len, env) && env.cma.Some?
    ensures Pages(Run(env.cma.value, PageCount(len))) <= m.free
  {
    RunLists(env.cma.value, PageCount(len));
  }

  /** One that fails gives every page back unless the firmware refuses to give them up; then
      it is exactly those that are gone. */
  lemma AllocateReturns(m: Memory, len: nat, flags: nat, env: AllocEnv)
    requires Inv(m) && CmaHonest(m, len, env) && !Allocate(m, len, flags, env).1.Exported?
    ensures var (m', r) := Allocate(m, len, flags, env);
      && m'.live == m.live
      && (m'.free == m.free || (r.error.EExport? && !env.reclaimOk))
      && m'.Quarantined() == m.Quarantined() + (m.free - m'.free)
      && (r.error.EExport? && !env.reclaimOk ==>
            m'.free == m.free - Pages(Run(env.cma.value, PageCount(len))))
  {
    FreeApart(m);
    hide Inv, CmaHonest;
    var m' := Allocate(m, len, flags, env).0;
    assert m'.live == m.live && m'.pool == m.pool && m'.free <= m.free;
    assert m'.LivePages() == m.LivePages();
  }

  lemma FreeApart(m: Memory)
    requires Inv(m)
    ensures m.free <= m.pool && m.free !! m.LivePages()
  {
  }

  /** Both cases together. */
  lemma AllocateMoves(m: Memory, len: nat, flags: nat, env: AllocEnv)
    requires Inv(m) && CmaHonest(m, len, env)
    ensures var (m', r) := Allocate(m, len, flags, env);
      if r.Exported? then
        && r.id !in m.live && r.id in m'.live
        && m'.live == m.live[r.id := m'.live[r.id]]
        && env.cma.Some? && Lists(m'.live[r.id], env.cma.value, PageCount(len))
        && |Pages(m'.live[r.id])| * PAGE_SIZE == PageAlign(len)
        && Pages(m'.live[r.id]) <= m.free * m'.zeroed
        && m'.free == m.free - Pages(m'.live[r.id])
        && m'.Quarantined() == m.Quarantined()
      else
        && m'.live == m.live
        && (m'.free == m.free || (r.error.EExport? && !env.reclaimOk))
        && m'.Quarantined() == m.Quarantined() + (m.free - m'.free)
  {
    hide Inv, CmaHonest, Allocate, Lists;
    if Allocate(m, len, flags, env).1.Exported? {
      AllocateTakes(m, len, flags, env);
    } else {
      AllocateReturns(m, len, flags, env);
    }
  }

  lemma LivePagesAdded(m: Memory, m': Memory, id: nat, run: seq<nat>)
    requires id !in m.live && m'.live == m.live[id := run]
    ensures m'.LivePages() == m.LivePages() + Pages(run)
  {
    forall p | p in m.LivePages() + Pages(run)
      ensures p in m'.LivePages()
    {
      if p in run {
        assert p in m'.live[id];
      } else {
        var i :| i in m.live && p in m.live[i];
        assert i in m'.live && p in m'.live[i];
      }
    }
  }

  lemma LivePagesDropped(m: Memory, id: nat)
    requires Inv(m) && id in m.live
    ensures m.Drop(id).LivePages() == m.LivePages() - Pages(m.live[id])
  {
    forall p | p in m.LivePages() && p !in m.live[id]
      ensures p in m.Drop(id).LivePages()
    {
      var i :| i in m.live && p in m.live[i];
      assert i in m.Drop(id).live;
    }
  }

  /** A release either frees exactly the buffer's pages or quarantines exactly them. */
  lemma ReleaseMoves(m: Memory, id: nat, reclaimOk: bool)
    requires Inv(m) && id in m.live
    ensures var m' := Release(m, id, reclaimOk);
      && m'.live == m.live - {id}
      && m'.free == m.free + (if reclaimOk then Pages(m.live[id]) else {})
      && m'.Quarantined() == m.Quarantined() + (if reclaimOk then {} else Pages(m.live[id]))
  {
    LivePagesDropped(m, id);
    assert Release(m, id, reclaimOk).LivePages() == m.Drop(id).LivePages();
    assert Pages(m.live[id]) <= m.LivePages();
  }

  lemma StepKeepsInv(m: Memory, e: Event)
    requires Inv(m) && Enabled(m, e)
    ensures Inv(Next(m, e))
  {
    match e
    case OnAllocate(len, flags, env) => AllocateKeepsInv(m, len, flags, env);
    case OnRelease(id, reclaimOk) => ReleaseKeepsInv(m, id, reclaimOk);
    case Scribble(_) =>
  }

  ghost predicate IsRun(run: seq<Memory>, events: seq<Event>) {
    && |run| == |events| + 1
    && Init(run[0])
    && forall i :: 0 <= i < |events| ==> Enabled(run[i], events[i]) && run[i + 1] == Next(run[i], events[i])
  }

  lemma {:induction false} RunKeepsInv(run: seq<Memory>, events: seq<Event>, i: nat)
    requires IsRun(run, events) && i < |run|
    ensures Inv(run[i]) && run[i].pool == run[0].pool
  {
    if i > 0 {
      RunKeepsInv(run, events, i - 1);
      StepKeepsInv(run[i - 1], events[i - 1]);
    }
  }

  /** Every page of the area is always in exactly one of three places: free and HLOS's
      alone, in exactly one live buffer, or quarantined; only free pages are unshared. */
  lemma EveryPageAccountedFor(run: seq<Memory>, events: seq<Event>, i: nat, p: nat)
    requires IsRun(run, events) && i < |run| && p in run[0].pool
    ensures var m := run[i];
      && (p in m.free || p in m.LivePages() || p in m.Quarantined())
      && !(p in m.free && p in m.LivePages())
      && (p in m.Quarantined() ==> p !in m.free && p !in m.LivePages())
      && (forall id, id' :: id in m.live && id' in m.live && p in m.live[id] && p in m.live[id'] ==> id == id')
      && p in m.owners && (p in m.free <==> m.owners[p] == {Hlos})
  {
    RunKeepsInv(run, events, i);
  }

  // ------------------------------------------------------------------ quarantine

  /** The export of an allocation failed and the firmware would not give its pages back. */
  predicate ExportUnreclaimed(len: nat, heapFlags: nat, env: AllocEnv) {
    && 0 < len <= MAX_SIZE && heapFlags == 0
    && env.bufferOk && env.cma.Some? && env.pagesOk && env.shareOk
    && !env.exportOk && !env.reclaimOk
  }

  /** This event cannot reclaim page p. */
  predicate Leaks(m: Memory, e: Event, p: nat) {
    match e
    case OnAllocate(len, flags, env) =>
      ExportUnreclaimed(len, flags, env) && env.cma.value <= p < env.cma.value + PageCount(len)
    case OnRelease(id, reclaimOk) => id in m.live && p in m.live[id] && !reclaimOk
    case Scribble(_) => false
  }

  lemma AllocateQuarantines(m: Memory, len: nat, flags: nat, env: AllocEnv, p: nat)
    requires Inv(m) && CmaHonest(m, len, env)
    ensures p in Allocate(m, len, flags, env).0.Quarantined()
       <==> p in m.Quarantined() || Leaks(m, OnAllocate(len, flags, env), p)
  {
    var m' := Allocate(m, len, flags, env).0;
    AllocateResult(m, len, flags, env);
    AllocateMoves(m, len, flags, env);
    if ExportUnreclaimed(len, flags, env) {
      AllocateReturns(m, len, flags, env);
      RunLists(env.cma.value, PageCount(len));
      HonestRun(m, len, env);
    }
    hide Inv, Allocate, Lists, CmaHonest;
  }

  /** A step adds to the quarantine exactly the pages it cannot reclaim. */
  lemma StepQuarantines(m: Memory, e: Event, p: nat)
    requires Inv(m) && Enabled(m, e)
    ensures p in Next(m, e).Quarantined() <==> p in m.Quarantined() || Leaks(m, e, p)
  {
    match e
    case OnAllocate(len, flags, env) => AllocateQuarantines(m, len, flags, env, p);
    case OnRelease(id, reclaimOk) => ReleaseMoves(m, id, reclaimOk);
    case Scribble(_) => assert Next(m, e).LivePages() == m.LivePages();
  }

  /** A page is in quarantine exactly if some earlier release or failed export could not
      reclaim it. */
  lemma {:induction false} QuarantinedIff(run: seq<Memory>, events: seq<Event>, i: nat, p: nat)
    requires IsRun(run, events) && i < |run|
    ensures p in run[i].Quarantined() <==> exists k :: 0 <= k < i && Leaks(run[k], events[k], p)
  {
    if i > 0 {
      QuarantinedIff(run, events, i - 1, p);
      RunKeepsInv(run, events, i - 1);
      assert Enabled(run[i - 1], events[i - 1]) && run[i] == Next(run[i - 1], events[i - 1]);
      hide Enabled, Inv, Leaks, Next;
      StepQuarantines(run[i - 1], events[i - 1], p);
    }
  }

  /** Quarantined pages never come back. */
  lemma QuarantineIsForever(run: seq<Memory>, events: seq<Event>, i: nat, j: nat)
    requires IsRun(run, events) && i <= j < |run|
    ensures run[i].Quarantined() <= run[j].Quarantined()
  {
    hide *;
    forall p | p in run[i].Quarantined() ensures p in run[j].Quarantined() {
      QuarantinedIff(run, events, i, p);
      QuarantinedIff(run, events, j, p);
    }
  }
}
