/** The descriptor table of `IOManager`: the registered event bits, the waiter slots, the kernel's
    interest set and the pending-event counter. Each function is one critical section, or one
    `triggerEvent` inside a critical section. */
module EventTable {
  import opened Tasks
  import opened Wrappers

  datatype Event = READ | WRITE

  /** A waiter slot. `reg` numbers the successful `addEvent` calls. */
  datatype Slot = Empty | Full(job: Job, reg: nat)

  datatype FdContext = FdContext(events: set<Event>, read: Slot, write: Slot) {
    function At(ev: Event): Slot {
      if ev == READ then read else write
    }

    function With(ev: Event, slot: Slot): FdContext {
      if ev == READ then this.(read := slot) else this.(write := slot)
    }
  }

  const NO_WAITERS := FdContext({}, Empty, Empty)

  datatype Table = Table(fds: seq<FdContext>, kernel: map<nat, set<Event>>, pending: int)

  datatype Op = ADD | MOD | DEL

  /** `epoll_ctl`: ADD of a present descriptor and MOD or DEL of an absent one are errors. */
  function EpollCtl(kernel: map<nat, set<Event>>, op: Op, fd: nat, mask: set<Event>): Option<map<nat, set<Event>>> {
    if (op == ADD) == (fd in kernel) then None
    else if op == DEL then Some(kernel - {fd})
    else Some(kernel[fd := mask])
  }

  /** `contextResize(fd * 1.5)` when the descriptor is past the end. */
  function Grown(fds: seq<FdContext>, fd: nat): (r: seq<FdContext>)
    ensures |fds| <= |r| && r[..|fds|] == fds
    ensures forall k :: |fds| <= k < |r| ==> r[k] == NO_WAITERS
    ensures |fds| >= 2 ==> fd < |r|
  {
    if fd < |fds| || fd * 3 / 2 < |fds| then fds
    else fds + seq(fd * 3 / 2 - |fds|, _ => NO_WAITERS)
  }

  function Context(t: Table, fd: nat): FdContext {
    if fd < |t.fds| then t.fds[fd] else NO_WAITERS
  }

  /** The operation `addEvent` issues. */
  function AddOp(t: Table, fd: nat): Op {
    if Context(t, fd).events != {} then MOD else ADD
  }

  /** The operation `delEvent`, `cancelEvent`, `cancelAll` and delivery issue to drop `gone`. */
  function DropOp(t: Table, fd: nat, gone: set<Event>): Op {
    if Context(t, fd).events - gone != {} then MOD else DEL
  }

  /** `addEvent` up to the kernel call: the new interest set, or None when the kernel refuses. */
  function AddMask(t: Table, fd: nat, ev: Event): Option<map<nat, set<Event>>> {
    EpollCtl(t.kernel, AddOp(t, fd), fd, Context(t, fd).events + {ev})
  }

  function DropMask(t: Table, fd: nat, gone: set<Event>): Option<map<nat, set<Event>>> {
    EpollCtl(t.kernel, DropOp(t, fd, gone), fd, Context(t, fd).events - gone)
  }

  /** A successful `addEvent`. */
  function Armed(t: Table, fd: nat, ev: Event, job: Job, reg: nat): Table
    requires AddMask(t, fd, ev).Some? && fd < |Grown(t.fds, fd)|
  {
    var ctx := Context(t, fd);
    var ctx' := ctx.(events := ctx.events + {ev}).With(ev, Full(job, reg));
    Table(Grown(t.fds, fd)[fd := ctx'], AddMask(t, fd, ev).value, t.pending + 1)
  }

  /** Clears one bit and empties its slot: `delEvent`, and `triggerEvent` once the waiter is queued. */
  function Cleared(t: Table, fd: nat, ev: Event): Table
    requires fd < |t.fds|
  {
    var ctx := t.fds[fd];
    t.(fds := t.fds[fd := ctx.(events := ctx.events - {ev}).With(ev, Empty)], pending := t.pending - 1)
  }

  /** A successful `delEvent`. */
  function Deleted(t: Table, fd: nat, ev: Event): Table
    requires fd < |t.fds| && DropMask(t, fd, {ev}).Some?
  {
    Cleared(t.(kernel := DropMask(t, fd, {ev}).value), fd, ev)
  }

  // ---------------------------------------------------------------- consistency

  /** A slot is full exactly when its bit is set. */
  predicate SlotsOk(ctx: FdContext) {
    forall ev :: ev in ctx.events <==> ctx.At(ev).Full?
  }

  /** The kernel watches exactly the bits that are set and not about to be triggered. */
  predicate KernelOk(t: Table, fd: nat, todo: set<Event>) {
    var live := Context(t, fd).events - todo;
    && todo <= Context(t, fd).events
    && (fd in t.kernel <==> live != {})
    && (fd in t.kernel ==> t.kernel[fd] == live)
  }

  /** The number of set event bits over all descriptors. */
  function Bits(fds: seq<FdContext>): nat {
    if fds == [] then 0 else |fds[0].events| + Bits(fds[1..])
  }

  lemma {:induction false} BitsUpdate(fds: seq<FdContext>, i: nat, ctx: FdContext)
    requires i < |fds|
    ensures Bits(fds[i := ctx]) == Bits(fds) - |fds[i].events| + |ctx.events|
  {
    if i == 0 {
      assert fds[0 := ctx][1..] == fds[1..];
    } else {
      BitsUpdate(fds[1..], i - 1, ctx);
      assert fds[i := ctx][1..] == fds[1..][i - 1 := ctx];
    }
  }

  lemma {:induction false} BitsOfEmpty(fds: seq<FdContext>, n: nat)
    requires n <= |fds| && forall k :: n <= k < |fds| ==> fds[k] == NO_WAITERS
    ensures Bits(fds) == Bits(fds[..n])
  {
    if fds == [] {
    } else if n == 0 {
      BitsOfEmpty(fds[1..], 0);
      assert fds[1..][..0] == [];
    } else {
      BitsOfEmpty(fds[1..], n - 1);
      assert fds[..n][1..] == fds[1..][..n - 1];
    }
  }

  lemma EventCount(a: set<Event>, ev: Event)
    ensures ev !in a ==> |a + {ev}| == |a| + 1
    ensures ev in a ==> |a - {ev}| == |a| - 1
  {
  }

  predicate Consistent(t: Table) {
    && |t.fds| >= 2
    && (forall fd :: 0 <= fd < |t.fds| ==> SlotsOk(t.fds[fd]))
    && t.pending == Bits(t.fds)
  }

  lemma BitsGrown(fds: seq<FdContext>, fd: nat)
    ensures Bits(Grown(fds, fd)) == Bits(fds)
  {
    BitsOfEmpty(Grown(fds, fd), |fds|);
  }

  /** Growth alone keeps every context and every count. */
  lemma GrownKeeps(t: Table, fd: nat)
    requires Consistent(t)
    ensures var t' := t.(fds := Grown(t.fds, fd));
            && Consistent(t')
            && forall k: nat :: Context(t', k) == Context(t, k)
  {
    BitsGrown(t.fds, fd);
    var fds' := Grown(t.fds, fd);
    forall k | 0 <= k < |fds'| ensures SlotsOk(fds'[k]) {
      if k < |t.fds| { assert fds'[k] == fds'[..|t.fds|][k]; }
    }
    forall k: nat ensures Context(t.(fds := fds'), k) == Context(t, k) {
      if k < |t.fds| { assert fds'[k] == fds'[..|t.fds|][k]; }
    }
  }

  /** On a descriptor whose lock is free, `addEvent` picks the operation the kernel accepts. */
  lemma AddAccepted(t: Table, fd: nat, ev: Event)
    requires KernelOk(t, fd, {})
    ensures AddMask(t, fd, ev).Some?
    ensures AddOp(t, fd) == ADD <==> fd !in t.kernel
  {
  }

  /** Dropping some registered bits never names a descriptor the kernel does not watch. */
  lemma DropAccepted(t: Table, fd: nat, gone: set<Event>)
    requires KernelOk(t, fd, {}) && gone != {} && gone <= Context(t, fd).events
    ensures DropMask(t, fd, gone).Some?
    ensures fd in t.kernel
    ensures KernelOk(t.(kernel := DropMask(t, fd, gone).value), fd, gone)
  {
    assert Context(t, fd).events != {};
    assert Context(t, fd).events - {} == Context(t, fd).events;
  }

  lemma ArmedKeeps(t: Table, fd: nat, ev: Event, job: Job, reg: nat)
    requires Consistent(t) && KernelOk(t, fd, {}) && ev !in Context(t, fd).events
    ensures AddMask(t, fd, ev).Some? && fd < |Grown(t.fds, fd)|
    ensures var t' := Armed(t, fd, ev, job, reg);
            && Consistent(t') && KernelOk(t', fd, {})
            && Context(t, fd).At(ev) == Empty
            && Context(t', fd).At(ev) == Full(job, reg)
            && (forall e :: e != ev ==> Context(t', fd).At(e) == Context(t, fd).At(e))
            && (forall k: nat :: k != fd ==> Context(t', k) == Context(t, k))
  {
    AddAccepted(t, fd, ev);
    GrownKeeps(t, fd);
    var g := t.(fds := Grown(t.fds, fd));
    assert Context(g, fd) == g.fds[fd];
    var ctx := Context(t, fd);
    var ctx' := ctx.(events := ctx.events + {ev}).With(ev, Full(job, reg));
    assert SlotsOk(ctx);
    BitsUpdate(g.fds, fd, ctx');
    EventCount(ctx.events, ev);
    assert ctx.events + {ev} - {} == ctx.events + {ev};
    var t' := Armed(t, fd, ev, job, reg);
    forall k: nat | k != fd ensures Context(t', k) == Context(t, k) {
      assert Context(t', k) == Context(g, k);
    }
    forall k | 0 <= k < |t'.fds| ensures SlotsOk(t'.fds[k]) {
      if k != fd { assert t'.fds[k] == g.fds[k]; } else { assert SlotsOk(ctx'); }
    }
  }

  /** The slots after `addEvent`. */
  lemma ArmedSlot(t: Table, fd: nat, ev: Event, job: Job, reg: nat, k: nat, e: Event)
    requires Consistent(t) && KernelOk(t, fd, {}) && ev !in Context(t, fd).events
    ensures AddMask(t, fd, ev).Some? && fd < |Grown(t.fds, fd)| && Context(t, fd).At(ev) == Empty
    ensures Context(Armed(t, fd, ev, job, reg), k).At(e)
         == if k == fd && e == ev then Full(job, reg) else Context(t, k).At(e)
  {
    hide Armed, Consistent, KernelOk, AddMask;
    ArmedKeeps(t, fd, ev, job, reg);
  }

  lemma ClearedKeeps(t: Table, fd: nat, ev: Event)
    requires Consistent(t) && fd < |t.fds| && ev in t.fds[fd].events
    ensures var t' := Cleared(t, fd, ev);
            && Consistent(t')
            && t'.kernel == t.kernel
            && t.fds[fd].At(ev).Full?
            && Context(t', fd).events == t.fds[fd].events - {ev}
            && Context(t', fd).At(ev) == Empty
            && (forall e :: e != ev ==> Context(t', fd).At(e) == Context(t, fd).At(e))
            && (forall k: nat :: k != fd ==> Context(t', k) == Context(t, k))
  {
    var ctx := t.fds[fd];
    var ctx' := ctx.(events := ctx.events - {ev}).With(ev, Empty);
    BitsUpdate(t.fds, fd, ctx');
    EventCount(ctx.events, ev);
    var t' := Cleared(t, fd, ev);
    forall k | 0 <= k < |t'.fds| ensures SlotsOk(t'.fds[k]) {
      if k == fd { assert SlotsOk(ctx); }
    }
  }

  /** Triggering one event of a locked descriptor: the kernel already forgot the bit. */
  lemma TriggerKeepsKernel(t: Table, fd: nat, ev: Event, todo: set<Event>)
    requires Consistent(t) && fd < |t.fds| && KernelOk(t, fd, todo) && ev in todo
    ensures KernelOk(Cleared(t, fd, ev), fd, todo - {ev})
  {
    ClearedKeeps(t, fd, ev);
    assert t.fds[fd].events - {ev} - (todo - {ev}) == t.fds[fd].events - todo;
  }

  lemma DeletedKeeps(t: Table, fd: nat, ev: Event)
    requires Consistent(t) && fd < |t.fds| && KernelOk(t, fd, {}) && ev in t.fds[fd].events
    ensures DropMask(t, fd, {ev}).Some?
    ensures Consistent(Deleted(t, fd, ev)) && KernelOk(Deleted(t, fd, ev), fd, {})
    ensures Deleted(t, fd, ev).fds == Cleared(t, fd, ev).fds
  {
    DropAccepted(t, fd, {ev});
    var m := t.(kernel := DropMask(t, fd, {ev}).value);
    ClearedKeeps(m, fd, ev);
    TriggerKeepsKernel(m, fd, ev, {ev});
    assert {ev} - {ev} == {};
  }

  /** The slots after `triggerEvent`. */
  lemma ClearedSlot(t: Table, fd: nat, ev: Event, k: nat, e: Event)
    requires fd < |t.fds|
    ensures Context(Cleared(t, fd, ev), k).At(e) == if k == fd && e == ev then Empty else Context(t, k).At(e)
  {
  }

  /** The slots after `delEvent`. */
  lemma DeletedSlot(t: Table, fd: nat, ev: Event, k: nat, e: Event)
    requires fd < |t.fds| && DropMask(t, fd, {ev}).Some?
    ensures Context(Deleted(t, fd, ev), k).At(e) == if k == fd && e == ev then Empty else Context(t, k).At(e)
  {
  }

  function ClearedIf(t: Table, fd: nat, ev: Event, cond: bool): (r: Table)
    requires fd < |t.fds|
    ensures |r.fds| == |t.fds|
  {
    if cond then Cleared(t, fd, ev) else t
  }

  /** A whole critical section that drops `gone`: the kernel first, then READ, then WRITE. */
  function Flushed(t: Table, fd: nat, gone: set<Event>): Table
    requires fd < |t.fds| && DropMask(t, fd, gone).Some?
  {
    ClearedIf(ClearedIf(t.(kernel := DropMask(t, fd, gone).value), fd, READ, READ in gone), fd, WRITE, WRITE in gone)
  }

  lemma EventSets(gone: set<Event>)
    ensures gone == {} || gone == {READ} || gone == {WRITE} || gone == {READ, WRITE}
    ensures |{READ, WRITE}| == 2
  {
    assert forall e :: e in gone ==> e.READ? || e.WRITE?;
    if READ in gone && WRITE in gone { assert gone == {READ, WRITE}; }
    else if READ in gone { assert gone == {READ}; }
    else if WRITE in gone { assert gone == {WRITE}; }
  }

  /** One conditional trigger on a locked descriptor. */
  lemma ClearedIfKeeps(t: Table, fd: nat, ev: Event, cond: bool, todo: set<Event>)
    requires Consistent(t) && fd < |t.fds| && KernelOk(t, fd, todo) && (cond <==> ev in todo)
    ensures var t' := ClearedIf(t, fd, ev, cond);
            && Consistent(t') && t'.kernel == t.kernel && KernelOk(t', fd, todo - {ev})
            && t'.fds[fd].events == t.fds[fd].events - (if cond then {ev} else {})
            && (forall e :: t'.fds[fd].At(e) == if cond && e == ev then Empty else t.fds[fd].At(e))
            && (forall k :: 0 <= k < |t.fds| && k != fd ==> t'.fds[k] == t.fds[k])
            && t'.pending == t.pending - if cond then 1 else 0
  {
    if cond {
      ClearedKeeps(t, fd, ev);
      TriggerKeepsKernel(t, fd, ev, todo);
    } else {
      assert todo - {ev} == todo;
    }
  }

  /** Triggering READ and WRITE one after the other triggers the set. */
  lemma TwoTriggers(t0: Table, fd: nat, gone: set<Event>)
    requires Consistent(t0) && fd < |t0.fds| && KernelOk(t0, fd, gone)
    ensures var t' := ClearedIf(ClearedIf(t0, fd, READ, READ in gone), fd, WRITE, WRITE in gone);
            && Consistent(t') && KernelOk(t', fd, {}) && |t'.fds| == |t0.fds| && t'.kernel == t0.kernel
            && (forall e :: t'.fds[fd].At(e) == if e in gone then Empty else t0.fds[fd].At(e))
            && (forall k :: 0 <= k < |t0.fds| && k != fd ==> t'.fds[k] == t0.fds[k])
  {
    var t1 := ClearedIf(t0, fd, READ, READ in gone);
    ClearedIfKeeps(t0, fd, READ, READ in gone, gone);
    ClearedIfKeeps(t1, fd, WRITE, WRITE in gone, gone - {READ});
    EventSets(gone);
    assert gone - {READ} - {WRITE} == {};
    hide Consistent, KernelOk, Cleared, ClearedIf;
  }

  /** The critical section keeps the table consistent and removes exactly `gone`. */
  lemma FlushedKeeps(t: Table, fd: nat, gone: set<Event>)
    requires Consistent(t) && fd < |t.fds| && KernelOk(t, fd, {}) && gone != {} && gone <= t.fds[fd].events
    ensures DropMask(t, fd, gone).Some?
    ensures var t' := Flushed(t, fd, gone);
            && Consistent(t') && KernelOk(t', fd, {}) && |t'.fds| == |t.fds|
            && (forall e :: t'.fds[fd].At(e) == if e in gone then Empty else t.fds[fd].At(e))
            && (forall k :: 0 <= k < |t.fds| && k != fd ==> t'.fds[k] == t.fds[k])
            && t'.kernel - {fd} == t.kernel - {fd}
  {
    DropAccepted(t, fd, gone);
    TwoTriggers(t.(kernel := DropMask(t, fd, gone).value), fd, gone);
    hide Consistent, KernelOk, Cleared, ClearedIf;
  }

  /** The bits left and the count. */
  lemma FlushedBits(t: Table, fd: nat, gone: set<Event>)
    requires fd < |t.fds| && DropMask(t, fd, gone).Some?
    ensures Flushed(t, fd, gone).fds[fd].events == t.fds[fd].events - gone
    ensures Flushed(t, fd, gone).pending == t.pending - |gone|
  {
    EventSets(gone);
  }
}
