/**
 * serve.state.json and the processes that share it (internal/cli/statefile.go,
 * serve.go, shutdown.go). Opening with takeover, the rewrite after a bind, and the
 * guarded removals are each one step; a pid names one process; and every process
 * on the file listens on the same two addresses.
 */
module StateFile {
  import opened Options

  type Pid = nat

  datatype Record = Record(pid: Pid, startedAt: int, addresses: Option<(string, string)>)

  // ----------------------------------------------------- one process's file work

  /**
   * What opening leaves in the file, and what the process will write later: a dead owner's file is
   * taken over, keeping its start time.
   */
  function Opened(file: Option<Record>, early: Record, alive: Pid -> bool): (Record, Record) {
    if file.None? then (early, early)
    else if alive(file.value.pid) then (file.value, early)
    else
      var taken := early.(startedAt := file.value.startedAt);
      (taken, taken)
  }

  /** The gated removal. */
  function Removed(file: Option<Record>, pid: Pid, bindLost: bool, suppress: bool): Option<Record> {
    if !suppress && !bindLost && file.Some? && file.value.pid == pid then None else file
  }

  class Disk {
    var file: Option<Record>

    constructor (file: Option<Record>)
      ensures this.file == file
    {
      this.file := file;
    }
  }

  class ServeStateFile {
    const disk: Disk
    const pid: Pid
    var state: Record
    var bindLost: bool
    var suppress: bool

    /** Exclusive create, else read; a stale file is taken over, a live owner's is left alone. */
    constructor (disk: Disk, early: Record, alive: Pid -> bool)
      modifies disk
      ensures this.disk == disk && pid == early.pid && !bindLost && !suppress
      ensures (disk.file, state) == var (left, mine) := Opened(old(disk.file), early, alive); (Some(left), mine)
      ensures old(disk.file).None? ==> disk.file == Some(early) && state == early
      ensures old(disk.file).Some? && alive(old(disk.file).value.pid) ==> disk.file == old(disk.file) && state == early
      ensures old(disk.file).Some? && !alive(old(disk.file).value.pid) ==>
                && disk.file == Some(state)
                && state == Record(early.pid, old(disk.file).value.startedAt, early.addresses)
    {
      var mine := early;
      if disk.file.None? {
        disk.file := Some(early);
      } else if !alive(disk.file.value.pid) {
        mine := mine.(startedAt := disk.file.value.startedAt);
        disk.file := Some(mine);
      }
      this.disk, pid, state, bindLost, suppress := disk, early.pid, mine, false, false;
    }

    /** The bind winner stamps the file; a failed write is only logged. */
    method BindWon(proxyAddr: string, dashAddr: string, written: bool)
      modifies this`state, disk
      ensures state == old(state).(addresses := Some((proxyAddr, dashAddr)))
      ensures disk.file == if written then Some(state) else old(disk.file)
    {
      state := state.(addresses := Some((proxyAddr, dashAddr)));
      if written {
        disk.file := Some(state);
      }
    }

    method BindFailed()
      modifies this`bindLost
      ensures bindLost
    {
      bindLost := true;
    }

    method Remove()
      modifies disk
      ensures disk.file == Removed(old(disk.file), pid, bindLost, suppress)
      ensures disk.file == None <==>
                old(disk.file) == None || (old(disk.file).value.pid == pid && !bindLost && !suppress)
      ensures disk.file != None ==> disk.file == old(disk.file)
    {
      if suppress {
        return;
      }
      if bindLost {
        return;
      }
      if disk.file.None? {
        return;
      }
      if disk.file.value.pid != pid {
        return;
      }
      disk.file := None;
    }

    method LeaveFile()
      modifies this`suppress
      ensures suppress
    {
      suppress := true;
    }
  }

  // -------------------------------------------------------------- the processes

  /**
   * Where a serve process is. Named says the rewrite reached the disk. Leaving is
   * any early return and the tail of a normal one; the deferred store close and
   * removal follow it.
   */
  datatype Phase = Early | StoreReady | HalfBound | Bound | Serving(named: bool) | HalfClosed(named: bool)
                 | Draining | Joined | StoreClosed | Leaving | Deferred | Dead

  datatype Proc = Proc(phase: Phase, state: Record, storeOpen: bool, bindLost: bool, suppress: bool)

  datatype World = World(file: Option<Record>, procs: map<Pid, Proc>, proxy: Option<Pid>, dash: Option<Pid>)

  predicate Alive(w: World, p: Pid) { p in w.procs && !w.procs[p].phase.Dead? }

  predicate In(w: World, p: Pid, phase: Phase) { p in w.procs && w.procs[p].phase == phase }

  datatype Action =
    | Start(pid: Pid, startedAt: int)
    | OpenStore(pid: Pid)
    | Fail(pid: Pid)
    | ListenProxy(pid: Pid, ok: bool)
    | ListenDash(pid: Pid, ok: bool)
    | Rewrite(pid: Pid, proxyAddr: string, dashAddr: string, written: bool)
    | CloseProxy(pid: Pid)
    | CloseDash(pid: Pid)
    | Join(pid: Pid, ok: bool)
    | CloseStore(pid: Pid)
    | RemoveFile(pid: Pid)
    | DeferredClose(pid: Pid)
    | DeferredRemove(pid: Pid)
    | Crash(pid: Pid)
    | CliRemove

  predicate Enabled(w: World, a: Action) {
    match a
    case Start(p, _) => p !in w.procs
    case OpenStore(p) => In(w, p, Early)
    case Fail(p) => In(w, p, Early) || In(w, p, StoreReady)
    case ListenProxy(p, ok) => In(w, p, StoreReady) && (ok ==> w.proxy.None?)
    case ListenDash(p, ok) => In(w, p, HalfBound) && (ok ==> w.dash.None?)
    case Rewrite(p, _, _, _) => In(w, p, Bound)
    case CloseProxy(p) => p in w.procs && w.procs[p].phase.Serving?
    case CloseDash(p) => p in w.procs && w.procs[p].phase.HalfClosed?
    case Join(p, _) => In(w, p, Draining)
    case CloseStore(p) => In(w, p, Joined)
    case RemoveFile(p) => In(w, p, StoreClosed)
    case DeferredClose(p) => In(w, p, Leaving)
    case DeferredRemove(p) => In(w, p, Deferred)
    case Crash(p) => Alive(w, p)
    case CliRemove => w.file.Some? && w.proxy.None? && w.dash.None? && !Alive(w, w.file.value.pid)
  }

  function Set(w: World, p: Pid, proc: Proc): World { w.(procs := w.procs[p := proc]) }

  function Without(port: Option<Pid>, p: Pid): Option<Pid> { if port == Some(p) then None else port }

  function StartProc(w: World, p: Pid, startedAt: int): World {
    var early := Record(p, startedAt, None);
    var (left, mine) := Opened(w.file, early, (q: Pid) => q == p || Alive(w, q));
    Set(w, p, Proc(Early, mine, false, false, false)).(file := Some(left))
  }

  function RemoveIfOwner(w: World, p: Pid): World
    requires p in w.procs
  {
    w.(file := Removed(w.file, p, w.procs[p].bindLost, w.procs[p].suppress))
  }

  function Do(w: World, a: Action): World
    requires Enabled(w, a)
  {
    match a
    case Start(p, at) => StartProc(w, p, at)
    case OpenStore(p) => Set(w, p, w.procs[p].(phase := StoreReady, storeOpen := true))
    case Fail(p) => Set(w, p, w.procs[p].(phase := Leaving))
    case ListenProxy(p, ok) =>
      if ok then Set(w, p, w.procs[p].(phase := HalfBound)).(proxy := Some(p))
      else Set(w, p, w.procs[p].(phase := Leaving, bindLost := true))
    case ListenDash(p, ok) =>
      if ok then Set(w, p, w.procs[p].(phase := Bound)).(dash := Some(p))
      else Set(w, p, w.procs[p].(phase := Leaving, bindLost := true)).(proxy := Without(w.proxy, p))
    case Rewrite(p, proxyAddr, dashAddr, written) =>
      var state := w.procs[p].state.(addresses := Some((proxyAddr, dashAddr)));
      var v := Set(w, p, w.procs[p].(phase := Serving(written), state := state));
      if written then v.(file := Some(state)) else v
    case CloseProxy(p) =>
      Set(w, p, w.procs[p].(phase := HalfClosed(w.procs[p].phase.named))).(proxy := Without(w.proxy, p))
    case CloseDash(p) => Set(w, p, w.procs[p].(phase := Draining)).(dash := Without(w.dash, p))
    case Join(p, ok) =>
      if ok then Set(w, p, w.procs[p].(phase := Joined))
      else Set(w, p, w.procs[p].(phase := Leaving, suppress := true))
    case CloseStore(p) => Set(w, p, w.procs[p].(phase := StoreClosed, storeOpen := false))
    case RemoveFile(p) =>
      var v := RemoveIfOwner(w, p);
      Set(v, p, w.procs[p].(phase := Leaving, suppress := true))
    case DeferredClose(p) => Set(w, p, w.procs[p].(phase := Deferred, storeOpen := false))
    case DeferredRemove(p) =>
      var v := RemoveIfOwner(w, p);
      Set(v, p, w.procs[p].(phase := Dead))
    case Crash(p) =>
      var v := Set(w, p, w.procs[p].(phase := Dead, storeOpen := false));
      v.(proxy := Without(w.proxy, p), dash := Without(w.dash, p))
    case CliRemove => w.(file := None)
  }

  // ------------------------------------------------------------------ invariant

  predicate HoldsProxy(phase: Phase) { phase.HalfBound? || phase.Bound? || phase.Serving? }
  predicate HoldsDash(phase: Phase) { phase.Bound? || phase.Serving? || phase.HalfClosed? }

  /** Its rewrite reached the disk and it has not closed its listeners. */
  predicate Owns(phase: Phase) { (phase.Serving? || phase.HalfClosed?) && phase.named }

  predicate ProcFine(w: World, p: Pid)
    requires p in w.procs
  {
    var proc := w.procs[p];
    && (HoldsProxy(proc.phase) ==> w.proxy == Some(p))
    && (HoldsDash(proc.phase) ==> w.dash == Some(p))
    && (Owns(proc.phase) ==> w.file == Some(proc.state))
    && (proc.phase.StoreClosed? || proc.phase.Deferred? || proc.phase.Dead? ==> !proc.storeOpen)
    && proc.state.pid == p
  }

  predicate Inv(w: World) { forall p :: p in w.procs ==> ProcFine(w, p) }

  function Boot(stale: Option<Record>): World { World(stale, map[], None, None) }

  /** Steps that concern the ports: binding, stamping the file, closing. */
  lemma PortStep(w: World, a: Action, p: Pid)
    requires Inv(w) && Enabled(w, a) && p in w.procs
    requires a.ListenProxy? || a.ListenDash? || a.CloseProxy? || a.CloseDash? || a.Crash?
    ensures p in Do(w, a).procs && ProcFine(Do(w, a), p)
  {
    assert ProcFine(w, p) && ProcFine(w, a.pid);
  }

  lemma RewriteStep(w: World, a: Action, p: Pid)
    requires Inv(w) && Enabled(w, a) && p in w.procs && a.Rewrite?
    ensures p in Do(w, a).procs && ProcFine(Do(w, a), p)
  {
    assert ProcFine(w, p) && ProcFine(w, a.pid);
  }

  /** Steps that open or remove the file. */
  lemma FileStep(w: World, a: Action, p: Pid)
    requires Inv(w) && Enabled(w, a) && p in Do(w, a).procs
    requires a.Start? || a.RemoveFile? || a.DeferredRemove? || a.CliRemove?
    ensures ProcFine(Do(w, a), p)
  {
    assert p in w.procs ==> ProcFine(w, p);
  }

  /** Steps within one process. */
  lemma OwnStep(w: World, a: Action, p: Pid)
    requires Inv(w) && Enabled(w, a) && p in w.procs
    requires a.OpenStore? || a.Fail? || a.Join? || a.CloseStore? || a.DeferredClose?
    ensures p in Do(w, a).procs && ProcFine(Do(w, a), p)
  {
    assert ProcFine(w, p);
  }

  lemma StepKeepsInv(w: World, a: Action)
    requires Inv(w) && Enabled(w, a)
    ensures Inv(Do(w, a))
  {
    var v := Do(w, a);
    forall p | p in v.procs
      ensures ProcFine(v, p)
    {
      match a
      case Start(_, _) => FileStep(w, a, p);
      case RemoveFile(_) => FileStep(w, a, p);
      case DeferredRemove(_) => FileStep(w, a, p);
      case CliRemove => FileStep(w, a, p);
      case Rewrite(_, _, _, _) => RewriteStep(w, a, p);
      case OpenStore(_) => OwnStep(w, a, p);
      case Fail(_) => OwnStep(w, a, p);
      case Join(_, _) => OwnStep(w, a, p);
      case CloseStore(_) => OwnStep(w, a, p);
      case DeferredClose(_) => OwnStep(w, a, p);
      case _ => PortStep(w, a, p);
    }
  }

  /** Each port is bound by a process that is past binding it and not yet past closing it, and by no other. */
  predicate PortsHeld(w: World) {
    && (w.proxy.Some? ==> w.proxy.value in w.procs && HoldsProxy(w.procs[w.proxy.value].phase))
    && (w.dash.Some? ==> w.dash.value in w.procs && HoldsDash(w.procs[w.dash.value].phase))
  }

  lemma StepKeepsPorts(w: World, a: Action)
    requires Inv(w) && PortsHeld(w) && Enabled(w, a)
    ensures PortsHeld(Do(w, a))
  {
    assert !a.CliRemove? && a.pid in w.procs ==> ProcFine(w, a.pid);
  }

  lemma {:induction false} RunKeepsPorts(w: World, actions: seq<Action>)
    requires Inv(w) && PortsHeld(w) && Runs(w, actions)
    ensures PortsHeld(After(w, actions))
    decreases |actions|
  {
    if actions != [] {
      StepKeepsInv(w, actions[0]);
      StepKeepsPorts(w, actions[0]);
      RunKeepsPorts(Do(w, actions[0]), actions[1..]);
    }
  }

  predicate Runs(w: World, actions: seq<Action>)
    decreases |actions|
  {
    actions == [] || (Enabled(w, actions[0]) && Runs(Do(w, actions[0]), actions[1..]))
  }

  function After(w: World, actions: seq<Action>): World
    requires Runs(w, actions)
    decreases |actions|
  {
    if actions == [] then w else After(Do(w, actions[0]), actions[1..])
  }

  lemma {:induction false} RunKeepsInv(w: World, actions: seq<Action>)
    requires Inv(w) && Runs(w, actions)
    ensures Inv(After(w, actions))
    decreases |actions|
  {
    if actions != [] {
      StepKeepsInv(w, actions[0]);
      RunKeepsInv(Do(w, actions[0]), actions[1..]);
    }
  }

  /**
   * Whatever a boot leaves on disk and however any number of processes interleave:
   * from its rewrite until its listeners close, a process is the one the file names,
   * with its own addresses; and no two processes are there at once.
   */
  lemma OwnerIsNamed(stale: Option<Record>, actions: seq<Action>, p: Pid)
    requires Runs(Boot(stale), actions)
    ensures var w := After(Boot(stale), actions);
            p in w.procs && Owns(w.procs[p].phase) ==>
              && Alive(w, p) && w.file == Some(w.procs[p].state) && w.file.value.pid == p
              && forall q :: q in w.procs && Owns(w.procs[q].phase) ==> q == p
  {
    RunKeepsInv(Boot(stale), actions);
    var w := After(Boot(stale), actions);
    forall q | q in w.procs && Owns(w.procs[q].phase)
      ensures w.file == Some(w.procs[q].state) && w.file.value.pid == q
    {
      assert ProcFine(w, q);
    }
  }

  /** In any run a port is bound exactly while the process that bound it has neither closed it nor died. */
  lemma PortsAreHeld(stale: Option<Record>, actions: seq<Action>, p: Pid)
    requires Runs(Boot(stale), actions)
    ensures var w := After(Boot(stale), actions);
            && (w.proxy == Some(p) <==>
                  p in w.procs && (w.procs[p].phase.HalfBound? || w.procs[p].phase.Bound? || w.procs[p].phase.Serving?))
            && (w.dash == Some(p) <==>
                  p in w.procs && (w.procs[p].phase.Bound? || w.procs[p].phase.Serving?
                                   || w.procs[p].phase.HalfClosed?))
  {
    RunKeepsInv(Boot(stale), actions);
    RunKeepsPorts(Boot(stale), actions);
    var w := After(Boot(stale), actions);
    assert p in w.procs ==> ProcFine(w, p);
  }

  /** The store is closed at first and again from its close on, and open in between but for an early return. */
  predicate StoreFine(proc: Proc) {
    match proc.phase
    case Early => !proc.storeOpen
    case StoreClosed => !proc.storeOpen
    case Leaving => true
    case Deferred => !proc.storeOpen
    case Dead => !proc.storeOpen
    case _ => proc.storeOpen
  }

  lemma {:induction false} StoreIsOpen(w: World, actions: seq<Action>)
    requires Runs(w, actions) && forall p :: p in w.procs ==> StoreFine(w.procs[p])
    ensures forall p :: p in After(w, actions).procs ==> StoreFine(After(w, actions).procs[p])
    decreases |actions|
  {
    if actions != [] {
      assert !actions[0].CliRemove? && actions[0].pid in w.procs ==> StoreFine(w.procs[actions[0].pid]);
      StoreIsOpen(Do(w, actions[0]), actions[1..]);
    }
  }

  /** What a starting process leaves in the file, and what it begins with. */
  lemma StartPlainly(w: World, p: Pid, at: int)
    requires Enabled(w, Start(p, at))
    ensures var v, early := Do(w, Start(p, at)), Record(p, at, None);
            && (w.file == None ==> v.file == Some(early) && v.procs[p].state == early)
            && (w.file.Some? && (w.file.value.pid == p || Alive(w, w.file.value.pid)) ==>
                  v.file == w.file && v.procs[p].state == early)
            && (w.file.Some? && w.file.value.pid != p && !Alive(w, w.file.value.pid) ==>
                  && v.procs[p].state == Record(p, w.file.value.startedAt, None)
                  && v.file == Some(v.procs[p].state))
            && v.procs[p].phase == Early && !v.procs[p].storeOpen && !v.procs[p].bindLost && !v.procs[p].suppress
            && v.proxy == w.proxy && v.dash == w.dash && v.procs == w.procs[p := v.procs[p]]
  {
  }

  /** The bind winner's stamp names it, its start and its two addresses, while it holds both ports. */
  lemma StampPlainly(w: World, p: Pid, proxyAddr: string, dashAddr: string)
    requires Inv(w) && Enabled(w, Rewrite(p, proxyAddr, dashAddr, true))
    ensures var v := Do(w, Rewrite(p, proxyAddr, dashAddr, true));
            && v.file == Some(Record(p, w.procs[p].state.startedAt, Some((proxyAddr, dashAddr))))
            && v.proxy == v.dash == Some(p)
  {
    assert ProcFine(w, p);
  }

  /** One that lost a bind, or whose drain was not joined in time. */
  predicate LeavesFile(w: World, p: Pid) { p in w.procs && (w.procs[p].bindLost || w.procs[p].suppress) }

  lemma {:induction false} RunStillLeaves(w: World, actions: seq<Action>, p: Pid)
    requires LeavesFile(w, p) && Runs(w, actions)
    ensures LeavesFile(After(w, actions), p)
    decreases |actions|
  {
    if actions != [] {
      RunStillLeaves(Do(w, actions[0]), actions[1..], p);
    }
  }

  /**
   * Once a process has failed to bind a port, or has not joined its drain in time,
   * no later step of its own removes the file, however the run goes on.
   */
  lemma LoserLeavesTheFile(w: World, p: Pid, lost: Action, later: seq<Action>, a: Action)
    requires lost in {ListenProxy(p, false), ListenDash(p, false), Join(p, false)}
    requires Enabled(w, lost) && Runs(Do(w, lost), later) && Enabled(After(Do(w, lost), later), a)
    requires !a.CliRemove? && a.pid == p
    ensures var v := After(Do(w, lost), later);
            v.file.Some? ==> Do(v, a).file.Some?
  {
    RunStillLeaves(Do(w, lost), later, p);
  }

  lemma StepFirst(w: World, a: Action, rest: seq<Action>)
    requires Enabled(w, a) && Runs(Do(w, a), rest)
    ensures Runs(w, [a] + rest) && After(w, [a] + rest) == After(Do(w, a), rest)
  {
    assert ([a] + rest)[1..] == rest;
  }

  /** The end of every normal return and of every early one. */
  lemma LeavingEnds(w: World, p: Pid)
    requires In(w, p, Leaving)
    ensures Runs(w, [DeferredClose(p)] + ([DeferredRemove(p)] + []))
    ensures var v := After(w, [DeferredClose(p)] + ([DeferredRemove(p)] + []));
            && v.procs == w.procs[p := w.procs[p].(phase := Dead, storeOpen := false)]
            && v.proxy == w.proxy && v.dash == w.dash
            && v.file == Removed(w.file, p, w.procs[p].bindLost, w.procs[p].suppress)
  {
    var v := Do(w, DeferredClose(p));
    StepFirst(v, DeferredRemove(p), []);
    StepFirst(w, DeferredClose(p), [DeferredRemove(p)] + []);
  }

  /** A drain joined in time, and what follows. */
  lemma JoinedEnds(w: World, p: Pid) returns (actions: seq<Action>)
    requires In(w, p, Draining) && !w.procs[p].bindLost && !w.procs[p].suppress
    ensures Runs(w, actions) && After(w, actions).procs.Keys == w.procs.Keys
    ensures forall q :: q in w.procs && q != p ==> After(w, actions).procs[q] == w.procs[q]
    ensures After(w, actions).procs[p].phase.Dead? && !After(w, actions).procs[p].storeOpen
    ensures After(w, actions).proxy == w.proxy && After(w, actions).dash == w.dash
    ensures After(w, actions).file == if w.file.Some? && w.file.value.pid == p then None else w.file
  {
    var waited := Do(w, Join(p, true));
    var shut := Do(waited, CloseStore(p));
    var left := Do(shut, RemoveFile(p));
    actions := [DeferredClose(p)] + ([DeferredRemove(p)] + []);
    LeavingEnds(left, p);
    StepFirst(shut, RemoveFile(p), actions);
    StepFirst(waited, CloseStore(p), [RemoveFile(p)] + actions);
    StepFirst(w, Join(p, true), [CloseStore(p)] + ([RemoveFile(p)] + actions));
    actions := [Join(p, true)] + ([CloseStore(p)] + ([RemoveFile(p)] + actions));
  }

  /** A drain that is not: the file stays. */
  lemma TimedOutEnds(w: World, p: Pid) returns (actions: seq<Action>)
    requires In(w, p, Draining)
    ensures Runs(w, actions) && After(w, actions).procs.Keys == w.procs.Keys
    ensures forall q :: q in w.procs && q != p ==> After(w, actions).procs[q] == w.procs[q]
    ensures After(w, actions).procs[p].phase.Dead? && !After(w, actions).procs[p].storeOpen
    ensures After(w, actions).proxy == w.proxy && After(w, actions).dash == w.dash && After(w, actions).file == w.file
  {
    LeavingEnds(Do(w, Join(p, false)), p);
    actions := [DeferredClose(p)] + ([DeferredRemove(p)] + []);
    StepFirst(w, Join(p, false), actions);
    actions := [Join(p, false)] + actions;
  }

  /** What is left when a serving process has closed both listeners. */
  function Drained(w: World, p: Pid): World
    requires p in w.procs
  {
    w.(procs := w.procs[p := w.procs[p].(phase := Draining)], proxy := None, dash := None)
  }

  lemma ListenersClose(w: World, p: Pid, rest: seq<Action>)
    requires Inv(w) && In(w, p, Serving(true)) && Runs(Drained(w, p), rest)
    ensures Runs(w, [CloseProxy(p)] + ([CloseDash(p)] + rest))
    ensures After(w, [CloseProxy(p)] + ([CloseDash(p)] + rest)) == After(Drained(w, p), rest)
  {
    assert ProcFine(w, p);
    var half := Do(w, CloseProxy(p));
    assert Do(half, CloseDash(p)) == Drained(w, p);
    StepFirst(half, CloseDash(p), rest);
    StepFirst(w, CloseProxy(p), [CloseDash(p)] + rest);
  }

  /**
   * A serving process can always stop, by a drain that is joined in time or one that
   * is not. It ends dead, with both ports free and its store closed; the file that
   * names it goes if the drain was joined and stays if not.
   */
  lemma ShutdownEnds(w: World, p: Pid, joined: bool) returns (actions: seq<Action>)
    requires Inv(w) && In(w, p, Serving(true)) && !w.procs[p].bindLost && !w.procs[p].suppress
    ensures Runs(w, actions)
    ensures var v := After(w, actions);
            && v.procs.Keys == w.procs.Keys && (forall q :: q in w.procs && q != p ==> v.procs[q] == w.procs[q])
            && v.procs[p].phase.Dead? && !v.procs[p].storeOpen && v.proxy.None? && v.dash.None?
            && v.file == if joined then None else w.file
  {
    assert ProcFine(w, p);
    if joined {
      actions := JoinedEnds(Drained(w, p), p);
    } else {
      actions := TimedOutEnds(Drained(w, p), p);
    }
    ListenersClose(w, p, actions);
    actions := [CloseProxy(p)] + ([CloseDash(p)] + actions);
  }

  /**
   * In any run, a file naming p goes away only by p's own removal with its store
   * closed, or by the CLI once p is dead.
   */
  lemma RemovalMeansClosed(stale: Option<Record>, actions: seq<Action>, a: Action)
    requires Runs(Boot(stale), actions) && Enabled(After(Boot(stale), actions), a)
    ensures var w := After(Boot(stale), actions);
            w.file.Some? && Do(w, a).file.None? ==>
              var p := w.file.value.pid;
              || ((a == RemoveFile(p) || a == DeferredRemove(p)) && p in w.procs && !w.procs[p].storeOpen)
              || (a.CliRemove? && !Alive(w, p))
  {
    RunKeepsInv(Boot(stale), actions);
    var w := After(Boot(stale), actions);
    if a.RemoveFile? || a.DeferredRemove? {
      assert ProcFine(w, a.pid);
    }
  }

  /** A process whose store is closed for good. */
  predicate Finished(w: World, p: Pid) {
    && p in w.procs && !w.procs[p].storeOpen
    && (w.procs[p].phase.Leaving? || w.procs[p].phase.Deferred? || w.procs[p].phase.Dead?)
  }

  lemma StepStaysFinished(w: World, a: Action, p: Pid)
    requires Finished(w, p) && Enabled(w, a)
    ensures Finished(Do(w, a), p)
  {
  }

  lemma {:induction false} RunStaysFinished(w: World, actions: seq<Action>, p: Pid)
    requires Finished(w, p) && Runs(w, actions)
    ensures Finished(After(w, actions), p)
    decreases |actions|
  {
    if actions != [] {
      StepStaysFinished(w, actions[0], p);
      RunStaysFinished(Do(w, actions[0]), actions[1..], p);
    }
  }

  /**
   * Once a file that names a process of the run goes away, that process's store is
   * closed and stays closed, however the run goes on.
   */
  lemma RemovedStaysClosed(stale: Option<Record>, actions: seq<Action>, a: Action, later: seq<Action>)
    requires Runs(Boot(stale), actions) && Enabled(After(Boot(stale), actions), a)
    requires Runs(Do(After(Boot(stale), actions), a), later)
    ensures var w := After(Boot(stale), actions);
            w.file.Some? && w.file.value.pid in w.procs && Do(w, a).file.None? ==>
              var p, v := w.file.value.pid, After(Do(w, a), later);
              p in v.procs && !v.procs[p].storeOpen
  {
    RunKeepsInv(Boot(stale), actions);
    RemovalMeansClosed(stale, actions, a);
    var w := After(Boot(stale), actions);
    if w.file.Some? && w.file.value.pid in w.procs && Do(w, a).file.None? {
      var p := w.file.value.pid;
      assert ProcFine(w, p);
      RunStaysFinished(Do(w, a), later, p);
    }
  }

  // ------------------------------------------- what the file's absence does not say

  ghost predicate Reaches(w: World, v: World) { exists actions :: Runs(w, actions) && After(w, actions) == v }

  lemma {:induction false} RunOneMore(w: World, actions: seq<Action>, a: Action)
    requires Runs(w, actions) && Enabled(After(w, actions), a)
    ensures Runs(w, actions + [a]) && After(w, actions + [a]) == Do(After(w, actions), a)
    decreases |actions|
  {
    if actions == [] {
      assert actions + [a] == [a];
      assert Runs(Do(w, a), [a][1..]);
    } else {
      assert (actions + [a])[1..] == actions[1..] + [a];
      RunOneMore(Do(w, actions[0]), actions[1..], a);
    }
  }

  lemma OneMore(w: World, v: World, a: Action)
    requires Reaches(w, v) && Enabled(v, a)
    ensures Reaches(w, Do(v, a))
  {
    var actions :| Runs(w, actions) && After(w, actions) == v;
    RunOneMore(w, actions, a);
  }

  /** A new process can come up on free ports and stamp the file. */
  lemma CanServe(boot: World, w: World, p: Pid) returns (v: World)
    requires Reaches(boot, w) && p !in w.procs && w.proxy.None? && w.dash.None?
    ensures Reaches(boot, v) && v.procs.Keys == w.procs.Keys + {p} && v.file == Some(v.procs[p].state)
    ensures v.procs[p] == Proc(Serving(true), v.procs[p].state, true, false, false) && v.procs[p].state.pid == p
    ensures v.proxy == v.dash == Some(p) && forall q :: q in w.procs ==> v.procs[q] == w.procs[q]
  {
    OneMore(boot, w, Start(p, 0));
    v := Do(w, Start(p, 0));
    OneMore(boot, v, OpenStore(p));
    v := Do(v, OpenStore(p));
    OneMore(boot, v, ListenProxy(p, true));
    v := Do(v, ListenProxy(p, true));
    OneMore(boot, v, ListenDash(p, true));
    v := Do(v, ListenDash(p, true));
    OneMore(boot, v, Rewrite(p, "", "", true));
    v := Do(v, Rewrite(p, "", "", true));
  }

  lemma CanDrain(boot: World, w: World, p: Pid) returns (v: World)
    requires Reaches(boot, w) && p in w.procs && w.procs[p].phase == Serving(true) && w.proxy == w.dash == Some(p)
    ensures Reaches(boot, v)
            && v == w.(procs := w.procs[p := w.procs[p].(phase := Draining)], proxy := None, dash := None)
  {
    OneMore(boot, w, CloseProxy(p));
    v := Do(w, CloseProxy(p));
    OneMore(boot, v, CloseDash(p));
    v := Do(v, CloseDash(p));
  }

  /** A drained process that joins closes its store and removes its file. */
  lemma CanRemove(boot: World, w: World, p: Pid) returns (v: World)
    requires Reaches(boot, w) && p in w.procs && w.procs[p].phase.Draining? && !w.procs[p].bindLost
             && !w.procs[p].suppress
    requires w.file.Some? && w.file.value.pid == p
    ensures Reaches(boot, v) && v.file.None? && v.proxy == w.proxy && v.dash == w.dash
    ensures v.procs.Keys == w.procs.Keys && forall q :: q in w.procs && q != p ==> v.procs[q] == w.procs[q]
  {
    OneMore(boot, w, Join(p, true));
    v := Do(w, Join(p, true));
    OneMore(boot, v, CloseStore(p));
    v := Do(v, CloseStore(p));
    OneMore(boot, v, RemoveFile(p));
    v := Do(v, RemoveFile(p));
  }

  /**
   * A file that named p can be gone while p is alive with its store open: p has
   * closed its listeners, q takes the ports, restamps the file, stops and removes it.
   * Both ports refuse by then, so a watcher of p's shutdown is fooled.
   */
  lemma GoneIsNotClosed(p: Pid, q: Pid) returns (before: World, now: World)
    requires p != q
    ensures Reaches(Boot(None), before) && Reaches(before, now) && p in before.procs
    ensures before.file.Some? && before.file.value.pid == p && Owns(before.procs[p].phase)
    ensures now.file.None? && now.proxy.None? && now.dash.None? && Alive(now, p) && now.procs[p].storeOpen
  {
    var boot := Boot(None);
    assert Runs(boot, []) && After(boot, []) == boot;
    before := CanServe(boot, boot, p);
    assert Runs(before, []) && After(before, []) == before;
    now := CanDrain(before, before, p);
    now := CanServe(before, now, q);
    now := CanDrain(before, now, q);
    now := CanRemove(before, now, q);
  }
}
