/** Graceful shutdown racing with agent reloads, as a protocol of interleaved steps. One drainer walks through the
    four steps of `drain_agents_with_scheduler`; one reloader runs `reload_one_agent` any number of times. Each step
    is what one task does between two awaits. Waits end whenever they like: in time or by timeout. */
module ShutdownDrain {
  import opened Common

  /** Handles are owned values; `h` is the h-th one ever created. */
  type Handle = nat
  type Guard = nat

  datatype Actor = Drainer | Reloader

  /** Where the drainer is. `todo` and `rest` are the handles still to be cancelled and shut down. */
  datatype DrainPc =
    | Start
    | Snapshotting
    | CancellingAll(todo: set<Handle>)
    | Waiting
    | AwaitingWrite
    | Taking
    | Stopping(rest: set<Handle>)
    | Done

  /** Where the reloader is, with the handles and guards it owns there. */
  datatype ReloadPc =
    | Idle
    | AwaitingRemove(name: string)
    | Removing(name: string)
    | RemovingGuard(name: string, prior: Option<Handle>)
    | CancellingOld(name: string, handle: Handle, oldGuard: Option<Guard>)
    | WaitingOld(name: string, handle: Handle, oldGuard: Option<Guard>)
    | Creating(name: string, prior: Option<Handle>, oldGuard: Option<Guard>)
    | StoppingOld(name: string, handle: Handle, made: Handle, guard: Option<Guard>)
    | StoringGuard(name: string, made: Handle, guard: Option<Guard>)
    | AwaitingInsert(name: string, handle: Handle, restore: Option<Guard>)
    | Inserting(name: string, handle: Handle, restore: Option<Guard>)
    | RestoringGuard(name: string, restore: Option<Guard>)

  /** `agents` is the shared map behind a readers-writer lock. `snapshot`, `cancelled`, `dead` (the shutdown calls in
      order), `next` (handles created so far) and `late` (insertions since step 4 emptied the map) are history. */
  datatype State = State(
    agents: map<string, Handle>, guards: map<string, Guard>,
    readers: set<Actor>, writer: Option<Actor>,
    drain: DrainPc, reload: ReloadPc,
    snapshot: set<Handle>, cancelled: set<Handle>, dead: seq<Handle>, next: nat, late: nat)

  datatype Event =
    | DrainLockRead | DrainSnapshot | DrainCancel(h: Handle) | DrainCancelled | DrainWaited
    | DrainLockWrite | DrainTake | DrainStop(h: Handle) | DrainFinish
    | ReloadBegin(name: string) | ReloadLockRemove | ReloadRemove | ReloadRemoveGuard
    | ReloadCancel | ReloadWaited | ReloadCreated(guard: Option<Guard>) | ReloadFailed
    | ReloadStopOld | ReloadStoreGuard | ReloadLockInsert | ReloadInsert | ReloadRestoreGuard

  predicate Free(s: State) {
    s.readers == {} && s.writer == None
  }

  predicate Emptied(pc: DrainPc) {
    pc.Stopping? || pc.Done?
  }

  function PutGuard(guards: map<string, Guard>, name: string, g: Option<Guard>): map<string, Guard> {
    if g.Some? then guards[name := g.value] else guards
  }

  /** One step of the drainer; `None` when the event cannot happen in `s`. */
  function DrainStep(s: State, e: Event): Option<State> {
    var pc := s.drain;
    match e
    case DrainLockRead =>
      if pc.Start? && s.writer == None then Some(s.(readers := s.readers + {Drainer}, drain := Snapshotting)) else None
    case DrainSnapshot =>
      if pc.Snapshotting? then
        Some(s.(readers := s.readers - {Drainer}, snapshot := s.agents.Values, drain := CancellingAll(s.agents.Values)))
      else None
    case DrainCancel(h) =>
      if pc.CancellingAll? && h in pc.todo then
        Some(s.(cancelled := s.cancelled + {h}, drain := CancellingAll(pc.todo - {h})))
      else None
    case DrainCancelled => if pc.CancellingAll? && pc.todo == {} then Some(s.(drain := Waiting)) else None
    case DrainWaited => if pc.Waiting? then Some(s.(drain := AwaitingWrite)) else None
    case DrainLockWrite =>
      if pc.AwaitingWrite? && Free(s) then Some(s.(writer := Some(Drainer), drain := Taking)) else None
    case DrainTake =>
      if pc.Taking? then Some(s.(writer := None, agents := map[], drain := Stopping(s.agents.Values))) else None
    case DrainStop(h) =>
      if pc.Stopping? && h in pc.rest then Some(s.(dead := s.dead + [h], drain := Stopping(pc.rest - {h}))) else None
    case DrainFinish => if pc.Stopping? && pc.rest == {} then Some(s.(drain := Done)) else None
    case _ => None
  }

  /** One step of the reloader; `None` when the event cannot happen in `s`. */
  function ReloadStep(s: State, e: Event): Option<State> {
    var pc := s.reload;
    match e
    case ReloadBegin(name) => if pc.Idle? then Some(s.(reload := AwaitingRemove(name))) else None
    case ReloadLockRemove =>
      if pc.AwaitingRemove? && Free(s) then Some(s.(writer := Some(Reloader), reload := Removing(pc.name))) else None
    case ReloadRemove =>
      if pc.Removing? then
        var prior := if pc.name in s.agents then Some(s.agents[pc.name]) else None;
        Some(s.(writer := None, agents := s.agents - {pc.name}, reload := RemovingGuard(pc.name, prior)))
      else None
    case ReloadRemoveGuard =>
      if pc.RemovingGuard? then
        var oldGuard := if pc.name in s.guards then Some(s.guards[pc.name]) else None;
        Some(s.(guards := s.guards - {pc.name},
             reload := if pc.prior.Some? then CancellingOld(pc.name, pc.prior.value, oldGuard)
             else Creating(pc.name, None, oldGuard)))
      else None
    case ReloadCancel =>
      if pc.CancellingOld? then
        Some(s.(cancelled := s.cancelled + {pc.handle}, reload := WaitingOld(pc.name, pc.handle, pc.oldGuard)))
      else None
    case ReloadWaited =>
      if pc.WaitingOld? then Some(s.(reload := Creating(pc.name, Some(pc.handle), pc.oldGuard))) else None
    case ReloadCreated(g) =>
      if pc.Creating? then
        Some(s.(next := s.next + 1,
             reload := if pc.prior.Some? then StoppingOld(pc.name, pc.prior.value, s.next, g)
             else StoringGuard(pc.name, s.next, g)))
      else None
    case ReloadFailed =>
      if pc.Creating? then
        Some(s.(reload := if pc.prior.Some? then AwaitingInsert(pc.name, pc.prior.value, pc.oldGuard)
             else RestoringGuard(pc.name, pc.oldGuard)))
      else None
    case ReloadStopOld =>
      if pc.StoppingOld? then
        Some(s.(dead := s.dead + [pc.handle], reload := StoringGuard(pc.name, pc.made, pc.guard)))
      else None
    case ReloadStoreGuard =>
      if pc.StoringGuard? then
        Some(s.(guards := PutGuard(s.guards, pc.name, pc.guard), reload := AwaitingInsert(pc.name, pc.made, None)))
      else None
    case ReloadLockInsert =>
      if pc.AwaitingInsert? && Free(s) then
        Some(s.(writer := Some(Reloader), reload := Inserting(pc.name, pc.handle, pc.restore)))
      else None
    case ReloadInsert =>
      if pc.Inserting? then
        Some(s.(writer := None, agents := s.agents[pc.name := pc.handle],
             late := if Emptied(s.drain) then s.late + 1 else s.late,
             reload := RestoringGuard(pc.name, pc.restore)))
      else None
    case ReloadRestoreGuard =>
      if pc.RestoringGuard? then Some(s.(guards := PutGuard(s.guards, pc.name, pc.restore), reload := Idle)) else None
    case _ => None
  }

  function Step(s: State, e: Event): Option<State> {
    var d := DrainStep(s, e);
    if d.Some? then d else ReloadStep(s, e)
  }

  /** The state after the events, when each could happen in turn. */
  function Run(s: State, es: seq<Event>): Option<State> {
    if es == [] then Some(s)
    else
      var before := Run(s, es[..|es| - 1]);
      if before.None? then None else Step(before.value, es[|es| - 1])
  }

  ghost predicate Injective(m: map<string, Handle>) {
    forall a, b :: a in m && b in m && m[a] == m[b] ==> a == b
  }

  /** Both tasks at rest, `next` handles created, all of them in the map. */
  ghost predicate Initial(s: State) {
    && Free(s) && s.drain == Start && s.reload == Idle
    && s.snapshot == {} && s.cancelled == {} && s.dead == [] && s.late == 0
    && Injective(s.agents)
    && forall h: Handle :: h < s.next <==> h in s.agents.Values
  }

  // ---------------------------------------------------------------- ownership

  /** The handles the reloader owns. */
  function ReloaderOwns(pc: ReloadPc): set<Handle> {
    match pc
    case RemovingGuard(_, prior) => if prior.Some? then {prior.value} else {}
    case CancellingOld(_, h, _) => {h}
    case WaitingOld(_, h, _) => {h}
    case Creating(_, prior, _) => if prior.Some? then {prior.value} else {}
    case StoppingOld(_, h, made, _) => {h, made}
    case StoringGuard(_, made, _) => {made}
    case AwaitingInsert(_, h, _) => {h}
    case Inserting(_, h, _) => {h}
    case _ => {}
  }

  function DrainerOwns(pc: DrainPc): set<Handle> {
    if pc.Stopping? then pc.rest else {}
  }

  function ShutDown(s: State): set<Handle> {
    set h | h in s.dead
  }

  /** Every handle ever created is in exactly one of: the map, the reloader, the drainer's list, the shut-down ones;
      and no handle was shut down twice. */
  ghost predicate OwnedOnce(s: State) {
    && Injective(s.agents)
    && (forall i, j :: 0 <= i < j < |s.dead| ==> s.dead[i] != s.dead[j])
    && (s.reload.StoppingOld? ==> s.reload.handle != s.reload.made)
    && s.agents.Values !! ReloaderOwns(s.reload) !! DrainerOwns(s.drain) !! ShutDown(s)
    && (forall h: Handle :: h < s.next <==>
                            h in s.agents.Values || h in ReloaderOwns(s.reload) || h in DrainerOwns(s.drain)
                            || h in ShutDown(s))
  }

  /** The lock is held only between taking it and touching the map, and by one writer or by readers. In particular
      nobody holds it while cancelling, waiting, creating or shutting down. */
  ghost predicate LockedOnlyToTouch(s: State) {
    && s.readers == (if s.drain.Snapshotting? then {Drainer} else {})
    && (s.writer == Some(Drainer) <==> s.drain.Taking?)
    && (s.writer == Some(Reloader) <==> s.reload.Removing? || s.reload.Inserting?)
    && (s.writer.Some? ==> s.readers == {})
  }

  /** The name that the reloader took out of the map and has not put back. */
  ghost predicate Absent(pc: ReloadPc, name: string) {
    && !(pc.Idle? || pc.AwaitingRemove? || pc.Removing? || pc.RestoringGuard?)
    && pc.name == name
  }

  ghost predicate Inv(s: State) {
    OwnedOnce(s) && LockedOnlyToTouch(s) && Rest(s)
  }

  ghost predicate Rest(s: State) {
    && (forall name :: Absent(s.reload, name) ==> name !in s.agents)
    // the snapshot is cancelled before anything else happens
    && (s.drain.CancellingAll? ==> s.snapshot <= s.cancelled + s.drain.todo)
    && (s.drain.Waiting? || s.drain.AwaitingWrite? || s.drain.Taking? || Emptied(s.drain) ==> s.snapshot <= s.cancelled)
    // what is in the map after step 4 was put there after step 4
    && (!Emptied(s.drain) ==> s.late == 0)
    && (Emptied(s.drain) && s.late == 0 ==> s.agents == map[])
    && (s.late > 0 ==> s.agents != map[] || ReloaderOwns(s.reload) != {})
  }

  lemma {:induction false} InitialInv(s: State)
    requires Initial(s)
    ensures Inv(s)
  {
  }

  lemma {:induction false} DrainStepOwned(s: State, e: Event)
    requires Inv(s) && DrainStep(s, e).Some?
    ensures OwnedOnce(DrainStep(s, e).value)
  {
    if e.DrainStop? {
      DrainStopOwned(s, e.h);
    } else if e.DrainTake? {
      DrainTakeOwned(s);
    } else {
      var t := DrainStep(s, e).value;
      assert ShutDown(t) == ShutDown(s) && DrainerOwns(t.drain) == DrainerOwns(s.drain) && t.agents == s.agents;
    }
  }

  lemma {:induction false} DrainStopOwned(s: State, h: Handle)
    requires Inv(s) && s.drain.Stopping? && h in s.drain.rest
    ensures OwnedOnce(DrainStep(s, DrainStop(h)).value)
  {
    var t := DrainStep(s, DrainStop(h)).value;
    assert ShutDown(t) == ShutDown(s) + {h};
    assert h !in ShutDown(s);
  }

  lemma {:induction false} DrainTakeOwned(s: State)
    requires Inv(s) && s.drain.Taking?
    ensures OwnedOnce(DrainStep(s, DrainTake).value)
  {
    var t := DrainStep(s, DrainTake).value;
    assert ShutDown(t) == ShutDown(s) && t.agents.Values == {} && DrainerOwns(s.drain) == {};
  }

  lemma {:induction false} DrainStepInv(s: State, e: Event)
    requires Inv(s) && DrainStep(s, e).Some?
    ensures Inv(DrainStep(s, e).value)
  {
    DrainStepOwned(s, e);
  }

  lemma {:induction false} ValuesWithout(m: map<string, Handle>, name: string)
    requires Injective(m) && name in m
    ensures (m - {name}).Values == m.Values - {m[name]}
  {
    var t := m - {name};
    forall h | h in m.Values && h != m[name] ensures h in t.Values {
      var n :| n in m && m[n] == h;
      assert n in t && t[n] == h;
    }
  }

  lemma {:induction false} ValuesWith(m: map<string, Handle>, name: string, h: Handle)
    requires name !in m
    ensures m[name := h].Values == m.Values + {h}
  {
    var t := m[name := h];
    assert t[name] == h;
    forall x | x in m.Values ensures x in t.Values {
      var n :| n in m && m[n] == x;
      assert n in t && t[n] == x;
    }
  }

  lemma {:induction false} ReloadMapStepOwned(s: State, e: Event)
    requires Inv(s) && ReloadStep(s, e).Some? && (e.ReloadRemove? || e.ReloadInsert?)
    ensures OwnedOnce(ReloadStep(s, e).value)
  {
    if e.ReloadInsert? {
      InsertOwned(s);
    } else {
      RemoveOwned(s);
    }
  }

  lemma {:induction false} InsertOwned(s: State)
    requires Inv(s) && s.reload.Inserting?
    ensures OwnedOnce(ReloadStep(s, ReloadInsert).value)
  {
    ValuesWith(s.agents, s.reload.name, s.reload.handle);
    assert ShutDown(ReloadStep(s, ReloadInsert).value) == ShutDown(s);
  }

  lemma {:induction false} RemoveOwned(s: State)
    requires Inv(s) && s.reload.Removing?
    ensures OwnedOnce(ReloadStep(s, ReloadRemove).value)
  {
    var t := ReloadStep(s, ReloadRemove).value;
    assert ShutDown(t) == ShutDown(s);
    if s.reload.name in s.agents {
      ValuesWithout(s.agents, s.reload.name);
    } else {
      assert t.agents == s.agents;
    }
  }

  lemma {:induction false} ReloadStopOwned(s: State)
    requires Inv(s) && s.reload.StoppingOld?
    ensures OwnedOnce(ReloadStep(s, ReloadStopOld).value)
  {
    var t := ReloadStep(s, ReloadStopOld).value;
    assert ShutDown(t) == ShutDown(s) + {s.reload.handle};
    assert ReloaderOwns(s.reload) == ReloaderOwns(t.reload) + {s.reload.handle};
    assert s.reload.handle !in ShutDown(s);
  }

  lemma {:induction false} ReloadStepOwned(s: State, e: Event)
    requires Inv(s) && ReloadStep(s, e).Some?
    ensures OwnedOnce(ReloadStep(s, e).value)
  {
    if e.ReloadRemove? || e.ReloadInsert? {
      ReloadMapStepOwned(s, e);
    } else if e.ReloadStopOld? {
      ReloadStopOwned(s);
    } else if e.ReloadCreated? {
      ReloadCreatedOwned(s, e);
    } else {
      ReloadLocalStepOwned(s, e);
    }
  }

  lemma {:induction false} ReloadCreatedOwned(s: State, e: Event)
    requires Inv(s) && ReloadStep(s, e).Some? && e.ReloadCreated?
    ensures OwnedOnce(ReloadStep(s, e).value)
  {
    var t := ReloadStep(s, e).value;
    assert ShutDown(t) == ShutDown(s) && DrainerOwns(t.drain) == DrainerOwns(s.drain);
    assert ReloaderOwns(t.reload) == ReloaderOwns(s.reload) + {s.next};
  }

  lemma {:induction false} ReloadLocalStepOwned(s: State, e: Event)
    requires Inv(s) && ReloadStep(s, e).Some?
    requires !e.ReloadRemove? && !e.ReloadInsert? && !e.ReloadStopOld? && !e.ReloadCreated?
    ensures OwnedOnce(ReloadStep(s, e).value)
  {
    var t := ReloadStep(s, e).value;
    assert ShutDown(t) == ShutDown(s) && DrainerOwns(t.drain) == DrainerOwns(s.drain);
    assert ReloaderOwns(t.reload) == ReloaderOwns(s.reload);
  }

  lemma {:induction false} ReloadStepInv(s: State, e: Event)
    requires Inv(s) && ReloadStep(s, e).Some?
    ensures Inv(ReloadStep(s, e).value)
  {
    ReloadStepOwned(s, e);
    ReloadStepLocks(s, e);
    ReloadStepRest(s, e);
  }

  lemma {:induction false} ReloadStepLocks(s: State, e: Event)
    requires LockedOnlyToTouch(s) && ReloadStep(s, e).Some?
    ensures LockedOnlyToTouch(ReloadStep(s, e).value)
  {
  }

  lemma {:induction false} ReloadStepRest(s: State, e: Event)
    requires Rest(s) && LockedOnlyToTouch(s) && ReloadStep(s, e).Some?
    ensures Rest(ReloadStep(s, e).value)
  {
    if e.ReloadInsert? {
      InsertRest(s);
    } else if e.ReloadRemove? {
      RemoveRest(s);
    }
  }

  lemma {:induction false} InsertRest(s: State)
    requires Rest(s) && s.reload.Inserting?
    ensures Rest(ReloadStep(s, ReloadInsert).value)
  {
    assert s.reload.name in ReloadStep(s, ReloadInsert).value.agents;
  }

  lemma {:induction false} RemoveRest(s: State)
    requires Rest(s) && s.reload.Removing?
    ensures Rest(ReloadStep(s, ReloadRemove).value)
  {
    var t := ReloadStep(s, ReloadRemove).value;
    if s.reload.name in s.agents {
      assert s.agents[s.reload.name] in ReloaderOwns(t.reload);
    } else {
      assert t.agents == s.agents;
    }
  }

  /** Ownership, lock discipline and the rest of `Inv` hold in every state of every run. */
  lemma {:induction false} RunInv(s: State, es: seq<Event>)
    requires Initial(s) && Run(s, es).Some?
    ensures Inv(Run(s, es).value)
  {
    if es != [] {
      var before, e := Run(s, es[..|es| - 1]).value, es[|es| - 1];
      RunInv(s, es[..|es| - 1]);
      if DrainStep(before, e).Some? {
        DrainStepInv(before, e);
      } else {
        ReloadStepInv(before, e);
      }
    } else {
      InitialInv(s);
    }
  }

  // ---------------------------------------------------------------- main results

  /** The state before event `k`. */
  function At(s: State, es: seq<Event>, k: nat): Option<State>
    requires k <= |es|
  {
    Run(s, es[..k])
  }

  lemma {:induction false} PrefixRuns(s: State, es: seq<Event>, k: nat)
    requires k <= |es| && Run(s, es).Some?
    ensures At(s, es, k).Some?
    decreases |es|
  {
    if k == |es| {
      assert es[..k] == es;
    } else {
      var es' := es[..|es| - 1];
      PrefixRuns(s, es', k);
      assert es'[..k] == es[..k];
    }
  }

  lemma {:induction false} AtNext(s: State, es: seq<Event>, k: nat)
    requires k < |es|
    ensures At(s, es, k + 1) == if At(s, es, k).None? then None else Step(At(s, es, k).value, es[k])
  {
    assert es[..k + 1][..k] == es[..k];
  }

  predicate PastSnapshot(pc: DrainPc) {
    !pc.Start? && !pc.Snapshotting?
  }

  /** Before the drainer shuts anything down, it has cancelled every handle that was in the map at its snapshot. */
  lemma {:induction false} CancelledBeforeStopped(s: State, es: seq<Event>, i: nat, k: nat)
    requires Initial(s) && Run(s, es).Some? && i < k < |es|
    requires es[i] == DrainSnapshot && es[k].DrainStop?
    ensures At(s, es, i).Some? && At(s, es, k).Some?
    ensures At(s, es, i).value.agents.Values <= At(s, es, k).value.cancelled
  {
    PrefixRuns(s, es, i);
    PrefixRuns(s, es, i + 1);
    AtNext(s, es, i);
    SnapshotTaken(At(s, es, i).value);
    SnapshotStays(s, es, i + 1, k, At(s, es, i).value.agents.Values);
    PrefixRuns(s, es, k + 1);
    AtNext(s, es, k);
    RunInv(s, es[..k]);
    StopperHasCancelled(At(s, es, k).value, es[k].h);
  }

  lemma {:induction false} SnapshotTaken(s: State)
    requires Step(s, DrainSnapshot).Some?
    ensures var t := Step(s, DrainSnapshot).value; t.snapshot == s.agents.Values && PastSnapshot(t.drain)
  {
  }

  lemma {:induction false} StopperHasCancelled(s: State, h: Handle)
    requires Inv(s) && Step(s, DrainStop(h)).Some?
    ensures s.snapshot <= s.cancelled
  {
  }

  lemma {:induction false} SnapshotStep(s: State, e: Event)
    requires PastSnapshot(s.drain) && Step(s, e).Some?
    ensures PastSnapshot(Step(s, e).value.drain) && Step(s, e).value.snapshot == s.snapshot
  {
  }

  lemma {:induction false} SnapshotStays(s: State, es: seq<Event>, i: nat, k: nat, hs: set<Handle>)
    requires Run(s, es).Some? && i <= k <= |es|
    requires At(s, es, i).Some? && PastSnapshot(At(s, es, i).value.drain) && hs == At(s, es, i).value.snapshot
    ensures At(s, es, k).Some? && PastSnapshot(At(s, es, k).value.drain) && At(s, es, k).value.snapshot == hs
    decreases k
  {
    PrefixRuns(s, es, k);
    if i < k {
      SnapshotStays(s, es, i, k - 1, hs);
      AtNext(s, es, k - 1);
      SnapshotStep(At(s, es, k - 1).value, es[k - 1]);
    }
  }

  /** The handles of `hs` are on their way to being shut down by the drainer. */
  predicate Doomed(s: State, hs: set<Handle>) {
    match s.drain
    case Taking => hs <= s.agents.Values
    case Stopping(rest) => hs <= rest + ShutDown(s)
    case Done => hs <= ShutDown(s)
    case _ => false
  }

  lemma {:induction false} DoomedStep(s: State, e: Event, hs: set<Handle>)
    requires Inv(s) && Doomed(s, hs) && Step(s, e).Some?
    ensures Doomed(Step(s, e).value, hs)
  {
    var t := Step(s, e).value;
    assert ShutDown(s) <= ShutDown(t);
    if e.DrainStop? {
      assert e.h in ShutDown(t) by { assert t.dead[|s.dead|] == e.h; }
    }
  }

  /** Every handle in the map at the moment step 4 takes the write lock is shut down when the drain is done. */
  lemma {:induction false} TakenAreShutDown(s: State, es: seq<Event>, i: nat, k: nat)
    requires Initial(s) && Run(s, es).Some? && i < k <= |es|
    requires es[i] == DrainLockWrite
    ensures At(s, es, i + 1).Some? && At(s, es, k).Some?
    ensures At(s, es, k).value.drain.Done? ==> At(s, es, i + 1).value.agents.Values <= ShutDown(At(s, es, k).value)
  {
    PrefixRuns(s, es, i);
    PrefixRuns(s, es, i + 1);
    AtNext(s, es, i);
    DoomedStays(s, es, i + 1, k, At(s, es, i + 1).value.agents.Values);
  }

  lemma {:induction false} DoomedStays(s: State, es: seq<Event>, i: nat, k: nat, hs: set<Handle>)
    requires Initial(s) && Run(s, es).Some? && i <= k <= |es|
    requires At(s, es, i).Some? && Doomed(At(s, es, i).value, hs)
    ensures At(s, es, k).Some? && Doomed(At(s, es, k).value, hs)
    decreases k
  {
    PrefixRuns(s, es, k);
    if i < k {
      DoomedStays(s, es, i, k - 1, hs);
      DoomedNext(s, es, k - 1, hs);
    }
  }

  lemma {:induction false} DoomedNext(s: State, es: seq<Event>, k: nat, hs: set<Handle>)
    requires Initial(s) && k < |es| && At(s, es, k).Some? && At(s, es, k + 1).Some? && Doomed(At(s, es, k).value, hs)
    ensures Doomed(At(s, es, k + 1).value, hs)
  {
    AtNext(s, es, k);
    RunInv(s, es[..k]);
    DoomedStep(At(s, es, k).value, es[k], hs);
  }

  /** Some event of the run is an insertion after step 4 took the map. */
  ghost predicate InsertedLate(es: seq<Event>) {
    exists i, k :: 0 <= i < k < |es| && es[i] == DrainTake && es[k] == ReloadInsert
  }

  lemma {:induction false} StepHistory(s: State, e: Event)
    requires Step(s, e).Some?
    ensures var t := Step(s, e).value;
            && (Emptied(t.drain) <==> Emptied(s.drain) || e == DrainTake)
            && (t.late > 0 <==> s.late > 0 || (e == ReloadInsert && Emptied(s.drain)))
  {
  }

  lemma {:induction false} EmptiedIff(s: State, es: seq<Event>)
    requires Initial(s) && Run(s, es).Some?
    ensures Emptied(Run(s, es).value.drain) <==> DrainTake in es
  {
    if es != [] {
      var earlier, e := es[..|es| - 1], es[|es| - 1];
      EmptiedIff(s, earlier);
      EmptiedNext(s, earlier, e);
      assert es == earlier + [e];
    }
  }

  lemma {:induction false} EmptiedNext(s: State, es: seq<Event>, e: Event)
    requires Run(s, es).Some? && Run(s, es + [e]).Some?
    ensures Emptied(Run(s, es + [e]).value.drain) <==> Emptied(Run(s, es).value.drain) || e == DrainTake
  {
    RunNext(s, es, e);
    StepHistory(Run(s, es).value, e);
  }

  lemma {:induction false} InsertedLateNext(es: seq<Event>, e: Event)
    ensures InsertedLate(es + [e]) <==> InsertedLate(es) || (e == ReloadInsert && DrainTake in es)
  {
    var all := es + [e];
    if InsertedLate(es) {
      var i, k :| 0 <= i < k < |es| && es[i] == DrainTake && es[k] == ReloadInsert;
      assert all[i] == DrainTake && all[k] == ReloadInsert;
    }
    if e == ReloadInsert && DrainTake in es {
      var i :| 0 <= i < |es| && es[i] == DrainTake;
      assert all[i] == DrainTake && all[|es|] == ReloadInsert;
    }
  }

  /** `late` tells of a run whether it inserted late. */
  lemma {:induction false} LateIff(s: State, es: seq<Event>)
    requires Initial(s) && Run(s, es).Some?
    ensures Run(s, es).value.late > 0 <==> InsertedLate(es)
  {
    if es != [] {
      var earlier, e := es[..|es| - 1], es[|es| - 1];
      LateIff(s, earlier);
      LateNext(s, earlier, e);
      assert es == earlier + [e];
    }
  }

  lemma {:induction false} LateNext(s: State, es: seq<Event>, e: Event)
    requires Initial(s) && Run(s, es + [e]).Some? && Run(s, es).Some?
    requires Run(s, es).value.late > 0 <==> InsertedLate(es)
    ensures Run(s, es + [e]).value.late > 0 <==> InsertedLate(es + [e])
  {
    RunNext(s, es, e);
    EmptiedIff(s, es);
    StepHistory(Run(s, es).value, e);
    InsertedLateNext(es, e);
  }

  /** Once both tasks are at rest, no agent has survived the drain exactly when nothing was inserted into the map
      after step 4 had emptied it. */
  lemma {:induction false} NoSurvivorIff(s: State, es: seq<Event>)
    requires Initial(s) && Run(s, es).Some?
    requires Run(s, es).value.drain.Done? && Run(s, es).value.reload.Idle?
    ensures var t := Run(s, es).value; (forall h: Handle :: h < t.next ==> h in ShutDown(t)) <==> !InsertedLate(es)
    ensures Run(s, es).value.agents == map[] <==> !InsertedLate(es)
  {
    RunInv(s, es);
    LateIff(s, es);
    var t := Run(s, es).value;
    if t.agents != map[] {
      var name :| name in t.agents;
      assert t.agents[name] in t.agents.Values;
    }
  }

  lemma {:induction false} WriterIsKnown(s: State)
    ensures s.writer == None || s.writer == Some(Drainer) || s.writer == Some(Reloader)
  {
    assert s.writer.Some? ==> s.writer.value.Drainer? || s.writer.value.Reloader?;
  }

  function Then(o: Option<State>, e: Event): Option<State> {
    if o.None? then None else Step(o.value, e)
  }

  /** A handle that waits to be inserted while the drain finishes does survive it. */
  lemma {:induction false} LateInsertSurvives(s: State)
    requires Inv(s) && s.drain.Done? && s.reload.AwaitingInsert?
    ensures var t := Then(Then(Step(s, ReloadLockInsert), ReloadInsert), ReloadRestoreGuard);
            && t.Some? && t.value.drain.Done? && t.value.reload.Idle?
            && s.reload.name in t.value.agents && t.value.agents[s.reload.name] == s.reload.handle
            && s.reload.handle !in t.value.dead && t.value.late == s.late + 1
  {
    WriterIsKnown(s);
    assert s.reload.handle !in ShutDown(s) by { assert s.reload.handle in ReloaderOwns(s.reload); }
    var a := s.(writer := Some(Reloader), reload := Inserting(s.reload.name, s.reload.handle, s.reload.restore));
    assert Free(s);
    assert Step(s, ReloadLockInsert) == Some(a);
  }

  /** In every process, whatever agents and guards it starts with, some run lets a reloaded agent survive: its reload
      creates it, the drain empties the map, and then it is inserted. */
  lemma {:induction false} SurvivorReachable(s: State)
    requires Initial(s)
    ensures exists es :: Survives(s, es)
  {
    var es, t := ReloaderReady(s);
    es, t := DrainThrough(s, es, t);
    es, t := InsertAfterDrain(s, es, t);
    LateIff(s, es);
    assert Survives(s, es);
  }

  lemma {:induction false} InsertAfterDrain(s: State, es0: seq<Event>, t0: State) returns (es: seq<Event>, t: State)
    requires Initial(s) && Run(s, es0) == Some(t0) && t0.drain.Done? && t0.reload.AwaitingInsert?
    ensures Run(s, es) == Some(t) && t.drain.Done? && t.reload.Idle? && t.late > 0
    ensures exists name :: name in t.agents && t.agents[name] !in t.dead
  {
    RunInv(s, es0);
    LateInsertSurvives(t0);
    var es1 := es0 + [ReloadLockInsert];
    var es2 := es1 + [ReloadInsert];
    RunNext(s, es0, ReloadLockInsert);
    RunNext(s, es1, ReloadInsert);
    RunNext(s, es2, ReloadRestoreGuard);
    es := es2 + [ReloadRestoreGuard];
    t := Run(s, es).value;
    assert t0.reload.name in t.agents;
  }

  lemma {:induction false} RunNext(s: State, es: seq<Event>, e: Event)
    ensures Run(s, es + [e]) == Then(Run(s, es), e)
  {
    assert (es + [e])[..|es|] == es;
  }

  /** Both tasks are at rest, an insertion came late, and some agent in the map was never shut down. */
  ghost predicate Survives(s: State, es: seq<Event>) {
    && Run(s, es).Some? && Run(s, es).value.drain.Done? && Run(s, es).value.reload.Idle?
    && Run(s, es).value.late > 0 && InsertedLate(es)
    && exists name :: name in Run(s, es).value.agents && Run(s, es).value.agents[name] !in Run(s, es).value.dead
  }

  predicate ReadyToInsert(t: State) {
    t.reload.AwaitingInsert? && t.drain.Start? && Free(t)
  }

  lemma {:induction false} ReloaderReady(s: State) returns (es: seq<Event>, t: State)
    requires Initial(s)
    ensures Run(s, es) == Some(t) && ReadyToInsert(t)
  {
    es, t := AgentTakenOut(s);
    if t.reload.CancellingOld? {
      es, t := Advance(s, es, t, ReloadCancel);
      es, t := Advance(s, es, t, ReloadWaited);
    }
    es, t := AgentCreated(s, es, t);
  }

  lemma {:induction false} AgentTakenOut(s: State) returns (es: seq<Event>, t: State)
    requires Initial(s)
    ensures Run(s, es) == Some(t) && (t.reload.CancellingOld? || t.reload.Creating?) && t.drain.Start? && Free(t)
  {
    es, t := Advance(s, [], s, ReloadBegin("a"));
    es, t := Advance(s, es, t, ReloadLockRemove);
    es, t := Advance(s, es, t, ReloadRemove);
    es, t := Advance(s, es, t, ReloadRemoveGuard);
  }

  lemma {:induction false} AgentCreated(s: State, es0: seq<Event>, t0: State) returns (es: seq<Event>, t: State)
    requires Run(s, es0) == Some(t0) && t0.reload.Creating? && t0.drain.Start? && Free(t0)
    ensures Run(s, es) == Some(t) && ReadyToInsert(t)
  {
    es, t := Advance(s, es0, t0, ReloadCreated(None));
    if t.reload.StoppingOld? {
      es, t := Advance(s, es, t, ReloadStopOld);
    }
    es, t := Advance(s, es, t, ReloadStoreGuard);
  }

  lemma {:induction false} DrainThrough(s: State, es0: seq<Event>, t0: State) returns (es: seq<Event>, t: State)
    requires Run(s, es0) == Some(t0) && ReadyToInsert(t0)
    ensures Run(s, es) == Some(t) && t.reload.AwaitingInsert? && t.drain.Done?
  {
    es, t := es0, t0;
    es, t := Advance(s, es, t, DrainLockRead);
    es, t := Advance(s, es, t, DrainSnapshot);
    es, t := CancelAll(s, es, t);
    es, t := Advance(s, es, t, DrainCancelled);
    es, t := Advance(s, es, t, DrainWaited);
    es, t := Advance(s, es, t, DrainLockWrite);
    es, t := Advance(s, es, t, DrainTake);
    es, t := StopAll(s, es, t);
    es, t := Advance(s, es, t, DrainFinish);
  }

  lemma {:induction false} CancelAll(s: State, es0: seq<Event>, t0: State) returns (es: seq<Event>, t: State)
    requires Run(s, es0) == Some(t0) && t0.drain.CancellingAll? && t0.reload.AwaitingInsert? && Free(t0)
    ensures Run(s, es) == Some(t) && t.drain == CancellingAll({}) && t.reload.AwaitingInsert? && Free(t)
    decreases t0.drain.todo
  {
    es, t := es0, t0;
    if h :| h in t.drain.todo {
      es, t := Advance(s, es, t, DrainCancel(h));
      es, t := CancelAll(s, es, t);
    }
  }

  lemma {:induction false} StopAll(s: State, es0: seq<Event>, t0: State) returns (es: seq<Event>, t: State)
    requires Run(s, es0) == Some(t0) && t0.drain.Stopping? && t0.reload.AwaitingInsert?
    ensures Run(s, es) == Some(t) && t.drain == Stopping({}) && t.reload.AwaitingInsert?
    decreases t0.drain.rest
  {
    es, t := es0, t0;
    if h :| h in t.drain.rest {
      es, t := Advance(s, es, t, DrainStop(h));
      es, t := StopAll(s, es, t);
    }
  }

  lemma {:induction false} Advance(s: State, es: seq<Event>, t: State, e: Event) returns (es': seq<Event>, u: State)
    requires Run(s, es) == Some(t) && Step(t, e).Some?
    ensures Run(s, es') == Some(u) && u == Step(t, e).value
  {
    es', u := es + [e], Step(t, e).value;
    RunNext(s, es, e);
  }

  predicate DrainerReleases(s: State, e: Event) {
    DrainStep(s, e).Some? && Free(DrainStep(s, e).value)
  }

  predicate ReloaderReleases(s: State, e: Event) {
    ReloadStep(s, e).Some? && Free(ReloadStep(s, e).value)
  }

  /** A task that is not at rest can step, unless the other one holds the lock, and then the very next step of the
      holder leaves the lock free. */
  lemma {:induction false} NeverStuck(s: State)
    requires Inv(s)
    ensures !s.drain.Done? ==>
              || (exists e :: DrainStep(s, e).Some?)
              || (s.writer == Some(Reloader) && exists e :: ReloaderReleases(s, e))
    ensures !s.reload.Idle? ==>
              || (exists e :: ReloadStep(s, e).Some?)
              || (!Free(s) && exists e :: DrainerReleases(s, e))
  {
    WriterIsKnown(s);
    if s.writer == Some(Reloader) {
      assert ReloaderReleases(s, if s.reload.Removing? then ReloadRemove else ReloadInsert);
    } else if !s.drain.Done? {
      DrainerCanStep(s);
    }
    if s.drain.Snapshotting? || s.drain.Taking? {
      assert DrainerReleases(s, if s.drain.Taking? then DrainTake else DrainSnapshot);
    } else if !s.reload.Idle? {
      ReloaderCanStep(s);
    }
  }

  lemma {:induction false} DrainerCanStep(s: State)
    requires Inv(s) && !s.drain.Done? && (s.drain.Start? || s.drain.AwaitingWrite? ==> s.writer == None)
    ensures exists e :: DrainStep(s, e).Some?
  {
    match s.drain
    case Start => assert DrainStep(s, DrainLockRead).Some?;
    case Snapshotting => assert DrainStep(s, DrainSnapshot).Some?;
    case CancellingAll(todo) =>
      if h :| h in todo {
        assert DrainStep(s, DrainCancel(h)).Some?;
      } else {
        assert DrainStep(s, DrainCancelled).Some?;
      }
    case Waiting => assert DrainStep(s, DrainWaited).Some?;
    case AwaitingWrite => assert DrainStep(s, DrainLockWrite).Some?;
    case Taking => assert DrainStep(s, DrainTake).Some?;
    case Stopping(rest) =>
      if h :| h in rest { assert DrainStep(s, DrainStop(h)).Some?; } else { assert DrainStep(s, DrainFinish).Some?; }
  }

  lemma {:induction false} ReloaderCanStep(s: State)
    requires !s.reload.Idle? && (s.reload.AwaitingRemove? || s.reload.AwaitingInsert? ==> Free(s))
    ensures exists e :: ReloadStep(s, e).Some?
  {
    assert ReloadStep(s, NextReload(s.reload)).Some?;
  }

  /** An event that takes a reloader at `pc` on; a creation may as well succeed. */
  function NextReload(pc: ReloadPc): Event
    requires !pc.Idle?
  {
    match pc
    case AwaitingRemove(_) => ReloadLockRemove
    case Removing(_) => ReloadRemove
    case RemovingGuard(_, _) => ReloadRemoveGuard
    case CancellingOld(_, _, _) => ReloadCancel
    case WaitingOld(_, _, _) => ReloadWaited
    case Creating(_, _, _) => ReloadFailed
    case StoppingOld(_, _, _, _) => ReloadStopOld
    case StoringGuard(_, _, _) => ReloadStoreGuard
    case AwaitingInsert(_, _, _) => ReloadLockInsert
    case Inserting(_, _, _) => ReloadInsert
    case RestoringGuard(_, _) => ReloadRestoreGuard
  }

  /** The steps that take agent and guard out of the maps. */
  function TakeOut(s: State): Option<State> {
    Then(Then(Step(s, ReloadLockRemove), ReloadRemove), ReloadRemoveGuard)
  }

  /** The steps that follow when creating the successor fails: an agent that was taken out is cancelled before, and
      inserted again after; without one only the guard is left to restore. */
  function PutBack(s: State): Option<State> {
    if s.reload.CancellingOld? then
      Then(Then(Then(Then(Then(Step(s, ReloadCancel), ReloadWaited), ReloadFailed), ReloadLockInsert), ReloadInsert),
           ReloadRestoreGuard)
    else Then(Step(s, ReloadFailed), ReloadRestoreGuard)
  }

  lemma {:induction false} TakeOutTakes(s: State)
    requires s.reload.AwaitingRemove? && Free(s)
    ensures var name := s.reload.name;
            var guard := if name in s.guards then Some(s.guards[name]) else None;
            TakeOut(s) == Some(s.(agents := s.agents - {name}, guards := s.guards - {name},
                               reload := if name in s.agents then CancellingOld(name, s.agents[name], guard)
                               else Creating(name, None, guard)))
  {
  }

  lemma {:induction false} PutBackPuts(s: State)
    requires s.reload.CancellingOld? && Free(s)
    ensures var pc := s.reload;
            && PutBack(s).Some?
            && PutBack(s).value.reload == Idle && Free(PutBack(s).value)
            && PutBack(s).value.agents == s.agents[pc.name := pc.handle]
            && PutBack(s).value.guards == PutGuard(s.guards, pc.name, pc.oldGuard)
  {
    var pc := s.reload;
    var failed := s.(cancelled := s.cancelled + {pc.handle}, reload := AwaitingInsert(pc.name, pc.handle, pc.oldGuard));
    FailsToCreate(s);
    InsertsAgain(failed);
  }

  lemma {:induction false} FailsToCreate(s: State)
    requires s.reload.CancellingOld?
    ensures var pc := s.reload;
            var failed := s.(cancelled := s.cancelled + {pc.handle},
                          reload := AwaitingInsert(pc.name, pc.handle, pc.oldGuard));
            Then(Then(Step(s, ReloadCancel), ReloadWaited), ReloadFailed) == Some(failed)
  {
    var pc := s.reload;
    var cancelled := s.(cancelled := s.cancelled + {pc.handle}, reload := WaitingOld(pc.name, pc.handle, pc.oldGuard));
    assert Step(s, ReloadCancel) == Some(cancelled);
    assert Step(cancelled, ReloadWaited) == Some(cancelled.(reload := Creating(pc.name, Some(pc.handle), pc.oldGuard)));
  }

  lemma {:induction false} InsertsAgain(s: State)
    requires s.reload.AwaitingInsert? && Free(s)
    ensures var pc := s.reload;
            var t := Then(Then(Step(s, ReloadLockInsert), ReloadInsert), ReloadRestoreGuard);
            && t.Some? && t.value.reload == Idle && Free(t.value)
            && t.value.agents == s.agents[pc.name := pc.handle]
            && t.value.guards == PutGuard(s.guards, pc.name, pc.restore)
  {
    var pc := s.reload;
    var locked := s.(writer := Some(Reloader), reload := Inserting(pc.name, pc.handle, pc.restore));
    assert Step(s, ReloadLockInsert) == Some(locked);
  }

  lemma {:induction false} PutBackNone(s: State)
    requires s.reload.Creating? && s.reload.prior == None
    ensures PutBack(s) == Some(s.(guards := PutGuard(s.guards, s.reload.name, s.reload.oldGuard), reload := Idle))
  {
  }

  /** A reload whose creation fails, undisturbed by the drainer, leaves the map and the guards as they were. */
  lemma {:induction false} FailedReloadRestores(s: State)
    requires s.reload.AwaitingRemove? && Free(s)
    ensures TakeOut(s).Some? && PutBack(TakeOut(s).value).Some?
    ensures var t := PutBack(TakeOut(s).value).value;
            t.reload == Idle && Free(t) && t.agents == s.agents && t.guards == s.guards
  {
    var name := s.reload.name;
    TakeOutTakes(s);
    if name in s.agents {
      PutBackPuts(TakeOut(s).value);
      assert (s.agents - {name})[name := s.agents[name]] == s.agents;
    } else {
      PutBackNone(TakeOut(s).value);
      assert s.agents - {name} == s.agents;
    }
    assert name in s.guards ==> (s.guards - {name})[name := s.guards[name]] == s.guards;
    assert name !in s.guards ==> s.guards - {name} == s.guards;
  }
}
