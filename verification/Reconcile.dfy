/** The channels process: one session loop per channel of the database, kept in step by a guarded poll. A session loop
    is named by its abort controller, controllers by the order in which they are created. */
module Reconcile {
  import opened Common

  datatype Config = Config(botToken: Option<string>, accessToken: Option<string>, password: Option<string>)

  datatype Channel = Channel(id: string, kind: string, config: Config, status: string)

  const KINDS := {"telegram", "discord", "matrix", "irc", "slack", "whatsapp", "email"}
  const PENDING_RESTART := "pending_restart"

  datatype Session = Session(controller: nat, channel: Channel)

  /** `active` is a JavaScript Map, and `order` its list of entries as iteration sees it: a new key is put at the end, a
      deleted one leaves a hole that iteration skips. `spawned[c]` is the channel that controller `c` was created
      for. */
  datatype World = World(active: map<string, Session>, order: seq<Option<string>>, aborted: set<nat>,
                         spawned: seq<Channel>)

  const INITIAL := World(map[], [], {}, [])

  function OrElse(a: Option<string>, b: Option<string>): Option<string> {
    if a.Some? && a.value != "" then a else b
  }

  /** The first non-empty credential. */
  function Credential(ch: Channel): Option<string> {
    OrElse(ch.config.botToken, OrElse(ch.config.accessToken, OrElse(ch.config.password, None)))
  }

  predicate Known(ch: Channel) {
    ch.kind in KINDS
  }

  predicate Pending(ch: Channel) {
    ch.status == PENDING_RESTART
  }

  // ---------------------------------------------------------------- starting and stopping

  datatype Started = NoCredential | Unknown | Running

  function Start(w: World, ch: Channel): (World, Started) {
    if Credential(ch).None? then (w, NoCredential)
    else if !Known(ch) then (w, Unknown)
    else
      var order := if ch.id in w.active then w.order else w.order + [Some(ch.id)];
      (World(w.active[ch.id := Session(|w.spawned|, ch)], order, w.aborted, w.spawned + [ch]), Running)
  }

  /** The entries with those of the keys outside `keep` deleted. */
  function Deleted(order: seq<Option<string>>, keep: set<string>): seq<Option<string>> {
    seq(|order|, i requires 0 <= i < |order| => if order[i].Some? && order[i].value !in keep then None else order[i])
  }

  function Stop(w: World, id: string): World {
    if id in w.active then
      World(w.active - {id}, Deleted(w.order, w.active.Keys - {id}), w.aborted + {w.active[id].controller}, w.spawned)
    else w
  }

  /** The position of the first entry at or after `i`; `|order|` when iteration is over. */
  function NextEntry(order: seq<Option<string>>, i: nat): (k: nat)
    requires i <= |order|
    ensures i <= k <= |order| && (k < |order| ==> order[k].Some?)
    ensures forall j :: i <= j < k ==> order[j] == None
    decreases |order| - i
  {
    if i == |order| || order[i].Some? then i else NextEntry(order, i + 1)
  }

  predicate Live(w: World, c: nat) {
    c < |w.spawned| && c !in w.aborted
  }

  /** Controller `c` belongs to the active session of the channel it was created for. */
  predicate Owned(w: World, c: nat)
    requires c < |w.spawned|
  {
    w.spawned[c].id in w.active && w.active[w.spawned[c].id].controller == c
  }

  /** A controller runs exactly when it belongs to an active session, which is the one of its own channel. */
  ghost predicate Inv(w: World) {
    SessionsOwn(w) && InOrder(w.active.Keys, w.order)
  }

  ghost predicate SessionsOwn(w: World) {
    && (forall c: nat :: c < |w.spawned| ==> (c !in w.aborted <==> Owned(w, c)))
    && (forall id :: id in w.active ==> Sound(w, id, w.active[id]))
    && (forall c :: c in w.aborted ==> c < |w.spawned|)
  }

  /** The entries are those of the keys, one each. */
  ghost predicate InOrder(keys: set<string>, order: seq<Option<string>>) {
    && (forall i :: 0 <= i < |order| && order[i].Some? ==> order[i].value in keys)
    && (forall id :: id in keys ==> Some(id) in order)
    && (forall i, j :: 0 <= i < j < |order| && order[i].Some? ==> order[i] != order[j])
  }

  /** Holes stay holes, and entries move nowhere. */
  predicate Later(order: seq<Option<string>>, order': seq<Option<string>>) {
    |order| <= |order'| && forall i :: 0 <= i < |order| ==> order'[i] == order[i] || order'[i] == None
  }

  predicate Sound(w: World, id: string, s: Session) {
    s.controller < |w.spawned| && w.spawned[s.controller] == s.channel && s.channel.id == id
  }

  /** The running controllers are exactly those of the active sessions, and no two channels share one. */
  lemma {:induction false} LiveAreActive(w: World)
    requires Inv(w)
    ensures forall c: nat :: Live(w, c) <==> exists id :: id in w.active && w.active[id].controller == c
    ensures forall i, j :: i in w.active && j in w.active && w.active[i].controller == w.active[j].controller ==> i == j
  {
  }

  lemma {:induction false} DeletedInOrder(keys: set<string>, order: seq<Option<string>>, keep: set<string>)
    requires InOrder(keys, order) && keep <= keys
    ensures InOrder(keep, Deleted(order, keep)) && Later(order, Deleted(order, keep))
  {
    var t := Deleted(order, keep);
    forall id | id in keep ensures Some(id) in t {
      var i :| 0 <= i < |order| && order[i] == Some(id);
      assert t[i] == Some(id);
    }
  }

  lemma {:induction false} AddedInOrder(keys: set<string>, order: seq<Option<string>>, id: string)
    requires InOrder(keys, order) && id !in keys
    ensures InOrder(keys + {id}, order + [Some(id)])
  {
    var t := order + [Some(id)];
    assert t[|order|] == Some(id);
    forall k | k in keys ensures Some(k) in t {
      var i :| 0 <= i < |order| && order[i] == Some(k);
      assert t[i] == Some(k);
    }
  }

  lemma {:induction false} StopInv(w: World, id: string)
    requires Inv(w)
    ensures Inv(Stop(w, id)) && Later(w.order, Stop(w, id).order)
  {
    StopOwns(w, id);
    if id in w.active {
      DeletedInOrder(w.active.Keys, w.order, w.active.Keys - {id});
      assert Stop(w, id).active.Keys == w.active.Keys - {id};
    }
  }

  lemma {:induction false} StopOwns(w: World, id: string)
    requires SessionsOwn(w)
    ensures SessionsOwn(Stop(w, id))
  {
    if id in w.active {
      assert Sound(w, id, w.active[id]);
    }
  }

  lemma {:induction false} StartInv(w: World, ch: Channel)
    requires Inv(w) && ch.id !in w.active
    ensures Inv(Start(w, ch).0) && Later(w.order, Start(w, ch).0.order)
  {
    StartOwns(w, ch);
    var t := Start(w, ch).0;
    if t != w {
      AddedInOrder(w.active.Keys, w.order, ch.id);
      assert t.active.Keys == w.active.Keys + {ch.id};
    }
  }

  lemma {:induction false} StartOwns(w: World, ch: Channel)
    requires SessionsOwn(w) && ch.id !in w.active
    ensures SessionsOwn(Start(w, ch).0)
  {
  }

  /** Why a run must not start a channel that another has started meanwhile: the overwritten loop keeps running with no
      session to stop it by. */
  lemma {:induction false} OverwriteLeaks(w: World, ch: Channel)
    requires Inv(w) && ch.id in w.active && Credential(ch).Some? && Known(ch)
    ensures var t := Start(w, ch).0;
            && Live(t, w.active[ch.id].controller)
            && forall id :: id in t.active ==> t.active[id].controller != w.active[ch.id].controller
  {
  }

  // ---------------------------------------------------------------- the process, step by step

  /** What fetching the channel list comes to; an answer may lack the list. */
  datatype Fetch = Failed | Answered(channels: Option<seq<Channel>>)

  /** A failure is taken for a list without channels. */
  function Snapshot(f: Fetch): seq<Channel> {
    if f.Answered? && f.channels.Some? then f.channels.value else []
  }

  /** Where a reconcile run waits: in the loop over the sessions, `pos` is how far it has come; in the loop over the
      channels, `k`. `Restarting` is the pause between stopping and starting channel `k`. */
  datatype Phase =
    | Fetching
    | Stopping(db: seq<Channel>, pos: nat)
    | Starting(db: seq<Channel>, k: nat)
    | Restarting(db: seq<Channel>, k: nat)

  datatype TaskEvent = Fetched(f: Fetch) | Continue

  /** Where a step leaves a run: in a phase, over, or over by an unknown type that it throws. */
  datatype Next = Go(phase: Phase) | Over | Thrown

  /** `Shutdown` is a step of a shutdown loop, of which every signal starts one. */
  datatype Event =
    | Poll
    | Task(task: nat, event: TaskEvent)
    | Signal
    | Shutdown(loop: nat)

  /** `loops` maps each shutdown loop to how far it has come. While `booting`, the first run is under way: there are no
      polls yet and no signals are handled, and if it throws, the process ends at once (`crashed`). */
  datatype State = State(world: World, reconciling: bool, tasks: map<nat, Phase>, nextTask: nat,
                         loops: map<nat, nat>, nextLoop: nat, booting: bool, exited: bool, crashed: bool)

  const START := State(INITIAL, true, map[0 := Fetching], 1, map[], 0, true, false, false)

  function Ids(db: seq<Channel>): set<string> {
    set k | 0 <= k < |db| :: db[k].id
  }

  /** After a start attempt: an unknown type is thrown, and ends the run. */
  function AfterStart(r: (World, Started), db: seq<Channel>, k: nat): (World, Next) {
    (r.0, if r.1 == Unknown then Thrown else Go(Starting(db, k + 1)))
  }

  /** One round of the loop over the sessions, which visits entries in order, also those added meanwhile. */
  function StopNext(w: World, db: seq<Channel>, pos: nat): (World, Next)
    requires pos <= |w.order|
  {
    var k := NextEntry(w.order, pos);
    if k == |w.order| then (w, Go(Starting(db, 0)))
    else if w.order[k].value in Ids(db) then (w, Go(Stopping(db, k + 1)))
    else (Stop(w, w.order[k].value), Go(Stopping(db, k + 1)))
  }

  /** One round of the loop over the channels. */
  function StartNext(w: World, db: seq<Channel>, k: nat): (World, Next)
    requires k <= |db|
  {
    if k == |db| then (w, Over)
    else
      var ch := db[k];
      if ch.id !in w.active then AfterStart(Start(w, ch), db, k)
      else if Pending(ch) then (Stop(w, ch.id), Go(Restarting(db, k)))
      else (w, Go(Starting(db, k + 1)))
  }

  /** What an event does to a run in phase `p`. */
  function TaskStep(w: World, p: Phase, e: TaskEvent): Option<(World, Next)> {
    if p.Fetching? && e.Fetched? then
      Some((w, if Snapshot(e.f) == [] && w.active == map[] then Over else Go(Stopping(Snapshot(e.f), 0))))
    else if p.Fetching? || e.Fetched? then None
    else
      match p
      case Stopping(db, pos) => if pos <= |w.order| then Some(StopNext(w, db, pos)) else None
      case Starting(db, k) => if k <= |db| then Some(StartNext(w, db, k)) else None
      case Restarting(db, k) => if k < |db| then Some(AfterStart(Start(w, db[k]), db, k)) else None
  }

  function Step(s: State, e: Event): Option<State> {
    if s.exited then None
    else match e
         case Poll => if s.booting then None else Some(Polled(s))
         case Task(task, event) =>
           if task !in s.tasks then None
           else
             var r := TaskStep(s.world, s.tasks[task], event);
             if r.None? then None else Some(TaskDone(s.(world := r.value.0), task, r.value.1))
         case Signal =>
           if s.booting then None else Some(s.(loops := s.loops[s.nextLoop := 0], nextLoop := s.nextLoop + 1))
         case Shutdown(loop) =>
           if loop in s.loops && s.loops[loop] <= |s.world.order| then Some(ShutdownNext(s, loop)) else None
  }

  function Polled(s: State): State {
    if s.reconciling then s
    else s.(reconciling := true, tasks := s.tasks[s.nextTask := Fetching], nextTask := s.nextTask + 1)
  }

  /** The guard opens when a run ends, thrown or not; a first run that throws takes the process down. */
  function TaskDone(s: State, task: nat, next: Next): State {
    if next.Go? then s.(tasks := s.tasks[task := next.phase])
    else
      s.(reconciling := false, tasks := s.tasks - {task}, booting := false,
      exited := s.booting && next.Thrown?, crashed := s.booting && next.Thrown?)
  }

  /** One round of a shutdown loop: it stops the next session, or, when there is none, ends the process. */
  function ShutdownNext(s: State, loop: nat): State
    requires loop in s.loops && s.loops[loop] <= |s.world.order|
  {
    var k := NextEntry(s.world.order, s.loops[loop]);
    if k == |s.world.order| then s.(exited := true)
    else s.(world := Stop(s.world, s.world.order[k].value), loops := s.loops[loop := k + 1])
  }

  function Run(es: seq<Event>): Option<State> {
    if es == [] then Some(START)
    else
      var before := Run(es[..|es| - 1]);
      if before.None? then None else Step(before.value, es[|es| - 1])
  }

  /** What a loop over the sessions has left behind it is to be kept. */
  predicate Swept(order: seq<Option<string>>, pos: nat, keep: set<string>) {
    pos <= |order| && forall i :: 0 <= i < pos && order[i].Some? ==> order[i].value in keep
  }

  /** A run that pauses before a start has stopped the channel, and nobody has started it since. */
  predicate PhaseInv(w: World, p: Phase) {
    match p
    case Fetching => true
    case Stopping(db, pos) => Swept(w.order, pos, Ids(db))
    case Starting(db, k) => k <= |db|
    case Restarting(db, k) => k < |db| && db[k].id !in w.active
  }

  ghost predicate StateInv(s: State) {
    && Inv(s.world)
    && (s.reconciling <==> s.tasks != map[])
    && (forall t, u :: t in s.tasks && u in s.tasks ==> t == u)
    && (forall t :: t in s.tasks ==> PhaseInv(s.world, s.tasks[t]))
    && (forall l :: l in s.loops ==> Swept(s.world.order, s.loops[l], {}))
    && (s.exited && !s.crashed ==> s.world.active == map[])
  }

  lemma {:induction false} SweptLater(order: seq<Option<string>>, order': seq<Option<string>>, pos: nat,
                                      keep: set<string>)
    requires Swept(order, pos, keep) && Later(order, order')
    ensures Swept(order', pos, keep)
  {
  }

  /** A loop over the sessions that finds no more entries has left only keys to be kept. */
  lemma {:induction false} AllSwept(w: World, pos: nat, keep: set<string>)
    requires Inv(w) && Swept(w.order, pos, keep) && NextEntry(w.order, pos) == |w.order|
    ensures w.active.Keys <= keep
  {
    forall id | id in w.active ensures id in keep {
      assert Some(id) in w.order;
      var i :| 0 <= i < |w.order| && w.order[i] == Some(id);
    }
  }

  lemma {:induction false} StopEntry(w: World, pos: nat, keep: set<string>)
    requires Inv(w) && Swept(w.order, pos, keep) && NextEntry(w.order, pos) < |w.order|
    ensures var k := NextEntry(w.order, pos); var id := w.order[k].value;
                                              && id in w.active && (id in keep ==> Swept(w.order, k + 1, keep))
                                              && Swept(Stop(w, id).order, k + 1, keep)
                                              && |Stop(w, id).order| == |w.order|
  {
  }

  lemma {:induction false} TaskStepInv(w: World, p: Phase, e: TaskEvent)
    requires Inv(w) && PhaseInv(w, p) && TaskStep(w, p, e).Some?
    ensures var r := TaskStep(w, p, e).value;
            Inv(r.0) && Later(w.order, r.0.order) && (r.1.Go? ==> PhaseInv(r.0, r.1.phase))
  {
    if p.Stopping? && NextEntry(w.order, p.pos) < |w.order| {
      StopEntry(w, p.pos, Ids(p.db));
      StopInv(w, w.order[NextEntry(w.order, p.pos)].value);
    } else if p.Starting? && p.k < |p.db| {
      if p.db[p.k].id in w.active {
        StopInv(w, p.db[p.k].id);
      } else {
        StartInv(w, p.db[p.k]);
      }
    } else if p.Restarting? {
      StartInv(w, p.db[p.k]);
    }
  }

  lemma {:induction false} TaskEventInv(s: State, task: nat, event: TaskEvent)
    requires StateInv(s) && Step(s, Task(task, event)).Some?
    ensures StateInv(Step(s, Task(task, event)).value)
  {
    TaskStepInv(s.world, s.tasks[task], event);
    var t := Step(s, Task(task, event)).value;
    forall l | l in t.loops ensures Swept(t.world.order, t.loops[l], {}) {
      SweptLater(s.world.order, t.world.order, t.loops[l], {});
    }
    if t.reconciling {
      assert task in t.tasks;
    } else {
      assert forall u :: u in s.tasks ==> u == task;
      assert t.tasks.Keys == {};
    }
  }

  lemma {:induction false} PhaseSurvivesStop(w: World, p: Phase, id: string)
    requires Inv(w) && PhaseInv(w, p)
    ensures PhaseInv(Stop(w, id), p)
  {
    StopInv(w, id);
  }

  lemma {:induction false} ShutdownInv(s: State, loop: nat)
    requires StateInv(s) && !s.exited && loop in s.loops && s.loops[loop] <= |s.world.order|
    ensures StateInv(ShutdownNext(s, loop))
  {
    var k := NextEntry(s.world.order, s.loops[loop]);
    if k == |s.world.order| {
      ShutdownEnds(s, loop);
      ExitInv(s, ShutdownNext(s, loop));
    } else {
      ShutdownStops(s, loop, k, s.world.order[k].value, ShutdownNext(s, loop));
    }
  }

  lemma {:induction false} ExitInv(s: State, t: State)
    requires StateInv(s) && s.world.active == map[] && t == s.(exited := true)
    ensures StateInv(t)
  {
  }

  lemma {:induction false} ShutdownEnds(s: State, loop: nat)
    requires StateInv(s) && loop in s.loops && s.loops[loop] <= |s.world.order|
    requires NextEntry(s.world.order, s.loops[loop]) == |s.world.order|
    ensures s.world.active == map[]
  {
    AllSwept(s.world, s.loops[loop], {});
    assert s.world.active.Keys == {};
  }

  lemma {:induction false} ShutdownStops(s: State, loop: nat, k: nat, id: string, t: State)
    requires StateInv(s) && !s.exited && loop in s.loops && s.loops[loop] <= |s.world.order|
    requires k == NextEntry(s.world.order, s.loops[loop]) < |s.world.order| && s.world.order[k] == Some(id)
    requires t == s.(world := Stop(s.world, id), loops := s.loops[loop := k + 1])
    ensures StateInv(t)
  {
    StopInv(s.world, id);
    ShutdownSweeps(s, loop, k, id);
    forall u | u in s.tasks ensures PhaseInv(t.world, s.tasks[u]) {
      PhaseSurvivesStop(s.world, s.tasks[u], id);
    }
  }

  lemma {:induction false} ShutdownSweeps(s: State, loop: nat, k: nat, id: string)
    requires Inv(s.world) && loop in s.loops && forall l :: l in s.loops ==> Swept(s.world.order, s.loops[l], {})
    requires s.loops[loop] <= |s.world.order| && k == NextEntry(s.world.order, s.loops[loop]) < |s.world.order|
    requires s.world.order[k] == Some(id)
    ensures var loops := s.loops[loop := k + 1]; forall l :: l in loops ==> Swept(Stop(s.world, id).order, loops[l], {})
  {
    StopEntry(s.world, s.loops[loop], {});
    StopInv(s.world, id);
    forall l | l in s.loops ensures Swept(Stop(s.world, id).order, s.loops[l], {}) {
      SweptLater(s.world.order, Stop(s.world, id).order, s.loops[l], {});
    }
  }

  lemma {:induction false} PollInv(s: State)
    requires StateInv(s) && Step(s, Poll).Some?
    ensures StateInv(Step(s, Poll).value)
  {
    if !s.reconciling {
      assert s.nextTask in Polled(s).tasks;
    }
  }

  /** Through overlapping polls, restarts, thrown types and shutdown loops in between: at most one reconcile run is
      under way, running controllers and active sessions match, and a shutdown loop has no session behind it. */
  lemma {:induction false} RunInv(es: seq<Event>)
    requires Run(es).Some?
    ensures StateInv(Run(es).value)
  {
    if es != [] {
      var before, e := Run(es[..|es| - 1]).value, es[|es| - 1];
      RunInv(es[..|es| - 1]);
      if e.Task? {
        TaskEventInv(before, e.task, e.event);
      } else if e.Shutdown? {
        ShutdownInv(before, e.loop);
        assert Run(es).value == ShutdownNext(before, e.loop);
      } else if e.Poll? {
        PollInv(before);
      }
    } else {
      assert 0 in START.tasks;
    }
  }

  /** A shutdown loop ends, and with it the process, only when no session is left, whatever was started while it waited:
      nothing runs at such an exit. */
  lemma {:induction false} ExitLeavesNothing(es: seq<Event>, c: nat)
    requires Run(es).Some? && Run(es).value.exited && !Run(es).value.crashed
    ensures Run(es).value.world.active == map[] && !Live(Run(es).value.world, c)
  {
    RunInv(es);
    LiveAreActive(Run(es).value.world);
  }

  // ---------------------------------------------------------------- one run without interruption

  /** All sessions outside `keep` stopped. */
  function StopAll(w: World, keep: set<string>): World {
    World(map id | id in w.active && id in keep :: w.active[id],
          Deleted(w.order, keep),
          w.aborted + set id | id in w.active && id !in keep :: w.active[id].controller,
          w.spawned)
  }

  function Visited(w: World, ch: Channel): (World, Started) {
    if ch.id !in w.active then Start(w, ch)
    else if Pending(ch) then Start(Stop(w, ch.id), ch)
    else (w, Running)
  }

  /** The second loop from channel `k` on, and whether it throws. */
  function StartFrom(w: World, db: seq<Channel>, k: nat): (World, bool)
    requires k <= |db|
    decreases |db| - k
  {
    if k == |db| then (w, false)
    else
      var r := Visited(w, db[k]);
      if r.1 == Unknown then (r.0, true) else StartFrom(r.0, db, k + 1)
  }

  function Reconciled(w: World, db: seq<Channel>): (World, bool) {
    if db == [] && w.active == map[] then (w, false) else StartFrom(StopAll(w, Ids(db)), db, 0)
  }

  lemma {:induction false} StopAllAfterStop(w: World, keep: set<string>, id: string)
    requires Inv(w) && id in w.active && id !in keep
    ensures StopAll(Stop(w, id), keep) == StopAll(w, keep)
  {
    var a, b := StopAll(Stop(w, id), keep), StopAll(w, keep);
    assert a.active == b.active;
    assert a.aborted == b.aborted;
    assert a.order == b.order;
  }

  lemma {:induction false} StopAllDone(w: World, keep: set<string>)
    requires Inv(w) && w.active.Keys <= keep
    ensures StopAll(w, keep) == w
  {
    assert StopAll(w, keep).active == w.active;
    assert StopAll(w, keep).aborted == w.aborted;
    assert StopAll(w, keep).order == w.order;
  }

  predicate UnderWay(p: Phase) {
    !p.Fetching? && (p.Starting? ==> p.k <= |p.db|) && (p.Restarting? ==> p.k < |p.db|)
  }

  /** How an uninterrupted run in phase `p` will end. */
  function Rest(w: World, p: Phase): (World, Next)
    requires UnderWay(p)
  {
    match p
    case Stopping(db, _) => Ending(StartFrom(StopAll(w, Ids(db)), db, 0))
    case Starting(db, k) => Ending(StartFrom(w, db, k))
    case Restarting(db, k) =>
      var r := Start(w, db[k]);
      if r.1 == Unknown then (r.0, Thrown) else Ending(StartFrom(r.0, db, k + 1))
  }

  function Ending(r: (World, bool)): (World, Next) {
    (r.0, if r.1 then Thrown else Over)
  }

  /** How far a run in phase `p` is from its end, at most. */
  function Remaining(w: World, p: Phase): nat
    requires UnderWay(p) && PhaseInv(w, p)
  {
    match p
    case Stopping(db, pos) => |w.order| - pos + 2 * |db| + 2
    case Starting(db, k) => 2 * (|db| - k) + 1
    case Restarting(db, k) => 2 * (|db| - k)
  }

  /** From every phase a run under way can go on; left alone it comes nearer to its end with every step, and no step
      changes where that will be. */
  lemma {:induction false} Progress(w: World, p: Phase)
    requires Inv(w) && UnderWay(p) && PhaseInv(w, p)
    ensures TaskStep(w, p, Continue).Some?
    ensures var r := TaskStep(w, p, Continue).value;
            && Inv(r.0)
            && match r.1
               case Go(q) => UnderWay(q) && PhaseInv(r.0, q) && Rest(r.0, q) == Rest(w, p)
                             && Remaining(r.0, q) < Remaining(w, p)
               case _ => r == Rest(w, p)
  {
    TaskStepInv(w, p, Continue);
    if p.Stopping? {
      StoppingProgress(w, p.db, p.pos);
    } else {
      StartingProgress(w, p);
    }
  }

  lemma {:induction false} StartingProgress(w: World, p: Phase)
    requires UnderWay(p) && PhaseInv(w, p) && !p.Stopping?
    ensures TaskStep(w, p, Continue).Some?
    ensures var r := TaskStep(w, p, Continue).value;
            match r.1
            case Go(q) => UnderWay(q) && !q.Stopping? && PhaseInv(r.0, q) && Rest(r.0, q) == Rest(w, p)
                          && Remaining(r.0, q) < Remaining(w, p)
            case _ => r == Rest(w, p)
  {
  }

  lemma {:induction false} StoppingProgress(w: World, db: seq<Channel>, pos: nat)
    requires Inv(w) && Swept(w.order, pos, Ids(db))
    ensures var r := StopNext(w, db, pos);
            var k := NextEntry(w.order, pos);
            && (r.1 == Go(Starting(db, 0)) || (r.1 == Go(Stopping(db, k + 1)) && |r.0.order| == |w.order| > k))
            && StopAll(r.0, Ids(db)) == StopAll(w, Ids(db))
            && (r.1 == Go(Starting(db, 0)) ==> r.0 == StopAll(w, Ids(db)))
  {
    var k := NextEntry(w.order, pos);
    if k == |w.order| {
      AllSwept(w, pos, Ids(db));
      StopAllDone(w, Ids(db));
    } else {
      StopEntry(w, pos, Ids(db));
      if w.order[k].value !in Ids(db) {
        StopAllAfterStop(w, Ids(db), w.order[k].value);
      }
    }
  }

  /** The run after `n` more steps that nothing else comes between. */
  function TaskRun(w: World, p: Phase, n: nat): Option<(World, Next)>
    decreases n
  {
    if n == 0 then Some((w, Go(p)))
    else
      var r := TaskStep(w, p, Continue);
      if r.None? then None
      else if !r.value.1.Go? then (if n == 1 then r else None)
      else TaskRun(r.value.0, r.value.1.phase, n - 1)
  }

  lemma {:induction false} RestReached(w: World, p: Phase)
    requires Inv(w) && UnderWay(p) && PhaseInv(w, p)
    ensures exists n: nat :: TaskRun(w, p, n) == Some(Rest(w, p))
    decreases Remaining(w, p)
  {
    Progress(w, p);
    var r := TaskStep(w, p, Continue).value;
    if r.1.Go? {
      RestReached(r.0, r.1.phase);
      var n: nat :| TaskRun(r.0, r.1.phase, n) == Some(Rest(r.0, r.1.phase));
      assert TaskRun(w, p, n + 1) == Some(Rest(w, p));
    } else {
      assert TaskRun(w, p, 1) == Some(Rest(w, p));
    }
  }

  /** A run left alone after its fetch is over after some number of steps, with `end` as the world and thrown or not. */
  ghost predicate EndsAs(w: World, f: Fetch, end: (World, Next)) {
    var r := TaskStep(w, Fetching, Fetched(f)).value;
    if !r.1.Go? then r == end else exists n: nat :: TaskRun(r.0, r.1.phase, n) == Some(end)
  }

  /** Every run that nothing interrupts ends, and as the sequential form says. */
  lemma {:induction false} UninterruptedRun(w: World, f: Fetch)
    requires Inv(w)
    ensures EndsAs(w, f, Ending(Reconciled(w, Snapshot(f))))
  {
    if !(Snapshot(f) == [] && w.active == map[]) {
      RestReached(w, Stopping(Snapshot(f), 0));
    }
  }

  // ---------------------------------------------------------------- the first run

  /** The events of a first run left alone: its fetch, and `n` steps. */
  function Boot(f: Fetch, n: nat): seq<Event> {
    if n == 0 then [Task(0, Fetched(f))] else Boot(f, n - 1) + [Task(0, Continue)]
  }

  /** The process while its first run is in phase `p`, and when it is over. */
  function Booted(w: World, next: Next): State {
    TaskDone(START.(world := w), 0, next)
  }

  lemma {:induction false} BootSteps(w: World, p: Phase, e: TaskEvent)
    requires TaskStep(w, p, e).Some?
    ensures var r := TaskStep(w, p, e).value; Step(Booted(w, Go(p)), Task(0, e)) == Some(Booted(r.0, r.1))
  {
    var s, r := Booted(w, Go(p)), TaskStep(w, p, e).value;
    assert START.tasks[0 := p] == map[0 := p];
    if r.1.Go? {
      assert s.tasks[0 := r.1.phase] == START.tasks[0 := r.1.phase];
    } else {
      assert s.tasks - {0} == START.tasks - {0};
    }
  }

  lemma {:induction false} BootAdvances(f: Fetch, k: nat, w: World, p: Phase, v: World, next: Next)
    requires Run(Boot(f, k)) == Some(Booted(w, Go(p))) && TaskStep(w, p, Continue) == Some((v, next))
    ensures Run(Boot(f, k + 1)) == Some(Booted(v, next))
  {
    BootSteps(w, p, Continue);
    BootNext(f, k);
  }

  lemma {:induction false} BootEnds(f: Fetch, k: nat, w: World, p: Phase, end: (World, Next)) returns (n: nat)
    requires Inv(w) && UnderWay(p) && PhaseInv(w, p) && Rest(w, p) == end
    requires Run(Boot(f, k)) == Some(Booted(w, Go(p)))
    ensures Run(Boot(f, n)) == Some(Booted(end.0, end.1))
    decreases Remaining(w, p)
  {
    var v, next := ProgressTo(w, p, end);
    BootAdvances(f, k, w, p, v, next);
    if next.Go? {
      n := BootEnds(f, k + 1, v, next.phase, end);
    } else {
      n := k + 1;
    }
  }

  lemma {:induction false} ProgressTo(w: World, p: Phase, end: (World, Next)) returns (v: World, next: Next)
    requires Inv(w) && UnderWay(p) && PhaseInv(w, p) && Rest(w, p) == end
    ensures TaskStep(w, p, Continue) == Some((v, next)) && Inv(v)
    ensures next.Go? ==> UnderWay(next.phase) && PhaseInv(v, next.phase) && Rest(v, next.phase) == end
                         && Remaining(v, next.phase) < Remaining(w, p)
    ensures !next.Go? ==> (v, next) == end
  {
    Progress(w, p);
    var r := TaskStep(w, p, Continue).value;
    v, next := r.0, r.1;
  }

  lemma {:induction false} BootNext(f: Fetch, k: nat)
    requires Run(Boot(f, k)).Some?
    ensures Run(Boot(f, k + 1)) == Step(Run(Boot(f, k)).value, Task(0, Continue))
  {
    var es := Boot(f, k + 1);
    assert es[..|es| - 1] == Boot(f, k) && es[|es| - 1] == Task(0, Continue);
  }

  /** A first run that nothing interrupts ends with the process serving on, or, exactly when it throws, with the process
      ended although the sessions started before are still active. */
  lemma {:induction false} StartupCrashesIff(f: Fetch)
    ensures exists n: nat :: Run(Boot(f, n)).Some? && StartedUp(Run(Boot(f, n)).value, Reconciled(INITIAL, Snapshot(f)))
  {
    var db := Snapshot(f);
    var end := Ending(Reconciled(INITIAL, db));
    FirstBootStep(f);
    BootedIsStartedUp(end.0, end.1);
    var n := 0;
    if db != [] {
      StopAllDone(INITIAL, Ids(db));
      n := BootEnds(f, 0, INITIAL, Stopping(db, 0), end);
    }
    assert Run(Boot(f, n)) == Some(Booted(end.0, end.1));
  }

  lemma {:induction false} FirstBootStep(f: Fetch)
    ensures var r := TaskStep(INITIAL, Fetching, Fetched(f)).value; Run(Boot(f, 0)) == Some(Booted(r.0, r.1))
  {
    var es := Boot(f, 0);
    assert es[..|es| - 1] == [] && Run([]) == Some(START);
    assert START.tasks[0 := Fetching] == START.tasks;
    assert Booted(INITIAL, Go(Fetching)) == START;
    BootSteps(INITIAL, Fetching, Fetched(f));
  }

  lemma {:induction false} BootedIsStartedUp(w: World, next: Next)
    requires !next.Go?
    ensures StartedUp(Booted(w, next), (w, next.Thrown?))
  {
    assert START.tasks - {0} == map[];
  }

  /** The first run is over, and left `end`; the process is gone exactly if it threw. */
  predicate StartedUp(s: State, end: (World, bool)) {
    s.world == end.0 && s.tasks == map[] && !s.booting && (s.crashed <==> end.1) && (s.exited <==> end.1)
  }

  // ---------------------------------------------------------------- what a run achieves

  ghost predicate Distinct(db: seq<Channel>) {
    forall i, j :: 0 <= i < j < |db| ==> db[i].id != db[j].id
  }

  /** The run gets as far as starting the channel, whose type it does not know. */
  predicate Throws(w: World, ch: Channel) {
    Credential(ch).Some? && !Known(ch) && !(ch.id in w.active && !Pending(ch))
  }

  /** The first channel at or after `k` that throws; `|db|` when none does. */
  function FirstThrow(w: World, db: seq<Channel>, k: nat): (m: nat)
    requires k <= |db|
    ensures k <= m <= |db|
    ensures forall j :: k <= j < m ==> !Throws(w, db[j])
    ensures m < |db| ==> Throws(w, db[m])
    decreases |db| - k
  {
    if k == |db| || Throws(w, db[k]) then k else FirstThrow(w, db, k + 1)
  }

  predicate Wanted(w: World, ch: Channel) {
    Credential(ch).Some? || (ch.id in w.active && !Pending(ch))
  }

  /** What becomes of a channel that stands at `j` when the run throws at `m`. */
  predicate ShouldBeActive(w: World, db: seq<Channel>, m: nat, j: nat)
    requires j < |db|
  {
    if j < m then Wanted(w, db[j]) else j > m && db[j].id in w.active
  }

  predicate Undisturbed(w: World, ch: Channel) {
    ch.id in w.active && !Pending(ch)
  }

  /** From channel `k` on, `w` agrees with the world at the start of the run. */
  ghost predicate Untouched(w0: World, w: World, db: seq<Channel>, k: nat) {
    && |w0.spawned| <= |w.spawned|
    && forall j :: k <= j < |db| ==>
                     (db[j].id in w.active <==> db[j].id in w0.active)
                     && (db[j].id in w.active ==> w.active[db[j].id] == w0.active[db[j].id])
  }

  /** What visiting `ch` does to the active sessions. */
  lemma {:induction false} VisitedMeans(w: World, ch: Channel)
    ensures var r := Visited(w, ch);
            && (r.1 == Unknown <==> Throws(w, ch))
            && (ch.id in r.0.active <==> Wanted(w, ch) && !Throws(w, ch))
            && (forall id :: id != ch.id ==> (id in r.0.active <==> id in w.active))
            && (forall id :: id != ch.id && id in w.active ==> r.0.active[id] == w.active[id])
            && (Undisturbed(w, ch) ==> r.0 == w)
            && (ch.id in r.0.active && !Undisturbed(w, ch) ==> r.0.active[ch.id] == Session(|w.spawned|, ch))
            && |w.spawned| <= |r.0.spawned|
  {
  }

  lemma {:induction false} VisitedUntouched(w0: World, w: World, db: seq<Channel>, k: nat)
    requires Distinct(db) && k < |db| && Untouched(w0, w, db, k)
    ensures Untouched(w0, Visited(w, db[k]).0, db, k + 1)
    ensures Throws(w, db[k]) <==> Throws(w0, db[k])
    ensures Wanted(w, db[k]) <==> Wanted(w0, db[k])
  {
  }

  /** Sessions of channels outside `db[k..]` are left alone by the loop from `k` on. */
  lemma {:induction false} StartFromFrame(w: World, db: seq<Channel>, k: nat, id: string)
    requires k <= |db| && forall j :: k <= j < |db| ==> db[j].id != id
    ensures var r := StartFrom(w, db, k).0;
            (id in r.active <==> id in w.active) && (id in w.active ==> r.active[id] == w.active[id])
    decreases |db| - k
  {
    if k < |db| {
      VisitedMeans(w, db[k]);
      if Visited(w, db[k]).1 != Unknown {
        StartFromFrame(Visited(w, db[k]).0, db, k + 1, id);
      }
    }
  }

  /** The fate of the channel at `j`: active or not, the same session when undisturbed, else a new one. */
  ghost predicate Fate(w0: World, r: World, db: seq<Channel>, m: nat, j: nat)
    requires j < |db|
  {
    var id := db[j].id;
    && (id in r.active <==> ShouldBeActive(w0, db, m, j))
    && (id in r.active && (Undisturbed(w0, db[j]) || j > m) ==> id in w0.active && r.active[id] == w0.active[id])
    && (id in r.active && !Undisturbed(w0, db[j]) && j < m ==>
          r.active[id].channel == db[j] && |w0.spawned| <= r.active[id].controller)
  }

  lemma {:induction false} StartFromMeans(w0: World, w: World, db: seq<Channel>, k: nat, j: nat)
    requires Distinct(db) && k <= j < |db| && Untouched(w0, w, db, k)
    ensures var r := StartFrom(w, db, k);
            (r.1 <==> FirstThrow(w0, db, k) < |db|) && Fate(w0, r.0, db, FirstThrow(w0, db, k), j)
    decreases |db| - k
  {
    VisitedMeans(w, db[k]);
    VisitedUntouched(w0, w, db, k);
    if !Throws(w0, db[k]) {
      if k < j {
        StartFromMeans(w0, Visited(w, db[k]).0, db, k + 1, j);
      } else {
        StartFromFrame(Visited(w, db[k]).0, db, k + 1, db[k].id);
        ThrowsIff(w0, Visited(w, db[k]).0, db, k + 1);
      }
    }
  }

  lemma {:induction false} ThrowsIff(w0: World, w: World, db: seq<Channel>, k: nat)
    requires Distinct(db) && k <= |db| && Untouched(w0, w, db, k)
    ensures StartFrom(w, db, k).1 <==> FirstThrow(w0, db, k) < |db|
    decreases |db| - k
  {
    if k < |db| {
      VisitedMeans(w, db[k]);
      VisitedUntouched(w0, w, db, k);
      if !Throws(w0, db[k]) {
        ThrowsIff(w0, Visited(w, db[k]).0, db, k + 1);
      }
    }
  }

  /** A completed run on a snapshot with distinct ids: it throws exactly when some channel with a credential, that
      needs a start, has an unknown type. The sessions it leaves are of the snapshot. Before the throw, a channel has
      one exactly when it has a credential or an undisturbed session, which it keeps; the channel that throws has
      none; those after it are as they were. */
  lemma {:induction false} ReconciledMeans(w: World, db: seq<Channel>)
    requires Distinct(db)
    ensures var r, m := Reconciled(w, db), FirstThrow(w, db, 0);
            && (r.1 <==> m < |db|)
            && (forall id :: id in r.0.active ==> id in Ids(db))
            && (forall j :: 0 <= j < |db| ==> Fate(w, r.0, db, m, j))
  {
    var v := StopAll(w, Ids(db));
    forall j | 0 <= j < |db|
      ensures db[j].id in v.active <==> db[j].id in w.active
      ensures db[j].id in v.active ==> v.active[db[j].id] == w.active[db[j].id]
    {
      assert db[j].id in Ids(db);
    }
    if !(db == [] && w.active == map[]) {
      ThrowsIff(w, v, db, 0);
      forall j | 0 <= j < |db| ensures Fate(w, Reconciled(w, db).0, db, FirstThrow(w, db, 0), j) {
        StartFromMeans(w, v, db, 0, j);
      }
      forall id | id !in Ids(db) ensures id !in Reconciled(w, db).0.active {
        StartFromFrame(v, db, 0, id);
      }
    }
  }

  /** With known types only: active are the channels with a credential, or active before and not to be restarted. */
  lemma {:induction false} ActiveAfterReconcile(w: World, db: seq<Channel>, id: string)
    requires Distinct(db) && forall j :: 0 <= j < |db| ==> Known(db[j])
    ensures !Reconciled(w, db).1
    ensures id in Reconciled(w, db).0.active <==> exists j :: 0 <= j < |db| && db[j].id == id && Wanted(w, db[j])
  {
    ReconciledMeans(w, db);
    var r := Reconciled(w, db).0;
    assert FirstThrow(w, db, 0) == |db|;
    if id in r.active {
      assert id in Ids(db);
      var j :| 0 <= j < |db| && db[j].id == id;
      assert Fate(w, r, db, |db|, j);
    }
    if j :| 0 <= j < |db| && db[j].id == id && Wanted(w, db[j]) {
      assert Fate(w, r, db, |db|, j);
    }
  }

  /** Such a fetch with a session active: it is lost. */
  lemma {:induction false} FailedFetchHappens(ch: Channel)
    requires Credential(ch).Some? && Known(ch)
    ensures var w := Start(INITIAL, ch).0;
            Inv(w) && ch.id in w.active && Live(w, 0) && !Live(Reconciled(w, Snapshot(Failed)).0, 0)
  {
    var w := Start(INITIAL, ch).0;
    StartInv(INITIAL, ch);
    FailedFetchHarmlessIff(w, 0);
  }

  /** A failed fetch counts as a snapshot without channels: left alone, its run ends with every session stopped, and is
      harmless exactly when there was none. */
  lemma {:induction false} FailedFetchHarmlessIff(w: World, c: nat)
    requires Inv(w)
    ensures var end := Reconciled(w, Snapshot(Failed)).0;
            EndsAs(w, Failed, (end, Over)) && end.active == map[] && !Live(end, c) && (end == w <==> w.active == map[])
  {
    UninterruptedRun(w, Failed);
    var end := Reconciled(w, Snapshot(Failed)).0;
    assert Ids([]) == {};
    assert end.active == map[];
    if c < |w.spawned| && c !in w.aborted {
      assert Owned(w, c);
    }
  }

  lemma {:induction false} StopAllInv(w: World, keep: set<string>)
    requires Inv(w)
    ensures Inv(StopAll(w, keep))
  {
    var t := StopAll(w, keep);
    var kept := set id | id in w.active && id in keep;
    assert t.active.Keys == kept;
    DeletedInOrder(w.active.Keys, w.order, kept);
    assert Deleted(w.order, keep) == Deleted(w.order, kept);
    forall c: nat | c < |t.spawned| ensures c !in t.aborted <==> Owned(t, c) {
      assert c !in w.aborted <==> Owned(w, c);
      if c in t.aborted && c !in w.aborted {
        var id :| id in w.active && id !in keep && w.active[id].controller == c;
        assert Sound(w, id, w.active[id]);
      }
    }
    forall id | id in t.active ensures Sound(t, id, t.active[id]) {
      assert Sound(w, id, w.active[id]);
    }
    forall c | c in t.aborted ensures c < |t.spawned| {
      if c !in w.aborted {
        var id :| id in w.active && id !in keep && w.active[id].controller == c;
        assert Sound(w, id, w.active[id]);
      }
    }
  }

  lemma {:induction false} StartFromInv(w: World, db: seq<Channel>, k: nat)
    requires Inv(w) && k <= |db|
    ensures Inv(StartFrom(w, db, k).0)
    decreases |db| - k
  {
    if k < |db| {
      if db[k].id in w.active {
        StopInv(w, db[k].id);
        StartInv(Stop(w, db[k].id), db[k]);
      } else {
        StartInv(w, db[k]);
      }
      if Visited(w, db[k]).1 != Unknown {
        StartFromInv(Visited(w, db[k]).0, db, k + 1);
      }
    }
  }

  /** Repeating a snapshot in which nothing is pending changes nothing, even when it throws. */
  lemma {:induction false} ReconcileTwice(w: World, db: seq<Channel>)
    requires Inv(w) && Distinct(db) && forall j :: 0 <= j < |db| ==> !Pending(db[j])
    ensures Reconciled(Reconciled(w, db).0, db) == Reconciled(w, db)
  {
    var r := Reconciled(w, db);
    ReconciledMeans(w, db);
    StopAllInv(w, Ids(db));
    StartFromInv(StopAll(w, Ids(db)), db, 0);
    StopAllDone(r.0, Ids(db));
    if !(db == [] && r.0.active == map[]) {
      var m := FirstThrow(w, db, 0);
      forall j | 0 <= j < |db| && j <= m
        ensures db[j].id in r.0.active || Credential(db[j]).None? || (j == m && Throws(r.0, db[j]))
        ensures j == m ==> Throws(r.0, db[j])
      {
        assert Fate(w, r.0, db, m, j);
      }
      NothingToStart(r.0, db, 0, m);
    }
  }

  lemma {:induction false} NothingToStart(w: World, db: seq<Channel>, k: nat, m: nat)
    requires k <= m <= |db|
    requires forall j :: k <= j < m ==> !Pending(db[j]) && (db[j].id in w.active || Credential(db[j]).None?)
    requires m < |db| ==> Throws(w, db[m]) && !Pending(db[m])
    ensures StartFrom(w, db, k) == (w, m < |db|)
    decreases |db| - k
  {
    if k < m {
      assert Visited(w, db[k]).0 == w;
      NothingToStart(w, db, k + 1, m);
    }
  }

  // ---------------------------------------------------------------- the manager

  /** The module's variables. `activeSessions` and `order` are one Map; `spawned` stands for the session loops that were
      started. */
  class ChannelManager {
    var activeSessions: map<string, Session>
    var order: seq<Option<string>>
    var aborted: set<nat>
    var spawned: seq<Channel>
    var reconciling: bool

    function Value(): World
      reads this
    {
      World(activeSessions, order, aborted, spawned)
    }

    constructor ()
      ensures Value() == INITIAL && !reconciling
    {
      activeSessions, order, aborted, spawned, reconciling := map[], [], {}, [], false;
    }

    method StartChannel(ch: Channel) returns (r: Started)
      modifies this`activeSessions, this`order, this`spawned
      ensures (Value(), r) == Start(old(Value()), ch)
    {
      if Credential(ch).None? {
        return NoCredential;
      }
      if !Known(ch) {
        return Unknown;
      }
      var controller := |spawned|;
      spawned := spawned + [ch];
      if ch.id !in activeSessions {
        order := order + [Some(ch.id)];
      }
      activeSessions := activeSessions[ch.id := Session(controller, ch)];
      return Running;
    }

    method StopChannel(id: string)
      modifies this`activeSessions, this`order, this`aborted
      ensures Value() == Stop(old(Value()), id)
    {
      if id in activeSessions {
        aborted := aborted + {activeSessions[id].controller};
        order := Deleted(order, activeSessions.Keys - {id});
        activeSessions := activeSessions - {id};
      }
    }

    /** The loop over the sessions: entries in order, those outside `keep` stopped. */
    method StopRemoved(keep: set<string>)
      requires Inv(Value())
      modifies this`activeSessions, this`order, this`aborted
      ensures Value() == StopAll(old(Value()), keep) && Inv(Value())
    {
      var pos: nat := NextEntry(order, 0);
      while pos < |order|
        invariant Inv(Value()) && Swept(order, pos, keep) && pos == NextEntry(order, pos)
        invariant StopAll(Value(), keep) == StopAll(old(Value()), keep)
        decreases |order| - pos
      {
        var id := order[pos].value;
        StopEntry(Value(), pos, keep);
        if id !in keep {
          StopAllAfterStop(Value(), keep, id);
          StopInv(Value(), id);
          StopChannel(id);
        }
        pos := NextEntry(order, pos + 1);
      }
      AllSwept(Value(), pos, keep);
      StopAllDone(Value(), keep);
    }

    /** One run with nothing in between; `threw` when an unknown type ended it. */
    method DoReconcile(f: Fetch) returns (threw: bool)
      requires Inv(Value())
      modifies this`activeSessions, this`order, this`aborted, this`spawned
      ensures (Value(), threw) == Reconciled(old(Value()), Snapshot(f))
    {
      var db := if f.Answered? && f.channels.Some? then f.channels.value else [];
      if |db| == 0 && |activeSessions| == 0 {
        return false;
      }
      StopRemoved(Ids(db));
      for k := 0 to |db|
        invariant StartFrom(Value(), db, k) == Reconciled(old(Value()), db)
      {
        var started := Running;
        if db[k].id in activeSessions {
          if Pending(db[k]) {
            StopChannel(db[k].id);
            started := StartChannel(db[k]);
          }
        } else {
          started := StartChannel(db[k]);
        }
        if started == Unknown {
          return true;
        }
      }
      return false;
    }

    /** The guard around it: a poll that finds a run under way does nothing, and the guard opens again even after
        a throw. */
    method Reconcile(f: Fetch) returns (threw: bool)
      requires Inv(Value())
      modifies this
      ensures reconciling == old(reconciling) && Inv(Value())
      ensures (Value(), threw) == if old(reconciling) then (old(Value()), false)
                                  else Reconciled(old(Value()), Snapshot(f))
    {
      if reconciling {
        return false;
      }
      reconciling := true;
      StopAllInv(Value(), Ids(Snapshot(f)));
      StartFromInv(StopAll(Value(), Ids(Snapshot(f))), Snapshot(f), 0);
      threw := DoReconcile(f);
      reconciling := false;
    }
  }
}
