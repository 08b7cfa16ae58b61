/** The bridge between a channel driver and the core: four tables of pending promises, settled by inbound frames,
    timers, cancellation and disconnection. A promise is named by the id of the request that created it. */
module Bridge {
  import opened Common

  type Id = nat

  datatype Kind = Message | AccessCheck | PairingCreate | PairingApprove

  datatype Outcome =
    | Text(text: string)
    | Rejected(reason: string)
    | Access(allowed: bool, isOwner: bool)
    | Code(code: string)
    | OpResult(success: bool, error: Option<string>)

  /** Frames from the core. `Other` are those that touch no table: actions, pongs, reloads and configurations. */
  datatype Frame =
    | Chunk(id: Id, text: string)
    | Phase(id: Id, phase: string)
    | Done(id: Id, text: string)
    | Error(id: Id, message: string)
    | AccessResult(id: Id, allowed: bool, isOwner: bool)
    | PairingCode(id: Id, code: string)
    | PairingResult(id: Id, success: bool, error: Option<string>)
    | Other

  datatype Outgoing = Request(kind: Kind, id: Id) | PairingReject(id: Id) | Cancel(id: Id)

  /** The listeners of a pending message. */
  datatype Listeners = Listeners(chunk: bool, phase: bool)

  /** A call of a listener. */
  datatype Heard = HeardChunk(id: Id, text: string) | HeardPhase(id: Id, phase: string)

  /** `requests`, `access`, `pairing` and `pairingOps` are the tables; `counter` the id generator, which all bridges
      share. The rest is what the outside world sees: frames sent, listener calls, the promises issued with their
      kinds, how each was settled, and every call of a resolver. */
  datatype State = State(
    requests: map<Id, Listeners>, access: set<Id>, pairing: set<Id>, pairingOps: set<Id>, counter: nat,
    sent: seq<Outgoing>, heard: seq<Heard>, issued: map<Id, Kind>, settled: map<Id, Outcome>, calls: multiset<Id>)

  datatype Event =
    | Ask(kind: Kind)
    | RejectPairing
    | CancelRequest(id: Id)
    | OnChunk(id: Id)
    | OnPhase(id: Id)
    | Inbound(frame: Frame)
    | Timer(kind: Kind, id: Id)
    | ClearAll
    | ForeignId

  const INITIAL := State(map[], {}, {}, {}, 0, [], [], map[], map[], multiset{})

  // ---------------------------------------------------------------- one step

  predicate PendingIn(s: State, kind: Kind, id: Id) {
    match kind
    case Message => id in s.requests
    case AccessCheck => id in s.access
    case PairingCreate => id in s.pairing
    case PairingApprove => id in s.pairingOps
  }

  function Enter(s: State, kind: Kind, id: Id): State {
    match kind
    case Message => s.(requests := s.requests[id := Listeners(false, false)])
    case AccessCheck => s.(access := s.access + {id})
    case PairingCreate => s.(pairing := s.pairing + {id})
    case PairingApprove => s.(pairingOps := s.pairingOps + {id})
  }

  function Leave(s: State, kind: Kind, id: Id): State {
    match kind
    case Message => s.(requests := s.requests - {id})
    case AccessCheck => s.(access := s.access - {id})
    case PairingCreate => s.(pairing := s.pairing - {id})
    case PairingApprove => s.(pairingOps := s.pairingOps - {id})
  }

  /** A resolver call; only the first one settles the promise. */
  function Resolve(s: State, id: Id, o: Outcome): State {
    s.(settled := if id in s.settled then s.settled else s.settled[id := o], calls := s.calls + multiset{id})
  }

  /** Takes `id` out of the table of `kind` and calls its resolver, when it is there. */
  function Settle(s: State, kind: Kind, id: Id, o: Outcome): State {
    if PendingIn(s, kind, id) then Resolve(Leave(s, kind, id), id, o) else s
  }

  function TimeoutOutcome(kind: Kind): Outcome {
    match kind
    case Message => Rejected("Request timeout (300s)")
    case AccessCheck => Access(false, false)
    case PairingCreate => Code("")
    case PairingApprove => OpResult(false, Some("pairing approve timeout (30s)"))
  }

  function ClosedOutcome(kind: Kind): Outcome {
    match kind
    case Message => Rejected("session closed")
    case AccessCheck => Access(false, false)
    case PairingCreate => Code("")
    case PairingApprove => OpResult(false, Some("session closed"))
  }

  function Receive(s: State, f: Frame): State {
    match f
    case Chunk(id, text) =>
      if id in s.requests && s.requests[id].chunk then s.(heard := s.heard + [HeardChunk(id, text)]) else s
    case Phase(id, phase) =>
      if id in s.requests && s.requests[id].phase then s.(heard := s.heard + [HeardPhase(id, phase)]) else s
    case Done(id, text) => Settle(s, Message, id, Text(text))
    case Error(id, message) => Settle(s, Message, id, Rejected(message))
    case AccessResult(id, allowed, isOwner) => Settle(s, AccessCheck, id, Access(allowed, isOwner))
    case PairingCode(id, code) => Settle(s, PairingCreate, id, Code(code))
    case PairingResult(id, success, error) => Settle(s, PairingApprove, id, OpResult(success, error))
    case Other => s
  }

  /** Every promise of `ids` resolved with `o`, unless it was settled before. */
  function SettledWith(settled: map<Id, Outcome>, ids: set<Id>, o: Outcome): map<Id, Outcome> {
    map i | i in settled.Keys + ids :: if i in settled then settled[i] else o
  }

  function TableOf(s: State, kind: Kind): set<Id> {
    match kind
    case Message => s.requests.Keys
    case AccessCheck => s.access
    case PairingCreate => s.pairing
    case PairingApprove => s.pairingOps
  }

  /** The promises of one table resolved as on disconnection. */
  function Closed(s: State, kind: Kind): State {
    s.(settled := SettledWith(s.settled, TableOf(s, kind), ClosedOutcome(kind)),
    calls := s.calls + multiset(TableOf(s, kind)))
  }

  function Cleared(s: State): State {
    Emptied(Closed(Closed(Closed(Closed(s, Message), AccessCheck), PairingCreate), PairingApprove))
  }

  function Emptied(s: State): State {
    s.(requests := map[], access := {}, pairing := {}, pairingOps := {})
  }

  function Step(s: State, e: Event): State {
    match e
    case Ask(kind) =>
      var id := s.counter + 1;
      Enter(s, kind, id).(counter := id, issued := s.issued[id := kind], sent := s.sent + [Request(kind, id)])
    case RejectPairing => s.(counter := s.counter + 1, sent := s.sent + [PairingReject(s.counter + 1)])
    case CancelRequest(id) => Settle(s.(sent := s.sent + [Cancel(id)]), Message, id, Rejected("cancelled"))
    case OnChunk(id) =>
      if id in s.requests then s.(requests := s.requests[id := s.requests[id].(chunk := true)]) else s
    case OnPhase(id) =>
      if id in s.requests then s.(requests := s.requests[id := s.requests[id].(phase := true)]) else s
    case Inbound(frame) => Receive(s, frame)
    case Timer(kind, id) => Settle(s, kind, id, TimeoutOutcome(kind))
    case ClearAll => Cleared(s)
    case ForeignId => s.(counter := s.counter + 1)
  }

  /** The state after the events. */
  function Run(es: seq<Event>): State {
    if es == [] then INITIAL else Step(Run(es[..|es| - 1]), es[|es| - 1])
  }

  // ---------------------------------------------------------------- the invariant

  /** All that a state says about one id. */
  datatype View = View(listeners: Option<Listeners>, access: bool, pairing: bool, pairingOp: bool,
                       kind: Option<Kind>, settled: Option<Outcome>, calls: nat)

  function ViewOf(s: State, id: Id): View {
    View(if id in s.requests then Some(s.requests[id]) else None, id in s.access, id in s.pairing, id in s.pairingOps,
         if id in s.issued then Some(s.issued[id]) else None,
         if id in s.settled then Some(s.settled[id]) else None,
         s.calls[id])
  }

  predicate PendingAs(v: View, kind: Kind) {
    && (v.listeners.Some? <==> kind == Message) && (v.access <==> kind == AccessCheck)
    && (v.pairing <==> kind == PairingCreate) && (v.pairingOp <==> kind == PairingApprove)
  }

  predicate NotPending(v: View) {
    v.listeners == None && !v.access && !v.pairing && !v.pairingOp
  }

  predicate Fits(kind: Kind, o: Outcome) {
    match kind
    case Message => o.Text? || o.Rejected?
    case AccessCheck => o.Access?
    case PairingCreate => o.Code?
    case PairingApprove => o.OpResult?
  }

  /** A promise not issued leaves no trace. An issued one is either pending, in the table of its kind only and with no
      resolver called, or settled, in no table, by exactly one resolver call and with an outcome of its kind. */
  predicate Sound(v: View) {
    match v.kind
    case None => NotPending(v) && v.settled == None && v.calls == 0
    case Some(kind) =>
      if v.settled.None? then PendingAs(v, kind) && v.calls == 0
      else NotPending(v) && v.calls == 1 && Fits(kind, v.settled.value)
  }

  ghost predicate Inv(s: State) {
    && (forall id :: Sound(ViewOf(s, id)))
    && (forall id :: id in s.issued ==> id <= s.counter && Request(s.issued[id], id) in s.sent)
  }

  function SettledView(v: View, o: Outcome): View {
    v.(listeners := None, access := false, pairing := false, pairingOp := false, settled := Some(o),
    calls := v.calls + 1)
  }

  lemma {:induction false} SettleView(s: State, kind: Kind, id: Id, o: Outcome, i: Id)
    requires Sound(ViewOf(s, i))
    ensures ViewOf(Settle(s, kind, id, o), i) ==
            if i == id && PendingIn(s, kind, id) then SettledView(ViewOf(s, id), o) else ViewOf(s, i)
    ensures PendingIn(s, kind, i) ==> s.issued.Keys >= {i} && s.issued[i] == kind && i !in s.settled
  {
  }

  lemma {:induction false} SettleInv(s: State, kind: Kind, id: Id, o: Outcome)
    requires Inv(s) && Fits(kind, o)
    ensures Inv(Settle(s, kind, id, o))
  {
    forall i ensures Sound(ViewOf(Settle(s, kind, id, o), i)) {
      assert Sound(ViewOf(s, i));
      SettleView(s, kind, id, o, i);
    }
  }

  lemma {:induction false} ClearedView(s: State, i: Id)
    requires Sound(ViewOf(s, i))
    ensures ViewOf(Cleared(s), i) ==
            if i in s.issued && i !in s.settled
            then SettledView(ViewOf(s, i), ClosedOutcome(s.issued[i]))
            else ViewOf(s, i)
  {
    assert Sound(ViewOf(s, i));
  }

  lemma {:induction false} ClearedInv(s: State)
    requires Inv(s)
    ensures Inv(Cleared(s))
  {
    forall i ensures Sound(ViewOf(Cleared(s), i)) {
      assert Sound(ViewOf(s, i));
      ClearedView(s, i);
    }
  }

  lemma {:induction false} AskInv(s: State, kind: Kind)
    requires Inv(s)
    ensures Inv(Step(s, Ask(kind)))
  {
    var t, id := Step(s, Ask(kind)), s.counter + 1;
    assert Sound(ViewOf(s, id));
    forall i ensures Sound(ViewOf(t, i)) {
      assert Sound(ViewOf(s, i));
      assert i != id ==> ViewOf(t, i) == ViewOf(s, i);
    }
  }

  lemma {:induction false} SameViewsInv(s: State, t: State)
    requires Inv(s) && forall i :: ViewOf(t, i).(listeners := None) == ViewOf(s, i).(listeners := None)
    requires forall i :: ViewOf(t, i).listeners.Some? <==> ViewOf(s, i).listeners.Some?
    requires t.issued == s.issued && t.counter >= s.counter && (forall o :: o in s.sent ==> o in t.sent)
    ensures Inv(t)
  {
  }

  lemma {:induction false} ReceiveInv(s: State, f: Frame)
    requires Inv(s)
    ensures Inv(Receive(s, f))
  {
    match f
    case Done(id, text) => SettleInv(s, Message, id, Text(text));
    case Error(id, message) => SettleInv(s, Message, id, Rejected(message));
    case AccessResult(id, allowed, isOwner) => SettleInv(s, AccessCheck, id, Access(allowed, isOwner));
    case PairingCode(id, code) => SettleInv(s, PairingCreate, id, Code(code));
    case PairingResult(id, success, error) => SettleInv(s, PairingApprove, id, OpResult(success, error));
    case Chunk(_, _) => SameViewsInv(s, Receive(s, f));
    case Phase(_, _) => SameViewsInv(s, Receive(s, f));
    case Other =>
  }

  lemma {:induction false} StepInv(s: State, e: Event)
    requires Inv(s)
    ensures Inv(Step(s, e))
  {
    match e
    case Ask(kind) => AskInv(s, kind);
    case CancelRequest(id) =>
      var t := s.(sent := s.sent + [Cancel(id)]);
      SameViewsInv(s, t);
      SettleInv(t, Message, id, Rejected("cancelled"));
    case Inbound(f) => ReceiveInv(s, f);
    case Timer(kind, id) => SettleInv(s, kind, id, TimeoutOutcome(kind));
    case ClearAll => ClearedInv(s);
    case RejectPairing => SameViewsInv(s, Step(s, e));
    case OnChunk(_) => SameViewsInv(s, Step(s, e));
    case OnPhase(_) => SameViewsInv(s, Step(s, e));
    case ForeignId => SameViewsInv(s, Step(s, e));
  }

  // ---------------------------------------------------------------- main results

  /** Over any run each promise is settled at most once, is pending or settled, and gets an outcome of its kind. */
  lemma {:induction false} RunInv(es: seq<Event>)
    ensures Inv(Run(es))
  {
    if es != [] {
      RunInv(es[..|es| - 1]);
      StepInv(Run(es[..|es| - 1]), es[|es| - 1]);
    }
  }

  /** In `t`, after clearing `s`, promise `id` is settled: as before, or as on disconnection. */
  predicate SettledByClearing(s: State, t: State, id: Id)
    requires id in s.issued
  {
    && NotPending(ViewOf(t, id))
    && id in t.settled
    && t.settled[id] == if id in s.settled then s.settled[id] else ClosedOutcome(s.issued[id])
  }

  /** Disconnecting in any reachable state settles everything issued before it, denying what was an access check. */
  lemma {:induction false} ClearAllSettlesAll(s: State, id: Id)
    requires Inv(s) && id in s.issued
    ensures SettledByClearing(s, Cleared(s), id)
  {
    assert Sound(ViewOf(s, id));
    ClearedView(s, id);
    assert ViewOf(Cleared(s), id).settled == if id in Cleared(s).settled then Some(Cleared(s).settled[id]) else None;
  }

  /** No promise waits for ever: when its timer fires, at the latest, it is settled. */
  lemma {:induction false} TimerSettles(s: State, id: Id)
    requires Inv(s) && id in s.issued
    ensures id in Step(s, Timer(s.issued[id], id)).settled
  {
    assert Sound(ViewOf(s, id));
    SettleView(s, s.issued[id], id, TimeoutOutcome(s.issued[id]), id);
  }

  predicate Concerns(f: Frame, id: Id) {
    !f.Other? && f.id == id
  }

  /** A frame changes nothing about other ids than its own, and calls no listener but that id's. */
  lemma {:induction false} FrameIsLocal(s: State, f: Frame, id: Id)
    requires Inv(s) && !Concerns(f, id)
    ensures ViewOf(Receive(s, f), id) == ViewOf(s, id)
    ensures Receive(s, f).heard == s.heard || exists h :: Receive(s, f).heard == s.heard + [h] && h.id != id
  {
    assert Sound(ViewOf(s, id));
    match f
    case Done(i, text) => SettleView(s, Message, i, Text(text), id);
    case Error(i, message) => SettleView(s, Message, i, Rejected(message), id);
    case AccessResult(i, allowed, isOwner) => SettleView(s, AccessCheck, i, Access(allowed, isOwner), id);
    case PairingCode(i, code) => SettleView(s, PairingCreate, i, Code(code), id);
    case PairingResult(i, success, error) => SettleView(s, PairingApprove, i, OpResult(success, error), id);
    case Chunk(_, _) =>
    case Phase(_, _) =>
    case Other =>
  }

  /** What is settled stays settled as it is. */
  predicate Keeps(s: State, t: State, id: Id) {
    id in s.settled ==> id in t.settled && t.settled[id] == s.settled[id]
  }

  lemma {:induction false} SettleKeeps(s: State, kind: Kind, i: Id, o: Outcome, id: Id)
    ensures Keeps(s, Settle(s, kind, i, o), id)
  {
  }

  lemma {:induction false} ReceiveKeeps(s: State, f: Frame, id: Id)
    ensures Keeps(s, Receive(s, f), id)
  {
  }

  lemma {:induction false} ClearedKeeps(s: State, id: Id)
    ensures Keeps(s, Cleared(s), id)
  {
  }

  lemma {:induction false} SettledStays(s: State, e: Event, id: Id)
    ensures Keeps(s, Step(s, e), id)
  {
    if e.Inbound? {
      ReceiveKeeps(s, e.frame, id);
    } else if e.CancelRequest? {
      SettleKeeps(s.(sent := s.sent + [Cancel(e.id)]), Message, e.id, Rejected("cancelled"), id);
    } else if e.Timer? {
      SettleKeeps(s, e.kind, e.id, TimeoutOutcome(e.kind), id);
    } else if e.ClearAll? {
      ClearedKeeps(s, id);
    } else {
      OthersSettleNothing(s, e);
    }
  }

  lemma {:induction false} SettleGrants(s: State, kind: Kind, i: Id, o: Outcome, id: Id, granted: Outcome)
    requires id !in s.settled && id in Settle(s, kind, i, o).settled && Settle(s, kind, i, o).settled[id] == granted
    ensures i == id && o == granted && PendingIn(s, kind, id)
  {
  }

  /** Only an `access_result` frame settles a promise with `allowed`. */
  lemma {:induction false} GrantStep(s: State, e: Event, id: Id, isOwner: bool)
    requires Inv(s) && id !in s.settled && id in Step(s, e).settled && Step(s, e).settled[id] == Access(true, isOwner)
    ensures e == Inbound(AccessResult(id, true, isOwner)) && id in s.access
  {
    var granted := Access(true, isOwner);
    if e.Inbound? {
      GrantFrame(s, e.frame, id, granted);
    } else if e.CancelRequest? {
      SettleGrants(s.(sent := s.sent + [Cancel(e.id)]), Message, e.id, Rejected("cancelled"), id, granted);
    } else if e.Timer? {
      SettleGrants(s, e.kind, e.id, TimeoutOutcome(e.kind), id, granted);
    } else if e.ClearAll? {
      ClearingGrantsNothing(s, id, isOwner);
    } else {
      OthersSettleNothing(s, e);
    }
  }

  lemma {:induction false} OthersSettleNothing(s: State, e: Event)
    requires !e.Inbound? && !e.CancelRequest? && !e.Timer? && !e.ClearAll?
    ensures Step(s, e).settled == s.settled
  {
  }

  lemma {:induction false} ClearingGrantsNothing(s: State, id: Id, isOwner: bool)
    requires Inv(s) && id !in s.settled
    ensures !(id in Cleared(s).settled && Cleared(s).settled[id] == Access(true, isOwner))
  {
  }

  lemma {:induction false} GrantFrame(s: State, f: Frame, id: Id, granted: Outcome)
    requires id !in s.settled && id in Receive(s, f).settled && Receive(s, f).settled[id] == granted && granted.Access?
    ensures f == AccessResult(id, granted.allowed, granted.isOwner) && id in s.access
  {
  }

  /** Access is granted only by a frame: a promise settled with `allowed` was settled by an `access_result` for its own
      id with allowed set, which came while the check was pending. */
  lemma {:induction false} AllowedOnlyByFrame(es: seq<Event>, id: Id, isOwner: bool) returns (k: nat)
    requires id in Run(es).settled && Run(es).settled[id] == Access(true, isOwner)
    ensures k < |es| && es[k] == Inbound(AccessResult(id, true, isOwner)) && id in Run(es[..k]).access
  {
    assert es != [];
    var n := |es| - 1;
    RunInv(es[..n]);
    if id in Run(es[..n]).settled {
      SettledStays(Run(es[..n]), es[n], id);
      k := AllowedOnlyByFrame(es[..n], id, isOwner);
      assert es[..n][..k] == es[..k];
    } else {
      GrantStep(Run(es[..n]), es[n], id, isOwner);
      k := n;
    }
  }

  // ---------------------------------------------------------------- the bridge object

  /** The outside world's fields (`sent` to `calls`) stand for the socket, the listeners and the promises. */
  class BridgeHandle {
    var pendingRequests: map<Id, Listeners>
    var pendingAccess: set<Id>
    var pendingPairing: set<Id>
    var pendingPairingOps: set<Id>
    var idCounter: nat
    var sent: seq<Outgoing>
    var heard: seq<Heard>
    var issued: map<Id, Kind>
    var settled: map<Id, Outcome>
    var calls: multiset<Id>

    function S(): State
      reads this
    {
      State(pendingRequests, pendingAccess, pendingPairing, pendingPairingOps, idCounter, sent, heard, issued, settled,
            calls)
    }

    constructor ()
      ensures S() == INITIAL && Inv(S())
    {
      pendingRequests, pendingAccess, pendingPairing, pendingPairingOps, idCounter := map[], {}, {}, {}, 0;
      sent, heard, issued, settled, calls := [], [], map[], map[], multiset{};
    }

    method GenRequestId() returns (id: Id)
      modifies this`idCounter
      ensures id == old(idCounter) + 1 && idCounter == id
    {
      idCounter := idCounter + 1;
      id := idCounter;
    }

    /** A call of the resolver stored for `id`. */
    method CallResolver(id: Id, o: Outcome)
      modifies this`settled, this`calls
      ensures S() == Resolve(old(S()), id, o)
    {
      if id !in settled {
        settled := settled[id := o];
      }
      calls := calls + multiset{id};
    }

    method SendMessage() returns (id: Id)
      modifies this
      ensures S() == Step(old(S()), Ask(Message)) && id == idCounter
    {
      id := GenRequestId();
      issued := issued[id := Message];
      pendingRequests := pendingRequests[id := Listeners(false, false)];
      sent := sent + [Request(Message, id)];
    }

    method CheckAccess() returns (id: Id)
      modifies this
      ensures S() == Step(old(S()), Ask(AccessCheck)) && id == idCounter
    {
      id := GenRequestId();
      issued := issued[id := AccessCheck];
      pendingAccess := pendingAccess + {id};
      sent := sent + [Request(AccessCheck, id)];
    }

    method CreatePairingCode() returns (id: Id)
      modifies this
      ensures S() == Step(old(S()), Ask(PairingCreate)) && id == idCounter
    {
      id := GenRequestId();
      issued := issued[id := PairingCreate];
      pendingPairing := pendingPairing + {id};
      sent := sent + [Request(PairingCreate, id)];
    }

    method ApprovePairing() returns (id: Id)
      modifies this
      ensures S() == Step(old(S()), Ask(PairingApprove)) && id == idCounter
    {
      id := GenRequestId();
      issued := issued[id := PairingApprove];
      pendingPairingOps := pendingPairingOps + {id};
      sent := sent + [Request(PairingApprove, id)];
    }

    method RejectPairingCode()
      modifies this
      ensures S() == Step(old(S()), RejectPairing)
    {
      var id := GenRequestId();
      sent := sent + [PairingReject(id)];
    }

    method SettleRequest(id: Id, o: Outcome)
      modifies this
      ensures S() == Settle(old(S()), Message, id, o)
    {
      if id in pendingRequests {
        pendingRequests := pendingRequests - {id};
        CallResolver(id, o);
      }
    }

    method SettleAccess(id: Id, o: Outcome)
      modifies this
      ensures S() == Settle(old(S()), AccessCheck, id, o)
    {
      if id in pendingAccess {
        pendingAccess := pendingAccess - {id};
        CallResolver(id, o);
      }
    }

    method SettlePairing(id: Id, o: Outcome)
      modifies this
      ensures S() == Settle(old(S()), PairingCreate, id, o)
    {
      if id in pendingPairing {
        pendingPairing := pendingPairing - {id};
        CallResolver(id, o);
      }
    }

    method SettlePairingOp(id: Id, o: Outcome)
      modifies this
      ensures S() == Settle(old(S()), PairingApprove, id, o)
    {
      if id in pendingPairingOps {
        pendingPairingOps := pendingPairingOps - {id};
        CallResolver(id, o);
      }
    }

    method Abandon(id: Id)
      modifies this
      ensures S() == Step(old(S()), CancelRequest(id))
    {
      sent := sent + [Cancel(id)];
      SettleRequest(id, Rejected("cancelled"));
    }

    method ListenToChunks(id: Id)
      modifies this
      ensures S() == Step(old(S()), OnChunk(id))
    {
      if id in pendingRequests {
        pendingRequests := pendingRequests[id := pendingRequests[id].(chunk := true)];
      }
    }

    method ListenToPhases(id: Id)
      modifies this
      ensures S() == Step(old(S()), OnPhase(id))
    {
      if id in pendingRequests {
        pendingRequests := pendingRequests[id := pendingRequests[id].(phase := true)];
      }
    }

    /** What the timer started with a request does when it fires. */
    method Expire(kind: Kind, id: Id)
      modifies this
      ensures S() == Step(old(S()), Timer(kind, id))
    {
      match kind
      case Message => SettleRequest(id, Rejected("Request timeout (300s)"));
      case AccessCheck => SettleAccess(id, Access(false, false));
      case PairingCreate => SettlePairing(id, Code(""));
      case PairingApprove => SettlePairingOp(id, OpResult(false, Some("pairing approve timeout (30s)")));
    }

    method HandleOutbound(f: Frame)
      modifies this
      ensures S() == Receive(old(S()), f)
    {
      match f
      case Chunk(id, text) =>
        if id in pendingRequests && pendingRequests[id].chunk {
          heard := heard + [HeardChunk(id, text)];
        }
      case Phase(id, phase) =>
        if id in pendingRequests && pendingRequests[id].phase {
          heard := heard + [HeardPhase(id, phase)];
        }
      case Done(id, text) => SettleRequest(id, Text(text));
      case Error(id, message) => SettleRequest(id, Rejected(message));
      case AccessResult(id, allowed, isOwner) => SettleAccess(id, Access(allowed, isOwner));
      case PairingCode(id, code) => SettlePairing(id, Code(code));
      case PairingResult(id, success, error) => SettlePairingOp(id, OpResult(success, error));
      case Other =>
    }

    /** One of the loops of `clearAll`. */
    method CloseTable(kind: Kind)
      modifies this`settled, this`calls
      ensures S() == Closed(old(S()), kind)
    {
      CallResolvers(TableOf(S(), kind), ClosedOutcome(kind));
    }

    method CallResolvers(ids: set<Id>, o: Outcome)
      modifies this`settled, this`calls
      ensures ResolvedSoFar(old(settled), old(calls), ids, o, settled, calls)
    {
      var todo := ids;
      NoneResolved(settled, calls, ids, o);
      while todo != {}
        invariant todo <= ids && ResolvedSoFar(old(settled), old(calls), ids - todo, o, settled, calls)
        decreases |todo|
      {
        var id :| id in todo;
        OneMoreResolved(old(settled), old(calls), ids, todo, id, o, settled, calls);
        CallResolver(id, o);
        todo := todo - {id};
      }
      assert ids - todo == ids;
    }

    method ClearAllPending()
      modifies this
      ensures S() == Cleared(old(S()))
    {
      CloseTable(Message);
      CloseTable(AccessCheck);
      CloseTable(PairingCreate);
      CloseTable(PairingApprove);
      EmptyTables();
    }

    method EmptyTables()
      modifies this`pendingRequests, this`pendingAccess, this`pendingPairing, this`pendingPairingOps
      ensures S() == Emptied(old(S()))
    {
      pendingRequests, pendingAccess, pendingPairing, pendingPairingOps := map[], {}, {}, {};
    }
  }

  /** The promises of `ids` are resolved with `o`, each by one call. */
  ghost predicate ResolvedSoFar(settled0: map<Id, Outcome>, calls0: multiset<Id>, ids: set<Id>, o: Outcome,
                                settled: map<Id, Outcome>, calls: multiset<Id>) {
    settled == SettledWith(settled0, ids, o) && calls == calls0 + multiset(ids)
  }

  lemma {:induction false} NoneResolved(settled: map<Id, Outcome>, calls: multiset<Id>, ids: set<Id>, o: Outcome)
    ensures ResolvedSoFar(settled, calls, ids - ids, o, settled, calls)
  {
  }

  lemma {:induction false} OneMoreSettled(settled0: map<Id, Outcome>, done: set<Id>, id: Id, o: Outcome,
                                          settled: map<Id, Outcome>)
    requires id !in done && settled == SettledWith(settled0, done, o)
    ensures SettledWith(settled0, done + {id}, o) == if id in settled then settled else settled[id := o]
  {
  }

  lemma {:induction false} OneMoreResolved(settled0: map<Id, Outcome>, calls0: multiset<Id>, ids: set<Id>,
                                           todo: set<Id>, id: Id, o: Outcome,
                                           settled: map<Id, Outcome>, calls: multiset<Id>)
    requires id in todo && todo <= ids && ResolvedSoFar(settled0, calls0, ids - todo, o, settled, calls)
    ensures ResolvedSoFar(settled0, calls0, ids - (todo - {id}), o,
                          if id in settled then settled else settled[id := o], calls + multiset{id})
  {
    var done := ids - todo;
    assert ids - (todo - {id}) == done + {id};
    OneMoreSettled(settled0, done, id, o, settled);
    OneMoreCalled(calls0, done, id);
  }

  lemma {:induction false} OneMoreCalled(calls0: multiset<Id>, done: set<Id>, id: Id)
    requires id !in done
    ensures calls0 + multiset(done + {id}) == calls0 + multiset(done) + multiset{id}
  {
    assert multiset(done + {id}) == multiset(done) + multiset{id};
  }
}
