/** The subscription actor as a protocol. One task handles all messages; listeners, and the
    aborts they trigger, run on other threads. Reconnecting must not begin while a stream that
    was made from the old connections is still in use. */
module PubsubProtocol {
  datatype Kind = Account | Program

  /** Account and program subscriptions are kept in two maps; a key says which one. */
  datatype Key = Key(kind: Kind, pubkey: nat)

  type SubId = nat

  /** Setup: the subscribe request is under way. Live: a listener polls the stream. Dropped: the
      stream is gone, unsubscribing. Removed: the entry is gone from the map. Done: completion
      was signalled. */
  datatype Phase = Setup | Live | Dropped | Removed | Done

  datatype Sub = Sub(key: Key, phase: Phase, cancelled: bool)

  datatype Wait = Waiting | Finished | TimedOut

  datatype Drain =
    | Draining(waits: map<SubId, Wait>)
    | Reconnecting

  type DrainId = nat

  /** Where the message task stands between two of its awaits. */
  datatype ActorPc =
    | Idle
    | Inserting(key: Key)
    | Snapshotting(drain: DrainId, accounts: set<SubId>)

  /** `entries` holds both subscription maps; `subs` every subscription ever made. */
  datatype State = State(
    entries: map<Key, SubId>,
    subs: seq<Sub>,
    connected: bool,
    pc: ActorPc,
    drains: map<DrainId, Drain>)

  predicate Init(s: State) {
    s.entries == map[] && s.subs == [] && s.connected && s.pc == Idle && s.drains == map[]
  }

  predicate InUse(s: State, id: SubId) {
    id < |s.subs| && (s.subs[id].phase.Setup? || s.subs[id].phase.Live? || s.subs[id].phase.Dropped?)
  }

  function WithPhase(subs: seq<Sub>, id: SubId, phase: Phase): seq<Sub>
    requires id < |subs|
  {
    subs[id := subs[id].(phase := phase)]
  }

  function CancelledAll(subs: seq<Sub>, ids: set<SubId>): seq<Sub> {
    seq(|subs|, i requires 0 <= i < |subs| => if i in ids then subs[i].(cancelled := true) else subs[i])
  }

  function EntryIds(s: State, kind: Kind): set<SubId> {
    set k | k in s.entries && k.kind == kind :: s.entries[k]
  }

  // ----- subscribing

  /** A request passes the connection check; the insert follows without an await. */
  predicate CheckConnected(s: State, key: Key, s': State) {
    s.pc == Idle && s.connected && s' == s.(pc := Inserting(key))
  }

  /** An account entry whose listener already finished is replaced, any other entry is kept. */
  predicate Insert(s: State, s': State) {
    && s.pc.Inserting?
    && var key := s.pc.key;
       if key in s.entries
          && !(key.kind == Account && s.entries[key] < |s.subs| && s.subs[s.entries[key]].phase == Done)
       then s' == s.(pc := Idle)
       else s' == s.(pc := Idle, entries := s.entries[key := |s.subs|], subs := s.subs + [Sub(key, Setup, false)])
  }

  predicate SetupOk(s: State, id: SubId, s': State) {
    s.pc == Idle && id < |s.subs| && s.subs[id].phase == Setup && s' == s.(subs := WithPhase(s.subs, id, Live))
  }

  predicate SetupFailed(s: State, id: SubId, s': State) {
    && s.pc == Idle && id < |s.subs| && s.subs[id].phase == Setup
    && s' == s.(subs := WithPhase(s.subs, id, Removed), entries := s.entries - {s.subs[id].key})
  }

  predicate Unsubscribe(s: State, key: Key, s': State) {
    && s.pc == Idle && s.connected && key.kind == Account && key in s.entries
    && s' == s.(subs := CancelledAll(s.subs, {s.entries[key]}))
  }

  // ----- listeners and aborts, on other threads

  predicate DropStream(s: State, id: SubId, s': State) {
    id < |s.subs| && s.subs[id].phase == Live && s' == s.(subs := WithPhase(s.subs, id, Dropped))
  }

  predicate RemoveEntry(s: State, id: SubId, s': State) {
    && id < |s.subs| && s.subs[id].phase == Dropped
    && s' == s.(subs := WithPhase(s.subs, id, Removed), entries := s.entries - {s.subs[id].key})
  }

  predicate Complete(s: State, id: SubId, s': State) {
    id < |s.subs| && s.subs[id].phase == Removed && s' == s.(subs := WithPhase(s.subs, id, Done))
  }

  predicate Disconnect(s: State, s': State) {
    s' == s.(connected := false)
  }

  predicate CancelEntries(s: State, kind: Kind, s': State) {
    s' == s.(subs := CancelledAll(s.subs, EntryIds(s, kind)))
  }

  // ----- reconnecting

  predicate StartReconnect(s: State, r: DrainId, s': State) {
    && s.pc == Idle && r !in s.drains
    && s' == s.(pc := Snapshotting(r, EntryIds(s, Account)))
  }

  function AllWaiting(ids: set<SubId>): map<SubId, Wait> {
    map id | id in ids :: Waiting
  }

  /** All subscriptions found in the two maps are cancelled and waited for. */
  predicate StartDrain(s: State, s': State) {
    && s.pc.Snapshotting?
    && var ids := s.pc.accounts + EntryIds(s, Program);
       s' == s.(pc := Idle,
                subs := CancelledAll(s.subs, ids),
                drains := s.drains[s.pc.drain := Draining(AllWaiting(ids))])
  }

  predicate WaitsFor(s: State, r: DrainId, id: SubId, wait: Wait) {
    r in s.drains && s.drains[r].Draining? && id in s.drains[r].waits && s.drains[r].waits[id] == wait
  }

  /** The completion signal was seen: the entry of that key is removed, whoever made it. */
  predicate WaitFinished(s: State, r: DrainId, id: SubId, s': State) {
    && s.pc == Idle && WaitsFor(s, r, id, Waiting) && id < |s.subs| && s.subs[id].phase == Done
    && s' == s.(entries := s.entries - {s.subs[id].key},
                drains := s.drains[r := Draining(s.drains[r].waits[id := Finished])])
  }

  predicate WaitTimedOut(s: State, r: DrainId, id: SubId, s': State) {
    && s.pc == Idle && WaitsFor(s, r, id, Waiting)
    && s' == s.(drains := s.drains[r := Draining(s.drains[r].waits[id := TimedOut])])
  }

  /** One timeout is enough to give up; otherwise the pool's reconnect is entered. */
  predicate FinishDrain(s: State, r: DrainId, s': State) {
    && s.pc == Idle && r in s.drains && s.drains[r].Draining?
    && (forall id :: id in s.drains[r].waits ==> s.drains[r].waits[id] != Waiting)
    && s' == if exists id :: id in s.drains[r].waits && s.drains[r].waits[id] == TimedOut
             then s.(drains := s.drains - {r})
             else s.(drains := s.drains[r := Reconnecting])
  }

  predicate ReconnectOk(s: State, r: DrainId, s': State) {
    && s.pc == Idle && r in s.drains && s.drains[r] == Reconnecting
    && s' == s.(drains := s.drains - {r}, connected := true)
  }

  predicate ReconnectError(s: State, r: DrainId, s': State) {
    && s.pc == Idle && r in s.drains && s.drains[r] == Reconnecting
    && s' == s.(drains := s.drains - {r})
  }

  datatype Label =
    | LCheckConnected(key: Key)
    | LInsert
    | LSetupOk(id: SubId)
    | LSetupFailed(id: SubId)
    | LUnsubscribe(key: Key)
    | LDropStream(id: SubId)
    | LRemoveEntry(id: SubId)
    | LComplete(id: SubId)
    | LDisconnect
    | LCancelEntries(kind: Kind)
    | LStartReconnect(r: DrainId)
    | LStartDrain
    | LWaitFinished(r: DrainId, id: SubId)
    | LWaitTimedOut(r: DrainId, id: SubId)
    | LFinishDrain(r: DrainId)
    | LReconnectOk(r: DrainId)
    | LReconnectError(r: DrainId)

  predicate Next(s: State, l: Label, s': State) {
    match l
    case LCheckConnected(key) => CheckConnected(s, key, s')
    case LInsert => Insert(s, s')
    case LSetupOk(id) => SetupOk(s, id, s')
    case LSetupFailed(id) => SetupFailed(s, id, s')
    case LUnsubscribe(key) => Unsubscribe(s, key, s')
    case LDropStream(id) => DropStream(s, id, s')
    case LRemoveEntry(id) => RemoveEntry(s, id, s')
    case LComplete(id) => Complete(s, id, s')
    case LDisconnect => Disconnect(s, s')
    case LCancelEntries(kind) => CancelEntries(s, kind, s')
    case LStartReconnect(r) => StartReconnect(s, r, s')
    case LStartDrain => StartDrain(s, s')
    case LWaitFinished(r, id) => WaitFinished(s, r, id, s')
    case LWaitTimedOut(r, id) => WaitTimedOut(s, r, id, s')
    case LFinishDrain(r) => FinishDrain(s, r, s')
    case LReconnectOk(r) => ReconnectOk(s, r, s')
    case LReconnectError(r) => ReconnectError(s, r, s')
  }

  predicate IsRun(states: seq<State>, labels: seq<Label>) {
    && |states| == |labels| + 1
    && Init(states[0])
    && forall i :: 0 <= i < |labels| ==> Next(states[i], labels[i], states[i + 1])
  }

  /** What the callers of reconnect keep to: only while disconnected, and one at a time. */
  predicate MayReconnect(s: State) {
    !s.connected && s.drains == map[]
  }

  predicate Disciplined(states: seq<State>, labels: seq<Label>)
    requires |states| == |labels| + 1
  {
    forall i :: 0 <= i < |labels| && labels[i].LStartReconnect? ==> MayReconnect(states[i])
  }
}
