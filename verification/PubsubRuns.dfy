/** The reconnect gate holds over every run in which reconnects are issued one at a time and
    only while disconnected; without that discipline it does not. */
module PubsubRuns {
  import opened PubsubProtocol

  // ----- the invariant

  /** A subscription in use owns the entry of its key, so there is at most one per key. */
  predicate OwnsEntry(s: State, id: SubId)
    requires id < |s.subs|
  {
    InUse(s, id) ==> s.subs[id].key in s.entries && s.entries[s.subs[id].key] == id
  }

  /** An entry in the map belongs to a subscription in use: none is ever left behind. */
  predicate EntryOk(s: State, key: Key)
    requires key in s.entries
  {
    InUse(s, s.entries[key]) && s.subs[s.entries[key]].key == key
  }

  /** `ids` are subscriptions of different keys. */
  predicate OnePerKey(s: State, ids: set<SubId>) {
    && (forall id :: id in ids ==> id < |s.subs|)
    && forall a, b :: a in ids && b in ids && s.subs[a].key == s.subs[b].key ==> a == b
  }

  /** While a drain waits, everything in use is among what it waits for. */
  ghost predicate DrainOk(s: State, r: DrainId)
    requires r in s.drains
  {
    match s.drains[r]
    case Draining(waits) =>
      && OnePerKey(s, waits.Keys)
      && (forall id :: InUse(s, id) ==> id in waits)
      && (forall id :: id in waits ==> id < |s.subs| && s.subs[id].cancelled)
      && (forall id :: id in waits && waits[id] == Finished ==> id < |s.subs| && s.subs[id].phase == Done)
    case Reconnecting => forall id :: !InUse(s, id)
  }

  ghost predicate PcOk(s: State) {
    match s.pc
    case Idle => true
    case Inserting(_) => s.drains == map[]
    case Snapshotting(_, accounts) =>
      && !s.connected && s.drains == map[]
      && OnePerKey(s, accounts)
      && (forall id :: id in accounts ==> id < |s.subs| && s.subs[id].key.kind == Account)
      && forall id: SubId :: InUse(s, id) ==> s.subs[id].key.kind == Account ==> id in accounts
  }

  ghost predicate Inv(s: State) {
    && (forall id: SubId :: id < |s.subs| ==> OwnsEntry(s, id))
    && (forall key :: key in s.entries ==> EntryOk(s, key))
    && (forall r :: r in s.drains ==> DrainOk(s, r))
    && (forall r, q :: r in s.drains && q in s.drains ==> r == q)
    && (s.drains != map[] ==> !s.connected && !s.pc.Snapshotting? && !s.pc.Inserting?)
    && PcOk(s)
  }

  // ----- every step keeps it

  /** Phases may move on and flags may be set; no subscription comes into use. */
  lemma WindingDownKeeps(s: State, s': State)
    requires Inv(s)
    requires |s'.subs| == |s.subs| && s'.drains == s.drains && s'.pc == s.pc
    requires s'.connected == s.connected || !s'.connected
    requires forall id: SubId :: id < |s.subs| ==> s'.subs[id].key == s.subs[id].key
    requires forall id: SubId :: InUse(s', id) ==> InUse(s, id)
    requires forall id: SubId :: id < |s.subs| && s.subs[id].phase == Done ==> s'.subs[id].phase == Done
    requires forall id: SubId :: id < |s.subs| && s.subs[id].cancelled ==> s'.subs[id].cancelled
    requires forall key :: key in s'.entries <==> key in s.entries && InUse(s', s.entries[key])
    requires forall key :: key in s'.entries ==> s'.entries[key] == s.entries[key]
    ensures Inv(s')
  {
    forall id: SubId | id < |s'.subs| ensures OwnsEntry(s', id) { assert OwnsEntry(s, id); }
    forall key | key in s'.entries ensures EntryOk(s', key) { assert EntryOk(s, key); }
    forall r | r in s'.drains ensures DrainOk(s', r) { assert DrainOk(s, r); }
  }

  lemma InsertKeeps(s: State, s': State)
    requires Inv(s) && Insert(s, s')
    ensures Inv(s')
  {
    var key := s.pc.key;
    if key in s.entries {
      assert EntryOk(s, key);
    }
    forall id: SubId | id < |s'.subs| ensures OwnsEntry(s', id) {
      if id < |s.subs| { assert OwnsEntry(s, id); }
    }
    forall k | k in s'.entries ensures EntryOk(s', k) {
      if k in s.entries { assert EntryOk(s, k); }
    }
  }

  lemma SetupOkKeeps(s: State, id: SubId, s': State)
    requires Inv(s) && SetupOk(s, id, s')
    ensures Inv(s')
  {
    forall key | key in s.entries ensures InUse(s', s.entries[key]) { assert EntryOk(s, key); }
    WindingDownKeeps(s, s');
  }

  /** A subscription removes the entry of its key, which is its own. */
  lemma LeaveKeeps(s: State, id: SubId, s': State)
    requires Inv(s) && InUse(s, id)
    requires s' == s.(subs := WithPhase(s.subs, id, Removed), entries := s.entries - {s.subs[id].key})
    ensures Inv(s')
  {
    assert OwnsEntry(s, id);
    forall key ensures key in s'.entries <==> key in s.entries && InUse(s', s.entries[key]) {
      if key in s.entries { assert EntryOk(s, key); }
    }
    WindingDownKeeps(s, s');
  }

  lemma DropStreamKeeps(s: State, id: SubId, s': State)
    requires Inv(s) && DropStream(s, id, s')
    ensures Inv(s')
  {
    forall key | key in s.entries ensures InUse(s', s.entries[key]) { assert EntryOk(s, key); }
    WindingDownKeeps(s, s');
  }

  lemma CompleteKeeps(s: State, id: SubId, s': State)
    requires Inv(s) && Complete(s, id, s')
    ensures Inv(s')
  {
    forall key | key in s.entries ensures InUse(s', s.entries[key]) { assert EntryOk(s, key); }
    WindingDownKeeps(s, s');
  }

  lemma CancelKeeps(s: State, ids: set<SubId>, s': State)
    requires Inv(s) && s' == s.(subs := CancelledAll(s.subs, ids))
    ensures Inv(s')
  {
    forall key | key in s.entries ensures InUse(s', s.entries[key]) { assert EntryOk(s, key); }
    WindingDownKeeps(s, s');
  }

  lemma StartReconnectKeeps(s: State, r: DrainId, s': State)
    requires Inv(s) && MayReconnect(s) && StartReconnect(s, r, s')
    ensures Inv(s')
  {
    var accounts := EntryIds(s, Account);
    forall id | id in accounts ensures id < |s.subs| && s.subs[id].key.kind == Account && InUse(s, id) {
      var k :| k in s.entries && k.kind == Account && s.entries[k] == id;
      assert EntryOk(s, k);
    }
    forall id: SubId | InUse(s, id) && s.subs[id].key.kind == Account ensures id in accounts {
      assert OwnsEntry(s, id);
    }
    forall a, b | a in accounts && b in accounts && s.subs[a].key == s.subs[b].key ensures a == b {
      assert OwnsEntry(s, a) && OwnsEntry(s, b);
    }
    forall id: SubId | id < |s'.subs| ensures OwnsEntry(s', id) { assert OwnsEntry(s, id); }
    forall key | key in s'.entries ensures EntryOk(s', key) { assert EntryOk(s, key); }
  }

  /** Nothing came into use since the first map was read, so both snapshots cover all. */
  lemma StartDrainKeeps(s: State, s': State)
    requires Inv(s) && StartDrain(s, s')
    ensures Inv(s')
  {
    var programs := EntryIds(s, Program);
    var ids := s.pc.accounts + programs;
    forall id | id in programs ensures InUse(s, id) && s.subs[id].key.kind == Program {
      var k :| k in s.entries && k.kind == Program && s.entries[k] == id;
      assert EntryOk(s, k);
    }
    forall id: SubId | InUse(s', id) ensures id in ids {
      assert InUse(s, id) && OwnsEntry(s, id);
    }
    forall a, b | a in ids && b in ids && s'.subs[a].key == s'.subs[b].key ensures a == b {
      assert a in programs ==> OwnsEntry(s, a);
      assert b in programs ==> OwnsEntry(s, b);
    }
    assert DrainOk(s', s.pc.drain);
    forall id: SubId | id < |s'.subs| ensures OwnsEntry(s', id) { assert OwnsEntry(s, id); }
    forall key | key in s'.entries ensures EntryOk(s', key) { assert EntryOk(s, key); }
  }

  /** The entry removed on completion is gone already: nothing else of that key is in use. */
  lemma WaitFinishedKeeps(s: State, r: DrainId, id: SubId, s': State)
    requires Inv(s) && WaitFinished(s, r, id, s')
    ensures Inv(s')
  {
    assert DrainOk(s, r);
    assert s.subs[id].key !in s.entries;
    assert s'.entries == s.entries;
    forall u: SubId | u < |s'.subs| ensures OwnsEntry(s', u) { assert OwnsEntry(s, u); }
    forall k | k in s'.entries ensures EntryOk(s', k) { assert EntryOk(s, k); }
    assert DrainOk(s', r);
  }

  lemma WaitTimedOutKeeps(s: State, r: DrainId, id: SubId, s': State)
    requires Inv(s) && WaitTimedOut(s, r, id, s')
    ensures Inv(s')
  {
    assert DrainOk(s, r);
    forall u: SubId | u < |s'.subs| ensures OwnsEntry(s', u) { assert OwnsEntry(s, u); }
    forall k | k in s'.entries ensures EntryOk(s', k) { assert EntryOk(s, k); }
    assert DrainOk(s', r);
  }

  lemma FinishDrainKeeps(s: State, r: DrainId, s': State)
    requires Inv(s) && FinishDrain(s, r, s')
    ensures Inv(s')
  {
    assert DrainOk(s, r);
    forall u: SubId | u < |s'.subs| ensures OwnsEntry(s', u) { assert OwnsEntry(s, u); }
    forall k | k in s'.entries ensures EntryOk(s', k) { assert EntryOk(s, k); }
  }

  lemma EndReconnectKeeps(s: State, r: DrainId, s': State)
    requires Inv(s) && (ReconnectOk(s, r, s') || ReconnectError(s, r, s'))
    ensures Inv(s')
  {
    assert DrainOk(s, r);
    assert s'.drains == map[];
    assert forall k :: k !in s'.entries;
    forall u: SubId | u < |s'.subs| ensures OwnsEntry(s', u) { assert OwnsEntry(s, u); }
  }

  lemma SwitchKeeps(s: State, s': State)
    requires Inv(s) && s' == s.(connected := s'.connected, pc := s'.pc)
    requires s' == s.(connected := false) || (s.connected && s'.connected && s'.pc.Inserting?)
    ensures Inv(s')
  {
    forall u: SubId | u < |s'.subs| ensures OwnsEntry(s', u) { assert OwnsEntry(s, u); }
    forall k | k in s'.entries ensures EntryOk(s', k) { assert EntryOk(s, k); }
    forall r | r in s'.drains ensures DrainOk(s', r) { assert DrainOk(s, r); }
  }

  lemma NextKeeps(s: State, l: Label, s': State)
    requires Inv(s) && Next(s, l, s') && (l.LStartReconnect? ==> MayReconnect(s))
    ensures Inv(s')
  {
    match l
    case LCheckConnected(_) => SwitchKeeps(s, s');
    case LInsert => InsertKeeps(s, s');
    case LSetupOk(id) => SetupOkKeeps(s, id, s');
    case LSetupFailed(id) => LeaveKeeps(s, id, s');
    case LUnsubscribe(key) => CancelKeeps(s, {s.entries[key]}, s');
    case LDropStream(id) => DropStreamKeeps(s, id, s');
    case LRemoveEntry(id) => LeaveKeeps(s, id, s');
    case LComplete(id) => CompleteKeeps(s, id, s');
    case LDisconnect => SwitchKeeps(s, s');
    case LCancelEntries(kind) => CancelKeeps(s, EntryIds(s, kind), s');
    case LStartReconnect(r) => StartReconnectKeeps(s, r, s');
    case LStartDrain => StartDrainKeeps(s, s');
    case LWaitFinished(r, id) => WaitFinishedKeeps(s, r, id, s');
    case LWaitTimedOut(r, id) => WaitTimedOutKeeps(s, r, id, s');
    case LFinishDrain(r) => FinishDrainKeeps(s, r, s');
    case LReconnectOk(r) => EndReconnectKeeps(s, r, s');
    case LReconnectError(r) => EndReconnectKeeps(s, r, s');
  }

  lemma {:induction false} EveryState(states: seq<State>, labels: seq<Label>, i: nat)
    requires IsRun(states, labels) && Disciplined(states, labels) && i < |states|
    ensures Inv(states[i])
  {
    if i > 0 {
      EveryState(states, labels, i - 1);
      NextKeeps(states[i - 1], labels[i - 1], states[i]);
    }
  }

  // ----- what it is for

  /** Whenever the pool's reconnect is entered, no stream is polled, none is being dropped, and
      no subscribe request is under way. */
  lemma ReconnectEnteredWithoutStreams(states: seq<State>, labels: seq<Label>, i: nat, r: DrainId, id: SubId)
    requires IsRun(states, labels) && Disciplined(states, labels) && i < |states|
    requires r in states[i].drains && states[i].drains[r] == Reconnecting && id < |states[i].subs|
    ensures states[i].subs[id].phase == Removed || states[i].subs[id].phase == Done
  {
    EveryState(states, labels, i);
    assert DrainOk(states[i], r);
    assert !InUse(states[i], id);
  }

  /** There is never more than one subscription in use per key, and its entry is in the map. */
  lemma OneListenerPerKey(states: seq<State>, labels: seq<Label>, i: nat, a: SubId, b: SubId)
    requires IsRun(states, labels) && Disciplined(states, labels) && i < |states|
    requires InUse(states[i], a) && InUse(states[i], b) && states[i].subs[a].key == states[i].subs[b].key
    ensures a == b
    ensures states[i].subs[a].key in states[i].entries && states[i].entries[states[i].subs[a].key] == a
  {
    EveryState(states, labels, i);
    assert OwnsEntry(states[i], a) && OwnsEntry(states[i], b);
  }

  /** Everything a drain waits for, in use or not, was told to stop. */
  lemma DrainedAreCancelled(states: seq<State>, labels: seq<Label>, i: nat, r: DrainId, id: SubId)
    requires IsRun(states, labels) && Disciplined(states, labels) && i < |states|
    requires r in states[i].drains && states[i].drains[r].Draining? && InUse(states[i], id)
    ensures id in states[i].drains[r].waits && states[i].subs[id].cancelled
  {
    EveryState(states, labels, i);
    assert DrainOk(states[i], r);
  }

  lemma TimeoutStays(s: State, l: Label, s': State, r: DrainId, id: SubId)
    requires Inv(s) && Next(s, l, s') && WaitsFor(s, r, id, TimedOut) && r in s'.drains
    ensures WaitsFor(s', r, id, TimedOut)
  {
  }

  /** A drain in which a wait timed out never gets to the pool as long as it lives. */
  lemma {:induction false} TimeoutBlocksReconnect(states: seq<State>, labels: seq<Label>, i: nat, j: nat, r: DrainId,
                                                  id: SubId)
    requires IsRun(states, labels) && Disciplined(states, labels) && i <= j < |states|
    requires WaitsFor(states[i], r, id, TimedOut)
    requires forall k :: i <= k <= j ==> r in states[k].drains
    ensures WaitsFor(states[j], r, id, TimedOut)
    decreases j
  {
    hide Inv;
    hide Next;
    if i < j {
      TimeoutBlocksReconnect(states, labels, i, j - 1, r, id);
      EveryState(states, labels, j - 1);
      TimeoutStays(states[j - 1], labels[j - 1], states[j], r, id);
    }
  }

  lemma StaysInUse(s: State, l: Label, s': State, id: SubId)
    requires Next(s, l, s') && InUse(s, id) && l != LRemoveEntry(id) && l != LSetupFailed(id)
    ensures InUse(s', id) && s'.subs[id].key == s.subs[id].key
  {
  }

  /** Through drains, timeouts and aborts the entry stays for the next attempt, until the code of its
      own subscription removes it. */
  lemma {:induction false} EntryStays(states: seq<State>, labels: seq<Label>, i: nat, j: nat, id: SubId)
    requires IsRun(states, labels) && Disciplined(states, labels) && i <= j < |states| && InUse(states[i], id)
    requires forall k :: i <= k < j ==> labels[k] != LRemoveEntry(id) && labels[k] != LSetupFailed(id)
    ensures InUse(states[j], id) && states[j].subs[id].key == states[i].subs[id].key
    ensures states[i].subs[id].key in states[j].entries && states[j].entries[states[i].subs[id].key] == id
    decreases j
  {
    hide Next;
    if i < j {
      EntryStays(states, labels, i, j - 1, id);
      StaysInUse(states[j - 1], labels[j - 1], states[j], id);
    }
    EveryState(states, labels, j);
    assert OwnsEntry(states[j], id);
  }

  /** No finished subscription lingers in a map: the entry is always gone before completion. */
  lemma NoOrphanedEntry(states: seq<State>, labels: seq<Label>, i: nat, key: Key)
    requires IsRun(states, labels) && Disciplined(states, labels) && i < |states| && key in states[i].entries
    ensures states[i].entries[key] < |states[i].subs|
    ensures states[i].subs[states[i].entries[key]].phase != Done
  {
    EveryState(states, labels, i);
    assert EntryOk(states[i], key);
  }

  // ----- without the discipline

  const KEY := Key(Account, 7)

  lemma Step(states: seq<State>, labels: seq<Label>, l: Label, s': State)
    returns (states': seq<State>, labels': seq<Label>)
    requires IsRun(states, labels) && Next(states[|states| - 1], l, s')
    ensures IsRun(states', labels') && states' == states + [s'] && labels' == labels + [l]
  {
    states', labels' := states + [s'], labels + [l];
  }

  lemma SubscribeOnce() returns (states: seq<State>, labels: seq<Label>)
    ensures IsRun(states, labels)
    ensures states[|states| - 1] == State(map[KEY := 0], [Sub(KEY, Live, false)], true, Idle, map[])
    ensures forall i :: 0 <= i < |labels| ==> !labels[i].LStartReconnect?
  {
    var s := State(map[], [], true, Idle, map[]);
    states, labels := [s], [];
    s := s.(pc := Inserting(KEY));
    states, labels := Step(states, labels, LCheckConnected(KEY), s);
    s := s.(pc := Idle, entries := map[KEY := 0], subs := [Sub(KEY, Setup, false)]);
    states, labels := Step(states, labels, LInsert, s);
    s := s.(subs := [Sub(KEY, Live, false)]);
    states, labels := Step(states, labels, LSetupOk(0), s);
  }

  lemma BeginDrain(states: seq<State>, labels: seq<Label>, r: DrainId)
    returns (states': seq<State>, labels': seq<Label>)
    requires IsRun(states, labels)
    requires var s := states[|states| - 1];
             s.pc == Idle && s.entries == map[KEY := 0] && |s.subs| == 1 && r !in s.drains
    ensures IsRun(states', labels') && |labels'| == |labels| + 2 && states <= states' && labels <= labels'
    ensures labels'[|labels|] == LStartReconnect(r) && labels'[|labels| + 1] == LStartDrain
    ensures var s := states[|states| - 1];
            states'[|states'| - 1] == s.(subs := [s.subs[0].(cancelled := true)],
                                        drains := s.drains[r := Draining(map[0 := Waiting])])
  {
    var s := states[|states| - 1];
    assert KEY in s.entries;
    assert EntryIds(s, Account) == {0} && EntryIds(s, Program) == {};
    var t := s.(pc := Snapshotting(r, {0}));
    states', labels' := Step(states, labels, LStartReconnect(r), t);
    assert EntryIds(t, Program) == {} && {0} + EntryIds(t, Program) == {0};
    assert AllWaiting({0}) == map[0 := Waiting];
    assert CancelledAll(s.subs, {0}) == [s.subs[0].(cancelled := true)];
    var u := s.(subs := [s.subs[0].(cancelled := true)], drains := s.drains[r := Draining(map[0 := Waiting])]);
    states', labels' := Step(states', labels', LStartDrain, u);
  }

  lemma WindDown(states: seq<State>, labels: seq<Label>) returns (states': seq<State>, labels': seq<Label>)
    requires IsRun(states, labels)
    requires var s := states[|states| - 1]; s.entries == map[KEY := 0] && s.subs == [Sub(KEY, Live, true)]
    ensures IsRun(states', labels') && states <= states' && labels <= labels'
    ensures forall i :: |labels| <= i < |labels'| ==> !labels'[i].LStartReconnect?
    ensures states'[|states'| - 1] == states[|states| - 1].(entries := map[], subs := [Sub(KEY, Done, true)])
  {
    var s := states[|states| - 1];
    states', labels' := Step(states, labels, LDropStream(0), s.(subs := [Sub(KEY, Dropped, true)]));
    s := s.(entries := map[], subs := [Sub(KEY, Removed, true)]);
    states', labels' := Step(states', labels', LRemoveEntry(0), s);
    states', labels' := Step(states', labels', LComplete(0), s.(entries := map[], subs := [Sub(KEY, Done, true)]));
  }

  lemma FirstIsFinished(s: State, r: DrainId, drains: map<DrainId, Drain>)
    requires |s.subs| > 0 && s.subs[0] == Sub(KEY, Done, true) && s.entries.Keys <= {KEY} && s.pc == Idle
    requires s.drains == drains && WaitsFor(s, r, 0, Waiting) && drains[r].waits == map[0 := Waiting]
    ensures WaitFinished(s, r, 0, s.(entries := map[], drains := drains[r := Draining(map[0 := Finished])]))
  {
    assert s.entries - {KEY} == map[];
    assert drains[r].waits[0 := Finished] == map[0 := Finished];
  }

  /** The pool reconnects beside a stream in use, whose entry is lost. */
  predicate Overlaps(s: State, r: DrainId) {
    && r in s.drains && s.drains[r] == Reconnecting
    && |s.subs| == 2 && s.subs[1] == Sub(KEY, Live, false) && KEY !in s.entries
  }

  /** The account is subscribed again while a drain still waits for its first listener. */
  lemma SubscribeBesideDrain(states: seq<State>, labels: seq<Label>, r: DrainId)
    returns (states': seq<State>, labels': seq<Label>)
    requires IsRun(states, labels)
    requires var s := states[|states| - 1];
             && s.connected && s.pc == Idle && s.entries == map[] && s.subs == [Sub(KEY, Done, true)]
             && s.drains == map[r := Draining(map[0 := Waiting])]
    ensures IsRun(states', labels') && states <= states' && labels <= labels'
    ensures forall i :: |labels| <= i < |labels'| ==> !labels'[i].LStartReconnect?
    ensures Overlaps(states'[|states'| - 1], r)
  {
    var s := states[|states| - 1];
    var u := s.(pc := Inserting(KEY));
    states', labels' := Step(states, labels, LCheckConnected(KEY), u);
    u := s.(entries := map[KEY := 1], subs := [Sub(KEY, Done, true), Sub(KEY, Setup, false)]);
    states', labels' := Step(states', labels', LInsert, u);
    u := u.(subs := [Sub(KEY, Done, true), Sub(KEY, Live, false)]);
    states', labels' := Step(states', labels', LSetupOk(1), u);
    FirstIsFinished(u, r, u.drains);
    u := u.(entries := map[], drains := map[r := Draining(map[0 := Finished])]);
    states', labels' := Step(states', labels', LWaitFinished(r, 0), u);
    u := u.(drains := map[r := Reconnecting]);
    states', labels' := Step(states', labels', LFinishDrain(r), u);
  }

  /** One at a time is not enough: a reconnect asked for while connected. */
  lemma ReconnectWhileConnected() returns (states: seq<State>, labels: seq<Label>)
    ensures IsRun(states, labels)
    ensures forall i :: 0 <= i < |labels| && labels[i].LStartReconnect? ==> states[i].drains == map[]
    ensures Overlaps(states[|states| - 1], 0)
  {
    states, labels := SubscribeOnce();
    states, labels := BeginDrain(states, labels, 0);
    states, labels := WindDown(states, labels);
    states, labels := SubscribeBesideDrain(states, labels, 0);
  }

  lemma FirstReconnects(states: seq<State>, labels: seq<Label>) returns (states': seq<State>, labels': seq<Label>)
    requires IsRun(states, labels)
    requires states[|states| - 1] == State(map[], [Sub(KEY, Done, true)], false, Idle,
                                           map[0 := Draining(map[0 := Waiting]), 1 := Draining(map[0 := Waiting])])
    ensures IsRun(states', labels') && states <= states' && labels <= labels'
    ensures forall i :: |labels| <= i < |labels'| ==> !labels'[i].LStartReconnect?
    ensures states'[|states'| - 1] == State(map[], [Sub(KEY, Done, true)], true, Idle,
                                            map[1 := Draining(map[0 := Waiting])])
  {
    var u := states[|states| - 1];
    FirstIsFinished(u, 0, u.drains);
    u := u.(entries := map[], drains := u.drains[0 := Draining(map[0 := Finished])]);
    states', labels' := Step(states, labels, LWaitFinished(0, 0), u);
    u := u.(drains := u.drains[0 := Reconnecting]);
    states', labels' := Step(states', labels', LFinishDrain(0), u);
    assert u.drains - {0} == map[1 := Draining(map[0 := Waiting])];
    u := u.(connected := true, drains := map[1 := Draining(map[0 := Waiting])]);
    states', labels' := Step(states', labels', LReconnectOk(0), u);
  }

  /** Only while disconnected is not enough: two reconnects beside one another. */
  lemma TwoReconnects() returns (states: seq<State>, labels: seq<Label>)
    ensures IsRun(states, labels)
    ensures forall i :: 0 <= i < |labels| && labels[i].LStartReconnect? ==> !states[i].connected
    ensures Overlaps(states[|states| - 1], 1)
  {
    hide IsRun;
    states, labels := SubscribeOnce();
    states, labels := Step(states, labels, LDisconnect, states[|states| - 1].(connected := false));
    states, labels := BeginDrain(states, labels, 0);
    states, labels := BeginDrain(states, labels, 1);
    states, labels := WindDown(states, labels);
    states, labels := FirstReconnects(states, labels);
    states, labels := SubscribeBesideDrain(states, labels, 1);
  }
}
