/** What a task may count on while others move: its own record, its running scan, and the
    active tables for as long as it holds their write lock. */
module TableRely {
  import opened Options
  import opened LookupTables
  import opened TableProtocol
  import R = ReservationInvariant
  import Runs = TableRuns

  predicate Owns(s: State, me: TaskId) {
    s.writer.Some? && s.writer.value.task == me
  }

  predicate Kept(s: State, s': State, me: TaskId) {
    && R.SameTask(s, s', me)
    && (me in s.scans <==> me in s'.scans)
    && (me in s.scans ==> s'.scans[me] == s.scans[me] && |s'.active| == |s.active|)
    && (Owns(s, me) ==> s'.writer == s.writer && s'.active == s.active
                        && s'.lastSlot == s.lastSlot && s'.subSlot == s.subSlot)
    && (Owns(s', me) ==> Owns(s, me))
    && s.sent <= s'.sent && s.landed <= s'.landed
  }

  lemma KeepsLanded(s: State, s': State, me: TaskId)
    requires Kept(s, s', me)
    ensures s.landed <= s'.landed
  {
  }

  predicate LocalSame(s: State, s': State) {
    && s'.active == s.active && s'.tasks == s.tasks && s'.scans == s.scans && s'.writer == s.writer
    && s'.pins == s.pins && s'.lastSlot == s.lastSlot && s'.subSlot == s.subSlot
  }

  lemma ReserveHitRely(s: State, t: TaskId, s': State, me: TaskId)
    requires R.WriterOk(s) && ReserveHit(s, t, s') && t != me
    ensures Kept(s, s', me)
  {
  }

  lemma ReserveRely(s: State, t: TaskId, act: ReserveAct, s': State, me: TaskId)
    requires R.WriterOk(s) && ReserveNext(s, t, act, s') && t != me
    ensures Kept(s, s', me)
  {
    if act.LReserveHit? {
      ReserveHitRely(s, t, s', me);
    } else {
      assert s'.active == s.active;
    }
  }

  lemma WriteRely(s: State, t: TaskId, act: WriteAct, s': State, me: TaskId)
    requires R.WriterOk(s) && WriteNext(s, t, act, s') && t != me
    ensures Kept(s, s', me)
  {
  }

  lemma ReleaseRely(s: State, t: TaskId, act: ReleaseAct, s': State, me: TaskId)
    requires R.WriterOk(s) && ReleaseNext(s, t, act, s') && t != me
    ensures Kept(s, s', me)
  {
  }

  lemma CollectRely(s: State, act: CollectAct, s': State, me: TaskId)
    requires CollectNext(s, act, s')
    ensures Kept(s, s', me) && LocalSame(s, s')
  {
  }

  lemma StepRely(s: State, l: Label, s': State, me: TaskId)
    requires R.WriterOk(s) && Next(s, l, s') && Runs.Actor(l) != Some(me)
    ensures Kept(s, s', me)
    ensures Runs.Actor(l) == None ==> LocalSame(s, s')
  {
    hide ReserveNext;
    hide WriteNext;
    hide ReleaseNext;
    hide CollectNext;
    match l
    case Reserving(t, act) => ReserveRely(s, t, act, s', me);
    case Writing(t, act) => WriteRely(s, t, act, s', me);
    case Freeing(t, act) => ReleaseRely(s, t, act, s', me);
    case Collecting(act) => CollectRely(s, act, s', me);
    case _ =>
  }

  /** The run went on, and none of the new steps was `me`'s. */
  predicate OthersMoved(states: seq<State>, labels: seq<Label>, states': seq<State>, labels': seq<Label>, me: TaskId) {
    && states <= states' && labels <= labels'
    && forall i :: |labels| <= i < |labels'| ==> Runs.Actor(labels'[i]) != Some(me)
  }

  /** Since `from` no other task took a step. */
  predicate Alone(labels: seq<Label>, from: nat, me: TaskId) {
    forall i :: from <= i < |labels| ==> Runs.Actor(labels[i]) == Some(me) || Runs.Actor(labels[i]) == None
  }

  lemma AlonePrefix(labels: seq<Label>, labels': seq<Label>, from: nat, me: TaskId)
    requires labels <= labels'
    ensures Alone(labels', from, me) ==> Alone(labels, from, me)
  {
    if Alone(labels', from, me) {
      forall i | from <= i < |labels| ensures Runs.Actor(labels[i]) == Some(me) || Runs.Actor(labels[i]) == None {
        assert labels[i] == labels'[i];
      }
    }
  }

  lemma AloneSince(labels: seq<Label>, from: nat, later: nat, me: TaskId)
    requires from <= later
    ensures Alone(labels, from, me) ==> Alone(labels, later, me)
  {
  }

  /** Being alone all along is being alone so far and from then on. */
  lemma AloneSplit(labels: seq<Label>, labels': seq<Label>, from: nat, me: TaskId)
    requires labels <= labels' && from <= |labels|
    ensures Alone(labels', from, me) ==> Alone(labels, from, me) && Alone(labels', |labels|, me)
  {
    AlonePrefix(labels, labels', from, me);
    AloneSince(labels', from, |labels|, me);
  }

  lemma {:induction false} Rely(states: seq<State>, labels: seq<Label>, n: nat, me: TaskId)
    requires IsRun(states, labels) && n < |states|
    requires forall i :: n <= i < |labels| ==> Runs.Actor(labels[i]) != Some(me)
    ensures Kept(states[n], states[|states| - 1], me)
    ensures Alone(labels, n, me) ==> LocalSame(states[n], states[|states| - 1])
    decreases |states| - n
  {
    if n < |labels| {
      Runs.EveryState(states, labels, n);
      StepRely(states[n], labels[n], states[n + 1], me);
      Rely(states, labels, n + 1, me);
    }
  }

  // ----- what the collector may count on

  /** Steps that need the lock of the released tables. */
  predicate TouchesReleased(l: Label) {
    l.Collecting? || (l.Freeing? && l.free.LDrain?)
  }

  predicate KeptForCollector(s: State, s': State) {
    && s.released <= s'.released && s.sent <= s'.sent && s.landed <= s'.landed && s.clock <= s'.clock
    && forall a :: a in s.chain && s.chain[a].status == Closed ==> a in s'.chain && s'.chain[a].status == Closed
  }

  lemma KeptForCollectorRefl(s: State)
    ensures KeptForCollector(s, s)
  {
  }

  lemma KeptForCollectorTwice(s: State, s': State, s'': State)
    requires KeptForCollector(s, s') && KeptForCollector(s', s'')
    ensures KeptForCollector(s, s'')
  {
  }

  lemma TaskStepForCollector(s: State, l: Label, s': State)
    requires Next(s, l, s') && (l.Reserving? || l.Writing? || l.Freeing?)
    ensures KeptForCollector(s, s')
    ensures !TouchesReleased(l) ==> s'.released == s.released
  {
    match l
    case Reserving(t, act) => assert ReserveNext(s, t, act, s'); assert s'.chain == s.chain && s'.sent == s.sent;
    case Writing(t, act) => assert WriteNext(s, t, act, s'); assert s'.chain == s.chain && s'.released == s.released;
    case Freeing(t, act) => assert ReleaseNext(s, t, act, s'); assert s'.chain == s.chain && s'.sent == s.sent;
  }

  lemma StepForCollector(s: State, l: Label, s': State)
    requires Next(s, l, s') && !l.Collecting?
    ensures KeptForCollector(s, s')
    ensures !TouchesReleased(l) ==> s'.released == s.released
  {
    if l.Reserving? || l.Writing? || l.Freeing? {
      TaskStepForCollector(s, l, s');
    }
  }

  lemma {:induction false} CollectorRely(states: seq<State>, labels: seq<Label>, n: nat)
    requires IsRun(states, labels) && n < |states|
    requires forall i :: n <= i < |labels| ==> !labels[i].Collecting?
    ensures KeptForCollector(states[n], states[|states| - 1])
    ensures (forall i :: n <= i < |labels| ==> !TouchesReleased(labels[i])) ==>
              states[|states| - 1].released == states[n].released
    decreases |states| - n
  {
    hide Next;
    if n < |labels| {
      StepForCollector(states[n], labels[n], states[n + 1]);
      CollectorRely(states, labels, n + 1);
    }
  }
}
