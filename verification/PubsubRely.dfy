/** What one party of the subscription actor may count on while the others move. */
module PubsubRely {
  import opened Options
  import opened PubsubProtocol

  /** The subscription whose own code takes the step, if any. */
  function Owner(l: Label): Option<SubId> {
    match l
    case LSetupOk(id) => Some(id)
    case LSetupFailed(id) => Some(id)
    case LDropStream(id) => Some(id)
    case LRemoveEntry(id) => Some(id)
    case LComplete(id) => Some(id)
    case _ => None
  }

  predicate ReconnectStep(l: Label) {
    || l.LStartReconnect? || l.LStartDrain? || l.LWaitFinished? || l.LWaitTimedOut?
    || l.LFinishDrain? || l.LReconnectOk? || l.LReconnectError?
  }

  /** Steps of listeners and aborts, which do not run on the message task. */
  predicate Elsewhere(l: Label) {
    l.LDropStream? || l.LRemoveEntry? || l.LComplete? || l.LDisconnect? || l.LCancelEntries?
  }

  /** Handler: a subscribe request that awaits its setup. Reconnector: the one reconnect under
      way. Synchronous: the message task between two awaits, for a subscription it may be
      working on. Listener: a listener's task. */
  datatype Party = Handler(id: SubId) | Reconnector | Synchronous(sub: Option<SubId>) | Listener(id: SubId)

  predicate Mine(me: Party, l: Label) {
    match me
    case Handler(id) => Owner(l) == Some(id)
    case Listener(id) => Owner(l) == Some(id)
    case Reconnector => ReconnectStep(l)
    case Synchronous(sub) => !Elsewhere(l) || (sub.Some? && Owner(l) == sub)
  }

  /** Nothing comes back: keys stay, cancellation stays, what is out of use stays out of use. */
  ghost predicate Onward(s: State, s': State) {
    && |s.subs| <= |s'.subs|
    && forall id: SubId :: id < |s.subs| ==>
        && s'.subs[id].key == s.subs[id].key
        && (s.subs[id].cancelled ==> s'.subs[id].cancelled)
        && (InUse(s', id) ==> InUse(s, id))
        && (s.subs[id].phase == Done ==> s'.subs[id].phase == Done)
  }

  ghost predicate Kept(s: State, s': State, me: Party) {
    && Onward(s, s')
    && match me
       case Handler(id) => id < |s.subs| ==> s'.subs[id].phase == s.subs[id].phase
       case Listener(id) => id < |s.subs| ==> s'.subs[id].phase == s.subs[id].phase
       case Reconnector => s'.drains == s.drains && (!s.connected ==> !s'.connected)
       case Synchronous(sub) =>
         && s'.pc == s.pc && s'.drains == s.drains && |s'.subs| == |s.subs| && (!s.connected ==> !s'.connected)
         && (sub.Some? && sub.value < |s.subs| ==> s'.subs[sub.value].phase == s.subs[sub.value].phase)
  }

  lemma StepOnward(s: State, l: Label, s': State)
    requires Next(s, l, s')
    ensures Onward(s, s')
  {
  }

  lemma StepRely(s: State, l: Label, s': State, me: Party)
    requires Next(s, l, s') && !Mine(me, l)
    ensures Kept(s, s', me)
  {
    StepOnward(s, l, s');
    hide Onward;
  }

  lemma KeptTwice(s: State, s': State, s'': State, me: Party)
    requires Kept(s, s', me) && Kept(s', s'', me)
    ensures Kept(s, s'', me)
  {
  }

  /** The run went on, and none of the new steps was `me`'s. */
  predicate OthersMoved(states: seq<State>, labels: seq<Label>, states': seq<State>, labels': seq<Label>, me: Party) {
    && states <= states' && labels <= labels'
    && forall i :: |labels| <= i < |labels'| ==> !Mine(me, labels'[i])
  }

  lemma KeptRefl(s: State, me: Party)
    ensures Kept(s, s, me)
  {
  }

  lemma {:induction false} Rely(states: seq<State>, labels: seq<Label>, n: nat, me: Party)
    requires IsRun(states, labels) && n <= |labels|
    requires forall i :: n <= i < |labels| ==> !Mine(me, labels[i])
    ensures Kept(states[n], states[|labels|], me)
    decreases |labels| - n
  {
    hide Next;
    hide Kept;
    hide Mine;
    if n == |labels| {
      KeptRefl(states[n], me);
    } else {
      StepRely(states[n], labels[n], states[n + 1], me);
      Rely(states, labels, n + 1, me);
      KeptTwice(states[n], states[n + 1], states[|labels|], me);
    }
  }
}
