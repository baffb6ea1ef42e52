/** Restoring subscriptions after a reconnect: a bounded number of passes over what is still
    missing, with a pacing delay that outlives the call. */
module Resubscribe {
  import opened Options

  type Pubkey = nat

  const MAX_PASSES: nat := 3
  const MAX_RESUB_DELAY_MS: nat := 800

  /** A subscribe request and its answer: an error, or none. */
  datatype Attempt = Attempt(key: Pubkey, error: Option<nat>)

  /** SubscribeFailed passes on the error of a subscribe request. */
  datatype ResubResult =
    | Complete
    | OutOfSync(missing: nat, total: nat)
    | SubscribeFailed(error: nat)

  function Missing(keys: seq<Pubkey>, subscribed: set<Pubkey>): seq<Pubkey> {
    if keys == [] then []
    else (if keys[0] in subscribed then [] else [keys[0]]) + Missing(keys[1..], subscribed)
  }

  function Keys(log: seq<Attempt>): seq<Pubkey> {
    seq(|log|, i requires 0 <= i < |log| => log[i].key)
  }

  /** The keys of all attempts that ended as `ok` says, in order. */
  function Ended(log: seq<Attempt>, ok: bool): seq<Pubkey> {
    if log == [] then []
    else Ended(log[..|log| - 1], ok) + (if (log[|log| - 1].error == None) == ok then [log[|log| - 1].key] else [])
  }

  /** The error of the last attempt that failed. */
  function LastError(log: seq<Attempt>): Option<nat> {
    if log == [] then None
    else if log[|log| - 1].error.Some? then log[|log| - 1].error
    else LastError(log[..|log| - 1])
  }

  function Concat(passes: seq<seq<Attempt>>): seq<Attempt> {
    if passes == [] then [] else Concat(passes[..|passes| - 1]) + passes[|passes| - 1]
  }

  /** What is left to do after these passes over `missing`. */
  function Left(missing: seq<Pubkey>, passes: seq<seq<Attempt>>): seq<Pubkey> {
    if passes == [] then missing else Ended(passes[|passes| - 1], false)
  }

  /** Each pass tries, once and in order, exactly what the one before it left over. */
  predicate IsReplay(missing: seq<Pubkey>, passes: seq<seq<Attempt>>) {
    forall i {:trigger passes[i]} :: 0 <= i < |passes| ==> Keys(passes[i]) == Left(missing, passes[..i])
  }

  lemma OneMoreAttempt(log: seq<Attempt>, a: Attempt)
    ensures Keys(log + [a]) == Keys(log) + [a.key]
    ensures forall ok :: Ended(log + [a], ok) == Ended(log, ok) + if (a.error == None) == ok then [a.key] else []
    ensures LastError(log + [a]) == if a.error.Some? then a.error else LastError(log)
  {
    assert (log + [a])[..|log|] == log;
  }

  lemma OneMoreInBag(a: seq<Pubkey>, b: seq<Pubkey>, both: seq<Pubkey>, k: Pubkey)
    requires multiset(a) + multiset(b) == multiset(both)
    ensures multiset(a + [k]) + multiset(b) == multiset(both + [k])
    ensures multiset(a) + multiset(b + [k]) == multiset(both + [k])
  {
  }

  lemma {:induction false} EndedSplit(log: seq<Attempt>)
    ensures multiset(Ended(log, true)) + multiset(Ended(log, false)) == multiset(Keys(log))
  {
    if log != [] {
      var init, last := log[..|log| - 1], log[|log| - 1];
      EndedSplit(init);
      OneMoreAttempt(init, last);
      OneMoreInBag(Ended(init, true), Ended(init, false), Keys(init), last.key);
      assert log == init + [last];
    }
  }

  lemma NoAttempt()
    ensures Keys([]) == [] && Ended([], false) == [] && LastError([]) == None
  {
  }

  lemma {:induction false} LastErrorConcat(a: seq<Attempt>, b: seq<Attempt>)
    ensures LastError(a + b) == if LastError(b).Some? then LastError(b) else LastError(a)
  {
    if b == [] {
      assert a + b == a;
    } else {
      LastErrorConcat(a, b[..|b| - 1]);
      assert (a + b)[..|a + b| - 1] == a + b[..|b| - 1];
    }
  }

  lemma {:induction false} EndedConcat(a: seq<Attempt>, b: seq<Attempt>, ok: bool)
    ensures Ended(a + b, ok) == Ended(a, ok) + Ended(b, ok)
  {
    if b == [] {
      assert a + b == a;
    } else {
      EndedConcat(a, b[..|b| - 1], ok);
      assert (a + b)[..|a + b| - 1] == a + b[..|b| - 1];
    }
  }

  /** Whatever the replies were, what was missing is now either restored or still left. */
  lemma {:induction false} ReplayPartitions(missing: seq<Pubkey>, passes: seq<seq<Attempt>>)
    requires IsReplay(missing, passes)
    ensures multiset(Ended(Concat(passes), true)) + multiset(Left(missing, passes)) == multiset(missing)
  {
    if passes != [] {
      var init, last := passes[..|passes| - 1], passes[|passes| - 1];
      forall i {:trigger init[i]} | 0 <= i < |init| ensures Keys(init[i]) == Left(missing, init[..i]) {
        assert init[..i] == passes[..i] && init[i] == passes[i];
      }
      ReplayPartitions(missing, init);
      EndedConcat(Concat(init), last, true);
      EndedSplit(last);
      assert Keys(last) == Left(missing, init);
    }
  }

  lemma EndedLength(log: seq<Attempt>)
    ensures |Ended(log, true)| + |Ended(log, false)| == |log|
  {
  }

  /** A replay under way: every pass shrank the rest, but for one that is stuck at the end. */
  ghost predicate Sofar(missing: seq<Pubkey>, remaining: seq<Pubkey>, passes: seq<seq<Attempt>>, stuck: bool) {
    && IsReplay(missing, passes) && remaining == Left(missing, passes)
    && (forall i {:trigger passes[i]} :: 0 <= i < |passes| - 1 ==> |Ended(passes[i], false)| < |passes[i]|)
    && (passes != [] && !stuck ==> |remaining| < |passes[|passes| - 1]|)
    && (stuck ==> passes != [] && |remaining| == |passes[|passes| - 1]| && remaining != [])
    && |Ended(Concat(passes), true)| + |remaining| == |missing|
    && (passes != [] ==> |passes[0]| == |missing|)
    && (|passes| > 1 ==> |remaining| < |missing|)
  }

  lemma StartReplay(missing: seq<Pubkey>)
    ensures Sofar(missing, missing, [], false) && Concat([]) == []
  {
  }

  lemma ReplayOneMore(missing: seq<Pubkey>, passes: seq<seq<Attempt>>, attempts: seq<Attempt>)
    requires IsReplay(missing, passes) && Keys(attempts) == Left(missing, passes)
    ensures IsReplay(missing, passes + [attempts])
    ensures Concat(passes + [attempts]) == Concat(passes) + attempts
    ensures Ended(Concat(passes + [attempts]), true) == Ended(Concat(passes), true) + Ended(attempts, true)
  {
    var more := passes + [attempts];
    assert more[..|more| - 1] == passes;
    forall i {:trigger more[i]} | 0 <= i < |more| ensures Keys(more[i]) == Left(missing, more[..i]) {
      if i < |passes| {
        assert more[..i] == passes[..i] && more[i] == passes[i];
      }
    }
    EndedConcat(Concat(passes), attempts, true);
  }

  lemma SofarOneMore(missing: seq<Pubkey>, remaining: seq<Pubkey>, passes: seq<seq<Attempt>>, attempts: seq<Attempt>)
    requires Sofar(missing, remaining, passes, false) && remaining != [] && Keys(attempts) == remaining
    ensures Concat(passes + [attempts]) == Concat(passes) + attempts
    ensures Sofar(missing, Ended(attempts, false), passes + [attempts], |Ended(attempts, false)| == |remaining|)
  {
    ReplayOneMore(missing, passes, attempts);
    EndedLength(attempts);
    var more := passes + [attempts];
    assert |Keys(attempts)| == |attempts|;
    forall i {:trigger more[i]} | 0 <= i < |more| - 1 ensures |Ended(more[i], false)| < |more[i]| {
      assert more[i] == passes[i];
    }
  }

  function Min(a: nat, b: nat): nat {
    if a <= b then a else b
  }

  method FilterMissing(keys: seq<Pubkey>, subscribed: set<Pubkey>) returns (missing: seq<Pubkey>)
    ensures missing == Missing(keys, subscribed)
  {
    missing := [];
    for i := 0 to |keys|
      invariant missing + Missing(keys[i..], subscribed) == Missing(keys, subscribed)
    {
      if keys[i] !in subscribed {
        missing := missing + [keys[i]];
      }
      assert keys[i..][1..] == keys[i + 1..];
    }
  }

  class ChainPubsubClient {
    const initialDelay: nat
    var currentDelay: nat

    // The answers to subscribe requests: an error, or none.
    const script: nat -> Option<nat>
    ghost var log: seq<Attempt>
    var calls: nat

    function DelayLimit(): nat {
      if initialDelay < MAX_RESUB_DELAY_MS then MAX_RESUB_DELAY_MS else initialDelay
    }

    /** The delay never leaves the larger of its initial value and its limit. */
    ghost predicate Valid()
      reads this
    {
      currentDelay <= DelayLimit()
    }

    constructor (initialDelay: nat, script: nat -> Option<nat>)
      ensures Valid() && currentDelay == initialDelay == this.initialDelay && log == []
    {
      this.initialDelay, currentDelay, this.script, log, calls := initialDelay, initialDelay, script, [], 0;
    }

    method Subscribe(key: Pubkey) returns (error: Option<nat>)
      modifies this
      ensures log == old(log) + [Attempt(key, error)] && currentDelay == old(currentDelay)
    {
      error := script(calls);
      calls, log := calls + 1, log + [Attempt(key, error)];
    }

    /** One pass: failed keys are kept in order, and the last error with them. */
    method Pass(keys: seq<Pubkey>) returns (failed: seq<Pubkey>, lastError: Option<nat>, ghost attempts: seq<Attempt>)
      modifies this
      ensures log == old(log) + attempts && currentDelay == old(currentDelay)
      ensures Keys(attempts) == keys && failed == Ended(attempts, false)
      ensures lastError == LastError(attempts) && (failed != [] ==> lastError.Some?)
    {
      hide Ended;
      hide Keys;
      hide LastError;
      failed, lastError, attempts := [], None, [];
      NoAttempt();
      for i := 0 to |keys|
        invariant log == old(log) + attempts && currentDelay == old(currentDelay)
        invariant Keys(attempts) == keys[..i] && failed == Ended(attempts, false)
        invariant lastError == LastError(attempts) && (failed != [] ==> lastError.Some?)
      {
        var error := Subscribe(keys[i]);
        OneMoreAttempt(attempts, Attempt(keys[i], error));
        attempts := attempts + [Attempt(keys[i], error)];
        if error.Some? {
          failed, lastError := failed + [keys[i]], error;
        }
      }
    }

    /** The passes over what is missing, up to one without progress. */
    method Replay(missing: seq<Pubkey>, subscribed: set<Pubkey>)
      returns (remaining: seq<Pubkey>, fatal: Option<nat>, ghost passes: seq<seq<Attempt>>, ghost stuck: bool)
      requires Valid()
      modifies this
      ensures Valid() && log == old(log) + Concat(passes) && |passes| <= MAX_PASSES
      ensures Sofar(missing, remaining, passes, stuck) && (remaining == [] || |passes| == MAX_PASSES || stuck)
      ensures passes == [] ==> currentDelay == old(currentDelay)
      ensures |passes| == 1 && stuck ==> currentDelay == Min(2 * old(currentDelay), MAX_RESUB_DELAY_MS)
      ensures fatal.Some? <==> stuck && |remaining| == |missing| && subscribed == {}
      ensures fatal.Some? ==> LastError(Concat(passes)) == fatal
    {
      hide Concat;
      hide Ended;
      hide Keys;
      hide LastError;
      hide Sofar;
      remaining, fatal := missing, None;
      var halted := false;
      passes, stuck := [], false;
      StartReplay(missing);
      var pass := 0;
      while pass < MAX_PASSES && remaining != [] && !halted
        invariant pass == |passes| <= MAX_PASSES && stuck == halted
        invariant log == old(log) + Concat(passes)
        invariant Sofar(missing, remaining, passes, stuck)
        invariant currentDelay <= DelayLimit() && (passes == [] ==> currentDelay == old(currentDelay))
        invariant |passes| == 1 && stuck ==> currentDelay == Min(2 * old(currentDelay), MAX_RESUB_DELAY_MS)
        invariant fatal.Some? <==> stuck && |remaining| == |missing| && subscribed == {}
        invariant fatal.Some? ==> LastError(Concat(passes)) == fatal
      {
        var delay := currentDelay;
        ghost var attempts;
        var failed, lastError;
        failed, lastError, attempts := Pass(remaining);
        SofarOneMore(missing, remaining, passes, attempts);
        LastErrorConcat(Concat(passes), attempts);
        passes := passes + [attempts];
        if failed != [] {
          currentDelay := Min(2 * delay, MAX_RESUB_DELAY_MS);
        }
        halted := |failed| == |remaining|;
        stuck := halted;
        remaining := failed;
        if halted && |remaining| == |missing| && subscribed == {} {
          fatal := lastError;
        }
        pass := pass + 1;
      }
    }

    /** Tries what is missing again, over fewer and fewer keys. The call ends well exactly if
        nothing is left. A pass without progress is the last. The error of a request is passed on
        only if nothing was restored and nothing was subscribed before. The delay is back at its
        initial value after any progress, and doubled up to its limit without. */
    method ResubMultiple(pubkeys: seq<Pubkey>, subscribed: set<Pubkey>)
      returns (result: ResubResult, remaining: seq<Pubkey>, ghost passes: seq<seq<Attempt>>)
      requires Valid()
      modifies this
      ensures Valid() && log == old(log) + Concat(passes) && |passes| <= MAX_PASSES
      ensures IsReplay(Missing(pubkeys, subscribed), passes) && remaining == Left(Missing(pubkeys, subscribed), passes)
      ensures multiset(Ended(Concat(passes), true)) + multiset(remaining) == multiset(Missing(pubkeys, subscribed))
      ensures forall i {:trigger passes[i]} :: 0 <= i < |passes| - 1 ==> |Ended(passes[i], false)| < |passes[i]|
      ensures remaining == [] || |passes| == MAX_PASSES || (passes != [] && |remaining| == |passes[|passes| - 1]|)
      ensures result == Complete <==> remaining == []
      ensures result.OutOfSync? ==> result.missing == |remaining| && result.total == |Missing(pubkeys, subscribed)|
      ensures result.SubscribeFailed? <==>
          subscribed == {} && Missing(pubkeys, subscribed) != [] && Ended(Concat(passes), true) == []
      ensures result.SubscribeFailed? ==> LastError(Concat(passes)) == Some(result.error)
      ensures currentDelay ==
          if Missing(pubkeys, subscribed) == [] then old(currentDelay)
          else if Ended(Concat(passes), true) != [] then initialDelay
          else Min(2 * old(currentDelay), MAX_RESUB_DELAY_MS)
    {
      hide Concat;
      hide Ended;
      hide Keys;
      hide LastError;
      var missing := FilterMissing(pubkeys, subscribed);
      var fatal;
      ghost var stuck;
      remaining, fatal, passes, stuck := Replay(missing, subscribed);
      ReplayPartitions(missing, passes);
      if fatal.Some? {
        return SubscribeFailed(fatal.value), remaining, passes;
      }
      if |remaining| < |missing| {
        currentDelay := initialDelay;
      }
      if remaining != [] {
        return OutOfSync(|remaining|, |missing|), remaining, passes;
      }
      result := Complete;
    }
  }
}
