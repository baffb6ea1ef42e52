/** Installing a projection by compare-and-set while local transactions go on: the merge is redone
    from a fresh snapshot after every conflict, never replayed. */
module Materialize {
  import opened Options
  import opened TokenLayout
  import opened EphemeralAtas
  import opened AtaTakeover

  const MAX_RETRIES: nat := 2

  datatype EngineError = AccountChanged | ReadFailed | Unavailable | InstallFailed

  datatype Outcome = Installed | MergeRefused(reason: Reason) | Failed(error: EngineError)

  /** One change of the account, by a takeover or by anything else. */
  datatype Write = Write(before: Account, after: Account, ours: bool)

  /** `after` is what a takeover may put in the place of `before`. */
  predicate TakesOver(chain: Chain, pubkey: Pubkey, projection: Account, before: Account, after: Account) {
    if before.mode == Magic
    then Mergeable(chain, pubkey, before, projection) && after == MergedAccount(chain, pubkey, before, projection)
    else after == projection
  }

  function Balance(account: Account): nat {
    match UnpackBase(account.data) case None => 0 case Some(t) => t.amount
  }

  /** Every token of the projection, and every token of a Magic ATA it replaces. */
  lemma TakeoverConserves(chain: Chain, pubkey: Pubkey, projection: Account, before: Account, after: Account)
    requires TakesOver(chain, pubkey, projection, before, after)
    ensures Balance(after) == Balance(projection) + if before.mode == Magic then Balance(before) else 0
    ensures after == projection.(data := after.data)
  {
    if before.mode == Magic {
      MergeConserves(chain, pubkey, before, projection);
    }
  }

  predicate NoneOurs(writes: seq<Write>) {
    forall i :: 0 <= i < |writes| ==> !writes[i].ours
  }

  /** Since `was`, others wrote, and we wrote `own` last or, if none, not at all. */
  predicate OursIs(was: seq<Write>, writes: seq<Write>, own: Option<Write>) {
    && was <= writes
    && match own
       case None => NoneOurs(writes[|was|..])
       case Some(w) => |writes| > |was| && writes[|writes| - 1] == w && NoneOurs(writes[|was|..|writes| - 1])
  }

  lemma OthersThen(a: seq<Write>, b: seq<Write>, c: seq<Write>, own: Option<Write>)
    requires OursIs(a, b, None) && OursIs(b, c, own)
    ensures OursIs(a, c, own)
  {
    var n := if own == None then |c| else |c| - 1;
    assert c[|a|..n] == b[|a|..] + c[|b|..n];
  }

  /** What an outcome means: an install is one write of ours and a takeover, anything else is no
      write; a refusal is due to the Magic ATA that was seen. */
  predicate Means(chain: Chain, pubkey: Pubkey, projection: Account, outcome: Outcome, seen: Account, stored: Account,
                  own: Option<Write>) {
    && (outcome == Installed ==>
          own == Some(Write(seen, stored, true)) && TakesOver(chain, pubkey, projection, seen, stored))
    && (outcome != Installed ==> own == None)
    && (outcome.MergeRefused? ==> seen.mode == Magic && !Mergeable(chain, pubkey, seen, projection))
  }

  /** What to install over a snapshot, or why not. */
  method Prepare(chain: Chain, pubkey: Pubkey, projection: Account, expected: Account) returns (r: Merge)
    ensures r.Merged? ==> TakesOver(chain, pubkey, projection, expected, r.account)
    ensures r.Refused? ==> expected.mode == Magic && !Mergeable(chain, pubkey, expected, projection)
  {
    hide Mergeable;
    hide MergedAccount;
    if expected.mode == Magic {
      r := MergeAta(chain, pubkey, expected, projection);
    } else {
      r := Merged(projection);
    }
  }

  /** The writes follow one another, and they led to what is stored. */
  predicate IsHistory(writes: seq<Write>, stored: Account) {
    && (forall i {:trigger writes[i]} :: 0 < i < |writes| ==> writes[i - 1].after == writes[i].before)
    && (writes != [] ==> writes[|writes| - 1].after == stored)
  }

  class Engine {
    var stored: Account

    // Which of the engine's calls fail.
    const faults: nat -> bool
    var calls: nat

    ghost var writes: seq<Write>

    ghost predicate Valid()
      reads this
    {
      IsHistory(writes, stored)
    }

    constructor (account: Account, faults: nat -> bool)
      ensures Valid() && stored == account && writes == []
    {
      stored, this.faults, calls, writes := account, faults, 0, [];
    }

    /** Local transactions may change the account; none of them is ours. */
    method Interfere()
      requires Valid()
      modifies this
      ensures Valid() && OursIs(old(writes), writes, None)
      ensures writes == old(writes) ==> stored == old(stored)
    {
    }

    method Call() returns (ok: bool)
      modifies this`calls
    {
      ok := !faults(calls);
      calls := calls + 1;
    }

    /** Atomic: the account is replaced if it still is what was expected, and left alone if not. */
    method Install(expected: Account, account: Account) returns (error: Option<EngineError>)
      requires Valid()
      modifies this
      ensures Valid()
      ensures OursIs(old(writes), writes, if error == None then Some(Write(expected, account, true)) else None)
      ensures error == None ==> old(stored) == expected && stored == account
      ensures error == Some(AccountChanged) ==> old(stored) != expected
      ensures error != None ==> stored == old(stored)
    {
      var ok := Call();
      if !ok {
        return Some(InstallFailed);
      }
      if stored != expected {
        return Some(AccountChanged);
      }
      stored := account;
      writes := writes + [Write(expected, account, true)];
      return None;
    }

    /** One attempt: snapshot, merge, compare-and-set. */
    method Attempt(chain: Chain, pubkey: Pubkey, projection: Account)
      returns (outcome: Outcome, ghost seen: Account, ghost own: Option<Write>)
      requires Valid()
      modifies this
      ensures Valid() && OursIs(old(writes), writes, own)
      ensures Means(chain, pubkey, projection, outcome, seen, stored, own)
    {
      hide Mergeable;
      hide TakesOver;
      hide OursIs;
      hide IsHistory;
      Interfere();
      ghost var read := writes;
      var expected := stored;
      seen, own := expected, None;
      var ok := Call();
      if !ok {
        return Failed(ReadFailed), seen, own;
      }
      var prepared := Prepare(chain, pubkey, projection, expected);
      if prepared.Refused? {
        return MergeRefused(prepared.reason), seen, own;
      }
      Interfere();
      OthersThen(old(writes), read, writes, None);
      read := writes;
      var error := Install(expected, prepared.account);
      own := if error == None then Some(Write(expected, prepared.account, true)) else None;
      OthersThen(old(writes), read, writes, own);
      outcome := if error == None then Installed else Failed(error.value);
    }

    /** Success is one write of ours, and it puts the projection, together with the Magic balance
        of that very instant, in the place of what was there. Failure is no write of ours. Only a
        conflict is retried, at most twice. */
    method Materialize(chain: Chain, pubkey: Pubkey, projection: Account)
      returns (outcome: Outcome, ghost tried: seq<Outcome>, ghost seen: Account, ghost own: Option<Write>)
      requires Valid()
      modifies this
      ensures Valid() && 1 <= |tried| <= MAX_RETRIES + 1
      ensures forall i :: 0 <= i < |tried| - 1 ==> tried[i] == Failed(AccountChanged)
      ensures outcome != tried[|tried| - 1] ==>
                outcome == Failed(Unavailable) && tried[|tried| - 1] == Failed(AccountChanged)
      ensures OursIs(old(writes), writes, own)
      ensures Means(chain, pubkey, projection, outcome, seen, stored, own)
      ensures outcome == Installed ==>
                Balance(stored) == Balance(projection) + if seen.mode == Magic then Balance(seen) else 0
      ensures outcome == Failed(AccountChanged) ==> |tried| == MAX_RETRIES + 1
    {
      hide TakesOver;
      hide Mergeable;
      hide OursIs;
      hide IsHistory;
      var retries := MAX_RETRIES;
      outcome, seen, own := Attempt(chain, pubkey, projection);
      tried := [outcome];
      while outcome == Failed(AccountChanged) && retries > 0
        invariant Valid() && 1 <= |tried| && |tried| + retries == MAX_RETRIES + 1 && tried[|tried| - 1] == outcome
        invariant forall i :: 0 <= i < |tried| - 1 ==> tried[i] == Failed(AccountChanged)
        invariant OursIs(old(writes), writes, own)
        invariant Means(chain, pubkey, projection, outcome, seen, stored, own)
        decreases retries
      {
        retries := retries - 1;
        var ok := Call();
        if !ok {
          return Failed(Unavailable), tried, seen, own;
        }
        ghost var sofar := writes;
        outcome, seen, own := Attempt(chain, pubkey, projection);
        tried := tried + [outcome];
        OthersThen(old(writes), sofar, writes, own);
      }
      if outcome == Installed {
        TakeoverConserves(chain, pubkey, projection, seen, stored);
      }
    }
  }
}
