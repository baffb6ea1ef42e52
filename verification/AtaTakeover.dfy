/** A projected ATA takes over the local Magic ATA at its address: balances and approvals are
    merged, and the result replaces exactly the account it was merged from. */
module AtaTakeover {
  import opened Options
  import opened TokenLayout
  import opened EphemeralAtas

  datatype Reason =
    | NotMatchingMagic | InvalidLocal | InvalidProjection | KeysDiffer | FrozenAndFunded
    | AllowanceOverflows | DelegatesDiffer | BalanceOverflows

  datatype Merge = Merged(account: Account) | Refused(reason: Reason)

  predicate FitsU64(n: nat) {
    n < 0x1_0000_0000_0000_0000
  }

  /** What a delegate can in fact move. */
  function Allowance(t: Token): (n: nat)
    ensures n <= t.amount
  {
    if t.amount <= t.delegatedAmount then t.amount else t.delegatedAmount
  }

  // ----- what a merge is

  predicate Compatible(local: Token, token: Token) {
    local.delegate == None || token.delegate == None || local.delegate == token.delegate
  }

  /** Both balances together; an approval on one side is carried over, equal ones are added up. */
  function MergedToken(local: Token, token: Token): (r: Token)
    requires FitsU64(local.amount + token.amount) && Compatible(local, token)
  {
    token.(
      amount := local.amount + token.amount,
      delegate := if token.delegate.Some? then token.delegate else local.delegate,
      delegatedAmount :=
        if local.delegate == None then token.delegatedAmount
        else if token.delegate == None then local.delegatedAmount
        else Allowance(local) + Allowance(token))
  }

  /** Nothing frozen where tokens would move, no two different delegates, a sum that fits. */
  predicate TokensMerge(local: Token, token: Token) {
    && (local.amount > 0 ==> local.state != Frozen && token.state != Frozen)
    && Compatible(local, token)
    && FitsU64(local.amount + token.amount)
  }

  /** A Magic ATA of the same program, mint and wallet, with tokens that merge. */
  predicate Mergeable(chain: Chain, pubkey: Pubkey, local: Account, projection: Account) {
    && MagicInfo(chain, pubkey, local).Some? && local.owner == projection.owner
    && UnpackBase(projection.data).Some?
    && var l, t := UnpackBase(local.data).value, UnpackBase(projection.data).value;
       t.mint == l.mint && t.owner == l.owner && TokensMerge(l, t)
  }

  function MergedAccount(chain: Chain, pubkey: Pubkey, local: Account, projection: Account): Account
    requires Mergeable(chain, pubkey, local, projection)
  {
    var merged := MergedToken(UnpackBase(local.data).value, UnpackBase(projection.data).value);
    projection.(data := PackBase(merged, projection.data))
  }

  lemma MagicReads(chain: Chain, pubkey: Pubkey, local: Account)
    requires MagicInfo(chain, pubkey, local).Some?
    ensures var m := MagicInfo(chain, pubkey, local).value;
            && UnpackBase(local.data).Some?
            && var l := UnpackBase(local.data).value;
               m.program == local.owner && m.walletOwner == l.owner && m.mint == l.mint && m.amount == l.amount
  {
  }

  datatype TokenMerge = MergedTokens(token: Token) | RefusedTokens(reason: Reason)

  /** The approvals are merged before the balances, each with its own overflow check; the first
      fails only where the second would. */
  method MergeTokens(local: Token, projected: Token) returns (r: TokenMerge)
    ensures r.MergedTokens? <==> TokensMerge(local, projected)
    ensures r.MergedTokens? ==> r.token == MergedToken(local, projected)
    ensures r == RefusedTokens(AllowanceOverflows) || r == RefusedTokens(BalanceOverflows) ==>
        !FitsU64(local.amount + projected.amount)
    ensures r == RefusedTokens(DelegatesDiffer) ==> !Compatible(local, projected)
    ensures r.RefusedTokens? ==> r.reason != NotMatchingMagic && r.reason != InvalidLocal
  {
    var token := projected;
    if local.amount > 0 && (local.state == Frozen || token.state == Frozen) {
      return RefusedTokens(FrozenAndFunded);
    }
    if local.delegate == None {
    } else if token.delegate == None {
      token := token.(delegate := local.delegate, delegatedAmount := local.delegatedAmount);
    } else if local.delegate == token.delegate {
      var allowance := Allowance(local) + Allowance(token);
      if !FitsU64(allowance) {
        return RefusedTokens(AllowanceOverflows);
      }
      token := token.(delegatedAmount := allowance);
    } else {
      return RefusedTokens(DelegatesDiffer);
    }
    if !FitsU64(token.amount + local.amount) {
      return RefusedTokens(BalanceOverflows);
    }
    token := token.(amount := token.amount + local.amount);
    return MergedTokens(token);
  }

  /** Succeeds exactly on mergeable accounts, and refuses for overflow only if the balances do not
      fit together. */
  method MergeAta(chain: Chain, pubkey: Pubkey, local: Account, projection: Account) returns (r: Merge)
    ensures r.Merged? <==> Mergeable(chain, pubkey, local, projection)
    ensures r.Merged? ==> r.account == MergedAccount(chain, pubkey, local, projection)
    ensures r == Refused(NotMatchingMagic) <==>
              MagicInfo(chain, pubkey, local) == None || local.owner != projection.owner
    ensures r == Refused(AllowanceOverflows) || r == Refused(BalanceOverflows) ==>
        && UnpackBase(local.data).Some? && UnpackBase(projection.data).Some?
        && !FitsU64(UnpackBase(local.data).value.amount + UnpackBase(projection.data).value.amount)
    ensures r != Refused(InvalidLocal)
  {
    var magic := MagicInfo(chain, pubkey, local);
    if magic.Some? {
      MagicReads(chain, pubkey, local);
    }
    hide MagicInfo;
    hide UnpackBase;
    hide PackBase;
    hide MergedToken;
    hide TokensMerge;
    if magic == None || magic.value.program != projection.owner {
      return Refused(NotMatchingMagic);
    }
    var unpackedLocal, unpacked := UnpackBase(local.data), UnpackBase(projection.data);
    if unpackedLocal == None {
      return Refused(InvalidLocal);
    }
    if unpacked == None {
      return Refused(InvalidProjection);
    }
    if unpacked.value.mint != magic.value.mint || unpacked.value.owner != magic.value.walletOwner {
      return Refused(KeysDiffer);
    }
    var merged := MergeTokens(unpackedLocal.value, unpacked.value);
    if merged.RefusedTokens? {
      return Refused(merged.reason);
    }
    return Merged(projection.(data := PackBase(merged.token, projection.data)));
  }

  lemma PackedUnpacks(p: Program, t: Token, d: Bytes)
    requires IsTokenProgram(p) && |d| == TOKEN_ACCOUNT_LEN
    ensures UnpackBase(Pack(t, d)) == UnpackFor(p, Pack(t, d)) == Some(t)
  {
    UnpackPack(t, d);
    var r := Pack(t, d);
    assert r[..TOKEN_ACCOUNT_LEN] == r;
  }

  /** Any two records that merge do so as accounts, whatever bytes they are packed over: a Magic ATA
      bears the marker, is not native and has real keys. */
  lemma PackedAreMergeable(chain: Chain, p: Program, l: Token, t: Token, d: Bytes, lamports: U64, mode: AccountMode)
    requires IsTokenProgram(p) && |d| == TOKEN_ACCOUNT_LEN
    requires l.closeAuthority == Some(chain.magicCloseAuthority) && l.isNative == None
    requires l.owner != DEFAULT_PUBKEY && l.mint != DEFAULT_PUBKEY
    requires t.mint == l.mint && t.owner == l.owner && TokensMerge(l, t)
    ensures Mergeable(chain, chain.ata(l.owner, l.mint, p),
                      Account(p, Pack(l, d), lamports, Magic), Account(p, Pack(t, d), lamports, mode))
  {
    PackedUnpacks(p, l, d);
    PackedUnpacks(p, t, d);
    hide Pack;
    hide UnpackFor;
    hide UnpackBase;
    hide TokensMerge;
  }

  // ----- what it conserves

  /** All tokens of both accounts, none of anything else: keys, state, close authority, native
      mark, program, lamports, mode and extensions are the projection's. */
  lemma MergeConserves(chain: Chain, pubkey: Pubkey, local: Account, projection: Account)
    requires Mergeable(chain, pubkey, local, projection)
    ensures var r := MergedAccount(chain, pubkey, local, projection);
            var l, t := UnpackBase(local.data).value, UnpackBase(projection.data).value;
            && UnpackBase(r.data) == Some(MergedToken(l, t))
            && UnpackBase(r.data).value.amount == l.amount + t.amount
            && r == projection.(data := r.data) && |r.data| == |projection.data|
            && r.data[TOKEN_ACCOUNT_LEN..] == projection.data[TOKEN_ACCOUNT_LEN..]
  {
    var l, t := UnpackBase(local.data).value, UnpackBase(projection.data).value;
    UnpackPackBase(projection.owner, MergedToken(l, t), projection.data);
  }

  /** With equal delegates the new allowance is the sum of both, and covered by the new balance. */
  lemma EqualDelegatesAddUp(local: Token, token: Token)
    requires FitsU64(local.amount + token.amount) && local.delegate.Some? && local.delegate == token.delegate
    ensures var r := MergedToken(local, token);
            && r.delegate == local.delegate && r.delegatedAmount == Allowance(local) + Allowance(token)
            && Allowance(r) == Allowance(local) + Allowance(token)
  {
  }

  /** With a delegate on one side only, its approved amount is carried over as it stands, so what
      it can move is limited by the approval and the sum of both balances. */
  lemma OneDelegateIsCarriedOver(local: Token, token: Token)
    requires FitsU64(local.amount + token.amount) && local.delegate.Some? != token.delegate.Some?
    ensures var r, holder := MergedToken(local, token), if local.delegate.Some? then local else token;
            && r.delegate == holder.delegate && r.delegatedAmount == holder.delegatedAmount
            && Allowance(holder) <= Allowance(r) <= holder.delegatedAmount
            && (Allowance(r) == Allowance(holder) <==>
                  holder.delegatedAmount <= holder.amount || r.amount == holder.amount)
  {
  }

  lemma ProjectionUnpacks(chain: Chain, e: EphemeralAta, base: Account)
    requires ProjectIntoAta(chain, e, base).Some?
    ensures var p := ProjectIntoAta(chain, e, base).value;
            && UnpackFor(p.owner, p.data).Some? && UnpackBase(p.data) == UnpackFor(p.owner, p.data)
            && var t := UnpackBase(p.data).value; t.mint == e.mint && t.owner == e.owner && t.amount == e.amount
  {
    ProjectionIs(chain, e, base);
  }

  lemma MagicAddress(chain: Chain, pubkey: Pubkey, local: Account)
    requires MagicInfo(chain, pubkey, local).Some?
    ensures UnpackBase(local.data).Some?
    ensures var l := UnpackBase(local.data).value; chain.ata(l.owner, l.mint, local.owner) == pubkey
  {
  }

  lemma MergedUnpacks(chain: Chain, pubkey: Pubkey, local: Account, projection: Account)
    requires Mergeable(chain, pubkey, local, projection) && UnpackFor(projection.owner, projection.data).Some?
    ensures var r := MergedAccount(chain, pubkey, local, projection);
            var u := MergedToken(UnpackBase(local.data).value, UnpackBase(projection.data).value);
            && r.owner == projection.owner && UnpackFor(r.owner, r.data) == Some(u)
            && u.mint == UnpackBase(projection.data).value.mint && u.owner == UnpackBase(projection.data).value.owner
            && u.amount == UnpackBase(local.data).value.amount + UnpackBase(projection.data).value.amount
  {
    var merged := MergedToken(UnpackBase(local.data).value, UnpackBase(projection.data).value);
    UnpackPackBase(projection.owner, merged, projection.data);
  }

  lemma RemapMerged(chain: Chain, pubkey: Pubkey, local: Account, projection: Account)
    requires Mergeable(chain, pubkey, local, projection) && UnpackFor(projection.owner, projection.data).Some?
    requires var t := UnpackBase(projection.data).value; chain.eata(t.owner, t.mint).Some?
    ensures var l, t := UnpackBase(local.data).value, UnpackBase(projection.data).value;
            var (key, bump) := chain.eata(t.owner, t.mint).value;
            RemapAtaToEata(chain, pubkey, MergedAccount(chain, pubkey, local, projection).(mode := Delegated))
            == Some((key, EphemeralAta(t.owner, t.mint, l.amount + t.amount, bump)))
  {
    hide UnpackFor;
    hide UnpackBase;
    hide MagicInfo;
    hide RemapAtaToEata;
    hide MergedAccount;
    hide MergedToken;
    var merged := MergedAccount(chain, pubkey, local, projection);
    MagicAddress(chain, pubkey, local);
    MergedUnpacks(chain, pubkey, local, projection);
    RemapReads(chain, merged.(mode := Delegated));
  }

  /** Project, take over a Magic ATA, and map back: the amount is the sum, all else is as if there
      had been no Magic ATA. */
  lemma ProjectMergeRemap(chain: Chain, e: EphemeralAta, base: Account, projection: Account, pubkey: Pubkey,
                          local: Account)
    requires ProjectIntoAta(chain, e, base) == Some(projection) && chain.eata(e.owner, e.mint).Some?
    requires Mergeable(chain, pubkey, local, projection)
    ensures var merged := MergedAccount(chain, pubkey, local, projection).(mode := Delegated);
            var (key, bump) := chain.eata(e.owner, e.mint).value;
            var sum := UnpackBase(local.data).value.amount + e.amount;
            && FitsU64(sum)
            && RemapAtaToEata(chain, pubkey, merged) == Some((key, EphemeralAta(e.owner, e.mint, sum, bump)))
  {
    ProjectionUnpacks(chain, e, base);
    hide ProjectIntoAta;
    hide UnpackFor;
    hide UnpackBase;
    hide MagicInfo;
    hide RemapAtaToEata;
    hide MergedAccount;
    RemapMerged(chain, pubkey, local, projection);
  }
}
