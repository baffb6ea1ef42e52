/** The compact token account of a wallet (eATA), its projection into the ordinary token account
    (ATA), and the way back. */
module EphemeralAtas {
  import opened Options
  import opened TokenLayout

  const EPHEMERAL_ATA_LEN: nat := 80
  const LEGACY_EPHEMERAL_ATA_LEN: nat := 72

  datatype Program = TokenProgram | Token2022Program | OtherProgram(id: nat)

  datatype AccountMode = Missing | Mirrored | Runtime | Delegated | Undelegating | Closed | Magic

  datatype Account = Account(owner: Program, data: Bytes, lamports: U64, mode: AccountMode)

  /** Address derivations and well-known keys, which nothing here depends on. */
  datatype Chain = Chain(
    ata: (Pubkey, Pubkey, Program) -> Pubkey,
    eata: (Pubkey, Pubkey) -> Option<(Pubkey, Byte)>,
    nativeMint: Program -> Pubkey,
    magicCloseAuthority: Pubkey)

  datatype EphemeralAta = EphemeralAta(owner: Pubkey, mint: Pubkey, amount: U64, bump: Byte)

  predicate IsTokenProgram(p: Program) {
    p == TokenProgram || p == Token2022Program
  }

  // ----- its own encoding

  function Encoded(e: EphemeralAta): (data: Bytes)
    ensures |data| == EPHEMERAL_ATA_LEN
  {
    e.owner + e.mint + Le64(e.amount) + [e.bump] + [0, 0, 0, 0, 0, 0, 0]
  }

  /** The long form carries its bump, the old short one has it derived; nothing else decodes, nor
      does a default mint. */
  function Decode(chain: Chain, data: Bytes): Option<EphemeralAta> {
    if |data| < 72 || data[32..64] == DEFAULT_PUBKEY then None
    else
      var owner: Pubkey, mint: Pubkey, amount := data[0..32], data[32..64], ReadU64(data[64..72]);
      if |data| == EPHEMERAL_ATA_LEN then Some(EphemeralAta(owner, mint, amount, data[72]))
      else if |data| == LEGACY_EPHEMERAL_ATA_LEN then
        match chain.eata(owner, mint)
        case None => None
        case Some((_, bump)) => Some(EphemeralAta(owner, mint, amount, bump))
      else None
  }

  lemma EncodedFields(e: EphemeralAta)
    ensures var d := Encoded(e);
            d[0..32] == e.owner && d[32..64] == e.mint && d[64..72] == Le64(e.amount) && d[72] == e.bump
  {
  }

  /** Decoding the encoding gives the value back, exactly for those whose mint is a real key. */
  lemma RoundTrip(chain: Chain, e: EphemeralAta)
    ensures Decode(chain, Encoded(e)) == Some(e) <==> e.mint != DEFAULT_PUBKEY
  {
    EncodedFields(e);
    ReadLe64(e.amount);
  }

  /** Owner, mint, amount and bump in their places, and zeroes to the end: a reader of the layout
      gets the value back exactly for a mint that is a real key. */
  method Encode(e: EphemeralAta) returns (data: Bytes)
    ensures |data| == EPHEMERAL_ATA_LEN && data[73..] == [0, 0, 0, 0, 0, 0, 0]
    ensures data[0..32] == e.owner && data[32..64] == e.mint && ReadU64(data[64..72]) == e.amount && data[72] == e.bump
    ensures forall chain: Chain :: Decode(chain, data) == Some(e) <==> e.mint != DEFAULT_PUBKEY
  {
    data := [];
    data := data + e.owner;
    data := data + e.mint;
    data := data + Le64(e.amount);
    data := data + [e.bump];
    data := data + [0, 0, 0, 0, 0, 0, 0];
    assert data == Encoded(e);
    EncodedFields(e);
    ReadLe64(e.amount);
    forall chain: Chain ensures Decode(chain, data) == Some(e) <==> e.mint != DEFAULT_PUBKEY { RoundTrip(chain, e); }
  }

  /** The short form gives the value back exactly if its bump is the derived one. */
  lemma LegacyRoundTrip(chain: Chain, e: EphemeralAta)
    requires e.mint != DEFAULT_PUBKEY
    ensures Decode(chain, Encoded(e)[..LEGACY_EPHEMERAL_ATA_LEN]) == Some(e)
       <==> chain.eata(e.owner, e.mint).Some? && chain.eata(e.owner, e.mint).value.1 == e.bump
  {
    EncodedFields(e);
    ReadLe64(e.amount);
    var d := Encoded(e)[..LEGACY_EPHEMERAL_ATA_LEN];
    assert d[0..32] == e.owner && d[32..64] == e.mint && d[64..72] == Le64(e.amount);
  }

  /** What decodes encodes to the same bytes, padding aside. */
  lemma EncodeDecode(chain: Chain, data: Bytes)
    requires |data| == EPHEMERAL_ATA_LEN && Decode(chain, data).Some?
    ensures Encoded(Decode(chain, data).value)[..73] == data[..73]
  {
    var e := Decode(chain, data).value;
    assert Encoded(e)[..73] == e.owner + e.mint + Le64(e.amount) + [e.bump];
    assert data[..73] == data[0..32] + data[32..64] + data[64..72] + [data[72]];
  }

  // ----- token account data

  const MULTISIG_LEN: nat := 355
  const ACCOUNT_TYPE: Byte := 2

  /** Extensions may follow a token account of the newer program, behind a type byte. */
  predicate HasTokenLength(p: Program, d: Bytes) {
    || |d| == TOKEN_ACCOUNT_LEN
    || (p == Token2022Program && |d| > TOKEN_ACCOUNT_LEN && |d| != MULTISIG_LEN && d[TOKEN_ACCOUNT_LEN] == ACCOUNT_TYPE)
  }

  function UnpackBase(d: Bytes): Option<Token> {
    if |d| < TOKEN_ACCOUNT_LEN then None else Unpack(d[..TOKEN_ACCOUNT_LEN])
  }

  function UnpackFor(p: Program, d: Bytes): Option<Token> {
    if IsTokenProgram(p) && HasTokenLength(p, d) then UnpackBase(d) else None
  }

  function PackBase(t: Token, d: Bytes): (r: Bytes)
    requires |d| >= TOKEN_ACCOUNT_LEN
    ensures |r| == |d|
  {
    Pack(t, d[..TOKEN_ACCOUNT_LEN]) + d[TOKEN_ACCOUNT_LEN..]
  }

  lemma UnpackPackBase(p: Program, t: Token, d: Bytes)
    requires |d| >= TOKEN_ACCOUNT_LEN
    ensures UnpackBase(PackBase(t, d)) == Some(t)
    ensures IsTokenProgram(p) && HasTokenLength(p, d) ==> UnpackFor(p, PackBase(t, d)) == Some(t)
    ensures PackBase(t, d)[TOKEN_ACCOUNT_LEN..] == d[TOKEN_ACCOUNT_LEN..]
  {
    UnpackPack(t, d[..TOKEN_ACCOUNT_LEN]);
    assert PackBase(t, d)[..TOKEN_ACCOUNT_LEN] == Pack(t, d[..TOKEN_ACCOUNT_LEN]);
  }

  /** Where an unpacked account has its mint, its owner and its amount. */
  lemma UnpackedFields(d: Bytes)
    requires UnpackBase(d).Some?
    ensures var t := UnpackBase(d).value;
            d[0..32] == t.mint && d[32..64] == t.owner && ReadU64(d[64..72]) == t.amount
  {
    var b := d[..TOKEN_ACCOUNT_LEN];
    assert b[0..32] == d[0..32] && b[32..64] == d[32..64] && b[64..72] == d[64..72];
  }

  // ----- projecting into an ATA

  /** A projected account is not native and cannot be closed. */
  function Normalized(chain: Chain, p: Program, t: Token): Token {
    t.(isNative := if t.mint == chain.nativeMint(p) then None else t.isNative,
       closeAuthority := Some(DEFAULT_PUBKEY))
  }

  function Reserve(chain: Chain, p: Program, t: Token, lamports: U64): U64 {
    if t.mint == chain.nativeMint(p) && t.isNative.Some? then t.isNative.value else lamports
  }

  function NormalizeProjected(chain: Chain, account: Account): Option<Account> {
    if !IsTokenProgram(account.owner) then Some(account)
    else match UnpackFor(account.owner, account.data)
         case None => None
         case Some(t) =>
           Some(account.(data := PackBase(Normalized(chain, account.owner, t), account.data),
                         lamports := Reserve(chain, account.owner, t, account.lamports)))
  }

  function ProjectIntoAta(chain: Chain, e: EphemeralAta, account: Account): Option<Account> {
    if !IsTokenProgram(account.owner) || |account.data| < 72 then None
    else if account.data[0..32] != e.mint || account.data[32..64] != e.owner then None
    else NormalizeProjected(chain, account.(data := Overwrite(account.data, 64, Le64(e.amount))))
  }

  lemma AmountOverwritten(p: Program, d: Bytes, n: U64)
    requires |d| >= 72
    ensures UnpackFor(p, Overwrite(d, 64, Le64(n))) ==
            if UnpackFor(p, d).Some? then Some(UnpackFor(p, d).value.(amount := n)) else None
  {
    var r := Overwrite(d, 64, Le64(n));
    if |d| >= TOKEN_ACCOUNT_LEN {
      assert r[..TOKEN_ACCOUNT_LEN] == Overwrite(d[..TOKEN_ACCOUNT_LEN], 64, Le64(n));
      UnpackAmount(d[..TOKEN_ACCOUNT_LEN], n);
      assert r[TOKEN_ACCOUNT_LEN..] == d[TOKEN_ACCOUNT_LEN..];
      assert HasTokenLength(p, r) <==> HasTokenLength(p, d);
    }
  }

  /** Projection succeeds exactly on well-formed token accounts of the same mint and owner. Its
      result differs from the account in the amount, the close authority and, for native mints,
      the native reserve, which becomes the lamports. */
  predicate IsProjection(chain: Chain, e: EphemeralAta, account: Account, r: Option<Account>) {
    var t := UnpackFor(account.owner, account.data);
    && (r.Some? <==> t.Some? && t.value.mint == e.mint && t.value.owner == e.owner)
    && (r.Some? ==>
          && UnpackFor(account.owner, r.value.data)
             == Some(Normalized(chain, account.owner, t.value.(amount := e.amount)))
          && |r.value.data| == |account.data|
          && r.value.data[TOKEN_ACCOUNT_LEN..] == account.data[TOKEN_ACCOUNT_LEN..]
          && r.value == account.(data := r.value.data,
                                 lamports := Reserve(chain, account.owner, t.value, account.lamports)))
  }

  lemma ProjectionIs(chain: Chain, e: EphemeralAta, account: Account)
    ensures IsProjection(chain, e, account, ProjectIntoAta(chain, e, account))
  {
    var d := account.data;
    if IsTokenProgram(account.owner) && |d| >= 72 {
      AmountOverwritten(account.owner, d, e.amount);
      if UnpackFor(account.owner, d).Some? {
        UnpackedFields(d);
        var r := Overwrite(d, 64, Le64(e.amount));
        UnpackPackBase(account.owner, Normalized(chain, account.owner, UnpackFor(account.owner, r).value), r);
        assert r[TOKEN_ACCOUNT_LEN..] == d[TOKEN_ACCOUNT_LEN..];
      }
    }
  }

  /** The same on a buffer: copy, overwrite the amount, unpack, adjust, pack over the copy. */
  method ProjectIntoAtaAccount(chain: Chain, e: EphemeralAta, account: Account) returns (r: Option<Account>)
    ensures r == ProjectIntoAta(chain, e, account) && IsProjection(chain, e, account, r)
  {
    ProjectionIs(chain, e, account);
    if !IsTokenProgram(account.owner) || |account.data| < 72 {
      return None;
    }
    if account.data[0..32] != e.mint || account.data[32..64] != e.owner {
      return None;
    }
    var data := account.data;
    data := Overwrite(data, 64, Le64(e.amount));
    var unpacked := UnpackFor(account.owner, data);
    if unpacked == None {
      return None;
    }
    var token, lamports := unpacked.value, account.lamports;
    if token.mint == chain.nativeMint(account.owner) && token.isNative.Some? {
      lamports := token.isNative.value;
      token := token.(isNative := None);
    }
    token := token.(closeAuthority := Some(DEFAULT_PUBKEY));
    data := PackBase(token, data);
    return Some(account.(data := data, lamports := lamports));
  }

  // ----- cloning native accounts

  /** A native account is cloned as an ordinary one whose reserve is all its lamports. */
  function NormalizeNative(chain: Chain, account: Account): Option<Account> {
    if !IsTokenProgram(account.owner) then Some(account)
    else match UnpackFor(account.owner, account.data)
         case None => None
         case Some(t) =>
           if t.mint != chain.nativeMint(account.owner) || t.isNative == None then Some(account)
           else Some(account.(
             data := PackBase(t.(isNative := None, closeAuthority := Some(DEFAULT_PUBKEY)), account.data),
             lamports := t.isNative.value))
  }

  /** Only malformed token accounts are refused; no tokens are lost, nothing stays native, and
      normalizing again changes nothing. */
  lemma NativeNormalization(chain: Chain, account: Account)
    ensures var r := NormalizeNative(chain, account);
            && (r == None <==> IsTokenProgram(account.owner) && UnpackFor(account.owner, account.data) == None)
            && (r.Some? ==> NormalizeNative(chain, r.value) == r)
            && (r.Some? && IsTokenProgram(account.owner) ==>
                  var t, u := UnpackFor(account.owner, account.data).value, UnpackFor(account.owner, r.value.data);
                  && u.Some?
                  && (t.mint == chain.nativeMint(account.owner) && t.isNative.Some? ==>
                        && u.value == t.(isNative := None, closeAuthority := Some(DEFAULT_PUBKEY))
                        && r.value == account.(data := r.value.data, lamports := t.isNative.value)
                        && r.value.data[TOKEN_ACCOUNT_LEN..] == account.data[TOKEN_ACCOUNT_LEN..])
                  && (t.mint != chain.nativeMint(account.owner) || t.isNative == None ==> r.value == account))
            && (!IsTokenProgram(account.owner) ==> r == Some(account))
  {
    if UnpackFor(account.owner, account.data).Some? {
      var t := UnpackFor(account.owner, account.data).value;
      UnpackPackBase(account.owner, t.(isNative := None, closeAuthority := Some(DEFAULT_PUBKEY)), account.data);
    }
  }

  // ----- and back

  function RemapAtaToEata(chain: Chain, pubkey: Pubkey, account: Account): Option<(Pubkey, EphemeralAta)> {
    if !IsTokenProgram(account.owner) || account.mode != Delegated || |account.data| < 72 then None
    else
      var mint: Pubkey, owner: Pubkey, amount := account.data[0..32], account.data[32..64],
          ReadU64(account.data[64..72]);
      match chain.eata(owner, mint)
      case None => None
      case Some((eata, bump)) =>
        if chain.ata(owner, mint, account.owner) != pubkey then None
        else Some((eata, EphemeralAta(owner, mint, amount, bump)))
  }

  /** A delegated token account at its own address maps to what its data say. */
  lemma RemapReads(chain: Chain, account: Account)
    requires UnpackFor(account.owner, account.data).Some? && account.mode == Delegated
    ensures var t := UnpackFor(account.owner, account.data).value;
            RemapAtaToEata(chain, chain.ata(t.owner, t.mint, account.owner), account) ==
            match chain.eata(t.owner, t.mint)
            case None => None
            case Some((key, bump)) => Some((key, EphemeralAta(t.owner, t.mint, t.amount, bump)))
  {
    UnpackedFields(account.data);
  }

  /** Projecting into the ATA and mapping back gives the same owner, mint and amount, with the
      canonical bump: for both token programs, native mints or not. */
  lemma ProjectThenRemap(chain: Chain, e: EphemeralAta, account: Account)
    requires ProjectIntoAta(chain, e, account).Some? && chain.eata(e.owner, e.mint).Some?
    ensures var projected := ProjectIntoAta(chain, e, account).value.(mode := Delegated);
            var (key, bump) := chain.eata(e.owner, e.mint).value;
            RemapAtaToEata(chain, chain.ata(e.owner, e.mint, account.owner), projected) == Some((key, e.(bump := bump)))
  {
    ProjectionIs(chain, e, account);
    RemapReads(chain, ProjectIntoAta(chain, e, account).value.(mode := Delegated));
  }

  // ----- Magic ATAs

  datatype MagicAtaInfo = MagicAtaInfo(ata: Pubkey, program: Program, walletOwner: Pubkey, mint: Pubkey, amount: U64)

  function MagicInfo(chain: Chain, pubkey: Pubkey, account: Account): Option<MagicAtaInfo> {
    if account.mode != Magic then None
    else match UnpackFor(account.owner, account.data)
         case None => None
         case Some(t) =>
           if t.closeAuthority != Some(chain.magicCloseAuthority) || t.isNative.Some? then None
           else if t.owner == DEFAULT_PUBKEY || t.mint == DEFAULT_PUBKEY then None
           else if chain.ata(t.owner, t.mint, account.owner) != pubkey then None
           else Some(MagicAtaInfo(pubkey, account.owner, t.owner, t.mint, t.amount))
  }

  /** A projection never passes for a Magic ATA, as long as the marker is not the default key. */
  lemma ProjectionIsNotMagic(chain: Chain, e: EphemeralAta, account: Account, pubkey: Pubkey, mode: AccountMode)
    requires ProjectIntoAta(chain, e, account).Some? && chain.magicCloseAuthority != DEFAULT_PUBKEY
    ensures MagicInfo(chain, pubkey, ProjectIntoAta(chain, e, account).value.(mode := mode)) == None
  {
    ProjectionIs(chain, e, account);
  }
}
