/** The byte layout of a token account: 165 bytes, integers little-endian, options as a four-byte
    tag and a body that is left alone when the option is empty. */
module TokenLayout {
  import opened Options

  type Byte = n: nat | n < 256

  type Bytes = seq<Byte>

  type Pubkey = b: Bytes | |b| == 32 witness seq(32, i => 0)

  const DEFAULT_PUBKEY: Pubkey := seq(32, i => 0)

  const TOKEN_ACCOUNT_LEN: nat := 165

  type U64 = n: nat | n < 0x1_0000_0000_0000_0000

  // ----- integers

  function Pow256(k: nat): nat {
    if k == 0 then 1 else 256 * Pow256(k - 1)
  }

  function ToLe(n: nat, k: nat): (b: Bytes)
    ensures |b| == k
  {
    if k == 0 then [] else [n % 256] + ToLe(n / 256, k - 1)
  }

  function FromLe(b: Bytes): nat {
    if b == [] then 0 else b[0] + 256 * FromLe(b[1..])
  }

  lemma {:induction false} FromToLe(n: nat, k: nat)
    requires n < Pow256(k)
    ensures FromLe(ToLe(n, k)) == n
  {
    if k > 0 {
      assert n / 256 < Pow256(k - 1);
      FromToLe(n / 256, k - 1);
      assert ToLe(n, k)[1..] == ToLe(n / 256, k - 1);
    }
  }

  lemma {:induction false} ToFromLe(b: Bytes)
    ensures FromLe(b) < Pow256(|b|) && ToLe(FromLe(b), |b|) == b
  {
    if b != [] {
      ToFromLe(b[1..]);
      var rest := FromLe(b[1..]);
      assert (b[0] + 256 * rest) / 256 == rest && (b[0] + 256 * rest) % 256 == b[0];
      assert b == [b[0]] + b[1..];
    }
  }

  lemma Pow256Of8()
    ensures Pow256(8) == 0x1_0000_0000_0000_0000
  {
    assert Pow256(2) == 0x1_0000;
    assert Pow256(4) == 0x1_0000_0000;
    assert Pow256(6) == 0x1_0000_0000_0000;
  }

  function Le64(n: U64): (b: Bytes)
    ensures |b| == 8
  {
    ToLe(n, 8)
  }

  function ReadU64(b: Bytes): (n: U64)
    requires |b| == 8
    ensures Le64(n) == b
  {
    ToFromLe(b);
    Pow256Of8();
    FromLe(b)
  }

  lemma ReadLe64(n: U64)
    ensures ReadU64(Le64(n)) == n
  {
    Pow256Of8();
    FromToLe(n, 8);
  }

  // ----- writing into a buffer

  function Overwrite(d: Bytes, at: nat, b: Bytes): (r: Bytes)
    requires at + |b| <= |d|
    ensures |r| == |d|
  {
    d[..at] + b + d[at + |b|..]
  }

  /** The written part reads back, every other part is as before. */
  lemma OverwriteFrame(d: Bytes, at: nat, b: Bytes)
    requires at + |b| <= |d|
    ensures Overwrite(d, at, b)[at..at + |b|] == b
    ensures forall lo, hi :: 0 <= lo <= hi <= at || at + |b| <= lo <= hi <= |d| ==>
              Overwrite(d, at, b)[lo..hi] == d[lo..hi]
  {
    var r := Overwrite(d, at, b);
    forall lo, hi | 0 <= lo <= hi <= at || at + |b| <= lo <= hi <= |d| ensures r[lo..hi] == d[lo..hi] {
    }
  }

  // ----- the account

  datatype AccountState = Initialized | Frozen

  datatype Token = Token(
    mint: Pubkey,
    owner: Pubkey,
    amount: U64,
    delegate: Option<Pubkey>,
    state: AccountState,
    isNative: Option<U64>,
    delegatedAmount: U64,
    closeAuthority: Option<Pubkey>)

  /** An option of `n` bytes at `at`; other tags than the two are malformed. */
  function GetOption(d: Bytes, at: nat, n: nat): (r: Option<Option<Bytes>>)
    requires at + 4 + n <= |d|
    ensures r.Some? && r.value.Some? ==> |r.value.value| == n
  {
    if d[at..at + 4] == [0, 0, 0, 0] then Some(None)
    else if d[at..at + 4] == [1, 0, 0, 0] then Some(Some(d[at + 4..at + 4 + n]))
    else None
  }

  /** An empty option clears its tag only. */
  function PutOption(d: Bytes, at: nat, n: nat, body: Option<Bytes>): (r: Bytes)
    requires at + 4 + n <= |d| && (body.Some? ==> |body.value| == n)
    ensures |r| == |d|
  {
    match body
    case None => Overwrite(d, at, [0, 0, 0, 0])
    case Some(b) => Overwrite(d, at, [1, 0, 0, 0] + b)
  }

  lemma PutOptionFrame(d: Bytes, at: nat, n: nat, body: Option<Bytes>)
    requires at + 4 + n <= |d| && (body.Some? ==> |body.value| == n)
    ensures GetOption(PutOption(d, at, n, body), at, n) == Some(body)
    ensures forall lo, hi :: 0 <= lo <= hi <= at || at + 4 + n <= lo <= hi <= |d| ==>
        PutOption(d, at, n, body)[lo..hi] == d[lo..hi]
  {
    match body
    case None => OverwriteFrame(d, at, [0, 0, 0, 0]);
    case Some(b) =>
      OverwriteFrame(d, at, [1, 0, 0, 0] + b);
      var r := PutOption(d, at, n, body);
      assert r[at..at + 4] == r[at..at + 4 + n][..4] == [1, 0, 0, 0];
      assert r[at + 4..at + 4 + n] == r[at..at + 4 + n][4..] == b;
  }

  function AsU64(b: Option<Bytes>): Option<U64>
    requires b.Some? ==> |b.value| == 8
  {
    match b case None => None case Some(x) => Some(ReadU64(x))
  }

  function FromU64(n: Option<U64>): (b: Option<Bytes>)
    ensures b.Some? ==> |b.value| == 8
  {
    match n case None => None case Some(x) => Some(Le64(x))
  }

  function FromKey(k: Option<Pubkey>): (b: Option<Bytes>)
    ensures b.Some? ==> |b.value| == 32
  {
    match k case None => None case Some(x) => Some(x)
  }

  function AsKey(b: Option<Bytes>): Option<Pubkey>
    requires b.Some? ==> |b.value| == 32
  {
    match b case None => None case Some(x) => (var k: Pubkey := x; Some(k))
  }

  function StateByte(s: AccountState): Byte {
    match s case Initialized => 1 case Frozen => 2
  }

  /** Fails on a wrong length, a malformed option, and a state that is unknown or uninitialised. */
  function Unpack(d: Bytes): Option<Token> {
    if |d| != TOKEN_ACCOUNT_LEN then None
    else
      var delegate, native, close := GetOption(d, 72, 32), GetOption(d, 109, 8), GetOption(d, 129, 32);
      if delegate == None || native == None || close == None || (d[108] != 1 && d[108] != 2) then None
      else Some(Token(
        d[0..32], d[32..64], ReadU64(d[64..72]), AsKey(delegate.value),
        if d[108] == 1 then Initialized else Frozen,
        AsU64(native.value), ReadU64(d[121..129]), AsKey(close.value)))
  }

  /** The fields up to the delegate, and nothing behind them. */
  function PackFront(t: Token, d: Bytes): (r: Bytes)
    requires |d| == TOKEN_ACCOUNT_LEN
    ensures |r| == TOKEN_ACCOUNT_LEN
  {
    var d := Overwrite(d, 0, t.mint);
    var d := Overwrite(d, 32, t.owner);
    var d := Overwrite(d, 64, Le64(t.amount));
    PutOption(d, 72, 32, FromKey(t.delegate))
  }

  function PackBack(t: Token, d: Bytes): (r: Bytes)
    requires |d| == TOKEN_ACCOUNT_LEN
    ensures |r| == TOKEN_ACCOUNT_LEN
  {
    var d := Overwrite(d, 108, [StateByte(t.state)]);
    var d := PutOption(d, 109, 8, FromU64(t.isNative));
    var d := Overwrite(d, 121, Le64(t.delegatedAmount));
    PutOption(d, 129, 32, FromKey(t.closeAuthority))
  }

  function Pack(t: Token, d: Bytes): (r: Bytes)
    requires |d| == TOKEN_ACCOUNT_LEN
    ensures |r| == TOKEN_ACCOUNT_LEN
  {
    PackBack(t, PackFront(t, d))
  }

  lemma SameOption(d: Bytes, e: Bytes, at: nat, n: nat)
    requires |d| == |e| && at + 4 + n <= |d|
    requires d[at..at + 4] == e[at..at + 4] && d[at + 4..at + 4 + n] == e[at + 4..at + 4 + n]
    ensures GetOption(d, at, n) == GetOption(e, at, n)
  {
  }

  lemma PackFrontFields(t: Token, d: Bytes)
    requires |d| == TOKEN_ACCOUNT_LEN
    ensures var r := PackFront(t, d);
            && r[0..32] == t.mint && r[32..64] == t.owner && r[64..72] == Le64(t.amount)
            && GetOption(r, 72, 32) == Some(FromKey(t.delegate))
  {
    var d1 := Overwrite(d, 0, t.mint);
    var d2 := Overwrite(d1, 32, t.owner);
    var d3 := Overwrite(d2, 64, Le64(t.amount));
    OverwriteFrame(d, 0, t.mint);
    OverwriteFrame(d1, 32, t.owner);
    OverwriteFrame(d2, 64, Le64(t.amount));
    PutOptionFrame(d3, 72, 32, FromKey(t.delegate));
    hide Overwrite;
    hide PutOption;
    hide GetOption;
    hide Le64;
  }

  lemma PackBackFields(t: Token, d: Bytes)
    requires |d| == TOKEN_ACCOUNT_LEN
    ensures var r := PackBack(t, d);
            && r[108] == StateByte(t.state) && GetOption(r, 109, 8) == Some(FromU64(t.isNative))
            && r[121..129] == Le64(t.delegatedAmount) && GetOption(r, 129, 32) == Some(FromKey(t.closeAuthority))
    ensures forall lo, hi :: 0 <= lo <= hi <= 108 ==> PackBack(t, d)[lo..hi] == d[lo..hi]
  {
    var d1 := Overwrite(d, 108, [StateByte(t.state)]);
    var d2 := PutOption(d1, 109, 8, FromU64(t.isNative));
    var d3 := Overwrite(d2, 121, Le64(t.delegatedAmount));
    OverwriteFrame(d, 108, [StateByte(t.state)]);
    PutOptionFrame(d1, 109, 8, FromU64(t.isNative));
    OverwriteFrame(d2, 121, Le64(t.delegatedAmount));
    PutOptionFrame(d3, 129, 32, FromKey(t.closeAuthority));
    hide Overwrite;
    hide PutOption;
    hide Le64;
    var r := PackBack(t, d);
    SameOption(r, d2, 109, 8);
    hide GetOption;
    assert r[108..109] == d1[108..109];
    assert r[108] == r[108..109][0];
  }

  /** Packing over any old content and unpacking again gives the account back. */
  lemma UnpackPack(t: Token, d: Bytes)
    requires |d| == TOKEN_ACCOUNT_LEN
    ensures Unpack(Pack(t, d)) == Some(t)
  {
    var front := PackFront(t, d);
    PackFrontFields(t, d);
    PackBackFields(t, front);
    SameOption(front, PackBack(t, front), 72, 32);
    ReadLe64(t.amount);
    ReadLe64(t.delegatedAmount);
    if t.isNative.Some? { ReadLe64(t.isNative.value); }
    hide PackFront;
    hide PackBack;
    hide GetOption;
    hide Le64;
    hide ReadU64;
  }

  lemma OverwriteSelf(d: Bytes, at: nat, n: nat)
    requires at + n <= |d|
    ensures Overwrite(d, at, d[at..at + n]) == d
  {
  }

  lemma PutOptionSelf(d: Bytes, at: nat, n: nat)
    requires at + 4 + n <= |d| && GetOption(d, at, n).Some?
    ensures PutOption(d, at, n, GetOption(d, at, n).value) == d
  {
    OverwriteSelf(d, at, 4);
    OverwriteSelf(d, at, 4 + n);
    assert d[at..at + 4] + d[at + 4..at + 4 + n] == d[at..at + 4 + n];
  }

  /** Packing what was unpacked over the same bytes changes none of them. */
  lemma PackUnpack(d: Bytes)
    requires Unpack(d).Some?
    ensures Pack(Unpack(d).value, d) == d
  {
    OverwriteSelf(d, 0, 32);
    OverwriteSelf(d, 32, 32);
    OverwriteSelf(d, 64, 8);
    PutOptionSelf(d, 72, 32);
    OverwriteSelf(d, 108, 1);
    assert d[108..109] == [d[108]];
    PutOptionSelf(d, 109, 8);
    OverwriteSelf(d, 121, 8);
    PutOptionSelf(d, 129, 32);
    hide Overwrite;
    hide PutOption;
    hide GetOption;
    hide Le64;
    hide ReadU64;
  }

  /** The amount may be overwritten in place; everything else reads as before. */
  lemma UnpackAmount(d: Bytes, n: U64)
    requires |d| == TOKEN_ACCOUNT_LEN
    ensures Unpack(Overwrite(d, 64, Le64(n))) ==
            if Unpack(d).Some? then Some(Unpack(d).value.(amount := n)) else None
  {
    var r := Overwrite(d, 64, Le64(n));
    OverwriteFrame(d, 64, Le64(n));
    ReadLe64(n);
    hide Overwrite;
    hide Le64;
    SameOption(r, d, 72, 32);
    SameOption(r, d, 109, 8);
    SameOption(r, d, 129, 32);
    hide GetOption;
    hide ReadU64;
    assert r[108] == r[108..109][0] == d[108..109][0] == d[108];
    assert r[121..129] == d[121..129] && r[0..32] == d[0..32] && r[32..64] == d[32..64];
  }
}
