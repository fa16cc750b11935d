/** The wallet library (src/wallet_lib.rs): key creation, the transfer request,
    and the status check of the backup POST. The curve library, web3 and the
    HTTP client are outside the model. */
module WalletLib {
  import opened Prelude
  import opened Http
  import Serde

  /** A secp256k1 secret key, `seckey[..]`: 32 bytes. */
  type SecretKey = s: seq<byte> | |s| == 32 witness seq(32, _ => 1)

  /** A secp256k1 public key, represented by its compressed serialisation
      `pubkey.serialize()`: 33 bytes. */
  type PublicKey = s: seq<byte> | |s| == 33 witness seq(33, _ => 2)

  /** An `H160` address. */
  type Address = s: seq<byte> | |s| == 20 witness seq(20, _ => 0)

  /** An `H256` transaction hash. */
  type H256 = s: seq<byte> | |s| == 32 witness seq(32, _ => 0)

  /** `secp.generate_keypair(&mut rng)` with `rng = StdRng::seed_from_u64(seed)`:
      the curve library and the seeded generator are deterministic, so the pair
      is a function of the seed alone. */
  type KeyGenerator = nat -> (SecretKey, PublicKey)

  /** The seed `create_keypair` gives its generator on every call. */
  const RNG_SEED: nat := 6

  /** `create_keypair`: never fails, and seeds a fresh generator with the constant
      6, so it yields one and the same pair on every call. */
  function CreateKeypair(generate: KeyGenerator): (r: Result<(SecretKey, PublicKey)>)
    ensures r == Ok(generate(RNG_SEED))
  {
    Ok(generate(RNG_SEED))
  }

  /** `SecretKey::from_slice`: accepts exactly 32 bytes. */
  function SecretKeyFromSlice(bytes: seq<byte>): (r: Result<SecretKey>)
    ensures r.Ok? <==> |bytes| == 32
    ensures r.Ok? ==> r.value == bytes
  {
    if |bytes| == 32 then Ok(bytes) else Err("malformed or out-of-range secret key")
  }

  /** 2^256: `U256` holds the integers below it. */
  const U256_LIMIT: int := 0x1_0000_0000_0000_0000_0000_0000_0000_0000_0000_0000_0000_0000_0000_0000_0000_0000

  newtype U256 = x: int | 0 <= x < U256_LIMIT

  function Pow10(n: nat): nat
  {
    if n == 0 then 1 else 10 * Pow10(n - 1)
  }

  /** `U256::exp10(n)`: `exp10(n - 1) * 10`, where the multiplication panics on
      overflow; `None` stands for that panic. */
  function Exp10(n: nat): (r: Option<U256>)
    ensures r.Some? ==> r.value as int == Pow10(n)
  {
    if n == 0 then Some(1)
    else
      match Exp10(n - 1)
      case None => None
      case Some(p) => if p as int * 10 < U256_LIMIT then Some((p as int * 10) as U256) else None
  }

  lemma {:induction false} Pow10Add(a: nat, b: nat)
    ensures Pow10(a + b) == Pow10(a) * Pow10(b)
  {
    if a > 0 {
      Pow10Add(a - 1, b);
    }
  }

  /** 10^77 < 2^256 <= 10^78: 77 is the largest exponent `U256::exp10` accepts. */
  lemma LimitBetweenPowers()
    ensures Pow10(77) < U256_LIMIT <= Pow10(78)
  {
    assert Pow10(11) == 100_000_000_000;
    Pow10Add(11, 11);
    assert Pow10(22) == 10_000_000_000_000_000_000_000;
    Pow10Add(22, 22);
    assert Pow10(44) == 100_000_000_000_000_000_000_000_000_000_000_000_000_000_000;
    Pow10Add(44, 22);
    assert Pow10(66) == 1_000_000_000_000_000_000_000_000_000_000_000_000_000_000_000_000_000_000_000_000_000_000;
    Pow10Add(66, 11);
    assert Pow10(77) == 100_000_000_000_000_000_000_000_000_000_000_000_000_000_000_000_000_000_000_000_000_000_000_000_000_000;
    assert Pow10(78) == 10 * Pow10(77);
  }

  lemma {:induction false} Pow10Grows(m: nat, n: nat)
    requires m <= n
    ensures Pow10(m) <= Pow10(n)
  {
    if m < n {
      Pow10Grows(m, n - 1);
    }
  }

  /** `U256::exp10(n)` returns exactly when 10^n fits in 256 bits, that is for
      n <= 77, and then returns 10^n; from 78 on it panics. */
  lemma {:induction false} Exp10Defined(n: nat)
    ensures Exp10(n).Some? <==> n <= 77
    ensures n <= 77 ==> Exp10(n).value as int == Pow10(n)
  {
    LimitBetweenPowers();
    if n > 0 {
      Exp10Defined(n - 1);
      if n <= 77 {
        Pow10Grows(n, 77);
      } else if n == 78 {
        assert Pow10(77) * 10 == Pow10(78);
      }
    }
  }

  /** web3's `TransactionParameters`. */
  datatype TransactionParameters = TransactionParameters(
    nonce: Option<U256>,
    to: Option<Address>,
    gas: U256,
    gasPrice: Option<U256>,
    value: U256,
    data: seq<byte>,
    chainId: Option<nat>,
    transactionType: Option<nat>,
    maxFeePerGas: Option<U256>,
    maxPriorityFeePerGas: Option<U256>)

  /** web3's default gas limit for a transaction. */
  const DEFAULT_GAS: U256 := 100_000

  /** `TransactionParameters::default()`: no recipient, no value, default gas, everything else unset. */
  const DEFAULT_TRANSACTION := TransactionParameters(None, None, DEFAULT_GAS, None, 0, [], None, None, None, None)

  /** `create_txn_object`: a transfer of 10^value to `to`, everything else left at
      its default. It never returns an error; for `value` > 77 `U256::exp10`
      panics, so callers keep to 77. */
  function CreateTxnObject(to: Address, value: nat): (r: Result<TransactionParameters>)
    requires value <= 77
    ensures r.Ok?
    ensures r.value.to == Some(to)
    ensures r.value.value as int == Pow10(value)
    ensures r.value.(to := None, value := 0) == DEFAULT_TRANSACTION
  {
    Exp10Defined(value);
    Ok(DEFAULT_TRANSACTION.(to := Some(to), value := Exp10(value).value))
  }

  /** The client's `KeyPair`, as built from a generated pair and posted for backup. */
  datatype KeyPair = KeyPair(publicKey: seq<byte>, secretKey: seq<byte>)

  /** The JSON body `.json(keypair)` posts: the two fields, in declaration order,
      each a byte array. */
  function ToJson(kp: KeyPair): (v: Serde.Value)
    ensures v.Object? && |v.members| == 2
    ensures v.members[0].0 == "public_key" && Serde.DecodeBytes(v.members[0].1) == Some(kp.publicKey)
    ensures v.members[1].0 == "secret_key" && Serde.DecodeBytes(v.members[1].1) == Some(kp.secretKey)
  {
    Serde.BytesRoundTrip(kp.publicKey);
    Serde.BytesRoundTrip(kp.secretKey);
    Serde.Object([("public_key", Serde.EncodeBytes(kp.publicKey)), ("secret_key", Serde.EncodeBytes(kp.secretKey))])
  }

  /** The network side of the POST to `/add_keypair`: the response status, or a
      transport error that `.send().await?` propagates. */
  type Transport = Serde.Value -> Result<StatusCode>

  const BACKUP_REJECTED := "Failed to send keypair to backup service"

  /** `send_keypair_to_backup_service`: Ok exactly when the POST gets a 2xx
      answer; a transport error is passed on, any other status becomes an error. */
  function SendKeypairToBackupService(kp: KeyPair, post: Transport): (r: Result<()>)
    ensures var answer := post(ToJson(kp));
      && (r.Ok? <==> answer.Ok? && IsSuccess(answer.value))
      && (answer.Err? ==> r == Err(answer.error))
      && (answer.Ok? && !IsSuccess(answer.value) ==> r == Err(BACKUP_REJECTED))
  {
    match post(ToJson(kp))
    case Err(e) => Err(e)
    case Ok(status) => if IsSuccess(status) then Ok(()) else Err(BACKUP_REJECTED)
  }

  /** `sign_and_send`: signing and `send_raw_transaction` happen at the chain
      node, which answers with the transaction hash or an error. */
  type Broadcast = (TransactionParameters, SecretKey) -> Result<H256>
}
