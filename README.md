# aerolock wallet and key-backup service: a verified model

aerolock is made of two programs:

- **A desktop Ethereum wallet.** It holds an in-memory vector of secp256k1 keypairs and a status label. It reacts to three button messages. `NewWallet` creates a keypair. `Send` signs a transfer with the first keypair and broadcasts it. `Backup` posts every keypair as JSON to a backup service.
- **The backup service.** It keeps the keypairs it receives in a registry. On `/backup` it uploads entry `i` as the object `backup-keys-<i>` of the bucket `key-backup`. The upload stops at the first refusal and the result is mapped to a 200 or 500 response.

The Dafny model has these modules:

| module | file | what it holds |
|---|---|---|
| `Prelude` | prelude.dfy | bytes, `Option` and `Result`; an error is kept as its message text |
| `Fmt` | fmt.dfy | the Rust formatting the programs rely on: `{}` on integers, `{:?}` on `Vec<u8>`, hexadecimal bytes. It also proves decimal round trip and injectivity |
| `Http` | http.dfy | status codes, `is_success`, a response |
| `Serde` | serde.dfy | JSON values as serde produces and reads them, with a byte-array round trip |
| `BackupService` | backup_service.dfy | the registry (`class Registry`), the bucket (`class ObjectStore`), the flush and the `/backup` response |
| `WalletLib` | wallet_lib.dfy | `create_keypair`, `create_txn_object` with `U256::exp10`, `SecretKey::from_slice`, and the backup POST's status check |
| `WalletApp` | wallet_app.dfy | the `WalletMessage` dispatch over the keypair vector and the label (`class Wallet`) |
| `BackupProtocol` | backup_protocol.dfy | proof that the body the wallet posts is the keypair the service stores |

External services are function parameters. Each is chosen freely by the caller, so every property holds for all of their behaviours:

- the storage service's answer to an upload (`BackupService.Answer`);
- the backup service's HTTP status for each POST attempt (`WalletLib.Transport`, one per attempt);
- the chain node's answer to a signed transaction (`WalletLib.Broadcast`);
- the address parser (`WalletApp.AddressParser`);
- the curve library's seeded key generation (`WalletLib.KeyGenerator`, a function of the seed).

`create_keypair` seeds its generator with the constant 6. Because of that, `WalletApp.Wallet.Valid` holds after every message: every keypair the wallet holds is one and the same pair. That is the program's actual behaviour, and it is a security defect.

## Model

| member | source | states |
|---|---|---|
| BackupService.Registry.constructor | backup-service/src/main.rs:31 | the registry starts empty |
| BackupService.Registry.AddKeypair | backup-service/src/main.rs:58-65 | appends exactly the posted keypair at the end. Earlier entries stay as they were. There is no deduplication or validation: the length grows by one on every call, repeats included. It always answers 200 "KeyPair Added" |
| BackupService.Registry.BackupKeysToGcs | backup-service/src/main.rs:67-89 | the result is `FlushResult`. The requests sent are the uploads of entries `0..k`, in index order, where `k` is the first refused upload. The bucket then holds the accepted uploads `0..k-1` applied in order. The registry is only read |
| BackupService.Registry.Backup | backup-service/src/main.rs:48-56 | the response is `BackupResponse` of the flush result, with the same effect on the bucket as the flush |
| BackupService.BackupResponse | backup-service/src/main.rs:52-54 | 200 exactly when the flush succeeded. The body is "Backup Successful" on success. On failure it is 500 with "Backup Failed: " followed by the error |
| BackupService.ObjectStore.UploadObject | backup-service/src/main.rs:84-86 | the request is recorded in `requests`; the object is written only if the service accepts it, and the answer is returned |
| BackupService.Uploads | backup-service/src/main.rs:71-82 | there is one upload per entry, in index order. Upload `i` goes to bucket `key-backup`, is named `backup-keys-<i>`, and holds the entry's debug dump |
| BackupService.ObjectName | backup-service/src/main.rs:76 | definition: `format!("backup-keys-{}", i)`, the prefix followed by the decimal index |
| BackupService.Dump | backup-service/src/main.rs:74 | definition: the derived `{:?}` text "KeyPair { public_key: [..], secret_key: [..] }" with both byte lists |
| BackupService.FlushResult | backup-service/src/main.rs:67-89 | definition: the `Result` the flush returns, Ok when no upload is refused and otherwise the first refused upload's error |
| BackupService.Stored | backup-service/src/main.rs:84-86 | definition: the bucket after the accepted uploads in order, each writing its data under its bucket and name |
| BackupService.ObjectNameInjective | backup-service/src/main.rs:76 | distinct indices give distinct object names |
| BackupService.UploadsDistinct | backup-service/src/main.rs:73-76 | no two uploads of one flush name the same object |
| BackupService.DumpInjective | backup-service/src/main.rs:74 | the uploaded text is the `{:?}` dump of the entry, and distinct keypairs give distinct dumps, so each object determines its entry |
| BackupService.DumpShape | backup-service/src/main.rs:74 | the dump is "KeyPair { public_key: [..], secret_key: [..] }" with both byte lists in it, the secret key included |
| BackupService.FirstRefused | backup-service/src/main.rs:84-86 | the first refused position lies within the uploads |
| BackupService.FirstRefusedSpec | backup-service/src/main.rs:73-86 | every upload before the first refusal is accepted, and the one at it is refused |
| BackupService.RefusedAt | backup-service/src/main.rs:73-86 | after an unbroken run of `k` accepted uploads, the first refusal is exactly `k` if upload `k` is refused, or the end if none is left |
| BackupService.FlushStep | backup-service/src/main.rs:84-86 | one loop step: an accepted upload lies before the first refusal, and a refused one is it |
| BackupService.FlushOkIff | backup-service/src/main.rs:73-88 | the flush succeeds if and only if every entry's upload is accepted; an empty registry succeeds with no uploads |
| BackupService.FlushStopsAtFirstRefusal | backup-service/src/main.rs:84-86 | if upload `k` is the first refused one, the flush attempts exactly `k+1` uploads and fails with that upload's error; later indices are never attempted |
| BackupService.FlushWrites | backup-service/src/main.rs:73-88 | after a flush stopping at `k`, objects `backup-keys-0..k-1` hold their entries' dumps; objects of later indices are exactly as before; no other object appears |
| BackupService.StoredSnoc | backup-service/src/main.rs:84-86 | applying one more accepted upload writes its data under its name |
| BackupService.StoredContents | backup-service/src/main.rs:84-86 | with distinct names, every upload leaves its own data behind, and every other object keeps its data |
| BackupService.StoredOverlay | backup-service/src/main.rs:84-86 | the uploads' objects are laid over what the bucket held, later uploads winning |
| BackupService.ReflushIdempotent | backup-service/src/main.rs:67-89 | a second fully accepted flush of an unchanged registry leaves the bucket as the first one did |
| BackupService.UploadsGrow | backup-service/src/main.rs:63-76 | after an entry is added, a flush re-uploads the earlier entries under the same names and adds the next index |
| BackupService.FromJson | backup-service/src/main.rs:12-16 | the `web::Json<KeyPair>` extraction, as serde's derived `Deserialize` for a struct decides it on the parsed value. An object is accepted if and only if it holds `public_key` and `secret_key` exactly once each and both are byte arrays. An array is accepted if and only if it has exactly two items and both are byte arrays. Any other value is refused. An accepted body keeps the decoded bytes |
| BackupService.Decoded | backup-service/src/main.rs:14-15 | the two fields are read if and only if both are byte arrays, and then they keep their decoded bytes |
| BackupService.ObjectAccepted | backup-service/src/main.rs:12-16 | an object is accepted whatever the order of its members and whatever other members it has, as long as each field occurs once as a byte array |
| BackupService.SequenceAccepted | backup-service/src/main.rs:12-16 | the array form `[public_key, secret_key]` is accepted too |
| BackupProtocol.KeyPairRoundTrip | src/wallet_lib.rs:38-47 | the service decodes the wallet's posted JSON into a keypair with exactly the same public- and secret-key bytes |
| WalletLib.CreateKeypair | src/wallet_lib.rs:14-18 | never fails, and returns the pair generated from seed 6, the same pair on every call |
| WalletLib.SecretKeyFromSlice | src/main.rs:97 | accepts its bytes if and only if there are 32, and then keeps them unchanged |
| WalletLib.Exp10 | src/wallet_lib.rs:28 | a power returned is 10^n |
| WalletLib.Exp10Defined | src/wallet_lib.rs:28 | `U256::exp10(n)` returns if and only if n <= 77, and then returns 10^n |
| WalletLib.LimitBetweenPowers | src/wallet_lib.rs:28 | 10^77 < 2^256 <= 10^78 |
| WalletLib.DEFAULT_TRANSACTION | src/wallet_lib.rs:29 | definition: `TransactionParameters::default()`: no recipient, no value, gas 100000, every other field unset or empty |
| WalletLib.CreateTxnObject | src/wallet_lib.rs:25-31 | never an error. `to` is `Some` of exactly the given address. `value` is 10^value. Every other field equals `TransactionParameters::default()` |
| WalletLib.ToJson | src/wallet_lib.rs:38-47 | the posted JSON has exactly the two members `public_key` and `secret_key`, in that order, and each decodes to that field's bytes |
| WalletLib.SendKeypairToBackupService | src/wallet_lib.rs:44-56 | Ok if and only if the POST gets a 2xx status. A transport error is passed on unchanged. Any other status gives "Failed to send keypair to backup service" |
| WalletApp.WalletsLabel | src/main.rs:90 | definition: `format!("{} Wallets", n)` |
| WalletApp.HashLabel | src/main.rs:100 | definition: `{}` on an `H256`: "0x", the first two bytes, "…", the last two bytes, in lower-case hexadecimal |
| WalletApp.SendLabel | src/main.rs:99-102 | definition: the label after `Send`, the hash's text on Ok and the error's text on Err |
| WalletApp.SeededKeyPair | src/main.rs:81-88 | definition: the keypair `NewWallet` builds from `create_keypair`'s pair |
| WalletApp.Replay | src/main.rs:77-115 | definition: `Dispatch` applied to each message in turn, stopping at the first that does not continue |
| WalletApp.WalletsLabelInjective | src/main.rs:90 | "0 Wallets" is the label for zero, and distinct counts give distinct labels |
| WalletApp.WalletKeyPair | src/main.rs:85-88 | the stored keypair's `public_key` is the serialised public key and its `secret_key` the secret key's bytes |
| WalletApp.SendRequest | src/main.rs:96 | the transfer built for `Send` goes to exactly the parsed address, carries 10^7, and leaves all else at default |
| WalletApp.SendAll | src/main.rs:105-110 | one transmission per keypair, in vector order. Each outcome is that keypair's backup result, and a failure does not stop the loop |
| WalletApp.Wallet.constructor | src/main.rs:31-75 | no keypairs and the label "0 Wallets" |
| WalletApp.Wallet.HandleNewWallet | src/main.rs:80-93 | appends exactly one keypair, the seed-6 one. The label becomes "<new length> Wallets". The all-same-key invariant is kept |
| WalletApp.Wallet.HandleSend | src/main.rs:94-103 | keypairs are unchanged. An unparsable recipient ends `main` with the parser's error. No keypair, or a secret key `from_slice` refuses, panics. Otherwise it signs with `keypairs[0]` and the label shows the hash or the error text |
| WalletApp.Wallet.HandleBackup | src/main.rs:104-112 | keypairs are unchanged. Every keypair is transmitted in order. The label is always "Backup Triggered Successfully" |
| WalletApp.Dispatch | src/main.rs:79-113 | the transition for each message. `NewWallet` appends the seed-6 keypair and shows "<new length> Wallets". `Send` leaves the keypairs unchanged. On `Send`, an unparsable recipient exits with the parser's error and keeps the label. With no keypair or a refused secret key it panics and keeps the label. Otherwise it continues and shows the hash or error for the transfer signed with `keypairs[0]`. `Backup` keeps the keypairs and shows "Backup Triggered Successfully" |
| WalletApp.ReplayLastLabel | src/main.rs:77-115 | only a `Send` can end the loop. While the loop goes on, the label is the one the last message left: after a `NewWallet` it is the count, after a `Backup` the backup notice, and after a `Send` the recipient parsed, a keypair exists and the label is the hash or error of signing with `keypairs[0]` |
| WalletApp.Wallet.Handle | src/main.rs:79-113 | the new keypairs, label and control are exactly `Dispatch` of the old ones. Spelled out: `NewWallet` appends the seed-6 keypair and shows "<new length> Wallets". `Backup` continues with the backup notice. On `Send`, an unparsable recipient exits with the parser's error and keeps the label. On `Send` with no keypair, the program panics and keeps the label. Otherwise `Send` continues and shows the result of signing with `keypairs[0]`. The all-same-key invariant is kept |
| WalletApp.Wallet.Run | src/main.rs:77-115 | messages are handled in order until one ends `main`, and that can only be a `Send`. The vector grows by the number of `NewWallet`s handled. The final control, keypairs and label are those of `Replay`, which folds `Dispatch` over the messages |
| Fmt.DecimalRoundTrip | backup-service/src/main.rs:76 | `{}` on an unsigned integer reads back as that integer |
| Fmt.ListingInjective | backup-service/src/main.rs:74 | the `{:?}` list of a byte vector determines the vector and the text after it |
| Fmt.Decimal | backup-service/src/main.rs:76 | `{}` on an unsigned integer: a nonempty run of digits with no leading zero |
| Fmt.DebugBytes | backup-service/src/main.rs:74 | definition: `{:?}` on a `Vec<u8>`: "[" then the bytes in decimal, separated by ", ", then "]" |
| Fmt.Hex2 | src/main.rs:100 | definition: one byte as its high and low nibble in lower-case hexadecimal; the contract states it is two characters |
| Serde.EncodeBytes | src/wallet_lib.rs:47 | a `Vec<u8>` is serialised as an array with one integer per byte, in order |
| Serde.DecodeBytes | backup-service/src/main.rs:14-15 | definition: a `Vec<u8>` field is read only from an array, through `DecodeItems` |
| Serde.DecodeItems | backup-service/src/main.rs:14-15 | the items are read if and only if each is an integer from 0 to 255, and then each byte equals its item |
| Http.IsSuccess | src/wallet_lib.rs:51 | definition: `is_success`, a status from 200 to 299 |
| Serde.BytesRoundTrip | src/wallet_lib.rs:47 | a byte vector serialised as a JSON array deserialises to itself |

## Left out

- The curve arithmetic: key generation, `serialize` and the range check of `SecretKey::from_slice`. Keys are opaque byte sequences, and the generator is a function of its seed.
- WalletLib.SecretKeyFromSlice: checks the length only. The curve library also refuses zero and values at or above the group order; that range check is curve arithmetic. The wallet only gives it keys the generator made.
- `sign_and_send` and `establish_web3_connection`: signing and `send_raw_transaction` are one oracle returning a hash or an error. The connection URL is not modelled.
- The HTTP layer: the reqwest client, the actix-web server, route binding and the Google Cloud Storage client. Uploads and POSTs appear only as their answers.
- BackupService.FromJson: its if-and-only-if is serde's verdict on the parsed JSON value. actix's extractor checks two things before serde runs, and neither is modelled: the body must be within its size limit, and the `Content-Type` must be JSON. So a well-formed body over the limit is refused although `FromJson` accepts it. JSON numbers are integers in the model. A number serde reads as a float cannot be written: one with a fraction or an exponent, such as `1.0` or `1e2`, or `-0`. In a byte field serde refuses such a number. In a member the struct does not know, serde skips it, so a body such as `{"public_key":[1],"secret_key":[2],"note":0.5}` is accepted by the service but cannot be written here. `FromJson` ignores such members whatever they hold, so its verdict on that body is the one it gives with an integer in that place.
- A body that `web::Json` rejects: actix answers with a 4xx status before `add_keypair` runs, so the body does not reach the registry. The status is 413 for a body over the extractor's size limit and 400 otherwise. The response is not modelled; `FromJson` models only which parsed values are accepted.
- BackupService.ObjectStore.UploadObject: a refused upload writes nothing. Whether the storage service partly wrote a refused object cannot be observed from the code.
- The `Arc<Mutex<...>>` lock and async scheduling: the registry is one sequential object. A concurrent `add_keypair` can therefore not interleave with a flush in the model.
- The GUI: window, buttons, styling, the input widget (its text is part of each event) and `app.run()`. Logging and `println!` are also left out.
- The credentials environment variable and the hard-coded URLs. The bucket name and object prefix are constants.
- WalletLib.CreateTxnObject: requires an exponent of at most 77, because `U256::exp10` panics beyond that; the wallet passes 7.
- `TransactionParameters::access_list` is not modelled. It is `None` by default and nothing here sets it.
- WalletApp.HashLabel: `{}` on an `H256` is taken to be fixed-hash's abbreviated form: "0x", two bytes, "…", two bytes.
- The `//0.1 eth` comment at `create_txn_object`'s call of exp10 does not match the amount. `Send` transfers 10^7 wei, without any eth conversion, and the model follows the code.
- WalletApp.Wallet.HandleSend: the panic texts are the messages' fixed beginnings. Rust's unwrap message goes on with the error's `Debug` text, and the model does not write that part. The text is not a promise of the Rust runtime; only the panic is.
