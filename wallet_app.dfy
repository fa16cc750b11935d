/** The wallet front end's message dispatch (src/main.rs): the keypairs the
    window holds, the text of its status label, and what each button message
    does to them. Widgets, styling and the event loop's GUI plumbing are outside
    the model. */
module WalletApp {
  import opened Prelude
  import opened Http
  import opened WalletLib
  import Fmt

  /** The messages the three buttons emit. */
  datatype WalletMessage = NewWallet | Send | Backup

  /** How handling a message leaves the event loop: it goes on, or `main` ends,
      by returning the error of a `?`, or by a panic. */
  datatype Control = Continue | ExitWithError(error: string) | Panic(message: string)

  /** `Address::from_str`: the address parser is outside the model. */
  type AddressParser = string -> Result<Address>

  /** The exponent `Send` passes to `create_txn_object`: 10^7 wei. */
  const SEND_EXPONENT: nat := 7

  const INITIAL_LABEL := "0 Wallets"
  const BACKUP_LABEL := "Backup Triggered Successfully"

  /** `format!("{} Wallets", n)`. */
  function WalletsLabel(n: nat): string
  {
    Fmt.Decimal(n) + " Wallets"
  }

  /** The label reads back as the number of wallets: distinct counts show distinct
      labels, and the window's initial "0 Wallets" is the label for zero. */
  lemma WalletsLabelInjective(m: nat, n: nat)
    ensures WalletsLabel(0) == INITIAL_LABEL
    ensures WalletsLabel(m) == WalletsLabel(n) ==> m == n
  {
    if WalletsLabel(m) == WalletsLabel(n) {
      var s := " Wallets";
      assert Fmt.Decimal(m) == WalletsLabel(m)[..|WalletsLabel(m)| - |s|];
      assert Fmt.Decimal(n) == WalletsLabel(n)[..|WalletsLabel(n)| - |s|];
      Fmt.DecimalInjective(m, n);
    }
  }

  /** `format!("{}", hash)` for an `H256`: "0x", the first two bytes, an
      ellipsis and the last two bytes, in lower-case hexadecimal. */
  function HashLabel(h: H256): string
  {
    "0x" + Fmt.Hex2(h[0]) + Fmt.Hex2(h[1]) + "…" + Fmt.Hex2(h[30]) + Fmt.Hex2(h[31])
  }

  /** The label after `Send`: the hash on success, the error text on failure. */
  function SendLabel(r: Result<H256>): string
  {
    match r
    case Ok(h) => HashLabel(h)
    case Err(e) => e
  }

  /** The keypair `NewWallet` stores: the serialised public key and the secret key's bytes. */
  function WalletKeyPair(pair: (SecretKey, PublicKey)): (kp: KeyPair)
    ensures kp.publicKey == pair.1 && kp.secretKey == pair.0
  {
    KeyPair(pair.1, pair.0)
  }

  /** The keypair every `NewWallet` creates: the one from the fixed seed. */
  function SeededKeyPair(generate: KeyGenerator): KeyPair
  {
    WalletKeyPair(CreateKeypair(generate).value)
  }

  /** The request `Send` signs: 10^7 to the recipient, all else default. */
  function SendRequest(to: Address): (tx: TransactionParameters)
    ensures tx.to == Some(to) && tx.value as int == 10_000_000
    ensures tx.(to := None, value := 0) == DEFAULT_TRANSACTION
  {
    CreateTxnObject(to, SEND_EXPONENT).value
  }

  /** The backup loop of `Backup`: one transmission per keypair, in vector order,
      each through the transport of its own attempt; a failure does not stop the
      loop, and the outcomes are only logged. */
  method SendAll(keypairs: seq<KeyPair>, post: nat -> Transport) returns (outcomes: seq<Result<()>>)
    ensures |outcomes| == |keypairs|
    ensures forall i :: 0 <= i < |keypairs| ==> outcomes[i] == SendKeypairToBackupService(keypairs[i], post(i))
  {
    outcomes := [];
    for i := 0 to |keypairs|
      invariant |outcomes| == i
      invariant forall j :: 0 <= j < i ==> outcomes[j] == SendKeypairToBackupService(keypairs[j], post(j))
    {
      var r := SendKeypairToBackupService(keypairs[i], post(i));
      outcomes := outcomes + [r];
    }
  }

  /** What the index `keypairs[0]` panics with on an empty vector. */
  const PANIC_INDEX := "index out of bounds: the len is 0 but the index is 0"
  /** The start of the message `.unwrap()` panics with on the `Err` of
      `SecretKey::from_slice`; Rust follows it with ": " and the error's `Debug` text. */
  const PANIC_UNWRAP := "called `Result::unwrap()` on an `Err` value"

  /** One message as it reaches the dispatch: the message, the text of the "To:"
      field at that moment, and how the chain node and the backup service answer
      the calls made while handling it. */
  datatype Event = Event(msg: WalletMessage, input: string, broadcast: Broadcast, post: nat -> Transport)

  function CountNewWallets(events: seq<Event>): nat
  {
    if |events| == 0 then 0
    else CountNewWallets(events[..|events| - 1]) + (if events[|events| - 1].msg == NewWallet then 1 else 0)
  }

  /** The window's state after the loop has handled a message. */
  datatype Outcome = Outcome(control: Control, keypairs: seq<KeyPair>, frameLabel: string)

  /** The `match msg` dispatch as a transition on the keypairs and the label. */
  function Dispatch(generate: KeyGenerator, parse: AddressParser, ks: seq<KeyPair>, lbl: string, e: Event): (o: Outcome)
    ensures e.msg == NewWallet ==> o == Outcome(Continue, ks + [SeededKeyPair(generate)], WalletsLabel(|ks| + 1))
    ensures e.msg == Send ==> o.keypairs == ks
    ensures e.msg == Send && parse(e.input).Err? ==> o == Outcome(ExitWithError(parse(e.input).error), ks, lbl)
    ensures e.msg == Send && parse(e.input).Ok? && (|ks| == 0 || |ks[0].secretKey| != 32) ==>
      o.control.Panic? && o.frameLabel == lbl
    ensures e.msg == Send && parse(e.input).Ok? && |ks| > 0 && |ks[0].secretKey| == 32 ==>
      o.control == Continue && o.frameLabel == SendLabel(e.broadcast(SendRequest(parse(e.input).value), ks[0].secretKey))
    ensures e.msg == Backup ==> o == Outcome(Continue, ks, BACKUP_LABEL)
  {
    match e.msg
    case NewWallet => Outcome(Continue, ks + [SeededKeyPair(generate)], WalletsLabel(|ks| + 1))
    case Send =>
      (match parse(e.input)
       case Err(err) => Outcome(ExitWithError(err), ks, lbl)
       case Ok(to) =>
         if |ks| == 0 then Outcome(Panic(PANIC_INDEX), ks, lbl)
         else match SecretKeyFromSlice(ks[0].secretKey)
           case Err(_) => Outcome(Panic(PANIC_UNWRAP), ks, lbl)
           case Ok(sk) => Outcome(Continue, ks, SendLabel(e.broadcast(SendRequest(to), sk))))
    case Backup => Outcome(Continue, ks, BACKUP_LABEL)
  }

  /** The loop's run over a sequence of messages: each is dispatched in turn
      until one ends `main`. */
  function Replay(generate: KeyGenerator, parse: AddressParser, ks: seq<KeyPair>, lbl: string, events: seq<Event>): Outcome
    decreases |events|
  {
    if |events| == 0 then Outcome(Continue, ks, lbl)
    else
      var o := Dispatch(generate, parse, ks, lbl, events[0]);
      if o.control != Continue then o else Replay(generate, parse, o.keypairs, o.frameLabel, events[1..])
  }

  /** Only a `Send` can end the loop, and while none does the label is the one the
      last message left: the count after a `NewWallet`, the backup notice after a
      `Backup`, the hash or error after a `Send`. */
  lemma {:induction false} ReplayLastLabel(generate: KeyGenerator, parse: AddressParser, ks: seq<KeyPair>, lbl: string, events: seq<Event>)
    ensures var o := Replay(generate, parse, ks, lbl, events);
      && (o.control != Continue ==> exists i :: 0 <= i < |events| && events[i].msg == Send)
      && (|events| > 0 && o.control == Continue && events[|events| - 1].msg == NewWallet ==>
            o.frameLabel == WalletsLabel(|o.keypairs|))
      && (|events| > 0 && o.control == Continue && events[|events| - 1].msg == Backup ==>
            o.frameLabel == BACKUP_LABEL)
      && (|events| > 0 && o.control == Continue && events[|events| - 1].msg == Send ==>
            var last := events[|events| - 1];
            && parse(last.input).Ok? && |o.keypairs| > 0 && |o.keypairs[0].secretKey| == 32
            && o.frameLabel == SendLabel(last.broadcast(SendRequest(parse(last.input).value), o.keypairs[0].secretKey)))
      && (|events| == 0 ==> o == Outcome(Continue, ks, lbl))
    decreases |events|
  {
    if |events| > 0 {
      var o := Dispatch(generate, parse, ks, lbl, events[0]);
      if o.control == Continue {
        ReplayLastLabel(generate, parse, o.keypairs, o.frameLabel, events[1..]);
        var r := Replay(generate, parse, o.keypairs, o.frameLabel, events[1..]);
        if r.control != Continue {
          var i :| 0 <= i < |events[1..]| && events[1..][i].msg == Send;
          assert events[i + 1].msg == Send;
        }
        if |events| > 1 {
          assert events[1..][|events[1..]| - 1] == events[|events| - 1];
        }
      }
    }
  }

  /** The window's state: the `keypairs` vector and the frame's label, with the
      two deterministic library functions it calls. */
  class Wallet {
    /** The curve library's keypair generation, as a function of the RNG seed. */
    const generate: KeyGenerator
    /** `Address::from_str`. */
    const parse: AddressParser
    var keypairs: seq<KeyPair>
    var frameLabel: string

    /** Every keypair the wallet holds is the one from seed 6: all wallets share one key. */
    ghost predicate Valid()
      reads this
    {
      forall i :: 0 <= i < |keypairs| ==> keypairs[i] == SeededKeyPair(generate)
    }

    /** The state before the loop starts: no keypairs, and the frameLabel "0 Wallets". */
    constructor (generate: KeyGenerator, parse: AddressParser)
      ensures this.generate == generate && this.parse == parse
      ensures keypairs == [] && frameLabel == WalletsLabel(0)
      ensures Valid()
    {
      this.generate := generate;
      this.parse := parse;
      keypairs := [];
      frameLabel := INITIAL_LABEL;
      WalletsLabelInjective(0, 0);
    }

    /** `NewWallet`: appends exactly one keypair, the seeded one, and shows the new count. */
    method HandleNewWallet()
      requires Valid()
      modifies this
      ensures Valid()
      ensures keypairs == old(keypairs) + [SeededKeyPair(generate)]
      ensures frameLabel == WalletsLabel(|keypairs|)
    {
      var created := CreateKeypair(generate);
      var keypair := WalletKeyPair(created.value);
      keypairs := keypairs + [keypair];
      frameLabel := WalletsLabel(|keypairs|);
    }

    /** `Send`: parses the recipient (an error ends `main`), builds the request,
        signs with the secret key of `keypairs[0]` (no keypair, or a secret key
        `from_slice` refuses, panics) and shows the result. */
    method HandleSend(input: string, broadcast: Broadcast) returns (control: Control)
      modifies this
      ensures keypairs == old(keypairs)
      ensures parse(input).Err? ==> control == ExitWithError(parse(input).error) && frameLabel == old(frameLabel)
      ensures parse(input).Ok? && |keypairs| == 0 ==> control == Panic(PANIC_INDEX) && frameLabel == old(frameLabel)
      ensures parse(input).Ok? && |keypairs| > 0 && |keypairs[0].secretKey| != 32 ==>
        control == Panic(PANIC_UNWRAP) && frameLabel == old(frameLabel)
      ensures parse(input).Ok? && |keypairs| > 0 && |keypairs[0].secretKey| == 32 ==>
        control == Continue && frameLabel == SendLabel(broadcast(SendRequest(parse(input).value), keypairs[0].secretKey))
    {
      var parsed := parse(input);
      if parsed.Err? {
        return ExitWithError(parsed.error);
      }
      var tx := CreateTxnObject(parsed.value, SEND_EXPONENT);
      if |keypairs| == 0 {
        return Panic(PANIC_INDEX);
      }
      var seckey := SecretKeyFromSlice(keypairs[0].secretKey);
      if seckey.Err? {
        return Panic(PANIC_UNWRAP);
      }
      var result := broadcast(tx.value, seckey.value);
      frameLabel := SendLabel(result);
      control := Continue;
    }

    /** `Backup`: transmits every keypair in order, ignoring individual failures,
        and always reports success. */
    method HandleBackup(post: nat -> Transport) returns (outcomes: seq<Result<()>>)
      modifies this
      ensures keypairs == old(keypairs)
      ensures frameLabel == BACKUP_LABEL
      ensures |outcomes| == |keypairs|
      ensures forall i :: 0 <= i < |keypairs| ==> outcomes[i] == SendKeypairToBackupService(keypairs[i], post(i))
    {
      outcomes := SendAll(keypairs, post);
      frameLabel := BACKUP_LABEL;
    }

    /** The `match msg` dispatch. */
    method Handle(e: Event) returns (control: Control)
      requires Valid()
      modifies this
      ensures Valid()
      ensures Outcome(control, keypairs, frameLabel) == Dispatch(generate, parse, old(keypairs), old(frameLabel), e)
      ensures e.msg == NewWallet ==>
        keypairs == old(keypairs) + [SeededKeyPair(generate)] && frameLabel == WalletsLabel(|keypairs|) && control == Continue
      ensures e.msg != NewWallet ==> keypairs == old(keypairs)
      ensures e.msg == Backup ==> control == Continue && frameLabel == BACKUP_LABEL
      ensures e.msg == Send && parse(e.input).Err? ==>
        control == ExitWithError(parse(e.input).error) && frameLabel == old(frameLabel)
      ensures e.msg == Send && parse(e.input).Ok? && |keypairs| == 0 ==>
        control == Panic(PANIC_INDEX) && frameLabel == old(frameLabel)
      ensures e.msg == Send && parse(e.input).Ok? && |keypairs| > 0 ==>
        control == Continue && frameLabel == SendLabel(e.broadcast(SendRequest(parse(e.input).value), keypairs[0].secretKey))
    {
      match e.msg
      case NewWallet =>
        HandleNewWallet();
        control := Continue;
      case Send =>
        control := HandleSend(e.input, e.broadcast);
      case Backup =>
        var _ := HandleBackup(e.post);
        control := Continue;
    }

    /** The loop over incoming messages: handles them in order until one ends `main`. */
    method Run(events: seq<Event>) returns (handled: nat, control: Control)
      requires Valid()
      modifies this
      ensures Valid()
      ensures handled <= |events|
      ensures control == Continue ==> handled == |events|
      ensures control != Continue ==> handled > 0 && events[handled - 1].msg == Send
      ensures |keypairs| == |old(keypairs)| + CountNewWallets(events[..handled])
      ensures Outcome(control, keypairs, frameLabel) == Replay(generate, parse, old(keypairs), old(frameLabel), events)
    {
      ghost var final := Replay(generate, parse, keypairs, frameLabel, events);
      handled, control := 0, Continue;
      while handled < |events| && control == Continue
        invariant Valid()
        invariant handled <= |events|
        invariant control != Continue ==> handled > 0 && events[handled - 1].msg == Send
        invariant |keypairs| == |old(keypairs)| + CountNewWallets(events[..handled])
        invariant control == Continue ==> final == Replay(generate, parse, keypairs, frameLabel, events[handled..])
        invariant control != Continue ==> final == Outcome(control, keypairs, frameLabel)
      {
        assert events[handled..][1..] == events[handled + 1..];
        control := Handle(events[handled]);
        assert events[..handled + 1][..handled] == events[..handled];
        handled := handled + 1;
      }
    }
  }
}
