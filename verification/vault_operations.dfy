/**
 * The vault-operations controller: the state the hook keeps and its operations
 * (load, initialize, fix authorities, deposit, withdraw, clear signature) as
 * transitions. Whatever the wallet adapter, the program client and the ledger
 * answer is an explicit input, so every branch of the hook is reachable by
 * choosing those answers. An operation runs from its call to its last state
 * update in one step; the wait before the reload after a submission is not
 * modelled.
 */
module VaultOperations {

  import opened Base
  import opened JsText
  import opened VaultTypes
  import opened VaultUtils

  /** What the hook reads from the wallet adapter and the program provider. */
  datatype Wallet = Wallet(
    connected: bool,
    publicKey: Option<PublicKey>,
    hasProgram: bool,
    hasConnection: bool)

  /**
   * The error channel. The insufficient-balance text interpolates two numbers
   * with JavaScript's number-to-text rule, so it is kept as its two numbers;
   * `Render` shows it given that rule.
   */
  datatype ErrorText = Message(text: string) | InsufficientBalance(have: real, requested: real)

  const NoError := Message("")

  const InsufficientPrefix := "Insufficient USDC balance. You have "
  const InsufficientMiddle := " USDC but trying to deposit "
  const InsufficientSuffix := " USDC"

  /**
   * The text shown for an error. The insufficient-balance text shows the balance
   * and the requested amount as they are, with no rounding of its own.
   */
  function Render(e: ErrorText, show: real -> string): (text: string)
    ensures e.Message? ==> text == e.text
    ensures e.InsufficientBalance? ==>
              && StartsWith(text, InsufficientPrefix)
              && |text| == |InsufficientPrefix| + |show(e.have)| + |InsufficientMiddle + show(e.requested) + InsufficientSuffix|
              && text[|InsufficientPrefix|..|InsufficientPrefix| + |show(e.have)|] == show(e.have)
              && text[|InsufficientPrefix| + |show(e.have)|..] ==
                   InsufficientMiddle + show(e.requested) + InsufficientSuffix
  {
    match e
    case Message(t) => t
    case InsufficientBalance(have, requested) =>
      var text := InsufficientPrefix + show(have) + (InsufficientMiddle + show(requested) + InsufficientSuffix);
      assert text[..|InsufficientPrefix|] == InsufficientPrefix;
      assert text[|InsufficientPrefix|..|InsufficientPrefix| + |show(have)|] == show(have);
      text
  }

  /** The hook's React state and its two refs (`inFlight`, `hasInitialized`). */
  datatype State = State(
    vaultInfo: Option<VaultInfo>,
    userBalances: UserBalances,
    loading: bool,
    error: ErrorText,
    isVaultOwner: bool,
    lastSig: Option<string>,
    inFlight: bool,
    hasInitialized: bool)

  const InitialState := State(None, ZeroBalances, false, NoError, false, None, false, false)

  // ---------------------------------------------------------------------
  // Answers of the outside world

  /** One `fetchNullable` of the metadata account under one account-type name. */
  datatype FetchAttempt = Returned(account: Option<RawMetadata>) | Threw

  /** `getAccount` on a token account: its raw amount, or the error it throws. */
  datatype TokenLookup = Found(amount: nat) | Missing(err: JsError)

  /** What a reload reads: two metadata attempts and the two token accounts. */
  datatype LoadReplies = LoadReplies(
    first: FetchAttempt,
    second: FetchAttempt,
    usdc: TokenLookup,
    yusdc: TokenLookup)

  /** The ledger's answer to a submitted transaction. */
  datatype Submission = Confirmed(signature: string) | Rejected(err: JsError)

  datatype Instruction =
    | InitializeIx
    | FixAuthoritiesIx
    | DepositIx(amount: int)
    | WithdrawIx(amount: int)
    | CreateYusdcAccountIx

  /** A transaction handed to the ledger: through the program's `rpc()` or the wallet's `sendTransaction`. */
  datatype LedgerCall = Rpc(ix: Instruction) | WalletSend(ixs: seq<Instruction>)

  /**
   * The end state of an operation, the transactions it submitted, and whether it
   * raised the `loading` flag on the way.
   */
  datatype Step = Step(state: State, calls: seq<LedgerCall>, wentBusy: bool)

  // ---------------------------------------------------------------------
  // Loading vault and balances

  /** The metadata account read: the first name, and the second only if the first threw. */
  function Metadata(o: LoadReplies): (m: Option<RawMetadata>)
    ensures o.first.Returned? ==> m == o.first.account
    ensures o.first.Threw? && o.second.Returned? ==> m == o.second.account
    ensures o.first.Threw? && o.second.Threw? ==> m.None?
  {
    match o.first
    case Returned(a) => a
    case Threw =>
      match o.second
      case Returned(a) => a
      case Threw => None
  }

  function ToVaultInfo(raw: RawMetadata): (v: VaultInfo)
    ensures v.usdcBalance * 1000000.0 == raw.usdcBalance as real
    ensures v.yusdcSupply * 1000000.0 == raw.yusdcSupply as real
    ensures v.authority == raw.authority && v.yusdcMint == raw.yusdcMint
    ensures v.vaultUsdc == raw.vaultUsdc && v.lastDepositTime == raw.lastDepositTime
  {
    VaultInfo(raw.authority, LamportsToUsdc(raw.usdcBalance), LamportsToUsdc(raw.yusdcSupply),
              raw.yusdcMint, raw.vaultUsdc, raw.lastDepositTime)
  }

  /** A token account's balance in whole tokens; a missing account holds nothing. */
  function TokenBalance(t: TokenLookup): (b: real)
    ensures t.Missing? ==> b == 0.0
    ensures t.Found? ==> b * 1000000.0 == t.amount as real
  {
    match t
    case Found(a) => LamportsToUsdc(a)
    case Missing(_) => 0.0
  }

  /** A load starts only with a connected wallet, a program, and no load in flight. */
  predicate LoadGate(s: State, w: Wallet) {
    w.connected && w.hasProgram && !s.inFlight
  }

  /** The synchronous start of a load: raise the flags and recompute ownership. */
  function StartLoad(s: State, w: Wallet): (t: State)
    ensures t.inFlight && t.hasInitialized
    ensures w.publicKey.Some? ==> t.isVaultOwner == (w.publicKey.value == VaultAuthority)
    ensures w.publicKey.None? ==> t.isVaultOwner == s.isVaultOwner
    ensures t.(inFlight := s.inFlight, hasInitialized := s.hasInitialized, isVaultOwner := s.isVaultOwner) == s
  {
    var owner := if w.publicKey.Some? then w.publicKey.value == VaultAuthority else s.isVaultOwner;
    s.(inFlight := true, hasInitialized := true, isVaultOwner := owner)
  }

  /** The rest of a load, once the ledger has answered; always clears the in-flight flag. */
  function FinishLoad(t: State, w: Wallet, o: LoadReplies): (r: State)
    ensures !r.inFlight
    ensures r.(vaultInfo := t.vaultInfo, userBalances := t.userBalances, inFlight := t.inFlight) == t
    ensures Metadata(o).None? ==> r.vaultInfo.None?
    ensures Metadata(o).Some? ==> r.vaultInfo == Some(ToVaultInfo(Metadata(o).value))
    ensures w.publicKey.Some? && w.hasConnection ==>
              && r.userBalances.usdcBalance == TokenBalance(o.usdc)
              && r.userBalances.yusdcBalance == (if Metadata(o).Some? then TokenBalance(o.yusdc) else 0.0)
    ensures !(w.publicKey.Some? && w.hasConnection) ==> r.userBalances == t.userBalances
  {
    var info := match Metadata(o) case Some(raw) => Some(ToVaultInfo(raw)) case None => None;
    var balances :=
      if w.publicKey.Some? && w.hasConnection then
        UserBalances(TokenBalance(o.usdc), if info.Some? then TokenBalance(o.yusdc) else 0.0)
      else t.userBalances;
    t.(vaultInfo := info, userBalances := balances, inFlight := false)
  }

  /**
   * `initializeData`: a reload of vault and balances that is dropped when the
   * wallet is disconnected, there is no program, or another load is in flight.
   */
  function InitializeData(s: State, w: Wallet, o: LoadReplies): (r: State)
    ensures !LoadGate(s, w) ==> r == s
    ensures LoadGate(s, w) ==> !r.inFlight && r.hasInitialized
    ensures LoadGate(s, w) && w.publicKey.Some? ==>
              r.isVaultOwner == (w.publicKey.value == VaultAuthority)
    ensures r.error == s.error && r.loading == s.loading && r.lastSig == s.lastSig
    ensures LoadGate(s, w) && Metadata(o).None? ==> r.vaultInfo.None?
    ensures LoadGate(s, w) && Metadata(o).Some? ==> r.vaultInfo == Some(ToVaultInfo(Metadata(o).value))
    ensures LoadGate(s, w) && w.publicKey.Some? && w.hasConnection ==>
              && r.userBalances.usdcBalance == TokenBalance(o.usdc)
              && r.userBalances.yusdcBalance ==
                   (if Metadata(o).Some? then TokenBalance(o.yusdc) else 0.0)
    ensures LoadGate(s, w) && !(w.publicKey.Some? && w.hasConnection) ==>
              r.userBalances == s.userBalances
  {
    if !LoadGate(s, w) then s else FinishLoad(StartLoad(s, w), w, o)
  }

  /** The hook's connect effect: load once when connected and nothing has loaded yet. */
  function OnConnected(s: State, w: Wallet, o: LoadReplies): (r: State)
    ensures s.hasInitialized || !w.connected ==> r == s
    ensures !s.hasInitialized && LoadGate(s, w) ==> r.hasInitialized && r == InitializeData(s, w, o)
    ensures !LoadGate(s, w) ==> r == s
  {
    if w.connected && !s.hasInitialized then InitializeData(s, w, o) else s
  }

  // ---------------------------------------------------------------------
  // Submitting transactions

  const OnlyOwnerMessage := "Only the vault owner can initialize the vault."
  const NoUsdcAccount := "You don't have a USDC token account. Please get some devnet USDC first."
  const UsdcAccountNotFound := "USDC token account not found. Please get some devnet USDC first."
  const BalanceCheckPrefix := "Error checking USDC balance: "
  const AccountNotFoundText := "could not find account"
  const TokenAccountNotFoundName := "TokenAccountNotFoundError"

  /**
   * The TypeError the deposit's balance-check handler throws itself when the
   * lookup error has neither a message nor a `toString`; its wording is the
   * engine's and is approximated here.
   */
  const MissingToStringError :=
    JsError("TypeError", "accountError.toString is not a function", [],
            Some("TypeError: accountError.toString is not a function"))

  /** The user-facing text for a failed stablecoin-account lookup during a deposit. */
  function UsdcLookupFailure(err: JsError): (m: string)
    ensures Contains(err.message, AccountNotFoundText) ==> m == NoUsdcAccount
    ensures !Contains(err.message, AccountNotFoundText) && err.name == TokenAccountNotFoundName ==>
              m == UsdcAccountNotFound
    ensures !Contains(err.message, AccountNotFoundText) && err.name != TokenAccountNotFoundName ==>
              && (err.message != "" ==> m == BalanceCheckPrefix + err.message)
              && (err.message == "" && err.text.Some? ==> m == BalanceCheckPrefix + err.text.value)
              && (err.message == "" && err.text.None? ==> m == FormatErrorMessage(MissingToStringError, "Deposit"))
  {
    if err.message != "" && Contains(err.message, AccountNotFoundText) then NoUsdcAccount
    else if err.name == TokenAccountNotFoundName then UsdcAccountNotFound
    else if err.message != "" then BalanceCheckPrefix + err.message
    else if err.text.Some? then BalanceCheckPrefix + err.text.value
    else FormatErrorMessage(MissingToStringError, "Deposit")
  }

  /**
   * The shared tail of every operation after its transaction is submitted:
   * success clears the error, keeps the signature when asked to, and reloads;
   * failure reports the formatted error; `loading` ends false either way.
   */
  function Settle(busy: State, w: Wallet, call: LedgerCall, operation: string, keepSig: bool,
                  submit: Submission, reload: LoadReplies): (r: Step)
    ensures r.calls == [call] && r.wentBusy && !r.state.loading
    ensures !busy.inFlight ==> !r.state.inFlight
    ensures busy.hasInitialized ==> r.state.hasInitialized
    ensures submit.Rejected? ==>
              r.state == busy.(error := Message(FormatErrorMessage(submit.err, operation)), loading := false)
    ensures submit.Confirmed? ==> r.state.error == busy.error
    ensures submit.Confirmed? ==>
              r.state == InitializeData(if keepSig then busy.(lastSig := Some(submit.signature)) else busy, w, reload)
                           .(loading := false)
    ensures submit.Confirmed? && keepSig ==> r.state.lastSig == Some(submit.signature)
    ensures submit.Confirmed? && !keepSig ==> r.state.lastSig == busy.lastSig
  {
    match submit
    case Confirmed(sig) =>
      var done := if keepSig then busy.(lastSig := Some(sig)) else busy;
      Step(InitializeData(done, w, reload).(loading := false), [call], true)
    case Rejected(err) =>
      Step(busy.(error := Message(FormatErrorMessage(err, operation)), loading := false), [call], true)
  }

  /**
   * After a confirmed submission the vault and balances are those of the
   * reload, unless another load is in flight, which drops the reload.
   */
  lemma ConfirmedSubmissionReloads(busy: State, w: Wallet, call: LedgerCall, operation: string, keepSig: bool,
                                   submit: Submission, reload: LoadReplies)
    requires submit.Confirmed?
    ensures var r := Settle(busy, w, call, operation, keepSig, submit, reload).state;
            && (LoadGate(busy, w) ==>
                  && !r.inFlight && r.hasInitialized
                  && (Metadata(reload).Some? ==> r.vaultInfo == Some(ToVaultInfo(Metadata(reload).value)))
                  && (Metadata(reload).None? ==> r.vaultInfo.None?)
                  && (w.publicKey.Some? && w.hasConnection ==> r.userBalances.usdcBalance == TokenBalance(reload.usdc)))
            && (!LoadGate(busy, w) ==> r.vaultInfo == busy.vaultInfo && r.userBalances == busy.userBalances)
  {
  }

  /** The state while an operation's transaction is being prepared. */
  function Busy(s: State): State {
    s.(loading := true, error := NoError)
  }

  /** The connected key is the vault authority. */
  predicate IsOwner(w: Wallet) {
    w.publicKey.Some? && w.publicKey.value == VaultAuthority
  }

  /** `handleInitialize`: owner-only creation of the vault's accounts. */
  function HandleInitialize(s: State, w: Wallet, submit: Submission, reload: LoadReplies): (r: Step)
    ensures !w.hasProgram || w.publicKey.None? ==> r == Step(s, [], false)
    ensures w.hasProgram && w.publicKey.Some? && !IsOwner(w) ==>
              r == Step(s.(error := Message(OnlyOwnerMessage)), [], false)
    ensures w.hasProgram && IsOwner(w) ==> r.calls == [Rpc(InitializeIx)] && r.wentBusy && !r.state.loading
    ensures w.hasProgram && IsOwner(w) && submit.Confirmed? ==>
              r.state.error == NoError && r.state.lastSig == s.lastSig
    ensures w.hasProgram && IsOwner(w) && submit.Confirmed? ==>
              r.state == InitializeData(Busy(s), w, reload).(loading := false)
    ensures w.hasProgram && IsOwner(w) && submit.Rejected? ==>
              r.state == Busy(s).(error := Message(FormatErrorMessage(submit.err, "Initialize")), loading := false)
  {
    if !w.hasProgram || w.publicKey.None? then Step(s, [], false)
    else if !IsOwner(w) then Step(s.(error := Message(OnlyOwnerMessage)), [], false)
    else Settle(Busy(s), w, Rpc(InitializeIx), "Initialize", false, submit, reload)
  }

  /** `handleFixAuthorities`: owner-only repair; anyone else is ignored without a word. */
  function HandleFixAuthorities(s: State, w: Wallet, submit: Submission, reload: LoadReplies): (r: Step)
    ensures !w.hasProgram || !IsOwner(w) ==> r == Step(s, [], false)
    ensures w.hasProgram && IsOwner(w) ==> r.calls == [Rpc(FixAuthoritiesIx)] && r.wentBusy && !r.state.loading
    ensures w.hasProgram && IsOwner(w) && submit.Confirmed? ==>
              r.state.error == NoError && r.state.lastSig == s.lastSig
    ensures w.hasProgram && IsOwner(w) && submit.Confirmed? ==>
              r.state == InitializeData(Busy(s), w, reload).(loading := false)
    ensures w.hasProgram && IsOwner(w) && submit.Rejected? ==>
              r.state == Busy(s).(error := Message(FormatErrorMessage(submit.err, "Fix authorities")), loading := false)
  {
    if !w.hasProgram || !IsOwner(w) then Step(s, [], false)
    else Settle(Busy(s), w, Rpc(FixAuthoritiesIx), "Fix authorities", false, submit, reload)
  }

  /**
   * The deposit transaction: the program's `rpc()` when the receipt-token account
   * exists, otherwise one wallet transaction that creates it first.
   */
  function DepositCall(yusdcAccountExists: bool, lamports: int): LedgerCall {
    if yusdcAccountExists then Rpc(DepositIx(lamports))
    else WalletSend([CreateYusdcAccountIx, DepositIx(lamports)])
  }

  /** The operation's own guard: a program, a connected key and a non-empty amount. */
  predicate AmountGate(w: Wallet, amount: string) {
    w.hasProgram && w.publicKey.Some? && amount != ""
  }

  /**
   * `handleDeposit`: validate, check the stablecoin balance, then submit the
   * deposit of floor(amount · 10^6) base units.
   */
  function HandleDeposit(s: State, w: Wallet, amount: string, usdc: TokenLookup,
                         yusdcAccountExists: bool, submit: Submission, reload: LoadReplies): (r: Step)
    ensures !AmountGate(w, amount) ==> r == Step(s, [], false)
    ensures AmountGate(w, amount) && ValidateAmount(amount).Invalid? ==>
              r == Step(s.(error := Message(ValidateAmount(amount).error)), [], false)
    ensures AmountGate(w, amount) && ValidateAmount(amount).Valid? ==> r.wentBusy && !r.state.loading
    ensures AmountGate(w, amount) && ValidateAmount(amount).Valid? && usdc.Missing? ==>
              r.calls == [] && r.state == Busy(s).(error := Message(UsdcLookupFailure(usdc.err)), loading := false)
    ensures AmountGate(w, amount) && ValidateAmount(amount).Valid? && usdc.Found?
              && LamportsToUsdc(usdc.amount) < AmountOf(amount) ==>
              r.calls == [] &&
              r.state == Busy(s).(error := InsufficientBalance(LamportsToUsdc(usdc.amount), AmountOf(amount)),
                                  loading := false)
    ensures AmountGate(w, amount) && ValidateAmount(amount).Valid? && usdc.Found?
              && LamportsToUsdc(usdc.amount) >= AmountOf(amount) ==>
              r.calls == [DepositCall(yusdcAccountExists, UsdcToLamports(AmountOf(amount)))]
    ensures |r.calls| > 0 && submit.Confirmed? ==>
              r.state.error == NoError && r.state.lastSig == Some(submit.signature)
    ensures |r.calls| > 0 && submit.Confirmed? ==>
              r.state == InitializeData(Busy(s).(lastSig := Some(submit.signature)), w, reload).(loading := false)
    ensures |r.calls| > 0 && submit.Rejected? ==>
              r.state == Busy(s).(error := Message(FormatErrorMessage(submit.err, "Deposit")), loading := false)
  {
    if !AmountGate(w, amount) then Step(s, [], false)
    else
      match ValidateAmount(amount)
      case Invalid(e) => Step(s.(error := Message(e)), [], false)
      case Valid =>
        var requested := AmountOf(amount);
        var busy := Busy(s);
        match usdc
        case Missing(err) => Step(busy.(error := Message(UsdcLookupFailure(err)), loading := false), [], true)
        case Found(raw) =>
          var have := LamportsToUsdc(raw);
          if have < requested then
            Step(busy.(error := InsufficientBalance(have, requested), loading := false), [], true)
          else
            var call := DepositCall(yusdcAccountExists, UsdcToLamports(requested));
            Settle(busy, w, call, "Deposit", true, submit, reload)
  }

  /** `handleWithdraw`: needs a loaded vault; validate, then submit the burn of floor(amount · 10^6). */
  function HandleWithdraw(s: State, w: Wallet, amount: string, submit: Submission, reload: LoadReplies): (r: Step)
    ensures !AmountGate(w, amount) || s.vaultInfo.None? ==> r == Step(s, [], false)
    ensures AmountGate(w, amount) && s.vaultInfo.Some? && ValidateAmount(amount).Invalid? ==>
              r == Step(s.(error := Message(ValidateAmount(amount).error)), [], false)
    ensures AmountGate(w, amount) && s.vaultInfo.Some? && ValidateAmount(amount).Valid? ==>
              && r.calls == [Rpc(WithdrawIx(UsdcToLamports(AmountOf(amount))))]
              && r.wentBusy && !r.state.loading
    ensures |r.calls| > 0 && submit.Confirmed? ==>
              r.state.error == NoError && r.state.lastSig == Some(submit.signature)
    ensures |r.calls| > 0 && submit.Confirmed? ==>
              r.state == InitializeData(Busy(s).(lastSig := Some(submit.signature)), w, reload).(loading := false)
    ensures |r.calls| > 0 && submit.Rejected? ==>
              r.state == Busy(s).(error := Message(FormatErrorMessage(submit.err, "Withdraw")), loading := false)
  {
    if !AmountGate(w, amount) || s.vaultInfo.None? then Step(s, [], false)
    else
      match ValidateAmount(amount)
      case Invalid(e) => Step(s.(error := Message(e)), [], false)
      case Valid =>
        var call := Rpc(WithdrawIx(UsdcToLamports(AmountOf(amount))));
        Settle(Busy(s), w, call, "Withdraw", true, submit, reload)
  }

  /** `clearTransactionSignature`: forget the last signature and nothing else. */
  function ClearTransactionSignature(s: State): (r: State)
    ensures r.lastSig.None?
    ensures r.(lastSig := s.lastSig) == s
  {
    s.(lastSig := None)
  }

  // ---------------------------------------------------------------------
  // Properties of the controller

  /** While a load is in flight, a second load (automatic, manual or post-transaction) changes nothing. */
  lemma LoadIsNotReentrant(s: State, w: Wallet, o: LoadReplies, w2: Wallet, o2: LoadReplies)
    requires LoadGate(s, w)
    ensures InitializeData(StartLoad(s, w), w2, o2) == StartLoad(s, w)
    ensures !InitializeData(s, w, o).inFlight
  {
  }

  /** The amount a deposit submits is never more base units than the stablecoin account holds. */
  lemma DepositWithinBalance(s: State, w: Wallet, amount: string, usdc: TokenLookup,
                             yusdcAccountExists: bool, submit: Submission, reload: LoadReplies)
    requires |HandleDeposit(s, w, amount, usdc, yusdcAccountExists, submit, reload).calls| > 0
    ensures usdc.Found? && ValidateAmount(amount).Valid?
    ensures 0 <= UsdcToLamports(AmountOf(amount)) <= usdc.amount
  {
    var v := AmountOf(amount);
    var n := UsdcToLamports(v);
    var have := LamportsToUsdc(usdc.amount);
    assert have >= v;
    assert n as real <= v * 1000000.0 <= have * 1000000.0 == usdc.amount as real;
  }

  /**
   * A deposit reaches the ledger exactly when the guard passes, the amount is
   * valid, the balance lookup succeeds and the balance covers the amount.
   */
  lemma DepositSubmitsIff(s: State, w: Wallet, amount: string, usdc: TokenLookup,
                          yusdcAccountExists: bool, submit: Submission, reload: LoadReplies)
    ensures |HandleDeposit(s, w, amount, usdc, yusdcAccountExists, submit, reload).calls| > 0 <==>
              && AmountGate(w, amount)
              && Acceptable(ParseFloat(amount))
              && usdc.Found?
              && ParseFloat(amount).value <= LamportsToUsdc(usdc.amount)
  {
  }

  /**
   * The receipt-token account is created, in the same wallet transaction as the
   * deposit, exactly when it does not exist yet.
   */
  lemma DepositCreatesAccountIff(s: State, w: Wallet, amount: string, usdc: TokenLookup,
                                 yusdcAccountExists: bool, submit: Submission, reload: LoadReplies)
    requires |HandleDeposit(s, w, amount, usdc, yusdcAccountExists, submit, reload).calls| > 0
    ensures var c := HandleDeposit(s, w, amount, usdc, yusdcAccountExists, submit, reload).calls[0];
            && (c.WalletSend? <==> !yusdcAccountExists)
            && (c.WalletSend? ==> c.ixs[0] == CreateYusdcAccountIx && c.ixs[1].DepositIx?)
  {
  }

  /**
   * The base units a deposit or withdrawal submits name the typed amount to
   * within one base unit, never above it.
   */
  lemma SubmittedAmountRoundsDown(amount: string)
    requires ValidateAmount(amount).Valid?
    ensures LamportsToUsdc(UsdcToLamports(AmountOf(amount))) <= AmountOf(amount)
    ensures AmountOf(amount) - LamportsToUsdc(UsdcToLamports(AmountOf(amount))) < 1.0 / 1000000.0
  {
    UsdcRoundTripRoundsDown(AmountOf(amount));
  }

  // ---------------------------------------------------------------------
  // Runs of the controller

  /** Everything that can happen to the controller, one atomic operation at a time. */
  datatype Action =
    | Connect(replies: LoadReplies)
    | Refresh(replies: LoadReplies)
    | Initialize(submit: Submission, reload: LoadReplies)
    | FixAuthorities(submit: Submission, reload: LoadReplies)
    | Deposit(amount: string, usdc: TokenLookup, yusdcAccountExists: bool,
              submit: Submission, reload: LoadReplies)
    | Withdraw(amount: string, submit: Submission, reload: LoadReplies)
    | ClearSignature

  /** An action together with the wallet and program as they are when it runs. */
  datatype Event = Event(wallet: Wallet, action: Action)

  /**
   * One action on the controller. Between operations nothing is loading and no
   * load is in flight, and once a load has started the connect effect is spent.
   */
  function Apply(s: State, e: Event): (r: State)
    ensures !s.inFlight ==> !r.inFlight
    ensures !s.loading ==> !r.loading
    ensures s.hasInitialized ==> r.hasInitialized
  {
    var w := e.wallet;
    match e.action
    case Connect(o) => OnConnected(s, w, o)
    case Refresh(o) => InitializeData(s, w, o)
    case Initialize(submit, reload) => HandleInitialize(s, w, submit, reload).state
    case FixAuthorities(submit, reload) => HandleFixAuthorities(s, w, submit, reload).state
    case Deposit(amount, usdc, accountExists, submit, reload) =>
      HandleDeposit(s, w, amount, usdc, accountExists, submit, reload).state
    case Withdraw(amount, submit, reload) => HandleWithdraw(s, w, amount, submit, reload).state
    case ClearSignature => ClearTransactionSignature(s)
  }

  function Run(s: State, events: seq<Event>): State
    decreases |events|
  {
    if |events| == 0 then s else Run(Apply(s, events[0]), events[1..])
  }

  /** The event is the connect effect actually starting a load. */
  predicate IsAutoLoad(s: State, e: Event) {
    e.action.Connect? && e.wallet.connected && !s.hasInitialized && LoadGate(s, e.wallet)
  }

  /** How many loads the connect effect starts along a run. */
  function AutoLoads(s: State, events: seq<Event>): nat
    decreases |events|
  {
    if |events| == 0 then 0
    else (if IsAutoLoad(s, events[0]) then 1 else 0) + AutoLoads(Apply(s, events[0]), events[1..])
  }

  /** From a quiet state every run ends quiet: no spinner left on, no load left in flight. */
  lemma {:induction false} RunStaysQuiet(s: State, events: seq<Event>)
    requires !s.loading && !s.inFlight
    ensures !Run(s, events).loading && !Run(s, events).inFlight
    decreases |events|
  {
    if |events| > 0 {
      RunStaysQuiet(Apply(s, events[0]), events[1..]);
    }
  }

  /**
   * The connect effect loads at most once per mounted controller, whatever the
   * wallet does afterwards (switching accounts included), and never again once a
   * load has started.
   */
  lemma {:induction false} AutoLoadAtMostOnce(s: State, events: seq<Event>)
    ensures AutoLoads(s, events) <= if s.hasInitialized then 0 else 1
    decreases |events|
  {
    if |events| > 0 {
      var next := Apply(s, events[0]);
      AutoLoadAtMostOnce(next, events[1..]);
      if IsAutoLoad(s, events[0]) {
        assert next.hasInitialized;
      }
    }
  }

  /** The initial controller state is quiet, so every run from it is. */
  lemma InitialRunsQuiet(events: seq<Event>)
    ensures !Run(InitialState, events).loading && !Run(InitialState, events).inFlight
    ensures AutoLoads(InitialState, events) <= 1
  {
    RunStaysQuiet(InitialState, events);
    AutoLoadAtMostOnce(InitialState, events);
  }
}
