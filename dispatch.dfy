/**
 * `walletAction`: which subcommand the flags select, whether the wallet is
 * opened first, and the process exit status. The subcommands themselves are
 * modelled elsewhere; here their result is an opaque `Status`.
 */
module Dispatch {
  import Store
  import Passwords

  type Status = Store.Status

  /**
   * The flags `walletAction` reads. `count` is `NumFlags`, the number of
   * flags given at all, including `password` and flags only the transaction
   * operations read. `password` is handed on to the operations and is not
   * inspected by the dispatch; it is kept because it counts towards `count`.
   */
  datatype Flags = Flags(
    count: nat,
    password: string,
    create: bool,
    account: bool,
    changePassword: bool,
    addAccount: string,
    balance: bool,
    transaction: string,
    reset: bool)

  /** The flags set among those above; `NumFlags` counts at least these. */
  function FlagsSet(f: Flags): (n: nat)
    ensures n <= 8
  {
    (if f.password != [] then 1 else 0)
    + (if f.create then 1 else 0) + (if f.account then 1 else 0)
    + (if f.changePassword then 1 else 0) + (if f.addAccount != [] then 1 else 0)
    + (if f.balance then 1 else 0) + (if f.transaction != [] then 1 else 0)
    + (if f.reset then 1 else 0)
  }

  /** Flags the command line can produce: `count` covers every flag set. */
  predicate WellFormed(f: Flags)
  {
    f.count >= FlagsSet(f)
  }

  /** The operations `walletAction` can choose between. */
  datatype Command =
    | ShowHelp
    | CreateWallet
    | ShowAccount
    | ChangePassword
    | AddAccount
    | ListBalance
    | CreateTransaction
    | SignTransaction
    | SendTransaction
    | UnknownTransaction
    | ResetStore
    | NoCommand

  /** What the action did: open the wallet, run one operation. */
  datatype Step = OpenWallet | Execute(command: Command)

  /** The steps taken, in order, and the exit status of the process. */
  datatype Run = Run(steps: seq<Step>, exitCode: int)

  const OpenFailureExit: int := 2
  const UnknownTransactionExit: int := 700

  /** Number of requestable subcommands, in priority order (see Requested). */
  const Subcommands: nat := 7

  /** Whether the flags ask for the subcommand of priority `k`. */
  predicate Requested(f: Flags, k: nat)
  {
    match k
    case 0 => f.create
    case 1 => f.account
    case 2 => f.changePassword
    case 3 => f.addAccount != ""
    case 4 => f.balance
    case 5 => f.transaction != ""
    case 6 => f.reset
    case _ => false
  }

  /** The priority of the subcommand an operation belongs to. */
  function Rank(c: Command): (k: nat)
    ensures (k < Subcommands) <==> !(c.ShowHelp? || c.NoCommand?)
  {
    match c
    case CreateWallet => 0
    case ShowAccount => 1
    case ChangePassword => 2
    case AddAccount => 3
    case ListBalance => 4
    case CreateTransaction | SignTransaction | SendTransaction | UnknownTransaction => 5
    case ResetStore => 6
    case ShowHelp | NoCommand => Subcommands
  }

  /** The branch chain of `walletAction`: the first requested subcommand wins. */
  function Select(f: Flags): (c: Command)
    ensures c.ShowHelp? <==> f.count == 0
  {
    if f.count == 0 then ShowHelp
    else if f.create then CreateWallet
    else if f.account then ShowAccount
    else if f.changePassword then ChangePassword
    else if f.addAccount != "" then AddAccount
    else if f.balance then ListBalance
    else if f.transaction != "" then
      (if f.transaction == "create" then CreateTransaction
       else if f.transaction == "sign" then SignTransaction
       else if f.transaction == "send" then SendTransaction
       else UnknownTransaction)
    else if f.reset then ResetStore
    else NoCommand
  }

  /** The operations that run and can fail with their own exit status. */
  predicate Fallible(c: Command)
  {
    !(c.ShowHelp? || c.UnknownTransaction? || c.NoCommand?)
  }

  /** The exit status of a failed operation. */
  function FailureCode(c: Command): int
    requires Fallible(c)
  {
    match c
    case CreateWallet => 1
    case ShowAccount => 3
    case ChangePassword => 4
    case AddAccount => 5
    case ListBalance => 6
    case CreateTransaction => 701
    case SignTransaction => 702
    case SendTransaction => 703
    case ResetStore => 8
  }

  /** The exit status after running `c`, given how the operation ended. */
  function ExitFor(c: Command, status: Status): (code: int)
    ensures Fallible(c) && status.Done? ==> code == 0
    ensures Fallible(c) && status.Failed? ==> code != 0 && code != OpenFailureExit
    ensures !Fallible(c) ==> (code == 0 <==> !c.UnknownTransaction?)
  {
    if c.ShowHelp? || c.NoCommand? then 0
    else if c.UnknownTransaction? then UnknownTransactionExit
    else
      match status
      case Done => 0
      case Failed(_) => FailureCode(c)
      case Exited(code) => code
  }

  /**
   * `walletAction(context)`. `openOk` says whether `walt.Open` succeeded and
   * `status` how the chosen operation would end.
   */
  function WalletAction(f: Flags, openOk: bool, status: Status): (r: Run)
    ensures 1 <= |r.steps| <= 2
    ensures r.steps[0] == OpenWallet <==> !(Select(f).ShowHelp? || Select(f).CreateWallet?)
    ensures forall c :: Execute(c) in r.steps ==> c == Select(f) && (Fallible(c) || c.ShowHelp?)
  {
    var c := Select(f);
    if c.ShowHelp? || c.CreateWallet? then Run([Execute(c)], ExitFor(c, status))
    else if !openOk then Run([OpenWallet], OpenFailureExit)
    else if c.NoCommand? || c.UnknownTransaction? then Run([OpenWallet], ExitFor(c, status))
    else Run([OpenWallet, Execute(c)], ExitFor(c, status))
  }

  /**
   * The selected subcommand is requested, and none of higher priority is;
   * nothing runs only when no subcommand is requested.
   */
  lemma SelectFirstRequested(f: Flags)
    requires f.count > 0
    ensures var c := Select(f);
      && (c.NoCommand? <==> forall k :: 0 <= k < Subcommands ==> !Requested(f, k))
      && (!c.NoCommand? ==>
            && Rank(c) < Subcommands && Requested(f, Rank(c))
            && forall k :: 0 <= k < Rank(c) ==> !Requested(f, k))
  {
    var c := Select(f);
    if c.NoCommand? {
      forall k | 0 <= k < Subcommands
        ensures !Requested(f, k)
      {
      }
    } else {
      assert Requested(f, Rank(c));
    }
  }

  /** A transaction parameter other than create, sign or send is refused. */
  lemma TransactionParameter(f: Flags)
    requires f.count > 0 && Rank(Select(f)) == 5
    ensures Select(f) == UnknownTransaction <==> f.transaction !in {"create", "sign", "send"}
    ensures Select(f) == UnknownTransaction ==>
      forall status :: WalletAction(f, true, status) == Run([OpenWallet], UnknownTransactionExit)
  {
  }

  /**
   * Each failing operation exits with its own status, distinct from 0, 2 and
   * 700. The status of a failed create is shared with a failed password read
   * (see ExitOneAmbiguous).
   */
  lemma FailureCodesDistinct(c1: Command, c2: Command)
    requires Fallible(c1) && Fallible(c2)
    ensures FailureCode(c1) == FailureCode(c2) <==> c1 == c2
    ensures FailureCode(c1) !in {0, OpenFailureExit, UnknownTransactionExit}
  {
  }

  /**
   * Exit status 1 does not identify a failed create: a password prompt that
   * cannot be read in any operation also ends the process with 1.
   */
  lemma ExitOneAmbiguous(e: Store.Error, c: Command)
    requires c.ShowAccount? || c.ChangePassword? || c.SignTransaction?
    ensures ExitFor(CreateWallet, Store.Failed(e)) == ExitFor(c, Store.Exited(Passwords.PromptFailureExit)) == 1
  {
  }

  /** Well-formed flags show help only when none is set at all. */
  lemma HelpOnlyWithoutFlags(f: Flags)
    requires WellFormed(f)
    ensures Select(f).ShowHelp? ==> f.password == [] && forall k :: 0 <= k < Subcommands ==> !Requested(f, k)
  {
    if Select(f).ShowHelp? {
      forall k | 0 <= k < Subcommands
        ensures !Requested(f, k)
      {
      }
    }
  }

  /** Creating a wallet runs without opening one, whatever opening would do. */
  lemma CreateBeforeOpen(f: Flags, openOk: bool, status: Status)
    requires f.count > 0 && f.create
    ensures WalletAction(f, openOk, status).steps == [Execute(CreateWallet)]
  {
  }

  /** Any other request first opens the wallet; a failed open exits with 2 and runs nothing. */
  lemma OpenFailureStops(f: Flags, status: Status)
    requires f.count > 0 && !f.create
    ensures WalletAction(f, false, status) == Run([OpenWallet], OpenFailureExit)
    ensures forall openOk :: WalletAction(f, openOk, status).steps[0] == OpenWallet
  {
  }

  /** A run that executes a fallible operation exits 0 when it succeeds and with its code when it fails. */
  lemma ExitReportsOutcome(f: Flags, openOk: bool, status: Status)
    requires Fallible(Select(f))
    requires Execute(Select(f)) in WalletAction(f, openOk, status).steps
    ensures status.Done? ==> WalletAction(f, openOk, status).exitCode == 0
    ensures status.Failed? ==> WalletAction(f, openOk, status).exitCode == FailureCode(Select(f))
  {
  }
}
