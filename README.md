# Wallet subcommand of the Elastos side-chain client, in Dafny

This project models the decision and bookkeeping logic of the `wallet`
subcommand of the command-line client (`cli/wallet/wallet.go`):

- **adding an account** from one public key or from a comma-separated list of
  signer keys, and the resync that follows a successful add;
- **listing balances**, one per wallet address, each the sum of that
  address's unspent outputs;
- **choosing where a password comes from** (the `--password` flag or a
  terminal prompt), and the order in which the password change verifies the
  old password and asks for the new one;
- **dispatching** the flags to one operation, and the exit status of the
  process.

The wallet store (`walt.Wallet`): its implementation is not modelled; the
class `Store.Wallet` stands for it, with opaque answers. Each of its answers is an opaque function of the arguments and
of the store-changing calls made so far. The class records the store-changing
calls in `history`, the read-only calls in `queries`, and the program hashes
the store registered in `added`. Its invariant `Valid()` ties `added` to
`history`. The foreign primitives `HexStringToBytes`, `crypto.DecodePoint` and
`ProgramHash.ToAddress` are the fields of the `Accounts.Codec` value, each a
total function that returns `None` on failure. A terminal read is a function
from the prompt shown to the bytes typed, with `None` meaning the read failed.

Modules: `Wrappers` (Option, Result, Outcome), `Text` (Go's `strings.Split` on
one character and `strings.TrimSpace`), `Fixed` (the 64-bit `Fixed64` amount
and its wrapping addition), `Store`, `Accounts`, `Balances`, `Passwords` and
`Dispatch`.

Where the code and the system's design documentation differ, the model
follows the code:

- The documentation asks for balance overflow to be detected and rejected.
  The code adds `Fixed64` amounts with Go's wrapping `+=`. The model wraps the
  same way and proves the result equals the true sum whenever that sum fits in
  64 bits.
- The documentation counts distinct signer keys for the three-key floor. The
  code counts the pieces of `strings.Split`, empty pieces included, and checks
  neither duplicates nor a threshold.
- Exit status 1 means both a failed wallet creation and, in any operation,
  a password prompt that could not be read (`Dispatch.ExitOneAmbiguous`); it
  does not identify the failing operation.
- The documentation asks for every password to be wiped on every exit path.
  In `changePassword` the wipes are deferred only after verification and
  re-keying succeed.

## Model

| member | source | states |
|---|---|---|
| `Text.Split` | cli/wallet/wallet.go:61 | `strings.Split` on one character always gives at least one piece; SplitCount, SplitJoin and SplitPiecesFree pin it down exactly |
| `Text.TrimSpace` | cli/wallet/wallet.go:43 | `strings.TrimSpace` never lengthens its input; TrimSpaceSlice and TrimSpaceIdempotent characterise it |
| `Text.SplitCount` | cli/wallet/wallet.go:61-62 | `strings.Split` on `,` gives exactly one more piece than there are commas, empty pieces included |
| `Text.SplitJoin` | cli/wallet/wallet.go:61 | joining the split pieces with `,` gives back the content, so no character is lost or reordered |
| `Text.SplitPiecesFree` | cli/wallet/wallet.go:61 | no piece of the split contains a comma |
| `Text.SplitWithoutSeparator` | cli/wallet/wallet.go:42 | content without a comma splits into itself alone |
| `Text.TrimSpaceSlice` | cli/wallet/wallet.go:43 | the trimmed key text is a slice of the input with only white space cut from both ends, and it neither starts nor ends with white space |
| `Text.TrimSpaceIdempotent` | cli/wallet/wallet.go:67 | trimming a trimmed piece changes nothing |
| `Accounts.DecodeKey` | cli/wallet/wallet.go:43-50 | one key's text is trimmed, hex-decoded and point-decoded; a failure is a hex or a point error, never any other |
| `Accounts.DecodeAll` | cli/wallet/wallet.go:65-76 | decoding a list gives one key per piece, or a hex or point error; the lemmas below say which keys and which error |
| `Accounts.ParseAccount` | cli/wallet/wallet.go:42-76 | a valid content without a comma gives a standard request and one with a comma a multi-sign request of at least three keys |
| `Accounts.StandardPath` | cli/wallet/wallet.go:42-51 | content without a comma is accepted exactly when the whole trimmed content decodes to a key; it becomes a standard request for that key, and otherwise fails with that decoding's error |
| `Accounts.TooFewKeys` | cli/wallet/wallet.go:60-64 | content with a comma fails with "public keys is not enough" exactly when it has fewer than two commas (fewer than three pieces); no decoding error can be mistaken for it |
| `Accounts.EmptyPiecesCount` | cli/wallet/wallet.go:61-70 | `",,"` passes the count check and succeeds exactly when the empty string decodes to a key |
| `Accounts.MultiSignKeysInOrder` | cli/wallet/wallet.go:65-77 | a multi-sign request holds at least three keys, one per piece, in input order, each decoded from its trimmed piece |
| `Accounts.DecodeAllKeys` | cli/wallet/wallet.go:66-76 | when every piece decodes, the key list has one key per piece, in order |
| `Accounts.DecodeAllSucceeds` | cli/wallet/wallet.go:66-76 | if every piece decodes, the key list is produced |
| `Accounts.DecodeAllFirstError` | cli/wallet/wallet.go:67-74 | a failure is the error of the first piece that does not decode, and every piece before it decoded |
| `Accounts.DecodeAllPrefixFailure` | cli/wallet/wallet.go:67-74 | once a piece fails, the later pieces do not change the error |
| `Accounts.DecodeKeys` | cli/wallet/wallet.go:65-76 | the decoding loop returns exactly the in-order decoding of the pieces, or the first piece's error |
| `Accounts.ValidateContent` | cli/wallet/wallet.go:42-76 | the checks made before the store is called give the request or error described by `ParseAccount` |
| `Accounts.AddAccount` | cli/wallet/wallet.go:40-92 | an invalid content returns its error with the store untouched; a valid one makes one registration call; a failed registration returns the store's own error, and a hash that does not encode returns the encoding error for that hash; only when registration and address encoding both succeed do the height reset and then the sync each happen once; the result is the printed address |
| `Accounts.Registration` | cli/wallet/wallet.go:51-54 | the store's answer to a request is what the store adds to its registered hashes: the hash on success, nothing on failure |
| `Store.Wallet.AddStandardAddress` | cli/wallet/wallet.go:51 | one registration call is recorded, and the hash is added only on success |
| `Store.Wallet.AddMultiSignAddress` | cli/wallet/wallet.go:77 | one registration call with the ordered key list is recorded, and the hash is added only on success |
| `Store.Wallet.ResetHeight` | cli/wallet/wallet.go:88 | records the height reset and changes nothing else |
| `Store.Wallet.SyncChainData` | cli/wallet/wallet.go:89 | records the sync and changes nothing else |
| `Store.Wallet.GetAddresses` | cli/wallet/wallet.go:140 | a read-only query: the history and registered hashes are unchanged |
| `Store.Wallet.GetAddressUTXOs` | cli/wallet/wallet.go:149 | a read-only query for one program hash |
| `Store.Wallet.VerifyPassword` | cli/wallet/wallet.go:97 | a read-only password check |
| `Store.Wallet.ChangePassword` | cli/wallet/wallet.go:106 | records one re-key call with the old and new passwords |
| `Fixed.WrapAdd` | cli/wallet/wallet.go:153-155 | adding with 64-bit wrap at every step is the same as wrapping the exact sum once |
| `Fixed.AddExact` | cli/wallet/wallet.go:154 | `Fixed64` addition is exact when the sum fits in 64 bits |
| `Fixed.Add` | cli/wallet/wallet.go:154 | Go's `+=` on `Fixed64` gives the exact sum up to a multiple of 2^64 |
| `Balances.SumBalance` | cli/wallet/wallet.go:147-155 | a balance starts at 0 and adds every amount; the result is the exact total reduced to 64 bits, and equals the exact total whenever that fits |
| `Balances.BalanceReport` | cli/wallet/wallet.go:146-161 | the listing has at most one line per address, and exactly one per address when no fetch failed; ReportShape gives each line |
| `Balances.ReportShape` | cli/wallet/wallet.go:146-158 | each address, in order, gets a line with its own total; the first failed fetch ends the listing with an error naming that address, and no later address gets a line |
| `Balances.ReportFailureSticks` | cli/wallet/wallet.go:149-152 | after a failed fetch, later addresses do not change the report |
| `Balances.UTXOsFailedNamesAddress` | cli/wallet/wallet.go:151 | the fetch error names the address: two addresses give the same error only if they are equal |
| `Balances.ReportBalances` | cli/wallet/wallet.go:146-161 | the listing loop prints the balance report and fetches outputs for exactly the addresses up to and including the first that fails |
| `Balances.ListBalanceInfo` | cli/wallet/wallet.go:138-163 | one sync comes first; a failed address listing fails before any fetch; otherwise the result is the balance report of the listed addresses |
| `Passwords.SourceFor` | cli/wallet/wallet.go:165-181 | supplied bytes are used exactly when there are any; otherwise the prompt is the confirming one exactly when `confirmed` is set |
| `Passwords.GetPassword` | cli/wallet/wallet.go:165-182 | non-empty supplied bytes come back unchanged; a failure is always the exit status 1 of a failed read |
| `Passwords.SuppliedIgnoresTerminal` | cli/wallet/wallet.go:168-169 | with supplied bytes the terminal is never asked, and what it would answer makes no difference |
| `Passwords.PromptedAnswer` | cli/wallet/wallet.go:170-180 | without supplied bytes, exactly one prompt is shown, and the password is what the terminal answered to it |
| `Passwords.ChangePassword` | cli/wallet/wallet.go:94-114 | the old password is verified before the new one is asked for; on a failed verification the confirming prompt is never shown and the store is unchanged; the re-key call gets the verified old password and the newly typed one |
| `Dispatch.WalletAction` | cli/wallet/wallet.go:184-275 | one or two steps; the wallet is opened first exactly when neither help nor create is chosen; the only operation run is the selected one |
| `Dispatch.ExitFor` | cli/wallet/wallet.go:185-273 | an operation that succeeded exits 0, one that failed exits neither 0 nor 2, help and an empty selection exit 0, and an unknown transaction parameter does not |
| `Dispatch.HelpOnlyWithoutFlags` | cli/wallet/wallet.go:185-188 | for flags the command line can produce, help is shown only when no flag at all is set |
| `Dispatch.Select` | cli/wallet/wallet.go:185-188 | help is shown exactly when no flag is given |
| `Dispatch.SelectFirstRequested` | cli/wallet/wallet.go:191-273 | the chosen operation is requested and none of higher priority is (create, account, changepassword, addaccount, balance, transaction, reset); nothing runs only when none is requested |
| `Dispatch.TransactionParameter` | cli/wallet/wallet.go:243-263 | a transaction parameter other than create, sign or send is refused with exit status 700 after the wallet is opened |
| `Dispatch.FailureCodesDistinct` | cli/wallet/wallet.go:192-273 | failing operations exit with pairwise different statuses, none of them 0, 2 or 700 |
| `Dispatch.ExitOneAmbiguous` | cli/wallet/wallet.go:176-178 | a failed create and a failed password read in another operation both exit 1 |
| `Dispatch.CreateBeforeOpen` | cli/wallet/wallet.go:192-198 | wallet creation runs without opening the wallet, whatever opening would do |
| `Dispatch.OpenFailureStops` | cli/wallet/wallet.go:200-204 | every other request opens the wallet first; a failed open exits with status 2 and runs no operation |
| `Dispatch.ExitReportsOutcome` | cli/wallet/wallet.go:206-274 | an operation that ran exits 0 when it succeeded and with its own status when it failed |

## Left out

- `createWallet` and `showAccountInfo` (cli/wallet/wallet.go:30-38, 116-136) only call the keystore (`walt.Create`, `walt.OpenKeyStore`) and print. The keystore is not part of this model, so they appear only as operations chosen by `Dispatch`.
- The transaction operations `createTransaction`, `signTransaction` and `sendTransaction` are not part of this model. `Dispatch` only selects them and maps their failure to 701, 702 and 703.
- The wallet store's own behaviour (`walt.Open`, `AddStandardAddress`, `AddMultiSignAddress`, `CurrentHeight`, `SyncChainData`, `GetAddresses`, `GetAddressUTXOs`, `VerifyPassword`, `ChangePassword`, `Reset`) is left out: its answers are opaque functions, and `walt.Open` and `Reset` appear only as inputs to `Dispatch.WalletAction`.
- `HexStringToBytes`, `crypto.DecodePoint` and `ToAddress` are opaque functions; hex syntax, curve arithmetic, hashing and address checksums are not modelled.
- Terminal I/O is left out: `printLine`, the printed text, the help output of the `cli` library, and how the password prompts read and confirm input. Only the prompt chosen and the exit status of a failed read are kept.
- `os.Exit` is modelled as the exit status in `Dispatch.Run` and as `Status.Exited`. The process really stops at that point; the model does not follow it further.
- `ClearBytes`, the wiping of password buffers, is not modelled. Its implementation is not part of this model.
- Go strings are byte strings; the model uses sequences of Unicode characters, so malformed UTF-8 input to `strings.TrimSpace` is not represented.
- `Store.Wallet.SyncChainData`: its errors and its effect on the chain data are left to the opaque answers of later calls, which may depend on it through the call history.
- `Dispatch.WalletAction` takes whether `walt.Open` succeeded and how the chosen operation ended as inputs. It does not link them to the methods above.
- The entry point `ela-cli.go` only wires the application together and is not modelled.
