/**
 * The wallet store the command talks to (`walt.Wallet`). Its implementation
 * is not part of this model: every answer it gives is an opaque function of
 * the store-changing calls made so far and of the call's arguments. What the
 * model tracks is which calls the command makes, in which order, and which
 * program hashes the store registered.
 */
module Store {
  import opened Wrappers
  import opened Fixed

  type Bytes = seq<bv8>

  /** A decoded public key: a point on the wallet's curve. */
  datatype PubKey = PubKey(x: int, y: int)

  /** The identity of a spend condition (a 21-byte `Uint168`). */
  datatype ProgramHash = ProgramHash(bytes: Bytes)

  /** One address of the wallet as the store lists it. */
  datatype Address = Address(text: string, programHash: ProgramHash)

  /** An unspent output; only its amount matters here. */
  datatype UTXO = UTXO(amount: Fixed64)

  datatype Error =
    | BadHex(text: string)                 // HexStringToBytes rejected the text
    | BadPoint(bytes: Bytes)               // DecodePoint rejected the bytes
    | BadProgramHash(hash: ProgramHash)    // ToAddress could not encode the hash
    | StoreFailure(cause: string)          // an error the store returned
    | Message(text: string)                // an error the command made itself

  /** How a subcommand ended: normally, with an error, or by exiting the process. */
  datatype Status = Done | Failed(error: Error) | Exited(code: int)

  /** A call that may change the store. */
  datatype Call =
    | AddStandard(key: PubKey)
    | AddMultiSign(keys: seq<PubKey>)
    | ResetHeight
    | SyncChainData
    | ChangePassword(oldPassword: Bytes, newPassword: Bytes)

  /** A call that only reads the store. */
  datatype Query =
    | Addresses
    | UTXOsOf(programHash: ProgramHash)
    | VerifyPassword(password: Bytes)

  class Wallet {
    /** The store-changing calls made on this wallet, in order. */
    var history: seq<Call>
    /** The read-only calls made on this wallet, in order. */
    var queries: seq<Query>
    /** The program hashes the store registered through this wallet, in order. */
    var added: seq<ProgramHash>

    // The store's answers, given the history before the call.
    const standardOutcome: (seq<Call>, PubKey) -> Result<ProgramHash, Error>
    const multiSignOutcome: (seq<Call>, seq<PubKey>) -> Result<ProgramHash, Error>
    const addressesOutcome: seq<Call> -> Result<seq<Address>, Error>
    const utxosOutcome: (seq<Call>, ProgramHash) -> Result<seq<UTXO>, Error>
    const verifyOutcome: (seq<Call>, Bytes) -> Outcome<Error>
    const changeOutcome: (seq<Call>, Bytes, Bytes) -> Outcome<Error>

    /** What the call `c`, made after `h`, adds to the registered hashes. */
    function Registered(h: seq<Call>, c: Call): (r: seq<ProgramHash>)
      ensures |r| <= 1
      ensures !(c.AddStandard? || c.AddMultiSign?) ==> r == []
    {
      match c
      case AddStandard(key) =>
        (match standardOutcome(h, key) case Success(p) => [p] case Failure(_) => [])
      case AddMultiSign(keys) =>
        (match multiSignOutcome(h, keys) case Success(p) => [p] case Failure(_) => [])
      case _ => []
    }

    /** The hashes a history of calls registers. */
    function Registrations(h: seq<Call>): seq<ProgramHash>
    {
      if h == [] then []
      else Registrations(h[..|h| - 1]) + Registered(h[..|h| - 1], h[|h| - 1])
    }

    ghost predicate Valid()
      reads this
    {
      added == Registrations(history)
    }

    constructor (
      standardOutcome: (seq<Call>, PubKey) -> Result<ProgramHash, Error>,
      multiSignOutcome: (seq<Call>, seq<PubKey>) -> Result<ProgramHash, Error>,
      addressesOutcome: seq<Call> -> Result<seq<Address>, Error>,
      utxosOutcome: (seq<Call>, ProgramHash) -> Result<seq<UTXO>, Error>,
      verifyOutcome: (seq<Call>, Bytes) -> Outcome<Error>,
      changeOutcome: (seq<Call>, Bytes, Bytes) -> Outcome<Error>)
      ensures Valid()
      ensures history == [] && queries == [] && added == []
      ensures this.standardOutcome == standardOutcome && this.multiSignOutcome == multiSignOutcome
      ensures this.addressesOutcome == addressesOutcome && this.utxosOutcome == utxosOutcome
      ensures this.verifyOutcome == verifyOutcome && this.changeOutcome == changeOutcome
    {
      this.standardOutcome := standardOutcome;
      this.multiSignOutcome := multiSignOutcome;
      this.addressesOutcome := addressesOutcome;
      this.utxosOutcome := utxosOutcome;
      this.verifyOutcome := verifyOutcome;
      this.changeOutcome := changeOutcome;
      history, queries, added := [], [], [];
    }

    /** Records a store-changing call and what it registers. */
    method Perform(c: Call)
      requires Valid()
      modifies this
      ensures Valid()
      ensures history == old(history) + [c] && queries == old(queries)
      ensures added == old(added) + Registered(old(history), c)
    {
      assert (history + [c])[..|history|] == history;
      added := added + Registered(history, c);
      history := history + [c];
    }

    /** `AddStandardAddress`: registers the account of one public key. */
    method AddStandardAddress(key: PubKey) returns (r: Result<ProgramHash, Error>)
      requires Valid()
      modifies this
      ensures Valid()
      ensures r == standardOutcome(old(history), key)
      ensures history == old(history) + [AddStandard(key)] && queries == old(queries)
      ensures added == old(added) + (if r.Success? then [r.value] else [])
    {
      r := standardOutcome(history, key);
      Perform(AddStandard(key));
    }

    /** `AddMultiSignAddress`: registers the account of a list of signer keys. */
    method AddMultiSignAddress(keys: seq<PubKey>) returns (r: Result<ProgramHash, Error>)
      requires Valid()
      modifies this
      ensures Valid()
      ensures r == multiSignOutcome(old(history), keys)
      ensures history == old(history) + [AddMultiSign(keys)] && queries == old(queries)
      ensures added == old(added) + (if r.Success? then [r.value] else [])
    {
      r := multiSignOutcome(history, keys);
      Perform(AddMultiSign(keys));
    }

    /** `CurrentHeight(ResetHeightCode)`: rewinds the synced height. */
    method ResetHeight()
      requires Valid()
      modifies this
      ensures Valid()
      ensures history == old(history) + [Call.ResetHeight] && queries == old(queries)
      ensures added == old(added)
    {
      Perform(Call.ResetHeight);
    }

    /** `SyncChainData`: refreshes the store from the chain. */
    method SyncChainData()
      requires Valid()
      modifies this
      ensures Valid()
      ensures history == old(history) + [Call.SyncChainData] && queries == old(queries)
      ensures added == old(added)
    {
      Perform(Call.SyncChainData);
    }

    /** `ChangePassword(old, new)`: re-keys the keystore. */
    method ChangePassword(oldPassword: Bytes, newPassword: Bytes) returns (r: Outcome<Error>)
      requires Valid()
      modifies this
      ensures Valid()
      ensures r == changeOutcome(old(history), oldPassword, newPassword)
      ensures history == old(history) + [Call.ChangePassword(oldPassword, newPassword)]
      ensures queries == old(queries) && added == old(added)
    {
      r := changeOutcome(history, oldPassword, newPassword);
      Perform(Call.ChangePassword(oldPassword, newPassword));
    }

    /** `GetAddresses`: the addresses the store holds. */
    method GetAddresses() returns (r: Result<seq<Address>, Error>)
      modifies this
      ensures r == addressesOutcome(history)
      ensures queries == old(queries) + [Addresses]
      ensures history == old(history) && added == old(added)
    {
      r := addressesOutcome(history);
      queries := queries + [Addresses];
    }

    /** `GetAddressUTXOs`: the unspent outputs of one program hash. */
    method GetAddressUTXOs(programHash: ProgramHash) returns (r: Result<seq<UTXO>, Error>)
      modifies this
      ensures r == utxosOutcome(history, programHash)
      ensures queries == old(queries) + [UTXOsOf(programHash)]
      ensures history == old(history) && added == old(added)
    {
      r := utxosOutcome(history, programHash);
      queries := queries + [UTXOsOf(programHash)];
    }

    /** `VerifyPassword`: checks a password against the keystore. */
    method VerifyPassword(password: Bytes) returns (r: Outcome<Error>)
      modifies this
      ensures r == verifyOutcome(history, password)
      ensures queries == old(queries) + [Query.VerifyPassword(password)]
      ensures history == old(history) && added == old(added)
    {
      r := verifyOutcome(history, password);
      queries := queries + [Query.VerifyPassword(password)];
    }
  }
}
