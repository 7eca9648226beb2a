/**
 * `getPassword` and `changePassword`. Reading from the terminal is a
 * function from the prompt shown to what was typed, `None` when reading
 * failed; a failed read ends the process with status 1.
 */
module Passwords {
  import opened Wrappers
  import opened Store

  /** The two terminal prompts: plain, and typed twice for confirmation. */
  datatype Prompt = Ask | AskConfirmed

  /** Where `getPassword` takes the password from. */
  datatype Source = Supplied(password: Bytes) | Prompted(prompt: Prompt)

  /** The exit status when the terminal cannot be read. */
  const PromptFailureExit: int := 1

  const ChangeFailed: Error := Message("failed to change password")

  /**
   * The supplied bytes win when there are any; otherwise the terminal is
   * asked, with the confirming prompt exactly when `confirmed` is set.
   */
  function SourceFor(passwd: Bytes, confirmed: bool): (s: Source)
    ensures s.Supplied? <==> |passwd| > 0
    ensures s.Supplied? ==> s.password == passwd
    ensures s.Prompted? ==> (s.prompt == AskConfirmed <==> confirmed)
  {
    if |passwd| > 0 then Supplied(passwd)
    else if confirmed then Prompted(AskConfirmed)
    else Prompted(Ask)
  }

  /** The prompts `getPassword` shows: none, or the one its source names. */
  function PromptsShown(passwd: Bytes, confirmed: bool): (prompts: seq<Prompt>)
    ensures |prompts| <= 1
  {
    match SourceFor(passwd, confirmed)
    case Supplied(_) => []
    case Prompted(p) => [p]
  }

  /** `getPassword(passwd, confirmed)`: the password, or the exit status of a failed read. */
  function GetPassword(passwd: Bytes, confirmed: bool, terminal: Prompt -> Option<Bytes>): (r: Result<Bytes, int>)
    ensures |passwd| > 0 ==> r == Success(passwd)
    ensures r.Failure? ==> r.error == PromptFailureExit
  {
    match SourceFor(passwd, confirmed)
    case Supplied(bytes) => Success(bytes)
    case Prompted(p) =>
      match terminal(p)
      case None => Failure(PromptFailureExit)
      case Some(bytes) => Success(bytes)
  }

  /** Supplied bytes are returned unchanged, whatever the terminal would say. */
  lemma SuppliedIgnoresTerminal(passwd: Bytes, confirmed: bool, t1: Prompt -> Option<Bytes>, t2: Prompt -> Option<Bytes>)
    requires |passwd| > 0
    ensures GetPassword(passwd, confirmed, t1) == GetPassword(passwd, confirmed, t2) == Success(passwd)
    ensures PromptsShown(passwd, confirmed) == []
  {
  }

  /** With no supplied bytes, the answer is what the terminal gave to the chosen prompt. */
  lemma PromptedAnswer(confirmed: bool, terminal: Prompt -> Option<Bytes>)
    ensures var p := if confirmed then AskConfirmed else Ask;
      && PromptsShown([], confirmed) == [p]
      && (GetPassword([], confirmed, terminal).Success? <==> terminal(p).Some?)
      && (terminal(p).Some? ==> GetPassword([], confirmed, terminal).value == terminal(p).value)
  {
  }

  /**
   * `changePassword(password, wallet)`. The old password is verified before
   * the new one is asked for: when verification fails the confirming prompt
   * is never shown and the store is not changed. The store is asked to
   * re-key only with the verified old password and the newly typed one.
   * `asked` lists the prompts shown, in order.
   */
  method ChangePassword(wallet: Wallet, passwd: Bytes, terminal: Prompt -> Option<Bytes>)
    returns (r: Status, asked: seq<Prompt>)
    requires wallet.Valid()
    modifies wallet
    ensures wallet.Valid() && wallet.added == old(wallet.added)
    ensures GetPassword(passwd, false, terminal).Failure? ==>
      && r == Exited(PromptFailureExit) && asked == PromptsShown(passwd, false)
      && wallet.history == old(wallet.history) && wallet.queries == old(wallet.queries)
    ensures GetPassword(passwd, false, terminal).Success? ==>
      var oldPassword := GetPassword(passwd, false, terminal).value;
      var verified := wallet.verifyOutcome(old(wallet.history), oldPassword);
      && wallet.queries == old(wallet.queries) + [Query.VerifyPassword(oldPassword)]
      && (verified.Fail? ==>
            && r == Failed(verified.error) && asked == PromptsShown(passwd, false)
            && wallet.history == old(wallet.history))
      && (verified.Pass? ==>
            && asked == PromptsShown(passwd, false) + [AskConfirmed]
            && (terminal(AskConfirmed).None? ==>
                  r == Exited(PromptFailureExit) && wallet.history == old(wallet.history))
            && (terminal(AskConfirmed).Some? ==>
                  var newPassword := terminal(AskConfirmed).value;
                  && wallet.history == old(wallet.history) + [Call.ChangePassword(oldPassword, newPassword)]
                  && r == (if wallet.changeOutcome(old(wallet.history), oldPassword, newPassword).Pass?
                           then Done else Failed(ChangeFailed))))
  {
    // verify old password
    asked := PromptsShown(passwd, false);
    var oldPassword := GetPassword(passwd, false, terminal);
    if oldPassword.Failure? {
      return Exited(oldPassword.error), asked;
    }
    var verified := wallet.VerifyPassword(oldPassword.value);
    if verified.Fail? {
      return Failed(verified.error), asked;
    }
    // input new password
    asked := asked + PromptsShown([], true);
    var newPassword := GetPassword([], true, terminal);
    if newPassword.Failure? {
      return Exited(newPassword.error), asked;
    }
    var changed := wallet.ChangePassword(oldPassword.value, newPassword.value);
    if changed.Fail? {
      return Failed(ChangeFailed), asked;
    }
    return Done, asked;
  }
}
