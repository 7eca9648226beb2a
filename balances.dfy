/**
 * `listBalanceInfo`: after a chain sync, report for every address of the
 * wallet, in order, the sum of its unspent outputs.
 */
module Balances {
  import opened Wrappers
  import opened Fixed
  import opened Store

  /** One printed entry: an address and its balance. */
  datatype Line = Line(address: Address, balance: Fixed64)

  /** What the listing prints, and how it ends. */
  datatype Report = Report(lines: seq<Line>, outcome: Outcome<Error>)

  const AddressesFailed: Error := Message("get wallet addresses failed")

  /** The error for an address whose outputs could not be fetched. */
  function UTXOsFailed(address: string): Error
  {
    Message("get " + address + " UTXOs failed")
  }

  /** The amounts of a list of outputs, in order. */
  function Amounts(utxos: seq<UTXO>): seq<Fixed64>
  {
    if utxos == [] then [] else Amounts(utxos[..|utxos| - 1]) + [utxos[|utxos| - 1].amount]
  }

  /**
   * The inner loop of `listBalanceInfo`: start from zero and add every
   * output's amount with Go's wrapping `Fixed64` addition. The result is the
   * true total reduced to 64 bits, which is the true total whenever that fits.
   */
  method SumBalance(utxos: seq<UTXO>) returns (balance: Fixed64)
    ensures balance == Wrap(Total(Amounts(utxos)))
    ensures MinFixed64 <= Total(Amounts(utxos)) <= MaxFixed64 ==> balance == Total(Amounts(utxos))
  {
    balance := 0;
    for i := 0 to |utxos|
      invariant balance == Wrap(Total(Amounts(utxos[..i])))
    {
      ghost var sum := Total(Amounts(utxos[..i]));
      assert utxos[..i + 1][..i] == utxos[..i];
      assert Total(Amounts(utxos[..i + 1])) == sum + utxos[i].amount;
      WrapAdd(sum, utxos[i].amount);
      balance := Add(balance, utxos[i].amount);
    }
    assert utxos[..|utxos|] == utxos;
    WrapResidue(Total(Amounts(utxos)));
  }

  /** The report the listing produces from the addresses the store gave. */
  function BalanceReport(
    utxosOutcome: (seq<Call>, ProgramHash) -> Result<seq<UTXO>, Error>,
    h: seq<Call>,
    addresses: seq<Address>): (r: Report)
    ensures |r.lines| <= |addresses|
    ensures r.outcome.Pass? ==> |r.lines| == |addresses|
  {
    if addresses == [] then Report([], Pass)
    else
      var previous := BalanceReport(utxosOutcome, h, addresses[..|addresses| - 1]);
      var address := addresses[|addresses| - 1];
      if previous.outcome.Fail? then previous
      else
        match utxosOutcome(h, address.programHash)
        case Failure(_) => Report(previous.lines, Fail(UTXOsFailed(address.text)))
        case Success(utxos) =>
          Report(previous.lines + [Line(address, Wrap(Total(Amounts(utxos))))], Pass)
  }

  /** The UTXO queries for a list of addresses, in order. */
  function Fetches(addresses: seq<Address>): seq<Query>
  {
    if addresses == [] then [] else Fetches(addresses[..|addresses| - 1]) + [UTXOsOf(addresses[|addresses| - 1].programHash)]
  }

  /** Line `i` reports address `i` and the total of its fetched outputs. */
  ghost predicate LineReports(
    utxosOutcome: (seq<Call>, ProgramHash) -> Result<seq<UTXO>, Error>,
    h: seq<Call>, address: Address, line: Line)
  {
    && line.address == address
    && utxosOutcome(h, address.programHash).Success?
    && line.balance == Wrap(Total(Amounts(utxosOutcome(h, address.programHash).value)))
  }

  /**
   * Each address in turn gets a line holding 0 plus the sum of its outputs;
   * the first address whose fetch fails ends the listing with an error naming
   * it, and no later address is reported.
   */
  lemma {:induction false} ReportShape(
    utxosOutcome: (seq<Call>, ProgramHash) -> Result<seq<UTXO>, Error>,
    h: seq<Call>,
    addresses: seq<Address>)
    ensures var report := BalanceReport(utxosOutcome, h, addresses);
      && |report.lines| <= |addresses|
      && (forall i :: 0 <= i < |report.lines| ==>
            LineReports(utxosOutcome, h, addresses[i], report.lines[i]))
      && (report.outcome.Pass? ==> |report.lines| == |addresses|)
      && (report.outcome.Fail? ==>
            && |report.lines| < |addresses|
            && utxosOutcome(h, addresses[|report.lines|].programHash).Failure?
            && report.outcome.error == UTXOsFailed(addresses[|report.lines|].text))
  {
    if addresses != [] {
      var init := addresses[..|addresses| - 1];
      ReportShape(utxosOutcome, h, init);
      var previous := BalanceReport(utxosOutcome, h, init);
      forall i | 0 <= i < |previous.lines|
        ensures addresses[i] == init[i]
      {
      }
    }
  }

  /** A fetch failure names the address: different addresses give different errors. */
  lemma UTXOsFailedNamesAddress(a: string, b: string)
    ensures UTXOsFailed(a) == UTXOsFailed(b) <==> a == b
  {
    if UTXOsFailed(a) == UTXOsFailed(b) {
      var s, t := "get " + a + " UTXOs failed", "get " + b + " UTXOs failed";
      assert |a| == |b| by { assert |s| == |t|; }
      forall i | 0 <= i < |a|
        ensures a[i] == b[i]
      {
        assert s[4 + i] == t[4 + i];
      }
    }
  }

  /**
   * The loop of `listBalanceInfo` over the listed addresses: fetch each
   * address's outputs in turn and print its balance, stopping at the first
   * fetch that fails. The store itself is not changed.
   */
  method ReportBalances(wallet: Wallet, addresses: seq<Address>) returns (lines: seq<Line>, r: Outcome<Error>)
    modifies wallet
    ensures wallet.history == old(wallet.history) && wallet.added == old(wallet.added)
    ensures Report(lines, r) == BalanceReport(wallet.utxosOutcome, wallet.history, addresses)
    ensures var fetched := if r.Pass? then |lines| else |lines| + 1;
      && fetched <= |addresses|
      && wallet.queries == old(wallet.queries) + Fetches(addresses[..fetched])
  {
    lines := [];
    for i := 0 to |addresses|
      invariant wallet.history == old(wallet.history) && wallet.added == old(wallet.added)
      invariant |lines| == i
      invariant Report(lines, Pass) == BalanceReport(wallet.utxosOutcome, wallet.history, addresses[..i])
      invariant wallet.queries == old(wallet.queries) + Fetches(addresses[..i])
    {
      var address := addresses[i];
      assert addresses[..i + 1][..i] == addresses[..i];
      assert Fetches(addresses[..i + 1]) == Fetches(addresses[..i]) + [UTXOsOf(address.programHash)];
      var utxos := wallet.GetAddressUTXOs(address.programHash);
      if utxos.Failure? {
        assert BalanceReport(wallet.utxosOutcome, wallet.history, addresses[..i + 1])
          == Report(lines, Fail(UTXOsFailed(address.text)));
        ReportFailureSticks(wallet.utxosOutcome, wallet.history, addresses, i + 1);
        return lines, Fail(UTXOsFailed(address.text));
      }
      var balance := SumBalance(utxos.value);
      assert BalanceReport(wallet.utxosOutcome, wallet.history, addresses[..i + 1])
        == Report(lines + [Line(address, balance)], Pass);
      lines := lines + [Line(address, balance)];
    }
    assert addresses[..|addresses|] == addresses;
    return lines, Pass;
  }

  /**
   * `listBalanceInfo(wallet)`: sync once, then list the addresses; a failed
   * listing ends with its own error before any output is fetched. Otherwise
   * the printed lines and the outcome are the balance report, and the outputs
   * were fetched for exactly the addresses up to the one that failed.
   */
  method ListBalanceInfo(wallet: Wallet) returns (lines: seq<Line>, r: Outcome<Error>)
    requires wallet.Valid()
    modifies wallet
    ensures wallet.Valid()
    ensures wallet.history == old(wallet.history) + [SyncChainData]
    ensures wallet.added == old(wallet.added)
    ensures wallet.addressesOutcome(wallet.history).Failure? ==>
      && lines == [] && r == Fail(AddressesFailed)
      && wallet.queries == old(wallet.queries) + [Addresses]
    ensures wallet.addressesOutcome(wallet.history).Success? ==>
      var addresses := wallet.addressesOutcome(wallet.history).value;
      var fetched := if r.Pass? then |lines| else |lines| + 1;
      && Report(lines, r) == BalanceReport(wallet.utxosOutcome, wallet.history, addresses)
      && fetched <= |addresses|
      && wallet.queries == old(wallet.queries) + [Addresses] + Fetches(addresses[..fetched])
  {
    wallet.SyncChainData();
    var listed := wallet.GetAddresses();
    if listed.Failure? {
      return [], Fail(AddressesFailed);
    }
    lines, r := ReportBalances(wallet, listed.value);
  }

  /** Once the report of a prefix has failed, the whole report is that failure. */
  lemma {:induction false} ReportFailureSticks(
    utxosOutcome: (seq<Call>, ProgramHash) -> Result<seq<UTXO>, Error>,
    h: seq<Call>, addresses: seq<Address>, n: nat)
    requires n <= |addresses| && BalanceReport(utxosOutcome, h, addresses[..n]).outcome.Fail?
    ensures BalanceReport(utxosOutcome, h, addresses) == BalanceReport(utxosOutcome, h, addresses[..n])
    decreases |addresses| - n
  {
    if n < |addresses| {
      assert addresses[..n + 1][..n] == addresses[..n];
      ReportFailureSticks(utxosOutcome, h, addresses, n + 1);
    } else {
      assert addresses[..n] == addresses;
    }
  }
}
