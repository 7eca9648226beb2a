/**
 * `addAccount`: adds a standard account from one public key, or a
 * multi-sign account from a comma-separated list of public keys, and then
 * makes the store rescan the chain for the new address.
 */
module Accounts {
  import opened Wrappers
  import opened Text
  import opened Store

  /** The fewest signer keys a multi-sign account may have. */
  const MinMultiSignKeys: nat := 3

  /** The error for a comma-separated list with too few pieces. */
  const NotEnoughKeys: Error := Message("public keys is not enough")

  /** The foreign primitives `addAccount` calls; their definitions are not part of the model. */
  datatype Codec = Codec(
    hexToBytes: string -> Option<Bytes>,         // HexStringToBytes
    decodePoint: Bytes -> Option<PubKey>,        // crypto.DecodePoint
    toAddress: ProgramHash -> Option<string>)    // ProgramHash.ToAddress

  /** What a valid content asks the store to register. */
  datatype KeyRequest = StandardKey(key: PubKey) | MultiSignKeys(keys: seq<PubKey>)

  /** One piece of content: trimmed, hex-decoded, then decoded as a curve point. */
  function DecodeKey(codec: Codec, piece: string): (r: Result<PubKey, Error>)
    ensures r.Failure? ==> r.error.BadHex? || r.error.BadPoint?
  {
    var text := TrimSpace(piece);
    match codec.hexToBytes(text)
    case None => Failure(BadHex(text))
    case Some(bytes) =>
      match codec.decodePoint(bytes)
      case None => Failure(BadPoint(bytes))
      case Some(key) => Success(key)
  }

  /** Decodes the pieces in order; the first piece that fails decides the error. */
  function DecodeAll(codec: Codec, pieces: seq<string>): (r: Result<seq<PubKey>, Error>)
    ensures r.Success? ==> |r.value| == |pieces|
    ensures r.Failure? ==> r.error.BadHex? || r.error.BadPoint?
  {
    if pieces == [] then Success([])
    else
      match DecodeAll(codec, pieces[..|pieces| - 1])
      case Failure(e) => Failure(e)
      case Success(keys) =>
        match DecodeKey(codec, pieces[|pieces| - 1])
        case Failure(e) => Failure(e)
        case Success(key) => Success(keys + [key])
  }

  /** The validation half of `addAccount`: everything it checks before touching the store. */
  function ParseAccount(codec: Codec, content: string): (r: Result<KeyRequest, Error>)
    ensures r.Success? ==> (r.value.StandardKey? <==> ',' !in content)
    ensures r.Success? && r.value.MultiSignKeys? ==> |r.value.keys| >= MinMultiSignKeys
  {
    if ',' !in content then
      match DecodeKey(codec, content)
      case Failure(e) => Failure(e)
      case Success(key) => Success(StandardKey(key))
    else
      var pieces := Split(content, ',');
      if |pieces| < MinMultiSignKeys then Failure(NotEnoughKeys)
      else
        match DecodeAll(codec, pieces)
        case Failure(e) => Failure(e)
        case Success(keys) => Success(MultiSignKeys(keys))
  }

  /** The store call a request turns into. */
  function RegisterCall(request: KeyRequest): (c: Call)
    ensures c.AddStandard? <==> request.StandardKey?
  {
    match request
    case StandardKey(key) => AddStandard(key)
    case MultiSignKeys(keys) => AddMultiSign(keys)
  }

  /** On success every piece decoded, and the keys are the pieces' keys in order. */
  lemma {:induction false} DecodeAllKeys(codec: Codec, pieces: seq<string>)
    requires DecodeAll(codec, pieces).Success?
    ensures |DecodeAll(codec, pieces).value| == |pieces|
    ensures forall i :: 0 <= i < |pieces| ==>
      DecodeKey(codec, pieces[i]) == Success(DecodeAll(codec, pieces).value[i])
  {
    if pieces != [] {
      var init := pieces[..|pieces| - 1];
      var last := DecodeKey(codec, pieces[|pieces| - 1]);
      assert DecodeAll(codec, init).Success? && last.Success?;
      var keys := DecodeAll(codec, init).value;
      assert DecodeAll(codec, pieces).value == keys + [last.value];
      DecodeAllKeys(codec, init);
      forall i | 0 <= i < |pieces|
        ensures DecodeKey(codec, pieces[i]) == Success(DecodeAll(codec, pieces).value[i])
      {
        if i < |pieces| - 1 {
          assert pieces[i] == init[i];
        }
      }
    }
  }

  /** If every piece decodes, so does the list. */
  lemma {:induction false} DecodeAllSucceeds(codec: Codec, pieces: seq<string>)
    requires forall i :: 0 <= i < |pieces| ==> DecodeKey(codec, pieces[i]).Success?
    ensures DecodeAll(codec, pieces).Success?
  {
    if pieces != [] {
      DecodeAllSucceeds(codec, pieces[..|pieces| - 1]);
    }
  }

  /** On failure, the error is that of the first piece that does not decode. */
  lemma {:induction false} DecodeAllFirstError(codec: Codec, pieces: seq<string>) returns (k: nat)
    requires DecodeAll(codec, pieces).Failure?
    ensures k < |pieces|
    ensures DecodeKey(codec, pieces[k]) == Failure(DecodeAll(codec, pieces).error)
    ensures forall i :: 0 <= i < k ==> DecodeKey(codec, pieces[i]).Success?
  {
    var init := pieces[..|pieces| - 1];
    if DecodeAll(codec, init).Failure? {
      assert DecodeAll(codec, pieces) == DecodeAll(codec, init);
      k := DecodeAllFirstError(codec, init);
      assert pieces[k] == init[k];
      forall i | 0 <= i < k
        ensures DecodeKey(codec, pieces[i]).Success?
      {
        assert pieces[i] == init[i];
      }
    } else {
      assert DecodeKey(codec, pieces[|pieces| - 1]) == Failure(DecodeAll(codec, pieces).error);
      DecodeAllKeys(codec, init);
      k := |pieces| - 1;
      forall i | 0 <= i < k
        ensures DecodeKey(codec, pieces[i]).Success?
      {
        assert pieces[i] == init[i];
      }
    }
  }

  /** A failure among the first pieces is the failure of the whole list. */
  lemma {:induction false} DecodeAllPrefixFailure(codec: Codec, pieces: seq<string>, n: nat)
    requires n <= |pieces| && DecodeAll(codec, pieces[..n]).Failure?
    ensures DecodeAll(codec, pieces) == DecodeAll(codec, pieces[..n])
    decreases |pieces| - n
  {
    if n < |pieces| {
      assert pieces[..n + 1][..n] == pieces[..n];
      DecodeAllPrefixFailure(codec, pieces, n + 1);
    } else {
      assert pieces[..n] == pieces;
    }
  }

  /** Content without a comma is one key: the whole content, trimmed and decoded. */
  lemma StandardPath(codec: Codec, content: string)
    requires ',' !in content
    ensures ParseAccount(codec, content).Success? <==> DecodeKey(codec, content).Success?
    ensures ParseAccount(codec, content).Success? ==>
      ParseAccount(codec, content) == Success(StandardKey(DecodeKey(codec, content).value))
    ensures ParseAccount(codec, content).Failure? ==>
      ParseAccount(codec, content).error == DecodeKey(codec, content).error
  {
  }

  /**
   * Content with a comma is rejected as too few keys exactly when it holds a
   * single comma (the split gives two pieces).
   */
  lemma {:induction false} TooFewKeys(codec: Codec, content: string)
    requires ',' in content
    ensures ParseAccount(codec, content) == Failure(NotEnoughKeys)
        <==> Occurrences(content, ',') < MinMultiSignKeys - 1
  {
    SplitCount(content, ',');
    var pieces := Split(content, ',');
    if |pieces| >= MinMultiSignKeys {
      var decoded := DecodeAll(codec, pieces);
      if decoded.Failure? {
        var k := DecodeAllFirstError(codec, pieces);
        assert DecodeKey(codec, pieces[k]).error != NotEnoughKeys;
        assert ParseAccount(codec, content) == Failure(decoded.error);
      } else {
        assert ParseAccount(codec, content) == Success(MultiSignKeys(decoded.value));
      }
    } else {
      assert ParseAccount(codec, content) == Failure(NotEnoughKeys);
    }
  }

  /**
   * `",,"` has three empty pieces: it passes the count check, and its outcome
   * is decided by decoding the empty string.
   */
  lemma EmptyPiecesCount(codec: Codec)
    ensures ParseAccount(codec, ",,") != Failure(NotEnoughKeys)
    ensures ParseAccount(codec, ",,").Success? <==> DecodeKey(codec, "").Success?
  {
    assert Split("", ',') == [""];
    assert Split(",", ',') == ["", ""] by { assert ","[1..] == ""; }
    assert Split(",,", ',') == ["", "", ""] by { assert ",,"[1..] == ","; }
    var pieces := ["", "", ""];
    var decoded := DecodeAll(codec, pieces);
    if DecodeKey(codec, "").Success? {
      DecodeAllSucceeds(codec, pieces);
      assert ParseAccount(codec, ",,") == Success(MultiSignKeys(decoded.value));
    } else {
      var k := DecodeAllFirstError(codec, pieces);
      assert ParseAccount(codec, ",,") == Failure(decoded.error);
    }
  }

  /**
   * A multi-sign request holds one key per piece of the split content, in
   * order, each the decoding of its trimmed piece, and at least three of them.
   */
  lemma MultiSignKeysInOrder(codec: Codec, content: string)
    requires ParseAccount(codec, content).Success?
    requires ParseAccount(codec, content).value.MultiSignKeys?
    ensures var keys := ParseAccount(codec, content).value.keys;
      var pieces := Split(content, ',');
      && ',' in content
      && |keys| == |pieces| >= MinMultiSignKeys
      && forall i :: 0 <= i < |pieces| ==> DecodeKey(codec, pieces[i]) == Success(keys[i])
  {
    DecodeAllKeys(codec, Split(content, ','));
  }

  /**
   * The loop of `addAccount` over the pieces of a multi-sign content: decode
   * each trimmed piece in order and append its key, stopping at the first
   * piece that does not decode.
   */
  method DecodeKeys(codec: Codec, pieces: seq<string>) returns (r: Result<seq<PubKey>, Error>)
    ensures r == DecodeAll(codec, pieces)
  {
    var keys: seq<PubKey> := [];
    for i := 0 to |pieces|
      invariant DecodeAll(codec, pieces[..i]) == Success(keys)
    {
      assert pieces[..i + 1][..i] == pieces[..i];
      var text := TrimSpace(pieces[i]);
      var keyBytes := codec.hexToBytes(text);
      if keyBytes.None? {
        DecodeAllPrefixFailure(codec, pieces, i + 1);
        return Failure(BadHex(text));
      }
      var publicKey := codec.decodePoint(keyBytes.value);
      if publicKey.None? {
        DecodeAllPrefixFailure(codec, pieces, i + 1);
        return Failure(BadPoint(keyBytes.value));
      }
      keys := keys + [publicKey.value];
    }
    assert pieces[..|pieces|] == pieces;
    return Success(keys);
  }

  /** The store's answer to the registration a request asks for, given the calls made before it. */
  function Registration(wallet: Wallet, h: seq<Call>, request: KeyRequest): (r: Result<ProgramHash, Error>)
    ensures wallet.Registered(h, RegisterCall(request)) == (if r.Success? then [r.value] else [])
  {
    match request
    case StandardKey(key) => wallet.standardOutcome(h, key)
    case MultiSignKeys(keys) => wallet.multiSignOutcome(h, keys)
  }

  /** The address printed for what the store registered, if it can be encoded. */
  function PrintedAddress(codec: Codec, hashes: seq<ProgramHash>): Option<string>
  {
    if hashes == [] then None else codec.toAddress(hashes[0])
  }

  /**
   * The checks `addAccount` makes before it calls the store, in its order:
   * content without a comma is one trimmed key; otherwise the split content
   * must have at least three pieces, each decoded in turn.
   */
  method ValidateContent(codec: Codec, content: string) returns (r: Result<KeyRequest, Error>)
    ensures r == ParseAccount(codec, content)
  {
    if ',' !in content {
      // standard account
      var text := TrimSpace(content);
      var keyBytes := codec.hexToBytes(text);
      if keyBytes.None? {
        return Failure(BadHex(text));
      }
      var publicKey := codec.decodePoint(keyBytes.value);
      if publicKey.None? {
        return Failure(BadPoint(keyBytes.value));
      }
      return Success(StandardKey(publicKey.value));
    } else {
      // multi sign account
      var publicKeys := Split(content, ',');
      if |publicKeys| < MinMultiSignKeys {
        return Failure(NotEnoughKeys);
      }
      var keys := DecodeKeys(codec, publicKeys);
      if keys.Failure? {
        return Failure(keys.error);
      }
      return Success(MultiSignKeys(keys.value));
    }
  }

  /**
   * `addAccount(wallet, content)`. A content that fails validation leaves the
   * store untouched. Otherwise the store is asked to register the request;
   * only if that and the address encoding both succeed is the height reset
   * and the chain data synced, once each and in that order. The result is the
   * printed address; otherwise it is the store's own error, or the encoding
   * error for the registered hash.
   */
  method AddAccount(wallet: Wallet, codec: Codec, content: string) returns (r: Result<string, Error>)
    requires wallet.Valid()
    modifies wallet
    ensures wallet.Valid() && wallet.queries == old(wallet.queries)
    ensures ParseAccount(codec, content).Failure? ==>
      && r == Failure(ParseAccount(codec, content).error)
      && wallet.history == old(wallet.history)
      && wallet.added == old(wallet.added)
    ensures ParseAccount(codec, content).Success? ==>
      var call := RegisterCall(ParseAccount(codec, content).value);
      var hashes := wallet.Registered(old(wallet.history), call);
      var address := PrintedAddress(codec, hashes);
      && wallet.added == old(wallet.added) + hashes
      && wallet.history == old(wallet.history) + [call] +
           (if address.Some? then [ResetHeight, SyncChainData] else [])
      && r.Success? == address.Some?
      && (address.Some? ==> r.value == address.value)
    ensures ParseAccount(codec, content).Success? ==>
      var answer := Registration(wallet, old(wallet.history), ParseAccount(codec, content).value);
      && (answer.Failure? ==> r == Failure(answer.error))
      && (answer.Success? && codec.toAddress(answer.value).None? ==> r == Failure(BadProgramHash(answer.value)))
  {
    var request := ValidateContent(codec, content);
    if request.Failure? {
      return Failure(request.error);
    }
    ghost var before := wallet.history;
    var added: Result<ProgramHash, Error>;
    match request.value {
      case StandardKey(publicKey) =>
        added := wallet.AddStandardAddress(publicKey);
      case MultiSignKeys(keys) =>
        added := wallet.AddMultiSignAddress(keys);
    }
    assert added == Registration(wallet, before, request.value);
    ghost var hashes := wallet.Registered(before, RegisterCall(request.value));
    assert wallet.added == old(wallet.added) + hashes;
    if added.Failure? {
      return Failure(added.error);
    }
    var programHash := added.value;
    assert hashes == [programHash];
    var address := codec.toAddress(programHash);
    if address.None? {
      return Failure(BadProgramHash(programHash));
    }
    // a new address: rescan the chain for its outputs
    wallet.ResetHeight();
    wallet.SyncChainData();
    return Success(address.value);
  }
}
