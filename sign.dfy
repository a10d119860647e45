/**
 * Signing: `sign_tx` (single-signer, offline), `multi_sign_one` (round 3,
 * one signer's signature shares) and `combine` (round 4, aggregating the
 * shares into spend-authorization signatures written into the proved
 * transaction).
 */
module Sign {
  import opened Wrappers
  import opened Bytes
  import opened Wallet
  import opened Primitives
  import opened Transact

  // ---------------------------------------------------------------------
  // sign_tx

  /**
   * `sign_tx`: the spending key must decode and the prover be present; the
   * inputs are decoded and added to the builder one by one, as in
   * `pre_multi_sign`; then the output is checked; `build` stands for adding
   * the output, building and proving at the height cast to `u32`, and
   * returns the serialized transaction. The height sent along is always 0.
   */
  function SignTx(spendingKey: string, key: KeyDecoding, proverFound: bool, tx: Tx, builder: BuilderChecks,
                  build: (u32, seq<DecodedSpend>, TxOut) -> Option<seq<byte>>): (r: Outcome<RawTransaction>)
    ensures var spends := AddSpends(tx.inputs, builder.acceptsSpend, 0);
      && (r.Ok? <==>
           && key.SpendingKey? && proverFound && spends.Ok?
           && CheckOutput(tx.output, builder.decodeAddress).Ok?
           && build(AsU32(tx.height), spends.value, tx.output.value).Some?)
      && (r.Err? ==> r.error in {Bech32, Wallet(Decode(spendingKey)), Wallet(Prover), BuildFailed} || r.error.BadHex?)
      && (r.Panic? ==>
            && key.SpendingKey? && proverFound
            && (spends.Panic? || (spends.Ok? && CheckOutput(tx.output, builder.decodeAddress).Panic?)))
      && (key.NotBech32? ==> r == Err(Bech32))
      && (key.NotSpendingKey? ==> r == Err(Wallet(Decode(spendingKey))))
      && (key.SpendingKey? && !proverFound ==> r == Err(Wallet(Prover)))
      && (key.SpendingKey? && proverFound && !spends.Ok? ==> r == spends.Propagate())
      && (key.SpendingKey? && proverFound && spends.Ok? && !CheckOutput(tx.output, builder.decodeAddress).Ok? ==>
            r == CheckOutput(tx.output, builder.decodeAddress).Propagate())
      && ((&& key.SpendingKey? && proverFound && spends.Ok? && CheckOutput(tx.output, builder.decodeAddress).Ok?
           && build(AsU32(tx.height), spends.value, tx.output.value).None?) ==> r == Err(BuildFailed))
  {
    if key.NotBech32? then Err(Bech32)
    else if key.NotSpendingKey? then Err(Wallet(Decode(spendingKey)))
    else if !proverFound then Err(Wallet(Prover))
    else
      var spends := AddSpends(tx.inputs, builder.acceptsSpend, 0);
      if !spends.Ok? then spends.Propagate()
      else
        var output := CheckOutput(tx.output, builder.decodeAddress);
        if !output.Ok? then output.Propagate()
        else match build(AsU32(tx.height), spends.value, output.value)
          case None => Err(BuildFailed)
          case Some(data) => Ok(RawTransaction(data, 0))
  }

  /** A signed transaction carries what the builder produced from the decoded inputs, and height 0. */
  lemma SignTxResult(spendingKey: string, key: KeyDecoding, proverFound: bool, tx: Tx, builder: BuilderChecks,
                     build: (u32, seq<DecodedSpend>, TxOut) -> Option<seq<byte>>)
    requires SignTx(spendingKey, key, proverFound, tx, builder, build).Ok?
    ensures var r := SignTx(spendingKey, key, proverFound, tx, builder, build).value;
      && key.SpendingKey? && proverFound && DecodeSpends(tx.inputs).Ok? && tx.output.Some?
      && (forall j :: 0 <= j < |tx.inputs| ==> builder.acceptsSpend(tx.inputs[..j], tx.inputs[j]))
      && builder.decodeAddress(tx.output.value.addr).PaymentAddress?
      && tx.output.value.amount <= MAX_MONEY
      && r.height == 0
      && Some(r.data) == build(AsU32(tx.height), DecodeSpends(tx.inputs).value, tx.output.value)
  {
    AddSpendsDecodes(tx.inputs, builder.acceptsSpend);
  }

  /** Input `k` is the first that fails to decode, and both builders took every spend before it. */
  ghost predicate DecodeFailsFirstAt(inputs: seq<TxIn>, single: BuilderChecks, multi: BuilderChecks, k: nat) {
    && k < |inputs| && !DecodeSpend(inputs[k]).Ok?
    && AcceptedBetween(inputs, single.acceptsSpend, 0, k) && AcceptedBetween(inputs, multi.acceptsSpend, 0, k)
  }

  /**
   * The single-signer and the multi-signer paths refuse the same
   * descriptors for the same reasons, as long as neither path's builder has
   * refused a spend first: the key and prover checks, the first input that
   * does not decode, and the output checks give the same error or a panic
   * on both. (Each path has its own builder, so each may refuse spends the
   * other takes.)
   */
  lemma SignTxAndPreMultiSignRejectAlike(spendingKey: string, key: KeyDecoding, proverFound: bool, tx: Tx, lib: Library,
                                         single: BuilderChecks, multi: BuilderChecks,
                                         build: (u32, seq<DecodedSpend>, TxOut) -> Option<seq<byte>>,
                                         prove: (u32, seq<MultiSpend>, TxOut) -> Option<Built>)
    requires single.decodeAddress == multi.decodeAddress
    requires
      || !key.SpendingKey? || !proverFound
      || (exists k :: DecodeFailsFirstAt(tx.inputs, single, multi, k))
      || (&& AddSpends(tx.inputs, single.acceptsSpend, 0).Ok? && AddSpends(tx.inputs, multi.acceptsSpend, 0).Ok?
          && !CheckOutput(tx.output, single.decodeAddress).Ok?)
    ensures var r1 := SignTx(spendingKey, key, proverFound, tx, single, build);
      var r2 := PreMultiSign(spendingKey, key, proverFound, tx, lib, multi, prove);
      && !r1.Ok? && !r2.Ok?
      && (r1.Err? <==> r2.Err?)
      && (r1.Err? ==> r1.error == r2.error)
  {
    if key.SpendingKey? && proverFound && exists k :: DecodeFailsFirstAt(tx.inputs, single, multi, k) {
      var k :| DecodeFailsFirstAt(tx.inputs, single, multi, k);
      AddSpendsFirstFailure(tx.inputs, single.acceptsSpend, 0, k);
      AddSpendsFirstFailure(tx.inputs, multi.acceptsSpend, 0, k);
    }
  }

  // ---------------------------------------------------------------------
  // multi_sign_one

  /** A signer's hex nonces decoded (the crate's `decode_scalar`). */
  function NoncesOf(lib: Library, n: SigningNonces): Nonces {
    Nonces(lib.decodeScalar(n.randomizer), lib.decodeScalar(n.hiding), lib.decodeScalar(n.binding))
  }

  /** The randomized package signed for one input: the sighash and that input's decoded commitments. */
  function PackageOf(lib: Library, sighash: seq<byte>, cs: seq<SigningCommitments>): SigningPackage {
    SigningPackage(sighash, DecodeCommitments(lib, cs), true)
  }

  /**
   * `multi_sign_one`: the sighash must decode to exactly 32 bytes; then,
   * pairing the inputs' commitment lists with the signer's nonce sets as
   * far as both go (`zip`), one signature share per pair; a share the
   * library refuses panics (`unwrap`).
   */
  method MultiSignOne(txBin: TxBin, nonces: seq<SigningNonces>, share: SharePackage, lib: Library)
    returns (r: Outcome<seq<SignatureShare>>)
    ensures var sighash := DecodeToSlice(txBin.sighash, 32);
      var n := Min(|txBin.commitments|, |nonces|);
      && (r.Err? <==> sighash.None?)
      && (r.Err? ==> r.error == BadHex("sighash"))
      && (r.Ok? <==> sighash.Some? && forall i :: 0 <= i < n ==>
            lib.sign(PackageOf(lib, sighash.value, txBin.commitments[i]), NoncesOf(lib, nonces[i]), share).Some?)
      && (r.Ok? ==> |r.value| == n && forall i :: 0 <= i < n ==>
            Some(r.value[i]) == lib.sign(PackageOf(lib, sighash.value, txBin.commitments[i]), NoncesOf(lib, nonces[i]), share))
  {
    var sighash := DecodeToSlice(txBin.sighash, 32);
    if sighash.None? {
      return Err(BadHex("sighash"));
    }
    var decoded := seq(|nonces|, k requires 0 <= k < |nonces| => NoncesOf(lib, nonces[k]));
    var n := Min(|txBin.commitments|, |nonces|);
    var shares: seq<SignatureShare> := [];
    for i := 0 to n
      invariant |shares| == i
      invariant forall k :: 0 <= k < i ==>
        Some(shares[k]) == lib.sign(PackageOf(lib, sighash.value, txBin.commitments[k]), NoncesOf(lib, nonces[k]), share)
    {
      var package := SigningPackage(sighash.value, DecodeCommitments(lib, txBin.commitments[i]), true);
      var s := lib.sign(package, decoded[i], share);
      if s.None? {
        return Panic("called `Result::unwrap()` on an `Err` value");
      }
      shares := shares + [s.value];
    }
    return Ok(shares);
  }

  /**
   * Rounds 1 and 2 line up for round 3: after a signer's round 1 and a
   * successful `pre_multi_sign`, there is one commitment list per nonce
   * set, and list `i` ends with the commitment signer `myIndex` published
   * for input `i`, naming the randomizer nonce the signer holds for it.
   */
  lemma SignerNoncesMatchCommitments(myIndex: u32, tx: Tx, lib: Library, spendingKey: string, builder: BuilderChecks,
                                     prove: (u32, seq<MultiSpend>, TxOut) -> Option<Built>)
    requires PreMultiSign(spendingKey, SpendingKey, true, CommitRound(myIndex, tx, lib).0, lib, builder, prove).Ok?
    ensures var (committed, nonces) := CommitRound(myIndex, tx, lib);
      var bin := PreMultiSign(spendingKey, SpendingKey, true, committed, lib, builder, prove).value;
      && |bin.commitments| == |nonces| == |tx.inputs|
      && forall i :: 0 <= i < |nonces| ==>
           var cs := bin.commitments[i];
           && |cs| > 0
           && cs[|cs| - 1] == committed.inputs[i].multisigs[|cs| - 1].commitment
           && committed.inputs[i].multisigs[|cs| - 1].index == myIndex
           && cs[|cs| - 1].randomizerNonce == nonces[i].randomizer
  {
    var (committed, nonces) := CommitRound(myIndex, tx, lib);
    CommitRoundShape(myIndex, tx, lib);
    PreMultiSignPackaging(spendingKey, SpendingKey, true, committed, lib, builder, prove);
    var bin := PreMultiSign(spendingKey, SpendingKey, true, committed, lib, builder, prove).value;
    forall i | 0 <= i < |nonces|
      ensures var cs := bin.commitments[i];
        && |cs| > 0
        && cs[|cs| - 1] == committed.inputs[i].multisigs[|cs| - 1].commitment
        && committed.inputs[i].multisigs[|cs| - 1].index == myIndex
        && cs[|cs| - 1].randomizerNonce == nonces[i].randomizer
    {
      var shares := committed.inputs[i].multisigs;
      assert |bin.commitments[i]| == |shares|;
      assert bin.commitments[i][|shares| - 1] == shares[|shares| - 1].commitment;
    }
  }

  // ---------------------------------------------------------------------
  // combine

  /** Every signer's share for input `i` (`sigs[i]` of each signer's list, in signer order). */
  function Column(sigs: seq<seq<SignatureShare>>, i: nat): (c: seq<SignatureShare>)
    requires forall k :: 0 <= k < |sigs| ==> i < |sigs[k]|
    ensures |c| == |sigs| && forall k :: 0 <= k < |sigs| ==> c[k] == sigs[k][i]
  {
    seq(|sigs|, k requires 0 <= k < |sigs| => sigs[k][i])
  }

  /**
   * The per-input step of `combine`: collect every signer's share for
   * input `i` (a signer short of shares panics), rerandomize the group key
   * for the input's package and aggregate (both `unwrap`), and verify the
   * aggregate under the rerandomized key (`?`).
   */
  function AuthorizeInput(lib: Library, pubkeys: PublicKeyPackage, sighash: seq<byte>,
                          cs: seq<SigningCommitments>, sigs: seq<seq<SignatureShare>>, i: nat): (r: Outcome<Signature>)
    ensures r.Err? ==> r.error == InvalidSignature
    ensures r.Ok? ==> var rk := lib.randomize(pubkeys, PackageOf(lib, sighash, cs));
      rk.Some? && lib.verify(rk.value.groupPublic, sighash, r.value)
    ensures (exists k :: 0 <= k < |sigs| && |sigs[k]| <= i) ==> r.Panic?
    ensures var package := PackageOf(lib, sighash, cs);
      var rk := lib.randomize(pubkeys, package);
      (forall k :: 0 <= k < |sigs| ==> i < |sigs[k]|) && rk.Some? && lib.aggregate(package, Column(sigs, i), rk.value).Some? ==>
        && !r.Panic?
        && (r.Ok? <==> lib.verify(rk.value.groupPublic, sighash, lib.aggregate(package, Column(sigs, i), rk.value).value))
    ensures !r.Panic? ==>
      && (forall k :: 0 <= k < |sigs| ==> i < |sigs[k]|)
      && var package := PackageOf(lib, sighash, cs);
         var rk := lib.randomize(pubkeys, package);
         && rk.Some?
         && var signature := lib.aggregate(package, Column(sigs, i), rk.value);
         && signature.Some?
         && (r.Ok? <==> lib.verify(rk.value.groupPublic, sighash, signature.value))
         && (r.Ok? ==> r.value == signature.value)
  {
    if exists k :: 0 <= k < |sigs| && |sigs[k]| <= i then Panic("index out of bounds")
    else
      var package := PackageOf(lib, sighash, cs);
      match lib.randomize(pubkeys, package)
      case None => Panic("called `Result::unwrap()` on an `Err` value")
      case Some(rk) =>
        match lib.aggregate(package, Column(sigs, i), rk)
        case None => Panic("called `Result::unwrap()` on an `Err` value")
        case Some(signature) =>
          if lib.verify(rk.groupPublic, sighash, signature) then Ok(signature) else Err(InvalidSignature)
  }

  /**
   * The signatures for inputs `0 .. n-1`, in loop order: the first
   * failing step decides the outcome, and input `i`'s signature needs a
   * spend slot `i` (indexing panics otherwise).
   */
  function AuthorizePrefix(lib: Library, pubkeys: PublicKeyPackage, sighash: seq<byte>,
                           commitments: seq<seq<SigningCommitments>>, sigs: seq<seq<SignatureShare>>,
                           slots: nat, n: nat): (r: Outcome<seq<Signature>>)
    requires n <= |commitments|
    ensures r.Ok? <==> n <= slots && forall i :: 0 <= i < n ==> AuthorizeInput(lib, pubkeys, sighash, commitments[i], sigs, i).Ok?
    ensures r.Ok? ==> |r.value| == n && forall i :: 0 <= i < n ==>
      AuthorizeInput(lib, pubkeys, sighash, commitments[i], sigs, i) == Ok(r.value[i])
    ensures r.Err? ==> r.error == InvalidSignature
  {
    if n == 0 then Ok([])
    else
      var prefix := AuthorizePrefix(lib, pubkeys, sighash, commitments, sigs, slots, n - 1);
      if !prefix.Ok? then prefix
      else
        var a := AuthorizeInput(lib, pubkeys, sighash, commitments[n - 1], sigs, n - 1);
        if !a.Ok? then a.Propagate()
        else if n - 1 >= slots then Panic("index out of bounds")
        else Ok(prefix.value + [a.value])
  }

  /** Once a prefix fails, every longer prefix fails the same way: later inputs are never reached. */
  lemma {:induction false} AuthorizePrefixStops(lib: Library, pubkeys: PublicKeyPackage, sighash: seq<byte>,
                                                commitments: seq<seq<SigningCommitments>>, sigs: seq<seq<SignatureShare>>,
                                                slots: nat, m: nat, n: nat)
    requires m <= n <= |commitments|
    requires !AuthorizePrefix(lib, pubkeys, sighash, commitments, sigs, slots, m).Ok?
    ensures AuthorizePrefix(lib, pubkeys, sighash, commitments, sigs, slots, n)
         == AuthorizePrefix(lib, pubkeys, sighash, commitments, sigs, slots, m)
    decreases n - m
  {
    if m < n {
      AuthorizePrefixStops(lib, pubkeys, sighash, commitments, sigs, slots, m, n - 1);
    }
  }

  /** Spend slot `j` takes signature `j` where there is one, and keeps its old value otherwise. */
  function Inject(slots: seq<Option<Signature>>, auths: seq<Signature>): (r: seq<Option<Signature>>)
    ensures |r| == |slots|
  {
    seq(|slots|, j requires 0 <= j < |slots| => if j < |auths| then Some(auths[j]) else slots[j])
  }

  /**
   * What `combine` produces: decode the transaction bytes, parse them,
   * decode the sighash, authorize every input, write signature `i` into
   * spend slot `i`, and serialize, with height 0.
   */
  function CombineOf(lib: Library, pubkeys: PublicKeyPackage, txBin: TxBin, sigs: seq<seq<SignatureShare>>): (r: Outcome<RawTransaction>)
    ensures r.Err? ==> r.error in {BadHex("bytes"), BadTransaction, BadHex("sighash"), InvalidSignature}
    ensures r.Ok? ==> r.value.height == 0
    ensures r.Ok? <==> && HexDecode(txBin.bytes).Some? && lib.readTransaction(HexDecode(txBin.bytes).value).Some?
                       && DecodeToSlice(txBin.sighash, 32).Some?
                       && |txBin.commitments| <= |lib.readTransaction(HexDecode(txBin.bytes).value).value.spendAuthSigs|
                       && forall i :: 0 <= i < |txBin.commitments| ==>
                            AuthorizeInput(lib, pubkeys, DecodeToSlice(txBin.sighash, 32).value, txBin.commitments[i], sigs, i).Ok?
  {
    var bytes := HexDecode(txBin.bytes);
    if bytes.None? then Err(BadHex("bytes"))
    else
      var parsed := lib.readTransaction(bytes.value);
      if parsed.None? then Err(BadTransaction)
      else
        var sighash := DecodeToSlice(txBin.sighash, 32);
        if sighash.None? then Err(BadHex("sighash"))
        else
          var tx := parsed.value;
          var auths := AuthorizePrefix(lib, pubkeys, sighash.value, txBin.commitments, sigs, |tx.spendAuthSigs|, |txBin.commitments|);
          if !auths.Ok? then auths.Propagate()
          else Ok(RawTransaction(lib.writeTransaction(tx.(spendAuthSigs := Inject(tx.spendAuthSigs, auths.value))), 0))
  }

  /** `combine`: the loop over the inputs, writing each verified signature into the parsed transaction in place. */
  method Combine(txBin: TxBin, pubkeys: PublicKeyPackage, sigs: seq<seq<SignatureShare>>, lib: Library)
    returns (r: Outcome<RawTransaction>)
    ensures r == CombineOf(lib, pubkeys, txBin, sigs)
  {
    var bytes := HexDecode(txBin.bytes);
    if bytes.None? { return Err(BadHex("bytes")); }
    var parsed := lib.readTransaction(bytes.value);
    if parsed.None? { return Err(BadTransaction); }
    var tx := parsed.value;
    var sighash := DecodeToSlice(txBin.sighash, 32);
    if sighash.None? { return Err(BadHex("sighash")); }
    ghost var auths: seq<Signature> := [];
    for i := 0 to |txBin.commitments|
      invariant AuthorizePrefix(lib, pubkeys, sighash.value, txBin.commitments, sigs, |parsed.value.spendAuthSigs|, i) == Ok(auths)
      invariant tx == parsed.value.(spendAuthSigs := Inject(parsed.value.spendAuthSigs, auths))
    {
      var a := AuthorizeInput(lib, pubkeys, sighash.value, txBin.commitments[i], sigs, i);
      if !a.Ok? || i >= |tx.spendAuthSigs| {
        AuthorizePrefixStops(lib, pubkeys, sighash.value, txBin.commitments, sigs, |parsed.value.spendAuthSigs|, i + 1, |txBin.commitments|);
        if !a.Ok? { return a.Propagate(); }
        return Panic("index out of bounds");
      }
      tx := tx.(spendAuthSigs := tx.spendAuthSigs[i := Some(a.value)]);
      auths := auths + [a.value];
      assert tx.spendAuthSigs == Inject(parsed.value.spendAuthSigs, auths);
    }
    return Ok(RawTransaction(lib.writeTransaction(tx), 0));
  }

  /**
   * A combined transaction is the parsed one with the first `n` spend
   * slots (one per input) filled, each with a signature that verifies for
   * the sighash under the group key rerandomized for that input's
   * package; the other slots and the rest of the transaction are as read.
   */
  lemma CombineSignsEveryInput(lib: Library, pubkeys: PublicKeyPackage, txBin: TxBin, sigs: seq<seq<SignatureShare>>)
    requires CombineOf(lib, pubkeys, txBin, sigs).Ok?
    ensures && HexDecode(txBin.bytes).Some?
            && lib.readTransaction(HexDecode(txBin.bytes).value).Some?
            && DecodeToSlice(txBin.sighash, 32).Some?
    ensures var tx := lib.readTransaction(HexDecode(txBin.bytes).value).value;
      var sighash := DecodeToSlice(txBin.sighash, 32).value;
      var n := |txBin.commitments|;
      exists slots: seq<Option<Signature>> ::
        && CombineOf(lib, pubkeys, txBin, sigs) == Ok(RawTransaction(lib.writeTransaction(tx.(spendAuthSigs := slots)), 0))
        && |slots| == |tx.spendAuthSigs| && n <= |slots|
        && (forall i :: 0 <= i < n ==>
              var package := PackageOf(lib, sighash, txBin.commitments[i]);
              var rk := lib.randomize(pubkeys, package);
              && slots[i].Some? && rk.Some? && lib.verify(rk.value.groupPublic, sighash, slots[i].value)
              && (forall k :: 0 <= k < |sigs| ==> i < |sigs[k]|)
              && slots[i] == lib.aggregate(package, Column(sigs, i), rk.value))
        && (forall j :: n <= j < |slots| ==> slots[j] == tx.spendAuthSigs[j])
  {
    var tx := lib.readTransaction(HexDecode(txBin.bytes).value).value;
    var sighash := DecodeToSlice(txBin.sighash, 32).value;
    var n := |txBin.commitments|;
    var auths := AuthorizePrefix(lib, pubkeys, sighash, txBin.commitments, sigs, |tx.spendAuthSigs|, n).value;
    var slots := Inject(tx.spendAuthSigs, auths);
    forall i | 0 <= i < n
      ensures var package := PackageOf(lib, sighash, txBin.commitments[i]);
        var rk := lib.randomize(pubkeys, package);
        && slots[i].Some? && rk.Some? && lib.verify(rk.value.groupPublic, sighash, slots[i].value)
        && (forall k :: 0 <= k < |sigs| ==> i < |sigs[k]|)
        && slots[i] == lib.aggregate(package, Column(sigs, i), rk.value)
    {
      assert AuthorizeInput(lib, pubkeys, sighash, txBin.commitments[i], sigs, i) == Ok(auths[i]);
    }
  }

  /** A share list short of an input's share, or an aggregate that does not verify, ends `combine` with no transaction. */
  lemma CombineFirstFailure(lib: Library, pubkeys: PublicKeyPackage, txBin: TxBin, sigs: seq<seq<SignatureShare>>, k: nat)
    requires HexDecode(txBin.bytes).Some? && lib.readTransaction(HexDecode(txBin.bytes).value).Some?
    requires DecodeToSlice(txBin.sighash, 32).Some?
    requires k < |txBin.commitments|
    requires !AuthorizeInput(lib, pubkeys, DecodeToSlice(txBin.sighash, 32).value, txBin.commitments[k], sigs, k).Ok?
    ensures !CombineOf(lib, pubkeys, txBin, sigs).Ok?
  {
  }

  /**
   * When every earlier input succeeded and had its spend slot, the first
   * failing input's outcome is `combine`'s: a signature that does not
   * verify is the `InvalidSignature` error, a missing share or a refused
   * aggregation a panic.
   */
  lemma CombineStopsAtFirstFailure(lib: Library, pubkeys: PublicKeyPackage, txBin: TxBin, sigs: seq<seq<SignatureShare>>, k: nat)
    requires HexDecode(txBin.bytes).Some? && lib.readTransaction(HexDecode(txBin.bytes).value).Some?
    requires DecodeToSlice(txBin.sighash, 32).Some?
    requires k < |txBin.commitments| && k <= |lib.readTransaction(HexDecode(txBin.bytes).value).value.spendAuthSigs|
    requires forall j :: 0 <= j < k ==> AuthorizeInput(lib, pubkeys, DecodeToSlice(txBin.sighash, 32).value, txBin.commitments[j], sigs, j).Ok?
    requires !AuthorizeInput(lib, pubkeys, DecodeToSlice(txBin.sighash, 32).value, txBin.commitments[k], sigs, k).Ok?
    ensures CombineOf(lib, pubkeys, txBin, sigs)
         == AuthorizeInput(lib, pubkeys, DecodeToSlice(txBin.sighash, 32).value, txBin.commitments[k], sigs, k).Propagate()
    ensures AuthorizeInput(lib, pubkeys, DecodeToSlice(txBin.sighash, 32).value, txBin.commitments[k], sigs, k).Err?
        ==> CombineOf(lib, pubkeys, txBin, sigs) == Err(InvalidSignature)
    ensures var package := PackageOf(lib, DecodeToSlice(txBin.sighash, 32).value, txBin.commitments[k]);
      var rk := lib.randomize(pubkeys, package);
      (forall j :: 0 <= j < |sigs| ==> k < |sigs[j]|) && rk.Some? && lib.aggregate(package, Column(sigs, k), rk.value).Some? ==>
        CombineOf(lib, pubkeys, txBin, sigs) == Err(InvalidSignature)
  {
    var tx := lib.readTransaction(HexDecode(txBin.bytes).value).value;
    var sighash := DecodeToSlice(txBin.sighash, 32).value;
    var slots := |tx.spendAuthSigs|;
    assert AuthorizePrefix(lib, pubkeys, sighash, txBin.commitments, sigs, slots, k).Ok?;
    AuthorizePrefixStops(lib, pubkeys, sighash, txBin.commitments, sigs, slots, k + 1, |txBin.commitments|);
  }

  /** `combine` never looks at the builder's spend index map. */
  lemma CombineIgnoresSpendIndices(lib: Library, pubkeys: PublicKeyPackage, txBin: TxBin, sigs: seq<seq<SignatureShare>>, spendIndices: seq<nat>)
    ensures CombineOf(lib, pubkeys, txBin.(spendIndices := spendIndices), sigs) == CombineOf(lib, pubkeys, txBin, sigs)
  {
  }

  /**
   * Placing by position differs from placing by the spend index map as
   * soon as the builder reorders two spends: with spend indices [1, 0],
   * input 0's signature lands in slot 0 although input 0 is spend 1.
   */
  lemma CombinePlacementCounterexample(s0: Signature, s1: Signature)
    requires s0 != s1
    ensures Inject([None, None], [s0, s1])[1] == Some(s1)
    ensures InjectAt([None, None], [s0, s1], [1, 0])[1] == Some(s0)
    ensures Inject([None, None], [s0, s1]) != InjectAt([None, None], [s0, s1], [1, 0])
  {
    var slots: seq<Option<Signature>> := [None, None];
    assert InjectAt(slots, [s0, s1], [1, 0]) == InjectAt(slots[1 := Some(s0)], [s1], [0]);
    assert InjectAt(slots[1 := Some(s0)], [s1], [0]) == InjectAt(slots[1 := Some(s0)][0 := Some(s1)], [], []);
  }

  // ---------------------------------------------------------------------
  // combine, placing each signature at the spend the builder put its input in

  /** Signature `i` written into slot `idx[i]`, in input order. */
  function InjectAt(slots: seq<Option<Signature>>, auths: seq<Signature>, idx: seq<nat>): (r: seq<Option<Signature>>)
    requires |auths| <= |idx| && forall i :: 0 <= i < |auths| ==> idx[i] < |slots|
    ensures |r| == |slots|
    decreases |auths|
  {
    if auths == [] then slots
    else InjectAt(slots[idx[0] := Some(auths[0])], auths[1..], idx[1..])
  }

  /** With distinct indices, slot `idx[i]` ends up holding signature `i`, and slots no input maps to keep their value. */
  lemma {:induction false} InjectAtPlaces(slots: seq<Option<Signature>>, auths: seq<Signature>, idx: seq<nat>)
    requires |auths| <= |idx| && forall i :: 0 <= i < |auths| ==> idx[i] < |slots|
    requires forall i, j :: 0 <= i < j < |auths| ==> idx[i] != idx[j]
    ensures forall i :: 0 <= i < |auths| ==> InjectAt(slots, auths, idx)[idx[i]] == Some(auths[i])
    ensures forall j :: 0 <= j < |slots| && (forall i :: 0 <= i < |auths| ==> idx[i] != j) ==> InjectAt(slots, auths, idx)[j] == slots[j]
    decreases |auths|
  {
    if auths != [] {
      var next := slots[idx[0] := Some(auths[0])];
      InjectAtPlaces(next, auths[1..], idx[1..]);
      assert forall i :: 1 <= i < |auths| ==> auths[1..][i - 1] == auths[i] && idx[1..][i - 1] == idx[i];
      assert forall i :: 0 <= i < |auths[1..]| ==> idx[1..][i] != idx[0];
    }
  }

  /**
   * `combine` as its index map suggests it was meant: signature `i` goes to
   * spend `spendIndices[i]`, which must name an existing spend.
   */
  function CombineIntended(lib: Library, pubkeys: PublicKeyPackage, txBin: TxBin, sigs: seq<seq<SignatureShare>>): Outcome<RawTransaction> {
    var bytes := HexDecode(txBin.bytes);
    if bytes.None? then Err(BadHex("bytes"))
    else
      var parsed := lib.readTransaction(bytes.value);
      if parsed.None? then Err(BadTransaction)
      else
        var sighash := DecodeToSlice(txBin.sighash, 32);
        if sighash.None? then Err(BadHex("sighash"))
        else
          var tx := parsed.value;
          var n := |txBin.commitments|;
          var auths := AuthorizePrefix(lib, pubkeys, sighash.value, txBin.commitments, sigs, n, n);
          if !auths.Ok? then auths.Propagate()
          else if n > |txBin.spendIndices| || exists i :: 0 <= i < n && txBin.spendIndices[i] >= |tx.spendAuthSigs| then
            Panic("index out of bounds")
          else Ok(RawTransaction(lib.writeTransaction(tx.(spendAuthSigs := InjectAt(tx.spendAuthSigs, auths.value, txBin.spendIndices))), 0))
  }

  /**
   * The intended combination puts input `i`'s verified signature in spend
   * `spendIndices[i]` for every input, whatever order the builder chose,
   * and leaves the other spends as read.
   */
  lemma CombineIntendedPlacesBySpendIndex(lib: Library, pubkeys: PublicKeyPackage, txBin: TxBin, sigs: seq<seq<SignatureShare>>)
    requires CombineIntended(lib, pubkeys, txBin, sigs).Ok?
    requires forall i, j :: 0 <= i < j < |txBin.commitments| ==> txBin.spendIndices[i] != txBin.spendIndices[j]
    ensures && HexDecode(txBin.bytes).Some?
            && lib.readTransaction(HexDecode(txBin.bytes).value).Some?
            && DecodeToSlice(txBin.sighash, 32).Some?
    ensures var tx := lib.readTransaction(HexDecode(txBin.bytes).value).value;
      var sighash := DecodeToSlice(txBin.sighash, 32).value;
      var n := |txBin.commitments|;
      exists slots: seq<Option<Signature>> ::
        && CombineIntended(lib, pubkeys, txBin, sigs) == Ok(RawTransaction(lib.writeTransaction(tx.(spendAuthSigs := slots)), 0))
        && |slots| == |tx.spendAuthSigs| && n <= |txBin.spendIndices|
        && (forall i :: 0 <= i < n ==>
              var rk := lib.randomize(pubkeys, PackageOf(lib, sighash, txBin.commitments[i]));
              && txBin.spendIndices[i] < |slots|
              && slots[txBin.spendIndices[i]].Some? && rk.Some?
              && lib.verify(rk.value.groupPublic, sighash, slots[txBin.spendIndices[i]].value))
        && (forall j :: 0 <= j < |slots| && (forall i :: 0 <= i < n ==> txBin.spendIndices[i] != j) ==> slots[j] == tx.spendAuthSigs[j])
  {
    var tx := lib.readTransaction(HexDecode(txBin.bytes).value).value;
    var sighash := DecodeToSlice(txBin.sighash, 32).value;
    var n := |txBin.commitments|;
    var auths := AuthorizePrefix(lib, pubkeys, sighash, txBin.commitments, sigs, n, n).value;
    InjectAtPlaces(tx.spendAuthSigs, auths, txBin.spendIndices);
    var slots := InjectAt(tx.spendAuthSigs, auths, txBin.spendIndices);
    forall i | 0 <= i < n
      ensures var rk := lib.randomize(pubkeys, PackageOf(lib, sighash, txBin.commitments[i]));
        slots[txBin.spendIndices[i]].Some? && rk.Some? && lib.verify(rk.value.groupPublic, sighash, slots[txBin.spendIndices[i]].value)
    {
      assert AuthorizeInput(lib, pubkeys, sighash, txBin.commitments[i], sigs, i) == Ok(auths[i]);
    }
  }
}
