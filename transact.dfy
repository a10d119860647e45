/**
 * Transaction assembly and round 1 and 2 of threshold signing:
 * `prepare_tx` (funds check and descriptor), `make_commitments` (one
 * commitment and one private nonce per input) and, of `pre_multi_sign`,
 * the per-input decoding and the packaging of the `TxBin`.
 */
module Transact {
  import opened Wrappers
  import opened Bytes
  import opened Wallet
  import opened Primitives

  /** The transaction library's `DEFAULT_FEE`, in zatoshis. */
  const DEFAULT_FEE: nat := 10_000

  /** The largest valid `Amount`: 21 million ZEC. */
  const MAX_MONEY: nat := 21_000_000 * 100_000_000

  type Amount = x: int | 0 <= x <= MAX_MONEY

  type Bytes32 = b: seq<byte> | |b| == 32 witness seq(32, _ => 0)

  type Diversifier = b: seq<byte> | |b| == 11 witness seq(11, _ => 0)

  /** A note's commitment randomness: a scalar before ZIP 212, 32 raw bytes after it. */
  datatype Rseed = BeforeZip212(scalar: Scalar) | AfterZip212(bytes: Bytes32)

  /** The 32 bytes a note's rseed is written as. */
  function RseedBytes(r: Rseed): Bytes32 {
    match r
    case BeforeZip212(s) => ScalarToBytes(s)
    case AfterZip212(b) => b
  }

  /** A note the wallet database chose to spend, with its serialized witness. */
  datatype SpendableNote = SpendableNote(diversifier: Diversifier, noteValue: Amount, rseed: Rseed, merklePath: seq<byte>)

  /** A decoded recipient address, kept as its canonical encoding. */
  datatype Recipient = Shielded(address: string) | Transparent(address: string)

  /** The account's encoded extended full viewing key and its outgoing viewing key. */
  datatype Account = Account(fvk: string, ovk: Bytes32)

  /** The wallet's target height (the next block) and anchor height. */
  datatype Heights = Heights(target: u32, anchor: u32)

  function SumValues(notes: seq<SpendableNote>): nat {
    if notes == [] then 0 else notes[0].noteValue + SumValues(notes[1..])
  }

  function SumAmounts(inputs: seq<TxIn>): nat {
    if inputs == [] then 0 else inputs[0].amount + SumAmounts(inputs[1..])
  }

  // ---------------------------------------------------------------------
  // prepare_tx

  /** The descriptor input for one selected note (the body of the loop in `prepare_tx`). */
  function NoteInput(note: SpendableNote, fvk: string): TxIn {
    TxIn(HexEncode(note.diversifier), fvk, note.noteValue, note.rseed.AfterZip212?,
         HexEncode(RseedBytes(note.rseed)), HexEncode(note.merklePath), [])
  }

  /** One input per selected note, in selection order. */
  function NoteInputs(notes: seq<SpendableNote>, fvk: string): seq<TxIn> {
    seq(|notes|, i requires 0 <= i < |notes| => NoteInput(notes[i], fvk))
  }

  /**
   * What `prepare_tx` produces, step by step in the order the code takes
   * them: scale the amount (panics), decode the recipient, check the
   * amount is a valid `Amount`, look up the account and the heights, add
   * the fee and sum the selected notes (`Amount` addition panics out of
   * range), compare, and build one input per note and one shielded output.
   * `recipient` is the decoded address (None when it does not decode) and
   * `selected` what the database's note selection returned.
   */
  function Proposal(toAddr: string, recipient: Option<Recipient>, amount: Option<real>, unit: ZecUnit,
                    account: Option<Account>, heights: Option<Heights>, selected: seq<SpendableNote>): (r: Outcome<Tx>)
    ensures r.Err? ==> r.error == Wallet(Decode(toAddr)) || (r.error.Wallet? && r.error.walletError.NotEnoughFunds?)
    ensures r.Ok? ==> && recipient.Some? && recipient.value.Shielded? && account.Some? && heights.Some?
                      && |r.value.inputs| == |selected| && r.value.output.Some?
                      && r.value.output.value.amount + DEFAULT_FEE <= SumValues(selected) <= MAX_MONEY
  {
    var zat := ToZatoshis(unit, amount);
    if !zat.Ok? then zat.Propagate()
    else if recipient.None? then Err(Wallet(Decode(toAddr)))
    else if zat.value > MAX_MONEY then Panic("Invalid amount")
    else if account.None? then Panic("no viewing key for the account")
    else if heights.None? then Panic("wallet has no target height")
    else if zat.value + DEFAULT_FEE > MAX_MONEY then Panic("addition should remain in range")
    else if SumValues(selected) > MAX_MONEY then Panic("addition should remain in range")
    else if SumValues(selected) < zat.value + DEFAULT_FEE then
      Err(Wallet(NotEnoughFunds(SumValues(selected), zat.value + DEFAULT_FEE, unit)))
    else if recipient.value.Transparent? then Panic("not implemented")
    else Ok(Tx(heights.value.target, NoteInputs(selected, account.value.fvk),
               Some(TxOut(recipient.value.address, zat.value, HexEncode(account.value.ovk)))))
  }

  /** `prepare_tx`: the checks, then the loop that pushes one input per selected note. */
  method PrepareTx(toAddr: string, recipient: Option<Recipient>, amount: Option<real>, unit: ZecUnit,
                   account: Option<Account>, heights: Option<Heights>, selected: seq<SpendableNote>)
    returns (r: Outcome<Tx>)
    ensures r == Proposal(toAddr, recipient, amount, unit, account, heights, selected)
  {
    var zat := ToZatoshis(unit, amount);
    if !zat.Ok? { return zat.Propagate(); }
    if recipient.None? { return Err(Wallet(Decode(toAddr))); }
    var satoshis := zat.value;
    if satoshis > MAX_MONEY { return Panic("Invalid amount"); }
    if account.None? { return Panic("no viewing key for the account"); }
    if heights.None? { return Panic("wallet has no target height"); }
    if satoshis + DEFAULT_FEE > MAX_MONEY { return Panic("addition should remain in range"); }
    var targetValue := satoshis + DEFAULT_FEE;
    var selectedValue := SumValues(selected);
    if selectedValue > MAX_MONEY { return Panic("addition should remain in range"); }
    if selectedValue < targetValue {
      return Err(Wallet(NotEnoughFunds(selectedValue, targetValue, unit)));
    }
    var tx := Tx(heights.value.target, [], None);
    for i := 0 to |selected|
      invariant tx.height == heights.value.target && tx.output.None?
      invariant tx.inputs == NoteInputs(selected[..i], account.value.fvk)
    {
      assert NoteInputs(selected[..i + 1], account.value.fvk)
          == NoteInputs(selected[..i], account.value.fvk) + [NoteInput(selected[i], account.value.fvk)];
      tx := tx.(inputs := tx.inputs + [NoteInput(selected[i], account.value.fvk)]);
    }
    assert selected[..|selected|] == selected;
    if recipient.value.Transparent? {
      return Panic("not implemented");
    }
    tx := tx.(output := Some(TxOut(recipient.value.address, satoshis, HexEncode(account.value.ovk))));
    return Ok(tx);
  }

  /** The funds check: with the earlier steps passed, NotEnoughFunds(selected, target) comes exactly when the notes fall short. */
  lemma ProposalFundsCheck(toAddr: string, recipient: Option<Recipient>, amount: Option<real>, unit: ZecUnit,
                           account: Option<Account>, heights: Option<Heights>, selected: seq<SpendableNote>)
    requires ToZatoshis(unit, amount).Ok? && ToZatoshis(unit, amount).value + DEFAULT_FEE <= MAX_MONEY
    requires recipient.Some? && account.Some? && heights.Some? && SumValues(selected) <= MAX_MONEY
    ensures var target := ToZatoshis(unit, amount).value + DEFAULT_FEE;
      var r := Proposal(toAddr, recipient, amount, unit, account, heights, selected);
      && (r == Err(Wallet(NotEnoughFunds(SumValues(selected), target, unit))) <==> SumValues(selected) < target)
      && (r.Ok? <==> SumValues(selected) >= target && recipient.value.Shielded?)
      && (SumValues(selected) >= target && recipient.value.Transparent? ==> r.Panic?)
  {
  }

  lemma {:induction false} SumOfNoteInputs(notes: seq<SpendableNote>, fvk: string)
    ensures SumAmounts(NoteInputs(notes, fvk)) == SumValues(notes)
  {
    if notes != [] {
      SumOfNoteInputs(notes[1..], fvk);
      assert NoteInputs(notes, fvk)[1..] == NoteInputs(notes[1..], fvk);
    }
  }

  /** One input per selected note, in order, each carrying that note's value, version flag and rseed; no commitments yet. */
  lemma ProposalShape(toAddr: string, recipient: Option<Recipient>, amount: Option<real>, unit: ZecUnit,
                      account: Option<Account>, heights: Option<Heights>, selected: seq<SpendableNote>)
    requires Proposal(toAddr, recipient, amount, unit, account, heights, selected).Ok?
    ensures var tx := Proposal(toAddr, recipient, amount, unit, account, heights, selected).value;
      && recipient.Some? && recipient.value.Shielded? && account.Some? && heights.Some?
      && tx.height == heights.value.target
      && tx.output == Some(TxOut(recipient.value.address, ToZatoshis(unit, amount).value, HexEncode(account.value.ovk)))
      && |tx.inputs| == |selected|
      && forall i :: 0 <= i < |selected| ==>
           && tx.inputs[i].amount == selected[i].noteValue
           && tx.inputs[i].fvk == account.value.fvk
           && (tx.inputs[i].z212 <==> selected[i].rseed.AfterZip212?)
           && DecodeToSlice(tx.inputs[i].rseed, 32) == Some(RseedBytes(selected[i].rseed))
           && DecodeToSlice(tx.inputs[i].diversifier, 11) == Some(selected[i].diversifier)
           && tx.inputs[i].multisigs == []
  {
    forall i | 0 <= i < |selected|
      ensures DecodeToSlice(HexEncode(RseedBytes(selected[i].rseed)), 32) == Some(RseedBytes(selected[i].rseed))
      ensures DecodeToSlice(HexEncode(selected[i].diversifier), 11) == Some(selected[i].diversifier)
    {
      HexRoundTrip(RseedBytes(selected[i].rseed));
      HexRoundTrip(selected[i].diversifier);
    }
  }

  /** A built descriptor always covers its output and the fee. */
  lemma ProposalCoversOutputAndFee(toAddr: string, recipient: Option<Recipient>, amount: Option<real>, unit: ZecUnit,
                                   account: Option<Account>, heights: Option<Heights>, selected: seq<SpendableNote>)
    requires Proposal(toAddr, recipient, amount, unit, account, heights, selected).Ok?
    ensures var tx := Proposal(toAddr, recipient, amount, unit, account, heights, selected).value;
      tx.output.Some? && SumAmounts(tx.inputs) >= tx.output.value.amount + DEFAULT_FEE
  {
    SumOfNoteInputs(selected, account.value.fvk);
  }

  // ---------------------------------------------------------------------
  // make_commitments

  /** The public half of a preprocessed pair, hex-encoded; it names the randomizer nonce too. */
  function PublishedCommitment(n: Nonces, c: Commitments): SigningCommitments {
    SigningCommitments(c.index, HexEncode(c.randomizer), HexEncode(c.hiding), HexEncode(c.binding),
                       HexEncode(ScalarToBytes(n.randomizer)))
  }

  /** The private half, hex-encoded. */
  function PrivateNonces(n: Nonces): SigningNonces {
    SigningNonces(HexEncode(ScalarToBytes(n.randomizer)), HexEncode(ScalarToBytes(n.hiding)),
                  HexEncode(ScalarToBytes(n.binding)))
  }

  /** The share signer `myIndex` appends to an input's list for the preprocessed pair `p`. */
  function CommitmentShare(myIndex: u32, p: (Nonces, Commitments)): SigningShare {
    SigningShare(myIndex, PublishedCommitment(p.0, p.1), None)
  }

  /** Input `i` with signer `myIndex`'s commitment from its `i`-th preprocessing appended. */
  function CommitInput(myIndex: u32, lib: Library, input: TxIn, i: nat): TxIn {
    input.(multisigs := input.multisigs + [CommitmentShare(myIndex, lib.preprocess(myIndex, i))])
  }

  /** Round 1 for one signer: the descriptor with a commitment added to every input, and the matching private nonces. */
  function CommitRound(myIndex: u32, tx: Tx, lib: Library): (r: (Tx, seq<SigningNonces>))
    ensures r.0.height == tx.height && r.0.output == tx.output
    ensures |r.0.inputs| == |tx.inputs| == |r.1|
    ensures forall i :: 0 <= i < |tx.inputs| ==> |r.0.inputs[i].multisigs| == |tx.inputs[i].multisigs| + 1
  {
    (tx.(inputs := seq(|tx.inputs|, i requires 0 <= i < |tx.inputs| => CommitInput(myIndex, lib, tx.inputs[i], i))),
     seq(|tx.inputs|, i requires 0 <= i < |tx.inputs| => PrivateNonces(lib.preprocess(myIndex, i).0)))
  }

  /**
   * `make_commitments`: for every input in order, one fresh preprocessed
   * pair; its commitment is appended to that input's `multisigs` and its
   * nonces to the returned list.
   */
  method MakeCommitments(myIndex: u32, tx: Tx, lib: Library) returns (committed: Tx, nonces: seq<SigningNonces>)
    ensures (committed, nonces) == CommitRound(myIndex, tx, lib)
  {
    var inputs := tx.inputs;
    nonces := [];
    for i := 0 to |inputs|
      invariant |inputs| == |tx.inputs| && |nonces| == i
      invariant forall k :: 0 <= k < i ==> inputs[k] == CommitInput(myIndex, lib, tx.inputs[k], k)
      invariant forall k :: 0 <= k < i ==> nonces[k] == PrivateNonces(lib.preprocess(myIndex, k).0)
      invariant forall k :: i <= k < |inputs| ==> inputs[k] == tx.inputs[k]
    {
      var pair := lib.preprocess(myIndex, i);
      var share := SigningShare(myIndex, PublishedCommitment(pair.0, pair.1), None);
      inputs := inputs[i := inputs[i].(multisigs := inputs[i].multisigs + [share])];
      nonces := nonces + [PrivateNonces(pair.0)];
    }
    committed := tx.(inputs := inputs);
    assert committed == CommitRound(myIndex, tx, lib).0;
    assert nonces == CommitRound(myIndex, tx, lib).1;
  }

  /**
   * What round 1 promises: the height, the output and every input's other
   * fields are untouched; each input gains exactly one share, signer
   * `myIndex`'s, unsigned, whose published randomizer nonce is the one
   * kept privately for that input; one nonce set per input.
   */
  lemma CommitRoundShape(myIndex: u32, tx: Tx, lib: Library)
    ensures var (committed, nonces) := CommitRound(myIndex, tx, lib);
      && committed.height == tx.height && committed.output == tx.output
      && |committed.inputs| == |tx.inputs| == |nonces|
      && forall i :: 0 <= i < |tx.inputs| ==>
           var shares := committed.inputs[i].multisigs;
           && committed.inputs[i].(multisigs := tx.inputs[i].multisigs) == tx.inputs[i]
           && |shares| == |tx.inputs[i].multisigs| + 1
           && shares[..|shares| - 1] == tx.inputs[i].multisigs
           && shares[|shares| - 1].index == myIndex && shares[|shares| - 1].signature.None?
           && shares[|shares| - 1].commitment.randomizerNonce == nonces[i].randomizer
  {
  }

  // ---------------------------------------------------------------------
  // pre_multi_sign: per-input decoding and TxBin packaging

  /** A descriptor input decoded back into what the builder needs. */
  datatype DecodedSpend = DecodedSpend(diversifier: Diversifier, fvk: string, amount: u64, rseed: Rseed, merkleBytes: seq<byte>)

  /**
   * The per-input decoding shared by `pre_multi_sign` and `sign_tx`: the
   * diversifier must hold exactly 11 bytes and the rseed exactly 32; the
   * flag says whether those 32 bytes are raw (after ZIP 212) or a scalar,
   * which must then be canonical (`unwrap`); the witness must be hex.
   */
  function DecodeSpend(input: TxIn): (r: Outcome<DecodedSpend>)
    ensures r.Ok? <==>
      && DecodeToSlice(input.diversifier, 11).Some?
      && DecodeToSlice(input.rseed, 32).Some?
      && (input.z212 || ScalarFromBytes(DecodeToSlice(input.rseed, 32).value).Some?)
      && HexDecode(input.merklePath).Some?
    ensures r.Ok? ==>
      && (r.value.rseed.AfterZip212? <==> input.z212)
      && Some(RseedBytes(r.value.rseed)) == DecodeToSlice(input.rseed, 32)
      && Some(r.value.diversifier) == DecodeToSlice(input.diversifier, 11)
      && r.value.amount == input.amount && r.value.fvk == input.fvk
      && Some(r.value.merkleBytes) == HexDecode(input.merklePath)
    ensures r.Err? ==> r.error.BadHex?
  {
    var d := DecodeToSlice(input.diversifier, 11);
    if d.None? then Err(BadHex("diversifier"))
    else
      var rs := DecodeToSlice(input.rseed, 32);
      if rs.None? then Err(BadHex("rseed"))
      else if !input.z212 && ScalarFromBytes(rs.value).None? then Panic("rseed is not a canonical scalar")
      else
        var rseed := if input.z212 then AfterZip212(rs.value) else BeforeZip212(ScalarFromBytes(rs.value).value);
        var w := HexDecode(input.merklePath);
        if w.None? then Err(BadHex("witness"))
        else Ok(DecodedSpend(d.value, input.fvk, input.amount, rseed, w.value))
  }

  /** Decoding undoes what `prepare_tx` wrote for a note: same diversifier, rseed (in its version) and witness bytes. */
  lemma DecodeSpendInvertsNoteInput(note: SpendableNote, fvk: string)
    ensures DecodeSpend(NoteInput(note, fvk)) == Ok(DecodedSpend(note.diversifier, fvk, note.noteValue, note.rseed, note.merklePath))
  {
    HexRoundTrip(note.diversifier);
    HexRoundTrip(RseedBytes(note.rseed));
    HexRoundTrip(note.merklePath);
    if note.rseed.BeforeZip212? {
      ScalarRoundTrip(note.rseed.scalar);
    }
  }

  /** The inputs decoded in order; the first input that fails decides the outcome. */
  function DecodeSpends(inputs: seq<TxIn>): (r: Outcome<seq<DecodedSpend>>)
    ensures r.Ok? <==> forall i :: 0 <= i < |inputs| ==> DecodeSpend(inputs[i]).Ok?
    ensures r.Ok? ==> |r.value| == |inputs| && forall i :: 0 <= i < |inputs| ==> r.value[i] == DecodeSpend(inputs[i]).value
    ensures r.Err? ==> r.error.BadHex?
  {
    if inputs == [] then Ok([])
    else
      var first := DecodeSpend(inputs[0]);
      if !first.Ok? then first.Propagate()
      else
        var rest := DecodeSpends(inputs[1..]);
        if !rest.Ok? then
          assert forall i :: 1 <= i < |inputs| ==> inputs[i] == inputs[1..][i - 1];
          rest.Propagate()
        else Ok([first.value] + rest.value)
  }

  /** A failed decoding is the failure of the first input that does not decode, passed on unchanged. */
  lemma {:induction false} DecodeSpendsFirstFailure(inputs: seq<TxIn>, k: nat)
    requires k < |inputs| && !DecodeSpend(inputs[k]).Ok?
    requires forall j :: 0 <= j < k ==> DecodeSpend(inputs[j]).Ok?
    ensures DecodeSpends(inputs) == DecodeSpend(inputs[k]).Propagate()
  {
    if k > 0 {
      assert DecodeSpend(inputs[0]).Ok?;
      assert inputs[1..][k - 1] == inputs[k];
      DecodeSpendsFirstFailure(inputs[1..], k - 1);
    }
  }

  /**
   * The checks of the Sapling transaction builder the signing paths meet
   * before proving: whether `add_sapling_spend` (or `_multi`) accepts an
   * input's spend after the spends of the inputs before it, and what
   * `decode_payment_address` makes of the output address.
   */
  datatype BuilderChecks = BuilderChecks(acceptsSpend: (seq<TxIn>, TxIn) -> bool, decodeAddress: string -> AddressDecoding)

  /**
   * The input loop of `pre_multi_sign` and `sign_tx`, from input `i` on:
   * each input is decoded and its spend handed to the builder before the
   * next input is looked at, so the first input that fails to decode or
   * whose spend the builder refuses (`?`, a build error) decides the outcome.
   */
  function AddSpends(inputs: seq<TxIn>, accepts: (seq<TxIn>, TxIn) -> bool, i: nat): (r: Outcome<seq<DecodedSpend>>)
    requires i <= |inputs|
    ensures r.Ok? ==> |r.value| == |inputs| - i
    ensures r.Err? ==> r.error.BadHex? || r.error == BuildFailed
    decreases |inputs| - i
  {
    if i == |inputs| then Ok([])
    else
      var first := DecodeSpend(inputs[i]);
      if !first.Ok? then first.Propagate()
      else if !accepts(inputs[..i], inputs[i]) then Err(BuildFailed)
      else
        var rest := AddSpends(inputs, accepts, i + 1);
        if !rest.Ok? then rest else Ok([first.value] + rest.value)
  }

  /** Every input in `[i, k)` decodes and the builder takes its spend after the inputs before it. */
  ghost predicate AcceptedBetween(inputs: seq<TxIn>, accepts: (seq<TxIn>, TxIn) -> bool, i: nat, k: nat)
    requires k <= |inputs|
  {
    forall j :: i <= j < k ==> DecodeSpend(inputs[j]).Ok? && accepts(inputs[..j], inputs[j])
  }

  /** A completed loop decoded every input from `i` on, in order, as `DecodeSpends` does, and the builder took each spend. */
  lemma {:induction false} AddSpendsComplete(inputs: seq<TxIn>, accepts: (seq<TxIn>, TxIn) -> bool, i: nat)
    requires i <= |inputs| && AddSpends(inputs, accepts, i).Ok?
    ensures AcceptedBetween(inputs, accepts, i, |inputs|)
    ensures AddSpends(inputs, accepts, i) == DecodeSpends(inputs[i..])
    decreases |inputs| - i
  {
    if i < |inputs| {
      assert DecodeSpend(inputs[i]).Ok? && accepts(inputs[..i], inputs[i]);
      assert inputs[i..][0] == inputs[i] && inputs[i..][1..] == inputs[i + 1..];
      AddSpendsComplete(inputs, accepts, i + 1);
    }
  }

  /** The whole loop, once completed, has the spends `DecodeSpends` gives. */
  lemma AddSpendsDecodes(inputs: seq<TxIn>, accepts: (seq<TxIn>, TxIn) -> bool)
    requires AddSpends(inputs, accepts, 0).Ok?
    ensures DecodeSpends(inputs).Ok? && AddSpends(inputs, accepts, 0).value == DecodeSpends(inputs).value
    ensures forall j :: 0 <= j < |inputs| ==> accepts(inputs[..j], inputs[j])
  {
    AddSpendsComplete(inputs, accepts, 0);
    assert inputs[0..] == inputs;
  }

  /** Conversely, the loop completes when every input from `i` on decodes and each spend is accepted after the earlier ones. */
  lemma {:induction false} AddSpendsSucceeds(inputs: seq<TxIn>, accepts: (seq<TxIn>, TxIn) -> bool, i: nat)
    requires i <= |inputs|
    requires forall j :: i <= j < |inputs| ==> DecodeSpend(inputs[j]).Ok? && accepts(inputs[..j], inputs[j])
    ensures AddSpends(inputs, accepts, i).Ok?
    decreases |inputs| - i
  {
    if i < |inputs| {
      AddSpendsSucceeds(inputs, accepts, i + 1);
    }
  }

  /**
   * The first input that fails decides the loop: a decoding failure is
   * passed on unchanged, a refused spend is a build error.
   */
  lemma {:induction false} AddSpendsFirstFailure(inputs: seq<TxIn>, accepts: (seq<TxIn>, TxIn) -> bool, i: nat, k: nat)
    requires i <= k < |inputs| && AcceptedBetween(inputs, accepts, i, k)
    requires !DecodeSpend(inputs[k]).Ok? || !accepts(inputs[..k], inputs[k])
    ensures AddSpends(inputs, accepts, i)
         == if !DecodeSpend(inputs[k]).Ok? then DecodeSpend(inputs[k]).Propagate() else Err(BuildFailed)
    decreases k - i
  {
    if i < k {
      assert DecodeSpend(inputs[i]).Ok? && accepts(inputs[..i], inputs[i]);
      AddSpendsFirstFailure(inputs, accepts, i + 1, k);
    }
  }

  /** A builder that accepts every spend leaves exactly the decoding: the loop from `i` on is `DecodeSpends` of the rest. */
  lemma {:induction false} AddSpendsAcceptingAll(inputs: seq<TxIn>, accepts: (seq<TxIn>, TxIn) -> bool, i: nat)
    requires i <= |inputs|
    requires forall d, x :: accepts(d, x)
    ensures AddSpends(inputs, accepts, i) == DecodeSpends(inputs[i..])
    decreases |inputs| - i
  {
    if i < |inputs| {
      assert inputs[i..][0] == inputs[i] && inputs[i..][1..] == inputs[i + 1..];
      AddSpendsAcceptingAll(inputs, accepts, i + 1);
    }
  }

  /** Every input `prepare_tx` writes decodes back to its note, so signing can proceed past decoding. */
  lemma ProposalInputsDecode(toAddr: string, recipient: Option<Recipient>, amount: Option<real>, unit: ZecUnit,
                             account: Option<Account>, heights: Option<Heights>, selected: seq<SpendableNote>)
    requires Proposal(toAddr, recipient, amount, unit, account, heights, selected).Ok?
    ensures var tx := Proposal(toAddr, recipient, amount, unit, account, heights, selected).value;
      && DecodeSpends(tx.inputs).Ok?
      && forall i :: 0 <= i < |selected| ==>
           DecodeSpends(tx.inputs).value[i] == DecodedSpend(selected[i].diversifier, account.value.fvk, selected[i].noteValue, selected[i].rseed, selected[i].merklePath)
  {
    var tx := Proposal(toAddr, recipient, amount, unit, account, heights, selected).value;
    forall i | 0 <= i < |selected|
      ensures DecodeSpend(tx.inputs[i]) == Ok(DecodedSpend(selected[i].diversifier, account.value.fvk, selected[i].noteValue, selected[i].rseed, selected[i].merklePath))
    {
      DecodeSpendInvertsNoteInput(selected[i], account.value.fvk);
    }
  }

  /** Collecting commitments does not disturb decoding: the shares play no part in it. */
  lemma {:induction false} CommittedInputsDecodeAlike(inputs: seq<TxIn>, committed: seq<TxIn>)
    requires |committed| == |inputs|
    requires forall i :: 0 <= i < |inputs| ==> committed[i] == inputs[i].(multisigs := committed[i].multisigs)
    ensures DecodeSpends(committed) == DecodeSpends(inputs)
  {
    if inputs != [] {
      CommittedInputsDecodeAlike(inputs[1..], committed[1..]);
      assert DecodeSpend(committed[0]) == DecodeSpend(inputs[0]);
    }
  }

  /** The commitments of an input's shares, in list order. */
  function ShareCommitments(input: TxIn): seq<SigningCommitments> {
    seq(|input.multisigs|, j requires 0 <= j < |input.multisigs| => input.multisigs[j].commitment)
  }

  /** `TxBin.commitments`: input by input, each input's share commitments. */
  function CommitmentsOf(tx: Tx): seq<seq<SigningCommitments>> {
    seq(|tx.inputs|, i requires 0 <= i < |tx.inputs| => ShareCommitments(tx.inputs[i]))
  }

  /** The shares' randomizer nonces, decoded, in list order. */
  function RandomizerNonces(lib: Library, shares: seq<SigningShare>): (r: seq<Scalar>)
    ensures |r| == |shares|
    ensures forall j :: 0 <= j < |shares| ==> r[j] == lib.decodeScalar(shares[j].commitment.randomizerNonce)
  {
    if shares == [] then [] else [lib.decodeScalar(shares[0].commitment.randomizerNonce)] + RandomizerNonces(lib, shares[1..])
  }

  /** The package an input's rerandomizer is computed from: every collected commitment and its randomizer nonce, in list order. */
  function RandomizerPackageOf(lib: Library, input: TxIn): (p: RandomizerPackage)
    ensures |p.signingCommitments| == |p.randomizers| == |input.multisigs|
  {
    RandomizerPackage(DecodeCommitments(lib, ShareCommitments(input)), RandomizerNonces(lib, input.multisigs))
  }

  /** A spend handed to the builder in multi-sign mode, with its rerandomizer `alpha`. */
  datatype MultiSpend = MultiSpend(spend: DecodedSpend, alpha: Scalar)

  /** What the builder's `prepare_multi_sign` returns: the proved transaction's bytes, its sighash and the index maps. */
  datatype Built = Built(txBytes: seq<byte>, sighash: seq<byte>, spendIndices: seq<nat>, outputIndices: seq<nat>)

  function MultiSpends(lib: Library, tx: Tx, spends: seq<DecodedSpend>): seq<MultiSpend>
    requires |spends| == |tx.inputs|
  {
    seq(|tx.inputs|, i requires 0 <= i < |tx.inputs| =>
      MultiSpend(spends[i], lib.getRandomizer(RandomizerPackageOf(lib, tx.inputs[i]))))
  }

  /**
   * After the spends, both signing paths check the output: it must exist
   * (`unwrap`), its address must be Bech32 (`?`) and a payment address
   * (`unwrap`), and its amount a valid `Amount` (`unwrap`).
   */
  function CheckOutput(output: Option<TxOut>, decodeAddress: string -> AddressDecoding): (r: Outcome<TxOut>)
    ensures r.Ok? <==> output.Some? && decodeAddress(output.value.addr).PaymentAddress? && output.value.amount <= MAX_MONEY
    ensures r.Ok? ==> r.value == output.value
    ensures r.Err? <==> output.Some? && decodeAddress(output.value.addr).AddressNotBech32?
    ensures r.Err? ==> r.error == Bech32
  {
    if output.None? then Panic("called `Option::unwrap()` on a `None` value")
    else match decodeAddress(output.value.addr)
      case AddressNotBech32 => Err(Bech32)
      case NotPaymentAddress => Panic("called `Option::unwrap()` on a `None` value")
      case PaymentAddress =>
        if output.value.amount > MAX_MONEY then Panic("output amount is not a valid Amount")
        else Ok(output.value)
  }

  /**
   * `pre_multi_sign`: the spending key must decode and the prover be
   * present; the inputs are decoded and added to the builder one by one;
   * then the output is checked; `prove` stands for adding the output,
   * `prepare_multi_sign` and the transaction's re-encoding, at the height
   * cast to `u32`; the result is packaged into a `TxBin`.
   */
  function PreMultiSign(spendingKey: string, key: KeyDecoding, proverFound: bool, tx: Tx, lib: Library,
                        builder: BuilderChecks, prove: (u32, seq<MultiSpend>, TxOut) -> Option<Built>): (r: Outcome<TxBin>)
    ensures var spends := AddSpends(tx.inputs, builder.acceptsSpend, 0);
      && (r.Ok? <==>
           && key.SpendingKey? && proverFound && spends.Ok?
           && CheckOutput(tx.output, builder.decodeAddress).Ok?
           && prove(AsU32(tx.height), MultiSpends(lib, tx, spends.value), tx.output.value).Some?)
      && (r.Err? ==> r.error in {Bech32, Wallet(Decode(spendingKey)), Wallet(Prover), BuildFailed} || r.error.BadHex?)
      && (r.Panic? ==>
            && key.SpendingKey? && proverFound
            && (spends.Panic? || (spends.Ok? && CheckOutput(tx.output, builder.decodeAddress).Panic?)))
      && (key.NotBech32? ==> r == Err(Bech32))
      && (key.NotSpendingKey? ==> r == Err(Wallet(Decode(spendingKey))))
      && (key.SpendingKey? && !proverFound ==> r == Err(Wallet(Prover)))
      && (key.SpendingKey? && proverFound && !spends.Ok? ==> r == spends.Propagate())
      && (key.SpendingKey? && proverFound && spends.Ok? && !CheckOutput(tx.output, builder.decodeAddress).Ok? ==>
            r == CheckOutput(tx.output, builder.decodeAddress).Propagate())
      && ((&& key.SpendingKey? && proverFound && spends.Ok? && CheckOutput(tx.output, builder.decodeAddress).Ok?
           && prove(AsU32(tx.height), MultiSpends(lib, tx, spends.value), tx.output.value).None?) ==> r == Err(BuildFailed))
      && (r.Ok? ==> |r.value.commitments| == |tx.inputs|)
  {
    if key.NotBech32? then Err(Bech32)
    else if key.NotSpendingKey? then Err(Wallet(Decode(spendingKey)))
    else if !proverFound then Err(Wallet(Prover))
    else
      var spends := AddSpends(tx.inputs, builder.acceptsSpend, 0);
      if !spends.Ok? then spends.Propagate()
      else
        var output := CheckOutput(tx.output, builder.decodeAddress);
        if !output.Ok? then output.Propagate()
        else match prove(AsU32(tx.height), MultiSpends(lib, tx, spends.value), output.value)
          case None => Err(BuildFailed)
          case Some(b) => Ok(TxBin(HexEncode(b.txBytes), HexEncode(b.sighash), CommitmentsOf(tx), b.spendIndices, b.outputIndices))
  }

  /**
   * The packaging: every input decoded and was accepted, the output passed
   * its checks; commitment list `i` is input `i`'s share commitments in
   * list order; each input's rerandomizer is built from exactly its own
   * commitments; the sighash, bytes and index maps are the builder's.
   */
  lemma PreMultiSignPackaging(spendingKey: string, key: KeyDecoding, proverFound: bool, tx: Tx, lib: Library,
                              builder: BuilderChecks, prove: (u32, seq<MultiSpend>, TxOut) -> Option<Built>)
    requires PreMultiSign(spendingKey, key, proverFound, tx, lib, builder, prove).Ok?
    ensures var bin := PreMultiSign(spendingKey, key, proverFound, tx, lib, builder, prove).value;
      && DecodeSpends(tx.inputs).Ok? && tx.output.Some? && tx.output.value.amount <= MAX_MONEY
      && (forall j :: 0 <= j < |tx.inputs| ==> builder.acceptsSpend(tx.inputs[..j], tx.inputs[j]))
      && builder.decodeAddress(tx.output.value.addr).PaymentAddress?
      && var b := prove(AsU32(tx.height), MultiSpends(lib, tx, DecodeSpends(tx.inputs).value), tx.output.value);
      && b.Some?
      && HexDecode(bin.sighash) == Some(b.value.sighash)
      && HexDecode(bin.bytes) == Some(b.value.txBytes)
      && bin.spendIndices == b.value.spendIndices
      && bin.outputIndices == b.value.outputIndices
      && |bin.commitments| == |tx.inputs|
      && forall i :: 0 <= i < |tx.inputs| ==>
           && |bin.commitments[i]| == |tx.inputs[i].multisigs|
           && forall j :: 0 <= j < |tx.inputs[i].multisigs| ==> bin.commitments[i][j] == tx.inputs[i].multisigs[j].commitment
  {
    AddSpendsDecodes(tx.inputs, builder.acceptsSpend);
    var b := prove(AsU32(tx.height), MultiSpends(lib, tx, DecodeSpends(tx.inputs).value), tx.output.value);
    HexRoundTrip(b.value.sighash);
    HexRoundTrip(b.value.txBytes);
  }

  /**
   * A descriptor without an output makes `pre_multi_sign` panic once every
   * input has decoded and the builder has accepted every spend.
   */
  lemma PreMultiSignNeedsOutput(spendingKey: string, tx: Tx, lib: Library, builder: BuilderChecks,
                                prove: (u32, seq<MultiSpend>, TxOut) -> Option<Built>)
    requires DecodeSpends(tx.inputs).Ok? && tx.output.None?
    requires forall j :: 0 <= j < |tx.inputs| ==> builder.acceptsSpend(tx.inputs[..j], tx.inputs[j])
    ensures PreMultiSign(spendingKey, SpendingKey, true, tx, lib, builder, prove).Panic?
  {
    AddSpendsSucceeds(tx.inputs, builder.acceptsSpend, 0);
  }
}
