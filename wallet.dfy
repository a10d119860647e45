/**
 * The crate root: amount units and their conversions, the unsigned
 * transaction descriptor and the threshold-signing artifacts that travel
 * between rounds as files, the wallet's error type, and the outcome of a
 * Rust call (a value, an error, or a panic).
 */
module Wallet {
  import opened Wrappers
  import opened Bytes

  const U64_MAX: int := 0xFFFF_FFFF_FFFF_FFFF
  type u64 = x: int | 0 <= x <= U64_MAX
  type u32 = x: int | 0 <= x < 0x1_0000_0000
  type i64 = x: int | -0x8000_0000_0000_0000 <= x < 0x8000_0000_0000_0000

  /** Rust's `x as u32` on any integer type: keeps the low 32 bits, in two's complement. */
  function AsU32(x: int): (r: u32)
    ensures (x - r) % 0x1_0000_0000 == 0
  {
    x % 0x1_0000_0000
  }

  /** The cast changes nothing on values that already fit, and wraps the others. */
  lemma AsU32Cases(x: int)
    ensures 0 <= x < 0x1_0000_0000 ==> AsU32(x) == x
    ensures -0x1_0000_0000 <= x < 0 ==> AsU32(x) == x + 0x1_0000_0000
    ensures 0x1_0000_0000 <= x < 0x2_0000_0000 ==> AsU32(x) == x - 0x1_0000_0000
  {
  }

  // ---------------------------------------------------------------------
  // Outcomes and errors

  /** What a Rust call ends in: `Ok`, `Err` through `?`, or a panic (`unwrap`, `expect`, indexing, `unimplemented!`). */
  datatype Outcome<+T> = Ok(value: T) | Err(error: Error) | Panic(reason: string) {
    /** A failure passed on unchanged to the caller, as `?` and an unwinding panic do. */
    function Propagate<U>(): (r: Outcome<U>)
      requires !Ok?
      ensures !r.Ok? && (Err? <==> r.Err?) && (Err? ==> r.error == error)
    {
      if Err? then Err(error) else Panic(reason)
    }
  }

  datatype WalletError =
    | NotEnoughFunds(selected: u64, required: u64, unit: ZecUnit)
    | Decode(input: string)
    | Prover
    | TxParse
    | AccountNotInitialized

  /** The errors the modelled code propagates with `?`. */
  datatype Error =
    | Wallet(walletError: WalletError)
    | BadHex(field: string)        // `hex::FromHexError` while decoding the named field
    | BadTransaction               // `Transaction::read` rejected the proved transaction bytes
    | InvalidSignature             // the aggregated spend-authorization signature did not verify
    | BuildFailed                  // the transaction builder or prover reported an error
    | DuplicateBlock(height: u32)  // the cache's plain INSERT hit an existing height
    | ScanFailed                   // `scan_cached_blocks` reported an error
    | Rpc                          // the light node answered a call with an error status
    | Bech32                       // `bech32::Error`: the text is not valid Bech32

  /**
   * What `decode_extended_spending_key` gives for a key string: a Bech32
   * error (`Err`), valid Bech32 that is not a Sapling extended spending key
   * (`Ok(None)`: another prefix or an unreadable payload), or the key.
   */
  datatype KeyDecoding = NotBech32 | NotSpendingKey | SpendingKey

  /**
   * What `decode_payment_address` gives for an address string: a Bech32
   * error, valid Bech32 that is not a Sapling payment address, or the address.
   */
  datatype AddressDecoding = AddressNotBech32 | NotPaymentAddress | PaymentAddress

  // ---------------------------------------------------------------------
  // Units

  datatype ZecUnit = Zat | MilliZec | Zec

  /** The spelling of a unit on the command line. */
  function UnitName(u: ZecUnit): string {
    match u
    case Zat => "Zat"
    case MilliZec => "MilliZec"
    case Zec => "Zec"
  }

  /** `ZECUnit::from_str`: exactly the three command-line spellings, case-sensitively; anything else panics. */
  function FromStr(s: string): (r: Outcome<ZecUnit>)
    ensures r.Ok? <==> s == "Zat" || s == "MilliZec" || s == "Zec"
    ensures r.Ok? ==> UnitName(r.value) == s
    ensures !r.Err?
  {
    if s == "Zat" then Ok(Zat)
    else if s == "MilliZec" then Ok(MilliZec)
    else if s == "Zec" then Ok(Zec)
    else Panic("Unit must be one of Zat, MilliZec or Zec")
  }

  /** `Display for ZECUnit`. */
  function Display(u: ZecUnit): (s: string)
    ensures s != UnitName(u)
  {
    match u
    case Zat => "zatoshis"
    case MilliZec => "mZEC"
    case Zec => "ZEC"
  }

  lemma FromStrOfName(u: ZecUnit)
    ensures FromStr(UnitName(u)) == Ok(u)
  {
  }

  /** Printing a unit and parsing the text back is never a round trip: it panics. */
  lemma DisplayDoesNotParse(u: ZecUnit)
    ensures FromStr(Display(u)).Panic?
  {
  }

  /** Zatoshis per unit. */
  function Factor(u: ZecUnit): nat {
    match u
    case Zec => 100_000_000
    case MilliZec => 100_000
    case Zat => 1
  }

  /**
   * `to_satoshis`: the exact decimal amount (None when the text does not
   * parse) scaled to zatoshis, then converted to `u64`, which drops any
   * fraction and fails for negative or too large values; both failures panic.
   */
  function ToZatoshis(u: ZecUnit, amount: Option<real>): (r: Outcome<u64>)
    ensures r.Ok? <==> amount.Some? && 0.0 <= amount.value * Factor(u) as real < (U64_MAX + 1) as real
    ensures r.Ok? ==> r.value as real <= amount.value * Factor(u) as real < r.value as real + 1.0
    ensures !r.Err?
  {
    match amount
    case None => Panic("amount is not a decimal number")
    case Some(a) =>
      var scaled := a * Factor(u) as real;
      if scaled < 0.0 || scaled.Floor > U64_MAX then Panic("amount does not fit in u64")
      else Ok(scaled.Floor)
  }

  /** `from_satoshis`, as a value: the exact quotient by the same factor. */
  function FromZatoshis(u: ZecUnit, x: u64): (r: real)
    ensures r * Factor(u) as real == x as real
    ensures 0.0 <= r <= x as real
  {
    x as real / Factor(u) as real
  }

  /** Converting zatoshis to a unit and back gives the zatoshis. */
  lemma ZatoshisRoundTrip(u: ZecUnit, x: u64)
    ensures ToZatoshis(u, Some(FromZatoshis(u, x))) == Ok(x)
  {
    var scaled := FromZatoshis(u, x) * Factor(u) as real;
    assert scaled == x as real;
    assert scaled.Floor == x;
  }

  /** An amount that is a whole number of zatoshis comes back unchanged. */
  lemma AmountRoundTrip(u: ZecUnit, a: real)
    requires ToZatoshis(u, Some(a)).Ok?
    requires (a * Factor(u) as real).Floor as real == a * Factor(u) as real
    ensures FromZatoshis(u, ToZatoshis(u, Some(a)).value) == a
  {
  }

  // ---------------------------------------------------------------------
  // Error display

  /** A piece of a displayed message: literal text, or an amount printed in decimal. */
  datatype Piece = Text(text: string) | Amount(value: real)

  /** `Display for WalletError`, with each amount kept as the value `from_satoshis` prints. */
  function Describe(e: WalletError): (r: seq<Piece>)
    ensures |r| > 0 && r[0].Text?
    ensures (exists k :: 0 <= k < |r| && r[k].Amount?) <==> e.NotEnoughFunds?
    ensures e.Decode? ==> r[|r| - 1] == Text(e.input)
  {
    match e
    case NotEnoughFunds(a, b, unit) =>
      var pieces := [Text("Not enough funds: "), Amount(FromZatoshis(unit, a)), Text(" < "),
                     Amount(FromZatoshis(unit, b)), Text(" "), Text(Display(unit))];
      assert pieces[1].Amount?;
      pieces
    case Decode(m) => [Text("Could not decode "), Text(m)]
    case Prover => [Text("Could not create ZKSnark prover. Did you download the parameters?")]
    case TxParse => [Text("Could not parse transaction file")]
    case AccountNotInitialized => [Text("Account not initialized. Did you use init-account?")]
  }

  /** The funds message shows both amounts in the error's own unit, and names that unit. */
  lemma NotEnoughFundsShowsAmounts(a: u64, b: u64, u: ZecUnit)
    ensures var r := Describe(NotEnoughFunds(a, b, u));
      && |r| == 6 && r[1].Amount? && r[3].Amount?
      && ToZatoshis(u, Some(r[1].value)) == Ok(a)
      && ToZatoshis(u, Some(r[3].value)) == Ok(b)
      && r[5] == Text(Display(u))
  {
    ZatoshisRoundTrip(u, a);
    ZatoshisRoundTrip(u, b);
  }

  // ---------------------------------------------------------------------
  // Records exchanged between the rounds (field lists as the code builds them)

  /** The unsigned transaction descriptor. */
  datatype Tx = Tx(height: i64, inputs: seq<TxIn>, output: Option<TxOut>)

  /** One spent note; `multisigs` collects the signers' round-1 commitments. */
  datatype TxIn = TxIn(
    diversifier: string,
    fvk: string,
    amount: u64,
    z212: bool,
    rseed: string,
    merklePath: string,   // the serialized incremental witness (`witness`; that word is reserved in Dafny)
    multisigs: seq<SigningShare>)

  datatype TxOut = TxOut(addr: string, amount: u64, ovk: string)

  /** A signer's public commitment for one input, hex-encoded. */
  datatype SigningCommitments = SigningCommitments(
    index: u32,
    randomizer: string,
    hiding: string,
    binding: string,
    randomizerNonce: string)

  /** A signer's private nonces for one input, hex-encoded. */
  datatype SigningNonces = SigningNonces(randomizer: string, hiding: string, binding: string)

  datatype SigningShare = SigningShare(index: u32, commitment: SigningCommitments, signature: Option<string>)

  /** The proved-but-unsigned transaction with what rounds 3 and 4 need. */
  datatype TxBin = TxBin(
    bytes: string,
    sighash: string,
    commitments: seq<seq<SigningCommitments>>,
    spendIndices: seq<nat>,
    outputIndices: seq<nat>)

  datatype RawTransaction = RawTransaction(data: seq<byte>, height: u64)

  /** The crate's `MAX_REORG_DEPTH`; nothing in the modelled code reads it. */
  const MAX_REORG_DEPTH: nat := 3
}
