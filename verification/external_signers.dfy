/** The two external signers: one hands a rebuilt transaction to the wallet inside a PSBT, one fetches the key and
    signs the transaction itself. They must sign the same message. */
module ExternalSigners {
  import opened Bitcoin
  import opened BtcStaking
  import opened Errors
  import opened Integers
  import opened Keys
  import opened Parsing
  import opened SignatureMessage
  import opened SignerApp
  import opened SignerGate
  import opened SigningTheorems
  import opened UnbondingAgreement
  import opened Wrappers

  datatype PrivKey = PrivKey(secret: Scalar)

  datatype LeafScript = LeafScript(controlBlock: bytes, script: bytes, leafVersion: byte)

  datatype PInput = PInput(
    sighashType: byte, witnessUtxo: Option<TxOut>, bip32PubKeys: seq<bytes>, taprootLeafScript: seq<LeafScript>)

  datatype PacketData = PacketData(unsignedTx: MsgTx, inputs: seq<PInput>)

  /** The wallet behind the node: it completes packets with taproot script-spend signatures for the first input,
      gives out private keys by address, and signs messages with them. */
  datatype Wallet = Wallet(
    processPsbt: PacketData -> Result<seq<bytes>, Error>,
    dumpPrivateKey: string -> Result<PrivKey, Error>,
    sign: (PrivKey, Message) -> Result<Signature, Error>)

  function Annotate(prefix: string, e: Error): Error {
    Error(prefix + ": " + e.message, e.invalidRequest)
  }

  class Packet {
    var unsignedTx: MsgTx
    var inputs: seq<PInput>

    function Data(): PacketData
      reads this
    {
      PacketData(unsignedTx, inputs)
    }

    /** An unsigned transaction without scripts or witnesses, and one empty record per input. */
    constructor (prevouts: seq<OutPoint>, outputs: seq<TxOut>, version: int32, lockTime: uint32, sequences: seq<uint32>)
      requires |prevouts| == |sequences|
      ensures unsignedTx.version == version && unsignedTx.lockTime == lockTime && unsignedTx.txOut == outputs
      ensures unsignedTx.txIn == seq(|prevouts|, i requires 0 <= i < |prevouts| => TxIn(prevouts[i], [], [], sequences[i]))
      ensures inputs == seq(|prevouts|, _ => PInput(SIGHASH_DEFAULT, None, [], []))
    {
      unsignedTx := MsgTx(
        version, seq(|prevouts|, i requires 0 <= i < |prevouts| => TxIn(prevouts[i], [], [], sequences[i])), outputs, lockTime);
      inputs := seq(|prevouts|, _ => PInput(SIGHASH_DEFAULT, None, [], []));
    }
  }

  /** The packet the wallet must be given for a request. */
  function PreparedPacket(request: SigningRequest, controlBlock: bytes): PacketData
    requires |request.unbondingTransaction.txIn| == 1
  {
    var tx, leaf := request.unbondingTransaction, request.spend.revealedLeaf;
    PacketData(
      MsgTx(tx.version, [NewTxIn(tx.txIn[0].previousOutPoint)], tx.txOut, tx.lockTime),
      [PInput(SIGHASH_DEFAULT, Some(request.stakingOutput), [SerializeCompressed(request.covenantPublicKey)],
              [LeafScript(controlBlock, leaf.script, leaf.leafVersion)])])
  }

  function PsbtSignature(lib: Library, wallet: Wallet, request: SigningRequest): Result<Signature, Error> {
    var tx := request.unbondingTransaction;
    match IsSimpleTransfer(lib, tx)
    case Fail(e) => Failure(Annotate("invalid unbonding transaction", e))
    case Pass =>
      if tx.version < 1 then Failure(Errorf("failed to create PSBT packet with unbonding transaction"))
      else
        match request.spend.controlBlock.toBytes
        case Failure(e) => Failure(Annotate("failed to serialize control block", e))
        case Success(controlBlock) =>
          match wallet.processPsbt(PreparedPacket(request, controlBlock))
          case Failure(e) => Failure(Annotate("failed to sign PSBT packet", e))
          case Success(sigs) =>
            if sigs == [] then Failure(Errorf("no signature found in PSBT packet"))
            else
              match ParseSignature(sigs[0])
              case None => Failure(Errorf("failed to parse schnorr signature in psbt packet"))
              case Some(sig) => Success(sig)
  }

  /** The wallet completes the packet of a transfer with `sig`: one final input without scripts that spends the staking
      output, the transaction's own outputs, the covenant key, and the revealed leaf with its control block. */
  ghost predicate PsbtGives(lib: Library, wallet: Wallet, request: SigningRequest, sig: Signature) {
    var tx, spend := request.unbondingTransaction, request.spend;
    && |tx.txIn| == 1 && |tx.txOut| == 1 && lib.furtherSimplicity(tx).Pass? && tx.version >= 1
    && spend.controlBlock.toBytes.Success?
    && var done := wallet.processPsbt(PacketData(
                     MsgTx(tx.version, [TxIn(tx.txIn[0].previousOutPoint, [], [], 0xffff_ffff)], tx.txOut, tx.lockTime),
                     [PInput(0x00, Some(request.stakingOutput), [SerializeCompressed(request.covenantPublicKey)],
                             [LeafScript(spend.controlBlock.toBytes.value, spend.revealedLeaf.script, spend.revealedLeaf.leafVersion)])]));
    done.Success? && done.value != [] && ParseSignature(done.value[0]) == Some(sig)
  }

  lemma PsbtSignsExactly(lib: Library, wallet: Wallet, request: SigningRequest, sig: Signature)
    ensures PsbtSignature(lib, wallet, request) == Success(sig) <==> PsbtGives(lib, wallet, request, sig)
  {
    hide ParseSignature, SerializeCompressed;
  }

  /** Builds the packet step by step, and returns a signature exactly when the wallet completes that packet with it. */
  method PsbtRawSignature(lib: Library, wallet: Wallet, request: SigningRequest) returns (r: Result<Signature, Error>)
    ensures r == PsbtSignature(lib, wallet, request)
    ensures forall sig :: r == Success(sig) <==> PsbtGives(lib, wallet, request, sig)
  {
    hide PsbtGives;
    forall sig ensures PsbtSignature(lib, wallet, request) == Success(sig) <==> PsbtGives(lib, wallet, request, sig) {
      PsbtSignsExactly(lib, wallet, request, sig);
    }
    var tx := request.unbondingTransaction;
    var simple := IsSimpleTransfer(lib, tx);
    if simple.Fail? {
      return Failure(Annotate("invalid unbonding transaction", simple.error));
    }
    if tx.version < 1 {
      return Failure(Errorf("failed to create PSBT packet with unbonding transaction"));
    }
    var packet := new Packet([tx.txIn[0].previousOutPoint], tx.txOut, tx.version, tx.lockTime, [MAX_TX_IN_SEQUENCE_NUM]);
    packet.inputs := packet.inputs[0 := packet.inputs[0].(sighashType := SIGHASH_DEFAULT)];
    packet.inputs := packet.inputs[0 := packet.inputs[0].(witnessUtxo := Some(request.stakingOutput))];
    packet.inputs := packet.inputs[0 := packet.inputs[0].(bip32PubKeys := [SerializeCompressed(request.covenantPublicKey)])];
    var controlBlock := request.spend.controlBlock.toBytes;
    if controlBlock.Failure? {
      return Failure(Annotate("failed to serialize control block", controlBlock.error));
    }
    var leaf := request.spend.revealedLeaf;
    packet.inputs := packet.inputs[0 := packet.inputs[0].(
      taprootLeafScript := [LeafScript(controlBlock.value, leaf.script, leaf.leafVersion)])];
    assert packet.Data() == PreparedPacket(request, controlBlock.value);
    var signed := wallet.processPsbt(packet.Data());
    if signed.Failure? {
      return Failure(Annotate("failed to sign PSBT packet", signed.error));
    }
    if |signed.value| == 0 {
      return Failure(Errorf("no signature found in PSBT packet"));
    }
    var parsed := ParseSignature(signed.value[0]);
    if parsed.None? {
      return Failure(Errorf("failed to parse schnorr signature in psbt packet"));
    }
    return Success(parsed.value);
  }

  function PrivKeySignature(lib: Library, wallet: Wallet, request: SigningRequest): Result<Signature, Error> {
    match IsSimpleTransfer(lib, request.unbondingTransaction)
    case Fail(e) => Failure(Annotate("invalid unbonding transaction received for signing", e))
    case Pass =>
      match wallet.dumpPrivateKey(request.covenantAddress)
      case Failure(e) => Failure(Annotate("failed to retrieve covenant key for signing", e))
      case Success(key) =>
        match wallet.sign(key, SignedMessage(request))
        case Failure(e) => Failure(Annotate("failed to sign transaction", e))
        case Success(sig) => Success(sig)
  }

  /** The wallet holds the key of the covenant address and signs the transfer's script-spend message with it. */
  ghost predicate KeyGives(lib: Library, wallet: Wallet, request: SigningRequest, sig: Signature) {
    var tx, spent := request.unbondingTransaction, request.stakingOutput;
    && |tx.txIn| == 1 && |tx.txOut| == 1 && lib.furtherSimplicity(tx).Pass?
    && var key := wallet.dumpPrivateKey(request.covenantAddress);
    && key.Success?
    && wallet.sign(key.value, Message(0x00, tx.version, tx.lockTime, [tx.txIn[0].previousOutPoint], [spent.value], [spent.pkScript],
                                      [tx.txIn[0].sequence], tx.txOut, 0x02, 0, request.spend.revealedLeaf)) == Success(sig)
  }

  lemma KeySignsExactly(lib: Library, wallet: Wallet, request: SigningRequest, sig: Signature)
    ensures PrivKeySignature(lib, wallet, request) == Success(sig) <==> KeyGives(lib, wallet, request, sig)
  {
    var tx := request.unbondingTransaction;
    if |tx.txIn| == |tx.txOut| == 1 {
      SignedMessageInFull(request);
      assert tx.txOut == [TxOut(tx.txOut[0].value, tx.txOut[0].pkScript)];
    }
    hide SignedMessage;
  }

  /** No failure of either signer is blamed on the request, if none of the wallet and the library is. */
  lemma SignerFailuresArePlain(lib: Library, wallet: Wallet, request: SigningRequest)
    requires lib.furtherSimplicity(request.unbondingTransaction).Fail? ==>
               !lib.furtherSimplicity(request.unbondingTransaction).error.invalidRequest
    requires Plain(request.spend.controlBlock.toBytes) && forall p :: Plain(wallet.processPsbt(p))
    requires Plain(wallet.dumpPrivateKey(request.covenantAddress)) && forall key, m :: Plain(wallet.sign(key, m))
    ensures Plain(PsbtSignature(lib, wallet, request)) && Plain(PrivKeySignature(lib, wallet, request))
  {
    hide ParseSignature, PreparedPacket, SignedMessage;
  }

  /** What a wallet signs for the first input of a packet: it knows the rebuilt transaction only. */
  function PacketMessage(p: PacketData): Message
    requires |p.inputs| > 0 && p.inputs[0].taprootLeafScript != []
    requires forall i | 0 <= i < |p.inputs| :: p.inputs[i].witnessUtxo.Some?
  {
    var leaf := p.inputs[0].taprootLeafScript[0];
    ScriptSpendMessage(
      p.unsignedTx, Map((i: PInput) => if i.witnessUtxo.Some? then i.witnessUtxo.value else TxOut(0, []), p.inputs), 0,
      TapLeaf(leaf.leafVersion, leaf.script)).(hashType := p.inputs[0].sighashType)
  }

  /** Both signers sign the same message exactly when the transaction's one input is final, because the packet
      always is. Signature scripts and witnesses of the original do not matter. */
  lemma SignersAgreeExactly(request: SigningRequest, controlBlock: bytes)
    requires |request.unbondingTransaction.txIn| == 1
    ensures PacketMessage(PreparedPacket(request, controlBlock)) == SignedMessage(request)
       <==> request.unbondingTransaction.txIn[0].sequence == MAX_TX_IN_SEQUENCE_NUM
  {
    var tx := request.unbondingTransaction;
    var rebuilt, direct := PacketMessage(PreparedPacket(request, controlBlock)), SignedMessage(request);
    assert rebuilt.prevouts == direct.prevouts == [tx.txIn[0].previousOutPoint];
    assert rebuilt.sequences == [MAX_TX_IN_SEQUENCE_NUM] && direct.sequences == [tx.txIn[0].sequence];
    assert rebuilt.sequences[0] == MAX_TX_IN_SEQUENCE_NUM && direct.sequences[0] == tx.txIn[0].sequence;
    assert rebuilt.amounts == direct.amounts && rebuilt.pkScripts == direct.pkScripts;
  }

  /** The message the staker's signature is checked against. */
  function StakerMessage(request: SigningRequest): Message {
    ScriptSpendMessage(request.unbondingTransaction, [request.stakingOutput], 0, NewBaseTapLeaf(request.spend.revealedLeaf.script))
  }

  /** A request that passes every validation has one message: the PSBT's, the direct signer's and, for a base leaf, the
      staker's, whose signature over it has been verified. */
  lemma ApprovedRequestHasOneMessage(app: SignerApp, req: Request, io: Answers, controlBlock: bytes)
    requires Signs(app, req, io)
    ensures var approved := ApprovedRequest(app, req, io);
            && approved.Success? && |approved.value.unbondingTransaction.txIn| == 1
            && PacketMessage(PreparedPacket(approved.value, controlBlock)) == SignedMessage(approved.value)
            && (approved.value.spend.revealedLeaf.leafVersion == BASE_LEAF_VERSION <==> StakerMessage(approved.value) == SignedMessage(approved.value))
            && Staking(app, io).Success?
            && app.lib.schnorrVerify(Staking(app, io).value.opReturnData.stakerPublicKey, StakerMessage(approved.value), req.stakerSig).Pass?
  {
    hide Signs, SignUnbondingTransaction;
    SignedSteps(app, req, io);
    SignersAgreeExactly(ApprovedRequest(app, req, io).value, controlBlock);
    var request := ApprovedRequest(app, req, io).value;
    assert StakerMessage(request).leaf == NewBaseTapLeaf(request.spend.revealedLeaf.script);
  }

  /** Signatures in completed packets are made with the key the packet names. */
  ghost predicate HonestPsbtWallet(lib: Library, wallet: Wallet, key: PubKey) {
    forall request: SigningRequest, controlBlock: bytes |
      request.covenantPublicKey == key && |request.unbondingTransaction.txIn| == 1 ::
      var done := wallet.processPsbt(PreparedPacket(request, controlBlock));
      done.Success? && done.value != [] && ParseSignature(done.value[0]).Some?
      ==> lib.schnorrVerify(key, PacketMessage(PreparedPacket(request, controlBlock)), ParseSignature(done.value[0]).value).Pass?
  }

  /** The key dumped for the address of `key` signs for `key`. */
  ghost predicate HonestKeyWallet(lib: Library, wallet: Wallet, key: PubKey) {
    forall address: string, secret: PrivKey, m: Message |
      lib.pubKeyToAddress(key) == Success(address) && wallet.dumpPrivateKey(address) == Success(secret) && wallet.sign(secret, m).Success? ::
      lib.schnorrVerify(key, m, wallet.sign(secret, m).value).Pass?
  }

  /** Whichever signer is plugged in, the returned signature verifies under the covenant key against the unbonding
      transaction that was asked for and the staking output it spends. */
  lemma ReturnedSignatureVerifies(app: SignerApp, wallet: Wallet, req: Request, io: Answers, psbt: bool)
    requires Signs(app, req, io) && ApprovedRequest(app, req, io).Success?
    requires var request := ApprovedRequest(app, req, io).value;
             && request.spend.revealedLeaf.leafVersion == BASE_LEAF_VERSION
             && io.rawSignature(request) == (if psbt then PsbtSignature(app.lib, wallet, request) else PrivKeySignature(app.lib, wallet, request))
    requires if psbt then HonestPsbtWallet(app.lib, wallet, req.covenantKey) else HonestKeyWallet(app.lib, wallet, req.covenantKey)
    ensures var request := ApprovedRequest(app, req, io).value;
            VerifyTransactionSigWithOutput(
              app.lib, req.tx, request.stakingOutput, request.spend.revealedLeaf.script, req.covenantKey,
              SignUnbondingTransaction(app, req, io).result.value).Pass?
  {
    hide Signs, SignUnbondingTransaction;
    SignedSteps(app, req, io);
    var request := ApprovedRequest(app, req, io).value;
    var controlBlock := if request.spend.controlBlock.toBytes.Success? then request.spend.controlBlock.toBytes.value else [];
    ApprovedRequestHasOneMessage(app, req, io, controlBlock);
  }
  /** A request that passes every validation gets its signature from a wallet that gives one, through either signer. */
  lemma ApprovedIsSigned(app: SignerApp, wallet: Wallet, req: Request, io: Answers, psbt: bool, sig: Signature)
    requires HoldUpTo(19, Look(app, req, io)) && ApprovedRequest(app, req, io).Success?
    requires var request := ApprovedRequest(app, req, io).value;
             && io.rawSignature(request) == (if psbt then PsbtSignature(app.lib, wallet, request) else PrivKeySignature(app.lib, wallet, request))
             && (if psbt then PsbtGives(app.lib, wallet, request, sig) else KeyGives(app.lib, wallet, request, sig))
    ensures SignUnbondingTransaction(app, req, io).result == Success(sig)
  {
    var request := ApprovedRequest(app, req, io).value;
    hide HoldUpTo, SignUnbondingTransaction, PsbtSignature, PrivKeySignature, PsbtGives, KeyGives;
    PsbtSignsExactly(app.lib, wallet, request, sig);
    KeySignsExactly(app.lib, wallet, request, sig);
    FinalSteps(Look(app, req, io));
    SignsExactly(app, req, io);
  }

  /** And a version 2 transaction from the gate is no obstacle to the PSBT: what is left to fail is the wallet's or the library's. */
  lemma ApprovedFitsPsbt(app: SignerApp, req: Request, io: Answers)
    requires HoldUpTo(19, Look(app, req, io)) && ApprovedRequest(app, req, io).Success?
    ensures var request := ApprovedRequest(app, req, io).value;
            && request.unbondingTransaction == req.tx && |req.tx.txIn| == |req.tx.txOut| == 1 && req.tx.version == 2
            && request.unbondingTransaction.txIn[0].sequence == 0xffff_ffff
  {
    hide Locate, Conclude, Authorize;
    HoldUpToFewer(2, 19, Look(app, req, io));
    ReadSteps(Look(app, req, io));
  }
}
