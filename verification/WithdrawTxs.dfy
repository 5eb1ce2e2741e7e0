/** Withdrawal transactions on the wire: one instruction to a reserved program,
    in a 48-byte native or an 80-byte token layout. */
module WithdrawTxs {
  import opened Common
  import opened Bytes
  import opened Ledger
  import opened Withdrawals

  const WITHDRAW_PROGRAM: H256 := [0x06, 0x21] + Zeros(29) + [0x01]

  datatype Instruction = Instruction(program: nat, data: seq<Byte>)

  datatype Transaction = Transaction(sig: Signature, keys: seq<H256>, instructions: seq<Instruction>)

  /** A transaction recognised as a withdrawal; its payer signed it. */
  datatype WithdrawTx = WithdrawTx(tx: Transaction, payer: H256, w: Withdrawal)

  function ReadU64(data: seq<Byte>, at: nat): U64
    requires at + 8 <= |data|
  {
    EightBytes();
    FromLittleEndian(data[at..at + 8])
  }

  function Parse(tx: Transaction): Option<WithdrawTx> {
    if |tx.instructions| != 1 then None
    else
      var ix := tx.instructions[0];
      if ix.program >= |tx.keys| || tx.keys[ix.program] != WITHDRAW_PROGRAM then None
      else if |ix.data| == 48 then
        Some(WithdrawTx(tx, tx.keys[0],
                        Withdrawal(ix.data[..32], NATIVE_ASSET, ReadU64(ix.data, 32), ReadU64(ix.data, 40))))
      else if |ix.data| == 80 then
        Some(WithdrawTx(tx, tx.keys[0],
                        Withdrawal(ix.data[..32], ix.data[32..64], ReadU64(ix.data, 64), ReadU64(ix.data, 72))))
      else None
  }

  /** The two layouts a client may send. */
  function NativeLayout(w: Withdrawal): seq<Byte> {
    w.recipient + LittleEndian(w.amount, 8) + LittleEndian(w.nonce, 8)
  }

  function TokenLayout(w: Withdrawal): seq<Byte> {
    w.recipient + w.asset + LittleEndian(w.amount, 8) + LittleEndian(w.nonce, 8)
  }

  /** Either layout of a withdrawal parses back to it. */
  lemma ParseToken(w: Withdrawal, sig: Signature, keys: seq<H256>, program: nat)
    requires program < |keys| && keys[program] == WITHDRAW_PROGRAM
    ensures var tx := Transaction(sig, keys, [Instruction(program, TokenLayout(w))]);
            Parse(tx) == Some(WithdrawTx(tx, keys[0], w))
  {
    hide LittleEndian, FromLittleEndian;
    var t := TokenLayout(w);
    EightBytes();
    LittleEndianRoundTrip(w.amount, 8);
    LittleEndianRoundTrip(w.nonce, 8);
    assert t[..32] == w.recipient && t[32..64] == w.asset;
    assert t[64..72] == LittleEndian(w.amount, 8) && t[72..80] == LittleEndian(w.nonce, 8);
  }

  lemma ParseNative(w: Withdrawal, sig: Signature, keys: seq<H256>, program: nat)
    requires program < |keys| && keys[program] == WITHDRAW_PROGRAM && w.asset == NATIVE_ASSET
    ensures var tx := Transaction(sig, keys, [Instruction(program, NativeLayout(w))]);
            Parse(tx) == Some(WithdrawTx(tx, keys[0], w))
  {
    hide LittleEndian, FromLittleEndian;
    var n := NativeLayout(w);
    EightBytes();
    LittleEndianRoundTrip(w.amount, 8);
    LittleEndianRoundTrip(w.nonce, 8);
    assert n[..32] == w.recipient;
    assert n[32..40] == LittleEndian(w.amount, 8) && n[40..48] == LittleEndian(w.nonce, 8);
  }

  /** And nothing else parses: a withdrawal is one instruction to the reserved
      program, in one of the two layouts, and its payer is the first key. */
  lemma ParseIff(tx: Transaction, x: WithdrawTx)
    ensures Parse(tx) == Some(x) <==>
            && x.tx == tx && |tx.instructions| == 1
            && var ix := tx.instructions[0];
               && ix.program < |tx.keys| && tx.keys[ix.program] == WITHDRAW_PROGRAM && x.payer == tx.keys[0]
               && (ix.data == TokenLayout(x.w) || (ix.data == NativeLayout(x.w) && x.w.asset == NATIVE_ASSET))
  {
    if |tx.instructions| == 1 {
      var ix := tx.instructions[0];
      assert tx.instructions == [ix] && tx == Transaction(tx.sig, tx.keys, [ix]);
      if ix.program < |tx.keys| && tx.keys[ix.program] == WITHDRAW_PROGRAM {
        LayoutsParse(tx, ix, x);
        if Parse(tx).Some? {
          ParsedLayout(tx, ix);
        }
      }
    }
  }

  lemma LayoutsParse(tx: Transaction, ix: Instruction, x: WithdrawTx)
    requires tx == Transaction(tx.sig, tx.keys, [ix]) && ix.program < |tx.keys|
    requires tx.keys[ix.program] == WITHDRAW_PROGRAM
    ensures ix.data == TokenLayout(x.w) ==> Parse(tx) == Some(WithdrawTx(tx, tx.keys[0], x.w))
    ensures ix.data == NativeLayout(x.w) && x.w.asset == NATIVE_ASSET ==>
              Parse(tx) == Some(WithdrawTx(tx, tx.keys[0], x.w))
  {
    hide Parse;
    if ix.data == TokenLayout(x.w) {
      ParseToken(x.w, tx.sig, tx.keys, ix.program);
    }
    if ix.data == NativeLayout(x.w) && x.w.asset == NATIVE_ASSET {
      ParseNative(x.w, tx.sig, tx.keys, ix.program);
    }
  }

  lemma ParsedLayout(tx: Transaction, ix: Instruction)
    requires tx.instructions == [ix] && Parse(tx).Some?
    ensures var x := Parse(tx).value;
            && x.tx == tx && x.payer == tx.keys[0]
            && (ix.data == TokenLayout(x.w) || (ix.data == NativeLayout(x.w) && x.w.asset == NATIVE_ASSET))
  {
    hide LittleEndian, FromLittleEndian;
    var d, at := ix.data, if |ix.data| == 48 then 32 else 64;
    BytesRoundTrip(d[at..at + 8]);
    BytesRoundTrip(d[at + 8..at + 16]);
    assert d[..at] + d[at..at + 8] + d[at + 8..at + 16] == d;
    assert at == 64 ==> d[..at] == d[..32] + d[32..64];
  }

  // ----- splitting a list of transactions ------------------------------------

  function Withdraws(txs: seq<Transaction>): seq<WithdrawTx> {
    if txs == [] then []
    else
      var n := |txs| - 1;
      var x := Parse(txs[n]);
      Withdraws(txs[..n]) + if x.Some? then [x.value] else []
  }

  function Others(txs: seq<Transaction>): seq<Transaction> {
    if txs == [] then []
    else
      var n := |txs| - 1;
      Others(txs[..n]) + if Parse(txs[n]).None? then [txs[n]] else []
  }

  lemma {:induction false} WithdrawsParse(txs: seq<Transaction>, x: WithdrawTx)
    requires x in Withdraws(txs)
    ensures x.tx in txs && Parse(x.tx) == Some(x)
  {
    var n := |txs| - 1;
    if Parse(txs[n]) == Some(x) {
      ParsedTx(txs[n]);
    } else {
      WithdrawsParse(txs[..n], x);
    }
  }

  lemma ParsedTx(tx: Transaction)
    requires Parse(tx).Some?
    ensures Parse(tx).value.tx == tx
  {
  }

  lemma {:induction false} OthersSplit(a: seq<Transaction>, b: seq<Transaction>)
    ensures Others(a + b) == Others(a) + Others(b)
    ensures |b| == 1 ==> Others(b) == if Parse(b[0]).None? then b else []
  {
    hide Parse;
    if b == [] {
      assert a + b == a;
    } else {
      var n := |b| - 1;
      OthersSplit(a, b[..n]);
      assert (a + b)[..|a + b| - 1] == a + b[..n];
    }
  }

  method PartitionWithdraws(txs: seq<Transaction>) returns (withdraws: seq<WithdrawTx>, regular: seq<Transaction>)
    ensures withdraws == Withdraws(txs) && regular == Others(txs)
    ensures |withdraws| + |regular| == |txs|
  {
    hide Parse;
    withdraws, regular := [], [];
    for i := 0 to |txs|
      invariant withdraws == Withdraws(txs[..i]) && regular == Others(txs[..i])
      invariant |withdraws| + |regular| == i
    {
      assert txs[..i + 1][..i] == txs[..i];
      match Parse(txs[i])
      case Some(x) => withdraws := withdraws + [x];
      case None => regular := regular + [txs[i]];
    }
    assert txs[..|txs|] == txs;
  }

  lemma {:induction false} WithdrawsSplit(a: seq<Transaction>, b: seq<Transaction>)
    ensures Withdraws(a + b) == Withdraws(a) + Withdraws(b)
  {
    hide Parse;
    if b == [] {
      assert a + b == a;
    } else {
      var n := |b| - 1;
      WithdrawsSplit(a, b[..n]);
      assert (a + b)[..|a + b| - 1] == a + b[..n];
    }
  }

  function TxsOf(xs: seq<WithdrawTx>): (txs: seq<Transaction>)
    ensures |txs| == |xs|
  {
    seq(|xs|, i requires 0 <= i < |xs| => xs[i].tx)
  }

  /** Splitting out the transactions of parsed withdrawals gives them back. */
  lemma {:induction false} WithdrawsOfTxs(xs: seq<WithdrawTx>)
    requires forall x | x in xs :: Parse(x.tx) == Some(x)
    ensures Withdraws(TxsOf(xs)) == xs
  {
    hide Parse;
    if xs != [] {
      var n := |xs| - 1;
      WithdrawsOfTxs(xs[..n]);
      assert TxsOf(xs)[..n] == TxsOf(xs[..n]);
      assert xs[n] in xs;
    }
  }
}
