/** Public funds around the pool: every saturating step is exact, totals are
    conserved, and no nullifier is recorded twice. */
module PoolConservation {
  import opened Common
  import opened Field
  import opened PoolState
  import opened Pool

  // ----- totals --------------------------------------------------------------

  ghost function Total<K>(m: map<K, U64>, keys: seq<K>): nat {
    if keys == [] then 0 else Get(m, keys[0]) + Total(m, keys[1..])
  }

  lemma {:induction false} TotalElsewhere<K>(m: map<K, U64>, keys: seq<K>, k: K, v: U64)
    requires k !in keys
    ensures Total(m[k := v], keys) == Total(m, keys)
  {
    if keys != [] {
      assert keys[0] in keys && forall x | x in keys[1..] :: x in keys;
      TotalElsewhere(m, keys[1..], k, v);
    }
  }

  lemma {:induction false} TotalUpdate<K>(m: map<K, U64>, keys: seq<K>, k: K, v: U64)
    requires Distinct(keys) && k in keys
    ensures Total(m[k := v], keys) == Total(m, keys) - Get(m, k) + v
    ensures Get(m, k) <= Total(m, keys)
  {
    if keys[0] == k {
      TotalElsewhere(m, keys[1..], k, v);
    } else {
      TotalUpdate(m, keys[1..], k, v);
    }
  }

  lemma {:induction false} TwoWithinTotal<K>(m: map<K, U64>, keys: seq<K>, a: K, b: K)
    requires Distinct(keys) && a in keys && b in keys && a != b
    ensures Get(m, a) + Get(m, b) <= Total(m, keys)
  {
    if keys[0] == a {
      TotalUpdate(m, keys[1..], b, 0);
    } else if keys[0] == b {
      TotalUpdate(m, keys[1..], a, 0);
    } else {
      TwoWithinTotal(m, keys[1..], a, b);
    }
  }

  // ----- one move ------------------------------------------------------------

  /** Net change of `k` when `amount` goes `from` one account `to` another. */
  function Flow<K(==)>(from: K, to: K, amount: nat, k: K): int {
    (if k == to then amount else 0) - (if k == from then amount else 0)
  }

  /** The same for lamports, where a move onto its own source reads the balance
      before it is lowered, and so makes the amount out of nothing. */
  function LamportFlow(from: Pubkey, to: Pubkey, amount: nat, k: Pubkey): int {
    if k == to then amount else if k == from then -(amount as int) else 0
  }

  function Made(from: Pubkey, to: Pubkey, amount: nat): nat {
    if from == to then amount else 0
  }

  /** A funded move is exact everywhere. */
  lemma MoveExact(b: Lamports, keys: seq<Pubkey>, from: Pubkey, to: Pubkey, amount: U64)
    requires Distinct(keys) && from in keys && to in keys
    requires amount <= Get(b, from) && Total(b, keys) + Made(from, to, amount) <= U64_MAX
    ensures forall k :: Get(MoveLamports(b, from, to, amount), k) == Get(b, k) + LamportFlow(from, to, amount, k)
    ensures Total(MoveLamports(b, from, to, amount), keys) == Total(b, keys) + Made(from, to, amount)
  {
    if from != to {
      TwoWithinTotal(b, keys, from, to);
    }
    TotalUpdate(b, keys, from, SatSub(Get(b, from), amount));
    TotalUpdate(b[from := SatSub(Get(b, from), amount)], keys, to, SatAdd(Get(b, to), amount));
  }

  /** A move conserves exactly when its ends differ, or nothing can change. */
  lemma MoveConservesIff(b: Lamports, keys: seq<Pubkey>, from: Pubkey, to: Pubkey, amount: U64)
    requires Distinct(keys) && from in keys && to in keys
    requires amount <= Get(b, from) && Total(b, keys) <= U64_MAX
    ensures Total(MoveLamports(b, from, to, amount), keys) == Total(b, keys)
            <==> from != to || amount == 0 || Get(b, from) == U64_MAX
  {
    if from != to {
      MoveExact(b, keys, from, to, amount);
    } else {
      var b1 := b[from := SatSub(Get(b, from), amount)];
      TotalUpdate(b, keys, from, SatSub(Get(b, from), amount));
      TotalUpdate(b1, keys, to, SatAdd(Get(b, to), amount));
    }
  }

  /** A funded token move conserves, also onto its own source. */
  lemma MoveWrappedExact(t: Tokens, keys: seq<(Pubkey, Pubkey)>, mint: Pubkey, from: Pubkey, to: Pubkey, amount: U64)
    requires Distinct(keys) && (mint, from) in keys && (mint, to) in keys
    requires amount <= Get(t, (mint, from)) && Total(t, keys) <= U64_MAX
    ensures forall k ::
              Get(MoveWrapped(t, mint, from, to, amount), k) == Get(t, k) + Flow((mint, from), (mint, to), amount, k)
    ensures Total(MoveWrapped(t, mint, from, to, amount), keys) == Total(t, keys)
  {
    var t1 := t[(mint, from) := SatSub(Get(t, (mint, from)), amount)];
    TotalUpdate(t, keys, (mint, from), SatSub(Get(t, (mint, from)), amount));
    TotalUpdate(t1, keys, (mint, to), SatAdd(Get(t1, (mint, to)), amount));
    if from != to {
      TwoWithinTotal(t, keys, (mint, from), (mint, to));
    }
  }

  // ----- one transaction -----------------------------------------------------

  /** Lamports an accepted instruction moves besides the flat fee, by account. */
  function NativeFlow(c: Config, tx: Tx, k: Pubkey): int {
    match tx.ix
    case Shield(Native, amount, _) => LamportFlow(tx.payer, c.vault, amount, k)
    case Transfer(_, _, _, _, _, _, fee) => LamportFlow(c.vault, c.collector, fee, k)
    case Unshield(_, _, _, _, Native, amount, recipient) => LamportFlow(c.vault, recipient, amount, k)
    case _ => 0
  }

  function TxFlow(c: Config, tx: Tx, k: Pubkey): int {
    LamportFlow(tx.payer, c.collector, c.flatFee, k) + NativeFlow(c, tx, k)
  }

  /** Lamports an accepted transaction makes out of nothing. */
  function Gain(c: Config, tx: Tx): nat {
    Made(tx.payer, c.collector, c.flatFee) +
    match tx.ix
    case Transfer(_, _, _, _, _, _, fee) => Made(c.vault, c.collector, fee)
    case Unshield(_, _, _, _, Native, amount, recipient) => Made(c.vault, recipient, amount)
    case _ => 0
  }

  /** The accounts of a transaction are among those summed over. Nobody can sign
      for the vault. */
  ghost predicate Listed(c: Config, keys: seq<Pubkey>, tx: Tx) {
    && tx.payer in keys && c.collector in keys && c.vault in keys && tx.payer != c.vault
    && (tx.ix.Unshield? && tx.ix.asset.Native? ==> tx.ix.recipient in keys)
  }

  /** Accepted: each balance moves by exactly the flat fee and the effect, whoever
      pays and whoever collects, and the total by exactly the gain. Rejected: no
      balance moves. */
  lemma TxExact(c: Config, w: World, tx: Tx, keys: seq<Pubkey>)
    requires Distinct(keys) && Listed(c, keys, tx)
    requires Total(w.lamports, keys) + (if ApplyTx(c, w, tx).status.Ok? then Gain(c, tx) else 0) < U64_MAX
    ensures ApplyTx(c, w, tx).status.Ok? ==>
              && Total(ApplyTx(c, w, tx).world.lamports, keys) == Total(w.lamports, keys) + Gain(c, tx)
              && forall k :: Get(ApplyTx(c, w, tx).world.lamports, k) == Get(w.lamports, k) + TxFlow(c, tx, k)
    ensures !ApplyTx(c, w, tx).status.Ok? ==>
              ApplyTx(c, w, tx).world.lamports == w.lamports && ApplyTx(c, w, tx).world.tokens == w.tokens
  {
    hide Process, MoveLamports, MoveWrapped, Total, Distinct;
    if ApplyTx(c, w, tx).status.Ok? {
      PayerWithinTotal(w.lamports, keys, tx.payer);
      var b1 := MoveLamports(w.lamports, tx.payer, c.collector, c.flatFee);
      AcceptedEffects(c, w, tx);
      MoveExact(w.lamports, keys, tx.payer, c.collector, c.flatFee);
      match tx.ix {
        case Shield(Native, amount, _) => MoveExact(b1, keys, tx.payer, c.vault, amount);
        case Transfer(_, _, _, _, _, _, fee) => MoveExact(b1, keys, c.vault, c.collector, fee);
        case Unshield(_, _, _, _, Native, amount, recipient) => MoveExact(b1, keys, c.vault, recipient, amount);
        case _ =>
      }
    } else {
      RejectionMovesNothing(c, w, tx);
    }
  }

  lemma PayerWithinTotal(b: Lamports, keys: seq<Pubkey>, k: Pubkey)
    requires Distinct(keys) && k in keys
    ensures Get(b, k) <= Total(b, keys)
  {
    TotalUpdate(b, keys, k, 0);
  }

  /** The balances after an accepted transaction, spelled out. */
  lemma AcceptedEffects(c: Config, w: World, tx: Tx)
    requires ApplyTx(c, w, tx).status.Ok?
    ensures FundsAvailable(c, w, tx.payer, tx.ix)
    ensures var b1 := MoveLamports(w.lamports, tx.payer, c.collector, c.flatFee);
            ApplyTx(c, w, tx).world.lamports ==
            match tx.ix
            case Shield(Native, amount, _) => MoveLamports(b1, tx.payer, c.vault, amount)
            case Transfer(_, _, _, _, _, _, fee) => if fee > 0 then MoveLamports(b1, c.vault, c.collector, fee) else b1
            case Unshield(_, _, _, _, Native, amount, recipient) => MoveLamports(b1, c.vault, recipient, amount)
            case _ => b1
    ensures ApplyTx(c, w, tx).world.tokens ==
            match tx.ix
            case Shield(Spl(mint), amount, _) => MoveWrapped(w.tokens, mint, tx.payer, c.vault, amount)
            case Unshield(_, _, _, _, Spl(mint), amount, recipient) =>
              MoveWrapped(w.tokens, mint, c.vault, recipient, amount)
            case _ => w.tokens
  {
    hide MoveLamports, MoveWrapped, FundsAvailable, TransferRefusal, UnshieldRefusal;
    var r := Process(c, w.leaves, w.spent, tx.ix);
    if r.verdict.effects != [] {
      var b1 := MoveLamports(w.lamports, tx.payer, c.collector, c.flatFee);
      assert r.verdict.effects == [r.verdict.effects[0]];
      OneEffect(c, World(r.leaves, r.spent, b1, w.tokens), tx.payer, r.verdict.effects[0]);
    }
  }

  // ----- blocks and runs -----------------------------------------------------

  /** What the accepted transactions of a block move, and what they make. */
  ghost function BlockFlow(c: Config, w: World, txs: seq<Tx>, k: Pubkey): int {
    if txs == [] then 0
    else
      var n := |txs| - 1;
      BlockFlow(c, w, txs[..n], k) +
      if ApplyTx(c, ApplyTxs(c, w, txs[..n]), txs[n]).status.Ok? then TxFlow(c, txs[n], k) else 0
  }

  ghost function BlockGain(c: Config, w: World, txs: seq<Tx>): nat {
    if txs == [] then 0
    else
      var n := |txs| - 1;
      BlockGain(c, w, txs[..n]) +
      if ApplyTx(c, ApplyTxs(c, w, txs[..n]), txs[n]).status.Ok? then Gain(c, txs[n]) else 0
  }

  /** Over a committed block every balance moves by exactly what the accepted
      transactions move, and the total by exactly what they make. */
  lemma {:induction false} BlockExact(c: Config, w: World, txs: seq<Tx>, keys: seq<Pubkey>)
    requires Distinct(keys) && (forall i | 0 <= i < |txs| :: Listed(c, keys, txs[i]))
    requires Total(w.lamports, keys) + BlockGain(c, w, txs) < U64_MAX
    ensures forall k :: Get(ApplyBlock(c, w, txs).lamports, k) == Get(w.lamports, k) + BlockFlow(c, w, txs, k)
    ensures Total(ApplyBlock(c, w, txs).lamports, keys) == Total(w.lamports, keys) + BlockGain(c, w, txs)
    decreases txs
  {
    hide Dirty, ApplyTx, Total, Gain, TxFlow;
    if txs != [] {
      var n := |txs| - 1;
      BlockExact(c, w, txs[..n], keys);
      TxExact(c, ApplyTxs(c, w, txs[..n]), txs[n], keys);
    }
  }

  /** The payer is not the collector, nor the vault an unshield's recipient. */
  ghost predicate RolesDistinct(c: Config, tx: Tx) {
    && tx.payer != c.collector && tx.payer != c.vault && c.collector != c.vault
    && (tx.ix.Unshield? && tx.ix.asset.Native? ==> tx.ix.recipient != c.vault)
  }

  /** Shields minus unshields minus transfer fees, over the accepted ones. */
  ghost function VaultFlow(c: Config, w: World, txs: seq<Tx>): int {
    if txs == [] then 0
    else
      var n := |txs| - 1;
      var before := ApplyTxs(c, w, txs[..n]);
      VaultFlow(c, w, txs[..n]) + if ApplyTx(c, before, txs[n]).status.Ok? then VaultShare(txs[n].ix) else 0
  }

  function VaultShare(ix: Instruction): int {
    match ix
    case Shield(Native, amount, _) => amount as int
    case Transfer(_, _, _, _, _, _, fee) => -(fee as int)
    case Unshield(_, _, _, _, Native, amount, _) => -(amount as int)
    case _ => 0
  }

  lemma {:induction false} DistinctRolesFlow(c: Config, w: World, txs: seq<Tx>)
    requires forall i | 0 <= i < |txs| :: RolesDistinct(c, txs[i])
    ensures BlockGain(c, w, txs) == 0 && BlockFlow(c, w, txs, c.vault) == VaultFlow(c, w, txs)
  {
    hide ApplyTx, ApplyTxs;
    if txs != [] {
      DistinctRolesFlow(c, w, txs[..|txs| - 1]);
    }
  }

  /** With distinct roles lamports are conserved, and the vault moves by exactly the
      accepted shields, unshields and fees. */
  lemma BlockConserves(c: Config, w: World, txs: seq<Tx>, keys: seq<Pubkey>)
    requires Distinct(keys) && (forall i | 0 <= i < |txs| :: Listed(c, keys, txs[i]) && RolesDistinct(c, txs[i]))
    requires Total(w.lamports, keys) < U64_MAX
    ensures Total(ApplyBlock(c, w, txs).lamports, keys) == Total(w.lamports, keys)
    ensures VaultBalance(c, ApplyBlock(c, w, txs), Native) == VaultBalance(c, w, Native) + VaultFlow(c, w, txs)
  {
    hide ApplyBlock, Total, Listed, RolesDistinct;
    DistinctRolesFlow(c, w, txs);
    BlockExact(c, w, txs, keys);
  }

  /** Tokens of each mint are conserved too, whoever receives them. */
  lemma TokensConserved(c: Config, w: World, tx: Tx, keys: seq<(Pubkey, Pubkey)>)
    requires Distinct(keys) && Total(w.tokens, keys) <= U64_MAX
    requires tx.ix.Shield? && tx.ix.asset.Spl? ==>
               (tx.ix.asset.mint, tx.payer) in keys && (tx.ix.asset.mint, c.vault) in keys
    requires tx.ix.Unshield? && tx.ix.asset.Spl? ==>
               (tx.ix.asset.mint, c.vault) in keys && (tx.ix.asset.mint, tx.ix.recipient) in keys
    ensures Total(ApplyTx(c, w, tx).world.tokens, keys) == Total(w.tokens, keys)
  {
    hide Process, MoveLamports, MoveWrapped, Total, Distinct;
    if ApplyTx(c, w, tx).status.Ok? {
      AcceptedEffects(c, w, tx);
      match tx.ix {
        case Shield(Spl(mint), amount, _) => MoveWrappedExact(w.tokens, keys, mint, tx.payer, c.vault, amount);
        case Unshield(_, _, _, _, Spl(mint), amount, recipient) =>
          MoveWrappedExact(w.tokens, keys, mint, c.vault, recipient, amount);
        case _ =>
      }
    }
  }

  /** Wrapped tokens an accepted instruction moves, by mint and owner. */
  function TokenFlow(c: Config, tx: Tx, k: (Pubkey, Pubkey)): int {
    match tx.ix
    case Shield(Spl(mint), amount, _) => Flow((mint, tx.payer), (mint, c.vault), amount, k)
    case Unshield(_, _, _, _, Spl(mint), amount, recipient) => Flow((mint, c.vault), (mint, recipient), amount, k)
    case _ => 0
  }

  /** Accepted: each token balance moves by exactly the effect. */
  lemma TokensExact(c: Config, w: World, tx: Tx, keys: seq<(Pubkey, Pubkey)>)
    requires Distinct(keys) && Total(w.tokens, keys) <= U64_MAX && ApplyTx(c, w, tx).status.Ok?
    requires tx.ix.Shield? && tx.ix.asset.Spl? ==>
               (tx.ix.asset.mint, tx.payer) in keys && (tx.ix.asset.mint, c.vault) in keys
    requires tx.ix.Unshield? && tx.ix.asset.Spl? ==>
               (tx.ix.asset.mint, c.vault) in keys && (tx.ix.asset.mint, tx.ix.recipient) in keys
    ensures forall k :: Get(ApplyTx(c, w, tx).world.tokens, k) == Get(w.tokens, k) + TokenFlow(c, tx, k)
  {
    hide Process, MoveLamports, MoveWrapped, Total, Distinct, ApplyTx;
    AcceptedEffects(c, w, tx);
    match tx.ix {
      case Shield(Spl(mint), amount, _) => MoveWrappedExact(w.tokens, keys, mint, tx.payer, c.vault, amount);
      case Unshield(_, _, _, _, Spl(mint), amount, recipient) =>
        MoveWrappedExact(w.tokens, keys, mint, c.vault, recipient, amount);
      case _ =>
    }
  }

  // ----- nullifiers ----------------------------------------------------------

  lemma ProcessRecordsFresh(c: Config, leaves: seq<Fr>, spent: seq<FieldBytes>, ix: Instruction)
    requires Distinct(spent)
    ensures Distinct(Process(c, leaves, spent, ix).spent) && spent <= Process(c, leaves, spent, ix).spent
  {
    hide KnownRoot, TransferInputsOf, UnshieldInputsOf;
  }

  lemma TxRecordsFresh(c: Config, w: World, tx: Tx)
    requires Distinct(w.spent)
    ensures Distinct(ApplyTx(c, w, tx).world.spent) && w.spent <= ApplyTx(c, w, tx).world.spent
  {
    hide Process, Distinct, MoveLamports;
    ProcessRecordsFresh(c, w.leaves, w.spent, tx.ix);
    var r := Process(c, w.leaves, w.spent, tx.ix);
    if r.verdict.Accepted? {
      var w1 := w.(leaves := r.leaves, spent := r.spent);
      EffectsKeepPool(c, w1.(lamports := MoveLamports(w1.lamports, tx.payer, c.collector, c.flatFee)), tx.payer,
                      r.verdict.effects);
    }
  }

  lemma {:induction false} TxsRecordFresh(c: Config, w: World, txs: seq<Tx>)
    requires Distinct(w.spent)
    ensures Distinct(ApplyTxs(c, w, txs).spent) && w.spent <= ApplyTxs(c, w, txs).spent
  {
    hide Distinct, ApplyTx;
    if txs != [] {
      TxsRecordFresh(c, w, txs[..|txs| - 1]);
      TxRecordsFresh(c, ApplyTxs(c, w, txs[..|txs| - 1]), txs[|txs| - 1]);
    }
  }

  /** Over every run the nullifier log only grows and never repeats, even when
      an instruction is rejected after recording its nullifiers. */
  lemma {:induction false} NullifiersNeverRepeat(c: Config, w: World, steps: seq<Step>)
    requires Distinct(w.spent)
    ensures Distinct(Run(c, w, steps).spent) && w.spent <= Run(c, w, steps).spent
  {
    hide Distinct, ApplyTxs;
    if steps != [] {
      var n := |steps| - 1;
      NullifiersNeverRepeat(c, w, steps[..n]);
      if steps[n].Block? {
        TxsRecordFresh(c, Run(c, w, steps[..n]), steps[n].txs);
      }
    }
  }
}
