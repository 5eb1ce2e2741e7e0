/** The pool as the node runs it: checks and mutations in order, over a loaded
    tree state, a nullifier view of the store, and balance overlays. Each method
    does exactly what the value-level functions of `Pool` say. */
module PoolService {
  import opened Common
  import opened Field
  import opened PoolState
  import opened Pool

  /** Committed nullifiers plus those recorded so far in the block. */
  class BlockNullifiers {
    const stored: set<FieldBytes>
    var within: set<FieldBytes>
    var newly: seq<FieldBytes>
    /** The committed ones, in the order they were recorded. */
    ghost const log: seq<FieldBytes>

    ghost predicate Valid()
      reads this
    {
      && (forall n :: n in stored <==> n in log)
      && (forall n :: n in within <==> n in newly)
    }

    ghost function All(): seq<FieldBytes>
      reads this
    {
      log + newly
    }

    constructor (stored: set<FieldBytes>, ghost log: seq<FieldBytes>)
      requires forall n :: n in stored <==> n in log
      ensures Valid() && All() == log && newly == [] && this.log == log
    {
      this.stored, this.log, within, newly := stored, log, {}, [];
    }

    predicate Contains(n: FieldBytes)
      requires Valid()
      reads this
      ensures Contains(n) <==> n in All()
    {
      n in within || n in stored
    }

    method Insert(n: FieldBytes)
      requires Valid()
      modifies this
      ensures Valid() && All() == old(All()) + [n] && newly == old(newly) + [n]
    {
      within := within + {n};
      newly := newly + [n];
    }
  }

  // ----- the processor -------------------------------------------------------

  method RunShield(c: Config, state: PoolState, ix: Instruction, ghost spent: seq<FieldBytes>) returns (v: Verdict)
    requires ix.Shield? && state.Valid() && state.h == c.hash.h2
    modifies state, state.filled, state.roots
    ensures state.Valid()
    ensures var r := ProcessShield(c, old(state.leaves), spent, ix); state.leaves == r.leaves && v == r.verdict
  {
    if ix.amount == 0 {
      return Rejected(ZeroAmount);
    }
    var secret := FrFromBytes(ix.secret);
    if secret.None? {
      return Rejected(BadField);
    }
    var commitment := c.hash.Commitment(AssetId(ix.asset), ix.amount, secret.value);
    var inserted := state.Insert(commitment);
    if inserted.Full? {
      return Rejected(TreeFull);
    }
    v := Accepted([DepositToVault(ix.asset, ix.amount)]);
  }

  method RunTransfer(c: Config, state: PoolState, nullifiers: BlockNullifiers, ix: Instruction) returns (v: Verdict)
    requires ix.Transfer? && state.Valid() && state.h == c.hash.h2 && nullifiers.Valid()
    modifies state, state.filled, state.roots, nullifiers
    ensures state.Valid() && nullifiers.Valid()
    ensures var r := ProcessTransfer(c, old(state.leaves), old(nullifiers.All()), ix);
            state.leaves == r.leaves && nullifiers.All() == r.spent && v == r.verdict
  {
    hide KnownRoot;
    if !state.IsKnownRoot(ix.root) {
      return Rejected(UnknownRoot);
    }
    if ix.nf0 == ix.nf1 {
      return Rejected(DuplicateNullifier);
    }
    if nullifiers.Contains(ix.nf0) || nullifiers.Contains(ix.nf1) {
      return Rejected(DoubleSpend);
    }
    if !(Canonical(ix.root) && Canonical(ix.nf0) && Canonical(ix.nf1) && Canonical(ix.cm0) && Canonical(ix.cm1)) {
      return Rejected(BadField);
    }
    if !c.verifier.transfer(ix.proof, TransferInputsOf(ix)) {
      return Rejected(InvalidProof);
    }
    nullifiers.Insert(ix.nf0);
    nullifiers.Insert(ix.nf1);
    var first := state.Insert(ix.cm0);
    if first.Full? {
      return Rejected(TreeFull);
    }
    var second := state.Insert(ix.cm1);
    if second.Full? {
      return Rejected(TreeFull);
    }
    v := Accepted(if ix.fee > 0 then [PayFee(ix.fee)] else []);
  }

  method RunUnshield(c: Config, state: PoolState, nullifiers: BlockNullifiers, ix: Instruction) returns (v: Verdict)
    requires ix.Unshield? && state.Valid() && state.h == c.hash.h2 && nullifiers.Valid()
    modifies state, state.filled, state.roots, nullifiers
    ensures state.Valid() && nullifiers.Valid()
    ensures var r := ProcessUnshield(c, old(state.leaves), old(nullifiers.All()), ix);
            state.leaves == r.leaves && nullifiers.All() == r.spent && v == r.verdict
  {
    hide KnownRoot;
    if ix.amount == 0 {
      return Rejected(ZeroAmount);
    }
    if !state.IsKnownRoot(ix.root) {
      return Rejected(UnknownRoot);
    }
    if nullifiers.Contains(ix.nf) {
      return Rejected(DoubleSpend);
    }
    if !(Canonical(ix.root) && Canonical(ix.nf) && Canonical(ix.change)) {
      return Rejected(BadField);
    }
    if !c.verifier.unshield(ix.proof, UnshieldInputsOf(ix)) {
      return Rejected(InvalidProof);
    }
    nullifiers.Insert(ix.nf);
    var inserted := state.Insert(ix.change);
    if inserted.Full? {
      return Rejected(TreeFull);
    }
    v := Accepted([WithdrawFromVault(ix.asset, ix.amount, ix.recipient)]);
  }

  method RunProcess(c: Config, state: PoolState, nullifiers: BlockNullifiers, ix: Instruction) returns (v: Verdict)
    requires state.Valid() && state.h == c.hash.h2 && nullifiers.Valid()
    modifies state, state.filled, state.roots, nullifiers
    ensures state.Valid() && nullifiers.Valid()
    ensures var r := Process(c, old(state.leaves), old(nullifiers.All()), ix);
            state.leaves == r.leaves && nullifiers.All() == r.spent && v == r.verdict
  {
    hide ProcessTransfer, ProcessUnshield;
    match ix {
      case Shield(_, _, _) => v := RunShield(c, state, ix, nullifiers.All());
      case Transfer(_, _, _, _, _, _, _) => v := RunTransfer(c, state, nullifiers, ix);
      case Unshield(_, _, _, _, _, _, _) => v := RunUnshield(c, state, nullifiers, ix);
    }
  }

  // ----- public funds --------------------------------------------------------

  /** Committed balances and the block's changes on top of them. */
  datatype Funds = Funds(lamports: Lamports, overlay: Lamports, tokens: Tokens, tokenOverlay: Tokens)
  {
    function Balance(k: Pubkey): U64 {
      if k in overlay then overlay[k] else Get(lamports, k)
    }

    function TokenBalance(mint: Pubkey, owner: Pubkey): U64 {
      if (mint, owner) in tokenOverlay then tokenOverlay[(mint, owner)] else Get(tokens, (mint, owner))
    }

    /** Balances as seen through the overlays. */
    function Lamports(): Lamports {
      lamports + overlay
    }

    function Tokens(): Tokens {
      tokens + tokenOverlay
    }
  }

  lemma OverlayWrite<K, V>(base: map<K, V>, overlay: map<K, V>, k: K, v: V)
    ensures base + overlay[k := v] == (base + overlay)[k := v]
  {
  }

  method MoveNative(f: Funds, from: Pubkey, to: Pubkey, amount: U64) returns (g: Funds)
    ensures g.lamports == f.lamports && g.tokens == f.tokens && g.tokenOverlay == f.tokenOverlay
    ensures g.Lamports() == MoveLamports(f.Lamports(), from, to, amount)
  {
    var fromBalance := f.Balance(from);
    var toBalance := f.Balance(to);
    OverlayWrite(f.lamports, f.overlay, from, SatSub(fromBalance, amount));
    g := f.(overlay := f.overlay[from := SatSub(fromBalance, amount)]);
    OverlayWrite(g.lamports, g.overlay, to, SatAdd(toBalance, amount));
    g := g.(overlay := g.overlay[to := SatAdd(toBalance, amount)]);
  }

  method MoveToken(f: Funds, mint: Pubkey, from: Pubkey, to: Pubkey, amount: U64) returns (g: Funds)
    ensures g.lamports == f.lamports && g.tokens == f.tokens && g.overlay == f.overlay
    ensures g.Tokens() == MoveWrapped(f.Tokens(), mint, from, to, amount)
  {
    OverlayWrite(f.tokens, f.tokenOverlay, (mint, from), SatSub(f.TokenBalance(mint, from), amount));
    g := f.(tokenOverlay := f.tokenOverlay[(mint, from) := SatSub(f.TokenBalance(mint, from), amount)]);
    OverlayWrite(g.tokens, g.tokenOverlay, (mint, to), SatAdd(g.TokenBalance(mint, to), amount));
    g := g.(tokenOverlay := g.tokenOverlay[(mint, to) := SatAdd(g.TokenBalance(mint, to), amount)]);
  }

  /** The world a loaded tree state, a nullifier view and overlays stand for. */
  ghost function WorldOf(state: PoolState, nullifiers: BlockNullifiers, f: Funds): World
    reads state, nullifiers
  {
    World(state.leaves, nullifiers.All(), f.Lamports(), f.Tokens())
  }

  /** Funds are checked before the processor runs, so effects cannot fail. */
  predicate CanPay(c: Config, f: Funds, payer: Pubkey, ix: Instruction) {
    match ix
    case Shield(asset, amount, _) =>
      var need := if asset.Native? then SatAdd(amount, c.flatFee) else c.flatFee;
      f.Balance(payer) >= need && (asset.Spl? ==> f.TokenBalance(asset.mint, payer) >= amount)
    case Transfer(_, _, _, _, _, _, fee) =>
      f.Balance(payer) >= c.flatFee && f.Balance(c.vault) >= fee
    case Unshield(_, _, _, _, asset, amount, _) =>
      f.Balance(payer) >= c.flatFee &&
      match asset
      case Native => f.Balance(c.vault) >= amount
      case Spl(mint) => f.TokenBalance(mint, c.vault) >= amount
  }

  lemma CanPayIsFundsAvailable(c: Config, f: Funds, payer: Pubkey, ix: Instruction, leaves: seq<Fr>,
                               spent: seq<FieldBytes>)
    ensures CanPay(c, f, payer, ix) <==> FundsAvailable(c, World(leaves, spent, f.Lamports(), f.Tokens()), payer, ix)
  {
  }

  method RunEffect(c: Config, f: Funds, payer: Pubkey, e: Effect, ghost w: World) returns (g: Funds)
    requires w.lamports == f.Lamports() && w.tokens == f.Tokens()
    ensures g.lamports == f.lamports && g.tokens == f.tokens
    ensures g.Lamports() == ApplyEffect(c, w, payer, e).lamports && g.Tokens() == ApplyEffect(c, w, payer, e).tokens
  {
    hide MoveLamports, MoveWrapped;
    match e {
      case DepositToVault(Native, amount) => g := MoveNative(f, payer, c.vault, amount);
      case DepositToVault(Spl(mint), amount) => g := MoveToken(f, mint, payer, c.vault, amount);
      case WithdrawFromVault(Native, amount, recipient) => g := MoveNative(f, c.vault, recipient, amount);
      case WithdrawFromVault(Spl(mint), amount, recipient) => g := MoveToken(f, mint, c.vault, recipient, amount);
      case PayFee(amount) => g := MoveNative(f, c.vault, c.collector, amount);
    }
  }

  method RunTx(c: Config, state: PoolState, nullifiers: BlockNullifiers, f: Funds, tx: Tx)
    returns (g: Funds, status: Status)
    requires state.Valid() && state.h == c.hash.h2 && nullifiers.Valid()
    modifies state, state.filled, state.roots, nullifiers
    ensures state.Valid() && nullifiers.Valid()
    ensures g.lamports == f.lamports && g.tokens == f.tokens
    ensures Applied(WorldOf(state, nullifiers, g), status) == ApplyTx(c, old(WorldOf(state, nullifiers, f)), tx)
  {
    hide Process, MoveLamports, ApplyEffect, CanPay, FundsAvailable;
    ghost var w := WorldOf(state, nullifiers, f);
    CanPayIsFundsAvailable(c, f, tx.payer, tx.ix, w.leaves, w.spent);
    if !CanPay(c, f, tx.payer, tx.ix) {
      return f, InsufficientFunds;
    }
    var verdict := RunProcess(c, state, nullifiers, tx.ix);
    if verdict.Rejected? {
      return f, PoolRejected(verdict.error);
    }
    g := MoveNative(f, tx.payer, c.collector, c.flatFee);
    ghost var paid := World(state.leaves, nullifiers.All(), g.Lamports(), g.Tokens());
    for i := 0 to |verdict.effects|
      modifies {}
      invariant g.lamports == f.lamports && g.tokens == f.tokens
      invariant World(state.leaves, nullifiers.All(), g.Lamports(), g.Tokens()) ==
                ApplyEffects(c, paid, tx.payer, verdict.effects[..i])
    {
      ghost var here := ApplyEffects(c, paid, tx.payer, verdict.effects[..i]);
      g := RunEffect(c, g, tx.payer, verdict.effects[i], here);
      EffectKeepsPool(c, here, tx.payer, verdict.effects[i]);
      assert verdict.effects[..i + 1][..i] == verdict.effects[..i];
    }
    assert verdict.effects[..|verdict.effects|] == verdict.effects;
    status := Ok;
  }

  lemma EffectKeepsPool(c: Config, w: World, payer: Pubkey, e: Effect)
    ensures ApplyEffect(c, w, payer, e).leaves == w.leaves && ApplyEffect(c, w, payer, e).spent == w.spent
  {
  }

  /** A block of pool transactions, in order. `dirty` says whether the tree state
      is persisted; what is committed is exactly `ApplyBlock`. */
  method ProcessBlock(c: Config, state: PoolState, nullifiers: BlockNullifiers, base: Funds, txs: seq<Tx>)
    returns (f: Funds, statuses: seq<Status>, dirty: bool)
    requires state.Valid() && state.h == c.hash.h2 && nullifiers.Valid() && nullifiers.newly == []
    modifies state, state.filled, state.roots, nullifiers
    ensures state.Valid() && nullifiers.Valid()
    ensures var w := old(WorldOf(state, nullifiers, base));
            && World(if dirty then state.leaves else w.leaves, nullifiers.All(), f.Lamports(), f.Tokens()) ==
               ApplyBlock(c, w, txs)
            && |statuses| == |txs|
            && (dirty <==> Ok in statuses)
            && forall i | 0 <= i < |txs| :: statuses[i] == ApplyTx(c, ApplyTxs(c, w, txs[..i]), txs[i]).status
  {
    hide ApplyTx, ApplyTxs, Dirty;
    ghost var w := WorldOf(state, nullifiers, base);
    NothingYet(c, w, txs);
    f, statuses, dirty := base, [], false;
    for i := 0 to |txs|
      invariant state.Valid() && nullifiers.Valid()
      invariant WorldOf(state, nullifiers, f) == ApplyTxs(c, w, txs[..i])
      invariant dirty == Dirty(c, w, txs[..i])
      invariant dirty <==> Ok in statuses
      invariant |statuses| == i
      invariant forall j | 0 <= j < i :: statuses[j] == ApplyTx(c, ApplyTxs(c, w, txs[..j]), txs[j]).status
    {
      var status;
      OneMore(c, w, txs, i);
      f, status := RunTx(c, state, nullifiers, f, txs[i]);
      if status.Ok? {
        dirty := true;
      }
      statuses := statuses + [status];
    }
    assert txs[..|txs|] == txs;
  }

  lemma NothingYet(c: Config, w: World, txs: seq<Tx>)
    ensures ApplyTxs(c, w, txs[..0]) == w && !Dirty(c, w, txs[..0])
  {
  }

  lemma OneMore(c: Config, w: World, txs: seq<Tx>, i: nat)
    requires i < |txs|
    ensures var r := ApplyTx(c, ApplyTxs(c, w, txs[..i]), txs[i]);
            && ApplyTxs(c, w, txs[..i + 1]) == r.world
            && (Dirty(c, w, txs[..i + 1]) <==> Dirty(c, w, txs[..i]) || r.status.Ok?)
  {
    hide ApplyTx;
    assert txs[..i + 1][..i] == txs[..i];
  }
}
