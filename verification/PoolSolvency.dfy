/** Solvency of the shielded pool: over every run, the vault holds at least the
    value of the unspent notes, per asset, so no valid spend finds it short. */
module PoolSolvency {
  import opened Common
  import opened Field
  import opened CommitmentTree
  import opened PoolState
  import opened Circuits
  import opened Pool

  /** What a leaf commits to. */
  datatype Note = Note(asset: Fr, amount: Fr, secret: Fr)

  function Leaf(h: Poseidon, n: Note): Fr {
    h.Commitment(n.asset, n.amount, n.secret)
  }

  /** The notes behind the leaves. Unique while the hash does not collide. */
  ghost predicate Opens(h: Poseidon, q: Asked, notes: seq<Note>, leaves: seq<Fr>) {
    && |notes| == |leaves|
    && forall i | 0 <= i < |notes| ::
         (notes[i].asset, notes[i].amount, notes[i].secret) in q.h3 && Leaf(h, notes[i]) == leaves[i]
  }

  lemma OpeningUnique(h: Poseidon, q: Asked, m: seq<Note>, n: seq<Note>, leaves: seq<Fr>)
    requires NoCollisions(h, q) && Opens(h, q, m, leaves) && Opens(h, q, n, leaves)
    ensures m == n
  {
    forall i | 0 <= i < |m| ensures m[i] == n[i] {
      var a, b := (m[i].asset, m[i].amount, m[i].secret), (n[i].asset, n[i].amount, n[i].secret);
      assert a in q.h3 && b in q.h3 && h.h3(a.0, a.1, a.2) == h.h3(b.0, b.1, b.2);
    }
  }

  /** Key `s` with blinding `b` owns the note, and its nullifier is recorded. */
  ghost predicate SpentBy(h: Poseidon, q: Asked, note: Note, i: Fr, spent: seq<FieldBytes>, s: Fr, b: Fr) {
    && s in q.h1 && (h.OwnerKey(s), b) in q.h2 && (Leaf(h, note), i, s) in q.h3
    && note.secret == h.NoteSecret(h.OwnerKey(s), b)
    && h.Nullifier(Leaf(h, note), i, s) in spent
  }

  ghost predicate Spent(h: Poseidon, q: Asked, notes: seq<Note>, i: nat, spent: seq<FieldBytes>)
    requires i < |notes|
  {
    i < P && exists s, b :: SpentBy(h, q, notes[i], i, spent, s, b)
  }

  ghost function SpentSet(h: Poseidon, q: Asked, notes: seq<Note>, spent: seq<FieldBytes>): set<nat> {
    set i: nat | i < |notes| && Spent(h, q, notes, i, spent)
  }

  function Value(n: Note, asset: Fr): nat {
    if n.asset == asset then n.amount else 0
  }

  /** Total value of the notes of an asset whose index is not in `gone`. */
  ghost function Outstanding(notes: seq<Note>, gone: set<nat>, asset: Fr): nat {
    if notes == [] then 0
    else
      var n := |notes| - 1;
      Outstanding(notes[..n], gone, asset) + if n in gone then 0 else Value(notes[n], asset)
  }

  ghost function Unspent(h: Poseidon, q: Asked, notes: seq<Note>, spent: seq<FieldBytes>, asset: Fr): nat {
    Outstanding(notes, SpentSet(h, q, notes, spent), asset)
  }

  // ----- sums ----------------------------------------------------------------

  lemma {:induction false} OutstandingMono(notes: seq<Note>, g: set<nat>, g': set<nat>, asset: Fr)
    requires forall i: nat | i < |notes| && i in g :: i in g'
    ensures Outstanding(notes, g', asset) <= Outstanding(notes, g, asset)
  {
    if notes != [] {
      OutstandingMono(notes[..|notes| - 1], g, g', asset);
    }
  }

  lemma {:induction false} OutstandingDrop(notes: seq<Note>, g: set<nat>, g': set<nat>, i: nat, asset: Fr)
    requires forall k: nat | k < |notes| && k in g :: k in g'
    requires i < |notes| && i !in g && i in g'
    ensures Outstanding(notes, g', asset) + Value(notes[i], asset) <= Outstanding(notes, g, asset)
  {
    var n := |notes| - 1;
    if i == n {
      OutstandingMono(notes[..n], g, g', asset);
    } else {
      OutstandingDrop(notes[..n], g, g', i, asset);
    }
  }

  lemma OutstandingAppend(notes: seq<Note>, x: Note, g: set<nat>, g': set<nat>, asset: Fr)
    requires forall i: nat | i < |notes| && i in g :: i in g'
    ensures Outstanding(notes + [x], g', asset) <= Outstanding(notes, g, asset) + Value(x, asset)
  {
    assert (notes + [x])[..|notes|] == notes;
    OutstandingMono(notes, g, g', asset);
  }

  // ----- spent notes ---------------------------------------------------------

  /** Recording more nullifiers never un-spends a note. */
  lemma SpentGrows(h: Poseidon, q: Asked, notes: seq<Note>, more: seq<Note>, spent: seq<FieldBytes>,
                   spent': seq<FieldBytes>)
    requires forall n | n in spent :: n in spent'
    ensures forall i: nat | i < |notes| && i in SpentSet(h, q, notes, spent) ::
              i in SpentSet(h, q, notes + more, spent')
  {
    forall i: nat | i < |notes| && i in SpentSet(h, q, notes, spent)
      ensures i in SpentSet(h, q, notes + more, spent')
    {
      var s, b :| SpentBy(h, q, notes[i], i, spent, s, b);
      assert SpentBy(h, q, (notes + more)[i], i, spent', s, b);
    }
  }

  /** A spend proved against a recent root opens one note of the pool, with the
      amount and asset it claims. */
  lemma SpendOpensNote(h: Poseidon, q: Asked, notes: seq<Note>, leaves: seq<Fr>, k: nat, asset: Fr, i: Spend, nf: Fr)
    requires NoCollisions(h, q) && Opens(h, q, notes, leaves)
    requires k <= |leaves| && TreeAsked(h.h2, leaves[..k], q.h2)
    requires SpendAsked(h, asset, i, q) && SpendOk(h, asset, i, nf, Root(h.h2, leaves[..k]), true)
    ensures i.index < |notes| && notes[i.index] == Note(asset, i.amount, SpendSecret(h, i))
  {
    hide Root, TreeAsked, FoldAsked, MerkleInclusion;
    SpendIsMember(h, asset, i, nf, leaves[..k], q);
    var n := notes[i.index];
    var a, b := (n.asset, n.amount, n.secret), (asset, i.amount, SpendSecret(h, i));
    assert a in q.h3 && b in q.h3 && h.h3(a.0, a.1, a.2) == h.h3(b.0, b.1, b.2);
  }

  /** The owner key, hence the nullifier, of a note is unique: a fresh nullifier
      spends an unspent note. */
  lemma FreshNullifierUnspent(h: Poseidon, q: Asked, notes: seq<Note>, asset: Fr, i: Spend, nf: Fr, root: Fr,
                              spent: seq<FieldBytes>, on: bool)
    requires NoCollisions(h, q) && SpendAsked(h, asset, i, q) && SpendOk(h, asset, i, nf, root, on)
    requires i.index < |notes| && notes[i.index] == Note(asset, i.amount, SpendSecret(h, i))
    ensures Spent(h, q, notes, i.index, spent) <==> nf in spent
  {
    hide MerkleInclusion, FoldAsked;
    var note := notes[i.index];
    if nf in spent {
      assert SpentBy(h, q, note, i.index, spent, i.s, i.blinding);
    }
    if Spent(h, q, notes, i.index, spent) {
      var s, b :| SpentBy(h, q, note, i.index, spent, s, b);
      SameOwner(h, q, i.s, i.blinding, s, b);
    }
  }

  lemma SameOwner(h: Poseidon, q: Asked, s: Fr, b: Fr, s': Fr, b': Fr)
    requires NoCollisions(h, q)
    requires s in q.h1 && s' in q.h1 && (h.OwnerKey(s), b) in q.h2 && (h.OwnerKey(s'), b') in q.h2
    requires h.NoteSecret(h.OwnerKey(s), b) == h.NoteSecret(h.OwnerKey(s'), b')
    ensures s == s' && b == b'
  {
    var x, y := (h.OwnerKey(s), b), (h.OwnerKey(s'), b');
    assert x in q.h2 && y in q.h2 && h.h2(x.0, x.1) == h.h2(y.0, y.1);
    assert h.h1(s) == h.h1(s');
  }

  // ----- what one instruction does to the outstanding value ------------------

  /** If the verifier accepts this instruction's proof, then its statement has a
      witness, whose hash inputs are among those in play. */
  ghost predicate Witnessed(c: Config, q: Asked, ix: Instruction) {
    && (ix.Transfer? && TransferAccepted(c, ix) ==>
          exists w :: TransferCircuit(c.hash, TransferInputsOf(ix), w) && TransferAsked(c.hash, w, q))
    && (ix.Unshield? && UnshieldAccepted(c, ix) ==>
          exists w :: UnshieldCircuit(c.hash, UnshieldInputsOf(ix), w) &&
            UnshieldAsked(c.hash, UnshieldInputsOf(ix), w, q))
  }

  predicate TransferAccepted(c: Config, ix: Instruction)
    requires ix.Transfer?
  {
    && Canonical(ix.root) && Canonical(ix.nf0) && Canonical(ix.nf1) && Canonical(ix.cm0) && Canonical(ix.cm1)
    && c.verifier.transfer(ix.proof, TransferInputsOf(ix))
  }

  predicate UnshieldAccepted(c: Config, ix: Instruction)
    requires ix.Unshield?
  {
    && Canonical(ix.root) && Canonical(ix.nf) && Canonical(ix.change)
    && c.verifier.unshield(ix.proof, UnshieldInputsOf(ix))
  }

  /** Every tree the pool ever had was hashed by the node. */
  ghost predicate PrefixesAsked(h: Poseidon, q: Asked, leaves: seq<Fr>) {
    forall k | 0 <= k <= |leaves| :: TreeAsked(h.h2, leaves[..k], q.h2)
  }

  /** A real input opens an unspent note, which its nullifier then spends; a
      zero-amount input changes nothing that matters. */
  lemma SpendDrop(h: Poseidon, q: Asked, notes: seq<Note>, leaves: seq<Fr>, k: nat, asset: Fr, i: Spend, nf: Fr,
                  spent: seq<FieldBytes>, g: set<nat>, g': set<nat>, id: Fr)
    requires NoCollisions(h, q) && Opens(h, q, notes, leaves)
    requires k <= |leaves| && TreeAsked(h.h2, leaves[..k], q.h2)
    requires SpendAsked(h, asset, i, q) && SpendOk(h, asset, i, nf, Root(h.h2, leaves[..k]), i.amount != 0)
    requires nf !in spent
    requires forall j: nat | j < |notes| && j in g :: j in g'
    requires i.amount != 0 && i.index < |notes| ==>
               (i.index in g ==> i.index in SpentSet(h, q, notes, spent)) && i.index in g'
    ensures Outstanding(notes, g', id) + (if asset == id then i.amount else 0) <= Outstanding(notes, g, id)
  {
    hide Root, TreeAsked, FoldAsked, MerkleInclusion, Outstanding;
    if i.amount == 0 {
      OutstandingMono(notes, g, g', id);
    } else {
      SpendOpensNote(h, q, notes, leaves, k, asset, i, nf);
      FreshNullifierUnspent(h, q, notes, asset, i, nf, Root(h.h2, leaves[..k]), spent, true);
      OutstandingDrop(notes, g, g', i.index, id);
    }
  }

  /** Recording the nullifier of a real input spends the note it opens. */
  lemma RecordedSpends(h: Poseidon, q: Asked, notes: seq<Note>, leaves: seq<Fr>, k: nat, asset: Fr, i: Spend, nf: Fr,
                       spent: seq<FieldBytes>)
    requires NoCollisions(h, q) && Opens(h, q, notes, leaves)
    requires k <= |leaves| && TreeAsked(h.h2, leaves[..k], q.h2)
    requires SpendAsked(h, asset, i, q) && SpendOk(h, asset, i, nf, Root(h.h2, leaves[..k]), i.amount != 0)
    requires i.amount != 0 && nf in spent
    ensures i.index < |notes| && i.index in SpentSet(h, q, notes, spent)
  {
    hide Root, TreeAsked, FoldAsked, MerkleInclusion;
    SpendOpensNote(h, q, notes, leaves, k, asset, i, nf);
    FreshNullifierUnspent(h, q, notes, asset, i, nf, Root(h.h2, leaves[..k]), spent, true);
  }

  lemma TransferSpends(h: Poseidon, q: Asked, notes: seq<Note>, leaves: seq<Fr>, k: nat, x: TransferInputs,
                       w: TransferWitness,
                       spent: seq<FieldBytes>, id: Fr)
    requires NoCollisions(h, q) && Opens(h, q, notes, leaves)
    requires k <= |leaves| && TreeAsked(h.h2, leaves[..k], q.h2) && x.root == Root(h.h2, leaves[..k])
    requires TransferCircuit(h, x, w) && TransferAsked(h, w, q)
    requires x.nf0 !in spent && x.nf1 !in spent
    ensures Unspent(h, q, notes, spent + [x.nf0, x.nf1], id) +
            (if w.asset == id then w.in0.amount + w.in1.amount else 0)
            <= Unspent(h, q, notes, spent, id)
  {
    hide Root, TreeAsked, FoldAsked, MerkleInclusion, Outstanding, SpentSet, OutputOk, OutputAsked, Add;
    var s0, s1 := spent + [x.nf0], spent + [x.nf0, x.nf1];
    var g, g0, g1 := SpentSet(h, q, notes, spent), SpentSet(h, q, notes, s0), SpentSet(h, q, notes, s1);
    assert notes + [] == notes;
    SpentGrows(h, q, notes, [], spent, s0);
    SpentGrows(h, q, notes, [], s0, s1);
    if w.in0.amount != 0 {
      RecordedSpends(h, q, notes, leaves, k, w.asset, w.in0, x.nf0, s0);
    }
    if w.in1.amount != 0 {
      RecordedSpends(h, q, notes, leaves, k, w.asset, w.in1, x.nf1, s1);
    }
    SpendDrop(h, q, notes, leaves, k, w.asset, w.in0, x.nf0, spent, g, g0, id);
    SpendDrop(h, q, notes, leaves, k, w.asset, w.in1, x.nf1, s0, g0, g1, id);
  }

  /** Notes created by an accepted transfer: none, one or both of its outputs
      are in the tree, depending on where it filled up. */
  lemma TransferCreates(h: Poseidon, q: Asked, notes: seq<Note>, x: TransferInputs, w: TransferWitness,
                        spent: seq<FieldBytes>, spent': seq<FieldBytes>, created: seq<Note>, id: Fr)
    requires TransferCircuit(h, x, w) && x.fee < TWO_64
    requires created <= [OutputNote(h, w.asset, w.out0), OutputNote(h, w.asset, w.out1)]
    requires Unspent(h, q, notes, spent', id) + (if w.asset == id then w.in0.amount + w.in1.amount else 0) <=
             Unspent(h, q, notes, spent, id)
    ensures Unspent(h, q, notes + created, spent', id) + (if id == 0 then x.fee else 0) <=
            Unspent(h, q, notes, spent, id)
  {
    TransferConserves(h, x, w);
    CreatedValue(h, q, notes, created, spent', id);
    var o0, o1 := OutputNote(h, w.asset, w.out0), OutputNote(h, w.asset, w.out1);
    assert TotalValue(created, id) <= Value(o0, id) + Value(o1, id) by {
      if |created| == 1 {
        assert created == [o0] && TotalValue([o0], id) == Value(o0, id) + TotalValue([], id);
      } else if |created| == 2 {
        assert created == [o0, o1] && created[1..] == [o1];
        assert TotalValue([o1], id) == Value(o1, id) + TotalValue([], id);
      }
    }
  }

  function OutputNote(h: Poseidon, asset: Fr, o: Output): Note {
    Note(asset, o.amount, h.NoteSecret(o.pk, o.blinding))
  }

  function TotalValue(notes: seq<Note>, asset: Fr): nat {
    if notes == [] then 0 else Value(notes[0], asset) + TotalValue(notes[1..], asset)
  }

  lemma {:induction false} CreatedValue(h: Poseidon, q: Asked, notes: seq<Note>, created: seq<Note>,
                                        spent: seq<FieldBytes>, id: Fr)
    ensures Unspent(h, q, notes + created, spent, id) <= Unspent(h, q, notes, spent, id) + TotalValue(created, id)
    decreases created
  {
    if created == [] {
      assert notes + created == notes;
    } else {
      hide SpentSet, Outstanding;
      SpentGrows(h, q, notes, [created[0]], spent, spent);
      OutstandingAppend(notes, created[0], SpentSet(h, q, notes, spent), SpentSet(h, q, notes + [created[0]], spent),
                        id);
      CreatedValue(h, q, notes + [created[0]], created[1..], spent, id);
      assert notes + created == notes + [created[0]] + created[1..];
    }
  }

  /** Value an instruction adds to and takes from the outstanding notes. */
  function Inflow(ix: Instruction, verdict: Verdict, id: Fr): nat {
    if ix.Shield? && verdict.Accepted? && AssetId(ix.asset) == id then ix.amount else 0
  }

  function Outflow(ix: Instruction, verdict: Verdict, id: Fr): nat {
    if verdict.Rejected? then 0
    else match ix
      case Shield(_, _, _) => 0
      case Transfer(_, _, _, _, _, _, fee) => if id == 0 then fee else 0
      case Unshield(_, _, _, _, asset, amount, _) => if AssetId(asset) == id then amount else 0
  }

  /** A shielded note's commitment input is in play. */
  ghost predicate ShieldAsked(q: Asked, ix: Instruction) {
    ix.Shield? && Canonical(ix.secret) ==> (AssetId(ix.asset), ix.amount as Fr, ix.secret as Fr) in q.h3
  }

  /** `notes'` opens the leaves after the instruction, and no asset's
      outstanding value grows by more than was shielded minus what was paid out. */
  ghost predicate Bounded(c: Config, q: Asked, notes: seq<Note>, spent: seq<FieldBytes>, ix: Instruction,
                          r: Processed, notes': seq<Note>) {
    && Opens(c.hash, q, notes', r.leaves)
    && forall id: Fr :: Unspent(c.hash, q, notes', r.spent, id) + Outflow(ix, r.verdict, id)
                        <= Unspent(c.hash, q, notes, spent, id) + Inflow(ix, r.verdict, id)
  }

  lemma ShieldBounded(c: Config, q: Asked, notes: seq<Note>, leaves: seq<Fr>, spent: seq<FieldBytes>, ix: Instruction)
    returns (notes': seq<Note>)
    requires ix.Shield? && Opens(c.hash, q, notes, leaves) && ShieldAsked(q, ix)
    ensures Bounded(c, q, notes, spent, ix, ProcessShield(c, leaves, spent, ix), notes')
  {
    hide Unspent;
    var r := ProcessShield(c, leaves, spent, ix);
    notes' := notes;
    if r.verdict.Accepted? {
      var x := Note(AssetId(ix.asset), ix.amount, ix.secret);
      notes' := notes + [x];
      forall id: Fr
        ensures Unspent(c.hash, q, notes', spent, id) <= Unspent(c.hash, q, notes, spent, id) + Value(x, id)
      {
        CreatedValue(c.hash, q, notes, [x], spent, id);
        assert TotalValue([x], id) == Value(x, id) + TotalValue([], id);
      }
    }
  }

  lemma TransferBounded(c: Config, q: Asked, notes: seq<Note>, leaves: seq<Fr>, spent: seq<FieldBytes>, ix: Instruction)
    returns (notes': seq<Note>)
    requires ix.Transfer? && Opens(c.hash, q, notes, leaves)
    requires NoCollisions(c.hash, q) && Witnessed(c, q, ix) && PrefixesAsked(c.hash, q, leaves)
    ensures Bounded(c, q, notes, spent, ix, ProcessTransfer(c, leaves, spent, ix), notes')
  {
    hide Unspent, TreeAsked, Root;
    var r := ProcessTransfer(c, leaves, spent, ix);
    notes' := notes;
    if TransferRefusal(c, leaves, spent, ix).None? {
      var x := TransferInputsOf(ix);
      var w := TransferWitnessFor(c, q, ix);
      var k :| 0 <= k <= |leaves| < k + ROOT_HISTORY && ix.root == Root(c.hash.h2, leaves[..k]);
      var both := [OutputNote(c.hash, w.asset, w.out0), OutputNote(c.hash, w.asset, w.out1)];
      var created := both[..|r.leaves| - |leaves|];
      notes' := notes + created;
      forall id: Fr
        ensures Unspent(c.hash, q, notes', r.spent, id) + (if id == 0 then ix.fee else 0) <=
                Unspent(c.hash, q, notes, spent, id)
      {
        TransferSpends(c.hash, q, notes, leaves, k, x, w, spent, id);
        TransferCreates(c.hash, q, notes, x, w, spent, r.spent, created, id);
      }
    }
  }

  lemma TransferWitnessFor(c: Config, q: Asked, ix: Instruction) returns (w: TransferWitness)
    requires ix.Transfer? && TransferAccepted(c, ix) && Witnessed(c, q, ix)
    ensures TransferCircuit(c.hash, TransferInputsOf(ix), w) && TransferAsked(c.hash, w, q)
  {
    hide TransferCircuit, TransferAsked;
    w :| TransferCircuit(c.hash, TransferInputsOf(ix), w) && TransferAsked(c.hash, w, q);
  }

  lemma UnshieldWitnessFor(c: Config, q: Asked, ix: Instruction) returns (w: UnshieldWitness)
    requires ix.Unshield? && UnshieldAccepted(c, ix) && Witnessed(c, q, ix)
    ensures UnshieldCircuit(c.hash, UnshieldInputsOf(ix), w) && UnshieldAsked(c.hash, UnshieldInputsOf(ix), w, q)
  {
    hide UnshieldCircuit, UnshieldAsked;
    w :| UnshieldCircuit(c.hash, UnshieldInputsOf(ix), w) && UnshieldAsked(c.hash, UnshieldInputsOf(ix), w, q);
  }

  lemma UnshieldSpends(h: Poseidon, q: Asked, notes: seq<Note>, leaves: seq<Fr>, k: nat, x: UnshieldInputs,
                       w: UnshieldWitness,
                       spent: seq<FieldBytes>, id: Fr)
    requires NoCollisions(h, q) && Opens(h, q, notes, leaves)
    requires k <= |leaves| && TreeAsked(h.h2, leaves[..k], q.h2) && x.root == Root(h.h2, leaves[..k])
    requires UnshieldCircuit(h, x, w) && UnshieldAsked(h, x, w, q) && x.nf !in spent && w.in0.amount != 0
    ensures Unspent(h, q, notes, spent + [x.nf], id) + (if x.asset == id then w.in0.amount else 0) <=
            Unspent(h, q, notes, spent, id)
  {
    hide Root, TreeAsked, FoldAsked, MerkleInclusion, Outstanding, SpentSet, OutputOk, OutputAsked, Add;
    var s0 := spent + [x.nf];
    assert notes + [] == notes;
    SpentGrows(h, q, notes, [], spent, s0);
    RecordedSpends(h, q, notes, leaves, k, x.asset, w.in0, x.nf, s0);
    SpendDrop(h, q, notes, leaves, k, x.asset, w.in0, x.nf, spent, SpentSet(h, q, notes, spent),
              SpentSet(h, q, notes, s0), id);
  }

  lemma UnshieldBounded(c: Config, q: Asked, notes: seq<Note>, leaves: seq<Fr>, spent: seq<FieldBytes>, ix: Instruction)
    returns (notes': seq<Note>)
    requires ix.Unshield? && Opens(c.hash, q, notes, leaves)
    requires NoCollisions(c.hash, q) && Witnessed(c, q, ix) && PrefixesAsked(c.hash, q, leaves)
    ensures Bounded(c, q, notes, spent, ix, ProcessUnshield(c, leaves, spent, ix), notes')
  {
    hide Unspent, TreeAsked, Root;
    var r := ProcessUnshield(c, leaves, spent, ix);
    notes' := notes;
    if UnshieldRefusal(c, leaves, spent, ix).None? {
      var x := UnshieldInputsOf(ix);
      var w := UnshieldWitnessFor(c, q, ix);
      UnshieldConserves(c.hash, x, w);
      var k :| 0 <= k <= |leaves| < k + ROOT_HISTORY && ix.root == Root(c.hash.h2, leaves[..k]);
      var o := OutputNote(c.hash, x.asset, w.change);
      var created := [o][..|r.leaves| - |leaves|];
      notes' := notes + created;
      forall id: Fr
        ensures Unspent(c.hash, q, notes', r.spent, id) + Outflow(ix, r.verdict, id) <=
                Unspent(c.hash, q, notes, spent, id)
      {
        UnshieldSpends(c.hash, q, notes, leaves, k, x, w, spent, id);
        CreatedValue(c.hash, q, notes, created, r.spent, id);
        assert TotalValue([], id) == 0 && TotalValue([o], id) == Value(o, id) + TotalValue([], id);
      }
    }
  }

  // ----- the vault -----------------------------------------------------------

  ghost predicate InUse(mints: iset<Pubkey>, a: Asset) {
    a.Spl? ==> a.mint in mints
  }

  /** Assets in use have distinct ids. */
  ghost predicate AssetsDistinct(mints: iset<Pubkey>) {
    forall a, b | InUse(mints, a) && InUse(mints, b) && AssetId(a) == AssetId(b) :: a == b
  }

  function AssetOf(ix: Instruction): Asset {
    match ix
    case Shield(asset, _, _) => asset
    case Transfer(_, _, _, _, _, _, _) => Native
    case Unshield(_, _, _, _, asset, _, _) => asset
  }

  /** The flat fee leaves the payer, who is not the vault. */
  lemma VaultAfterFee(c: Config, w: World, payer: Pubkey, a: Asset)
    requires payer != c.vault
    ensures VaultBalance(c, w.(lamports := MoveLamports(w.lamports, payer, c.collector, c.flatFee)), a) >=
            VaultBalance(c, w, a)
  {
  }

  /** Each effect moves the vault by at least what the notes moved. */
  lemma VaultAfterEffect(c: Config, w: World, payer: Pubkey, e: Effect, a: Asset)
    requires payer != c.vault
    requires e.DepositToVault? && e.asset == a ==> VaultBalance(c, w, a) + e.amount <= U64_MAX
    ensures VaultBalance(c, ApplyEffect(c, w, payer, e), a) >=
            match e
            case DepositToVault(asset, amount) => VaultBalance(c, w, a) + (if asset == a then amount else 0)
            case WithdrawFromVault(asset, amount, _) => VaultBalance(c, w, a) - (if asset == a then amount else 0)
            case PayFee(amount) => VaultBalance(c, w, a) - (if a == Native then amount else 0)
  {
  }

  /** The vault moves at least as the outstanding notes do. */
  lemma VaultAfterTx(c: Config, mints: iset<Pubkey>, w: World, tx: Tx, a: Asset)
    requires AssetsDistinct(mints) && InUse(mints, a) && InUse(mints, AssetOf(tx.ix))
    requires tx.payer != c.vault
    requires tx.ix.Shield? ==> VaultBalance(c, w, tx.ix.asset) + tx.ix.amount <= U64_MAX - c.flatFee
    requires FundsAvailable(c, w, tx.payer, tx.ix)
    ensures var r := Process(c, w.leaves, w.spent, tx.ix);
            VaultBalance(c, ApplyTx(c, w, tx).world, a) + Outflow(tx.ix, r.verdict, AssetId(a)) >=
            VaultBalance(c, w, a) + Inflow(tx.ix, r.verdict, AssetId(a))
  {
    hide KnownRoot, TransferInputsOf, UnshieldInputsOf, MoveLamports, MoveWrapped, ApplyEffect;
    var r := Process(c, w.leaves, w.spent, tx.ix);
    if r.verdict.Accepted? {
      var w1 := w.(leaves := r.leaves, spent := r.spent);
      var w2 := w1.(lamports := MoveLamports(w1.lamports, tx.payer, c.collector, c.flatFee));
      VaultAfterFee(c, w1, tx.payer, a);
      if r.verdict.effects != [] {
        var e := r.verdict.effects[0];
        OneEffect(c, w2, tx.payer, e);
        FeeRaisesVaultBy(c, w1, tx.payer, a);
        VaultAfterEffect(c, w2, tx.payer, e, a);
      }
    }
  }

  lemma FeeRaisesVaultBy(c: Config, w: World, payer: Pubkey, a: Asset)
    requires payer != c.vault
    ensures VaultBalance(c, w.(lamports := MoveLamports(w.lamports, payer, c.collector, c.flatFee)), a) <=
            VaultBalance(c, w, a) + c.flatFee
  {
  }

  // ----- runs ----------------------------------------------------------------

  /** The pool state agrees with `notes`, and the vault covers them. */
  ghost predicate SolventWith(c: Config, q: Asked, mints: iset<Pubkey>, w: World, notes: seq<Note>) {
    && Opens(c.hash, q, notes, w.leaves)
    && forall a: Asset | InUse(mints, a) :: VaultBalance(c, w, a) >= Unspent(c.hash, q, notes, w.spent, AssetId(a))
  }

  /** The leaves have an opening, and the vault covers every opening. */
  ghost predicate Solvent(c: Config, q: Asked, mints: iset<Pubkey>, w: World) {
    && (exists notes :: Opens(c.hash, q, notes, w.leaves))
    && (forall notes | Opens(c.hash, q, notes, w.leaves) :: SolventWith(c, q, mints, w, notes))
  }

  /** One covered opening is enough: there is no other. */
  lemma SolventByOne(c: Config, q: Asked, mints: iset<Pubkey>, w: World, notes: seq<Note>)
    requires NoCollisions(c.hash, q) && SolventWith(c, q, mints, w, notes)
    ensures Solvent(c, q, mints, w)
  {
    hide NoCollisions, Opens, Unspent;
    assert Opens(c.hash, q, notes, w.leaves);
    forall other | Opens(c.hash, q, other, w.leaves) ensures SolventWith(c, q, mints, w, other) {
      OpeningUnique(c.hash, q, other, notes, w.leaves);
    }
  }

  /** What a transaction must satisfy: an asset in use, a payer other than the
      vault, a deposit the vault can hold, a sound proof, and hash inputs in play. */
  ghost predicate TxCovered(c: Config, q: Asked, mints: iset<Pubkey>, w: World, tx: Tx) {
    && InUse(mints, AssetOf(tx.ix))
    && tx.payer != c.vault
    && (tx.ix.Shield? ==> VaultBalance(c, w, tx.ix.asset) + tx.ix.amount <= U64_MAX - c.flatFee)
    && ShieldAsked(q, tx.ix) && Witnessed(c, q, tx.ix)
    && PrefixesAsked(c.hash, q, ApplyTx(c, w, tx).world.leaves)
  }

  ghost predicate StepCovered(c: Config, q: Asked, mints: iset<Pubkey>, w: World, s: Step) {
    match s
    case Block(txs) => forall i | 0 <= i < |txs| :: TxCovered(c, q, mints, ApplyTxs(c, w, txs[..i]), txs[i])
    case Elsewhere(_, _) =>
      forall a: Asset | InUse(mints, a) :: VaultBalance(c, ApplyStep(c, w, s), a) >= VaultBalance(c, w, a)
  }

  ghost predicate RunCovered(c: Config, q: Asked, mints: iset<Pubkey>, w: World, steps: seq<Step>) {
    forall i | 0 <= i < |steps| :: StepCovered(c, q, mints, Run(c, w, steps[..i]), steps[i])
  }

  ghost predicate Trusted(c: Config, q: Asked, mints: iset<Pubkey>) {
    NoCollisions(c.hash, q) && AssetsDistinct(mints)
  }

  lemma TxKeepsSolvency(c: Config, q: Asked, mints: iset<Pubkey>, w: World, tx: Tx, notes: seq<Note>)
    returns (notes': seq<Note>)
    requires Trusted(c, q, mints) && TxCovered(c, q, mints, w, tx)
    requires SolventWith(c, q, mints, w, notes) && PrefixesAsked(c.hash, q, w.leaves)
    ensures SolventWith(c, q, mints, ApplyTx(c, w, tx).world, notes')
  {
    hide NoCollisions, Witnessed, PrefixesAsked, Unspent, Opens, ProcessShield, ProcessTransfer;
    hide ProcessUnshield, AssetsDistinct, ApplyEffects, MoveLamports;
    notes' := notes;
    if FundsAvailable(c, w, tx.payer, tx.ix) {
      var r := Process(c, w.leaves, w.spent, tx.ix);
      match tx.ix {
        case Shield(_, _, _) => notes' := ShieldBounded(c, q, notes, w.leaves, w.spent, tx.ix);
        case Transfer(_, _, _, _, _, _, _) => notes' := TransferBounded(c, q, notes, w.leaves, w.spent, tx.ix);
        case Unshield(_, _, _, _, _, _, _) => notes' := UnshieldBounded(c, q, notes, w.leaves, w.spent, tx.ix);
      }
      TxPoolPart(c, w, tx);
      var after := ApplyTx(c, w, tx).world;
      forall a: Asset | InUse(mints, a)
        ensures VaultBalance(c, after, a) >= Unspent(c.hash, q, notes', after.spent, AssetId(a))
      {
        VaultAfterTx(c, mints, w, tx, a);
      }
    }
  }

  /** The tree and the nullifier log come from the processor alone. */
  lemma TxPoolPart(c: Config, w: World, tx: Tx)
    requires FundsAvailable(c, w, tx.payer, tx.ix)
    ensures var r := Process(c, w.leaves, w.spent, tx.ix);
            ApplyTx(c, w, tx).world.leaves == r.leaves && ApplyTx(c, w, tx).world.spent == r.spent
  {
    hide Process, MoveLamports;
    var r := Process(c, w.leaves, w.spent, tx.ix);
    if r.verdict.Accepted? {
      var w1 := w.(leaves := r.leaves, spent := r.spent);
      EffectsKeepPool(c, w1.(lamports := MoveLamports(w1.lamports, tx.payer, c.collector, c.flatFee)), tx.payer,
                      r.verdict.effects);
    }
  }

  lemma {:induction false} TxsKeepSolvency(c: Config, q: Asked, mints: iset<Pubkey>, w: World, txs: seq<Tx>,
                                           notes: seq<Note>)
    returns (notes': seq<Note>)
    requires Trusted(c, q, mints) && StepCovered(c, q, mints, w, Block(txs))
    requires SolventWith(c, q, mints, w, notes) && PrefixesAsked(c.hash, q, w.leaves)
    ensures SolventWith(c, q, mints, ApplyTxs(c, w, txs), notes')
    ensures PrefixesAsked(c.hash, q, ApplyTxs(c, w, txs).leaves)
    decreases txs
  {
    hide SolventWith, PrefixesAsked, ApplyTx, Trusted;
    notes' := notes;
    if txs != [] {
      var n := |txs| - 1;
      assert forall i | 0 <= i < n :: txs[..n][..i] == txs[..i];
      notes' := TxsKeepSolvency(c, q, mints, w, txs[..n], notes);
      assert TxCovered(c, q, mints, ApplyTxs(c, w, txs[..n]), txs[n]);
      notes' := TxKeepsSolvency(c, q, mints, ApplyTxs(c, w, txs[..n]), txs[n], notes');
    }
  }

  /** Without a success no public balance moves, though nullifiers may be recorded. */
  lemma {:induction false} CleanBlock(c: Config, w: World, txs: seq<Tx>)
    requires !Dirty(c, w, txs)
    ensures ApplyTxs(c, w, txs).lamports == w.lamports && ApplyTxs(c, w, txs).tokens == w.tokens
    ensures forall n | n in w.spent :: n in ApplyTxs(c, w, txs).spent
    decreases txs
  {
    if txs != [] {
      var n := |txs| - 1;
      CleanBlock(c, w, txs[..n]);
      RejectionMovesNothing(c, ApplyTxs(c, w, txs[..n]), txs[n]);
    }
  }

  lemma BlockKeepsSolvency(c: Config, q: Asked, mints: iset<Pubkey>, w: World, txs: seq<Tx>)
    requires Trusted(c, q, mints) && StepCovered(c, q, mints, w, Block(txs))
    requires Solvent(c, q, mints, w) && PrefixesAsked(c.hash, q, w.leaves)
    ensures Solvent(c, q, mints, ApplyBlock(c, w, txs))
    ensures PrefixesAsked(c.hash, q, ApplyBlock(c, w, txs).leaves)
  {
    hide PrefixesAsked, NoCollisions, Unspent, Opens, ApplyTxs, Dirty;
    var notes :| Opens(c.hash, q, notes, w.leaves);
    var notes' := TxsKeepSolvency(c, q, mints, w, txs, notes);
    var after := ApplyBlock(c, w, txs);
    if Dirty(c, w, txs) {
      SolventByOne(c, q, mints, after, notes');
    } else {
      CleanBlock(c, w, txs);
      forall a: Asset | InUse(mints, a)
        ensures VaultBalance(c, after, a) >= Unspent(c.hash, q, notes, after.spent, AssetId(a))
      {
        UnspentShrinks(c.hash, q, notes, w.spent, after.spent, AssetId(a));
      }
      SolventByOne(c, q, mints, after, notes);
    }
  }

  lemma UnspentShrinks(h: Poseidon, q: Asked, notes: seq<Note>, spent: seq<FieldBytes>, spent': seq<FieldBytes>, id: Fr)
    requires forall n | n in spent :: n in spent'
    ensures Unspent(h, q, notes, spent', id) <= Unspent(h, q, notes, spent, id)
  {
    hide SpentSet, Outstanding;
    assert notes + [] == notes;
    SpentGrows(h, q, notes, [], spent, spent');
    OutstandingMono(notes, SpentSet(h, q, notes, spent), SpentSet(h, q, notes, spent'), id);
  }

  lemma EmptyPoolSolvent(c: Config, q: Asked, mints: iset<Pubkey>, w: World)
    requires w.leaves == [] && NoCollisions(c.hash, q)
    ensures Solvent(c, q, mints, w)
  {
    SolventByOne(c, q, mints, w, []);
  }

  lemma ElsewhereKeepsSolvency(c: Config, q: Asked, mints: iset<Pubkey>, w: World, s: Step)
    requires s.Elsewhere? && StepCovered(c, q, mints, w, s) && Solvent(c, q, mints, w)
    ensures Solvent(c, q, mints, ApplyStep(c, w, s))
  {
    hide Unspent, Opens, InUse, VaultBalance;
    forall notes | Opens(c.hash, q, notes, ApplyStep(c, w, s).leaves)
      ensures SolventWith(c, q, mints, ApplyStep(c, w, s), notes)
    {
      assert SolventWith(c, q, mints, w, notes);
    }
  }

  lemma StepKeepsSolvency(c: Config, q: Asked, mints: iset<Pubkey>, w: World, s: Step)
    requires Trusted(c, q, mints) && StepCovered(c, q, mints, w, s)
    requires Solvent(c, q, mints, w) && PrefixesAsked(c.hash, q, w.leaves)
    ensures Solvent(c, q, mints, ApplyStep(c, w, s)) && PrefixesAsked(c.hash, q, ApplyStep(c, w, s).leaves)
  {
    hide Trusted, PrefixesAsked, Solvent, ApplyBlock, StepCovered;
    match s
    case Block(txs) => BlockKeepsSolvency(c, q, mints, w, txs);
    case Elsewhere(_, _) => ElsewhereKeepsSolvency(c, q, mints, w, s);
  }

  lemma RunCoveredSplit(c: Config, q: Asked, mints: iset<Pubkey>, w: World, steps: seq<Step>)
    requires RunCovered(c, q, mints, w, steps) && steps != []
    ensures var n := |steps| - 1;
            RunCovered(c, q, mints, w, steps[..n]) && StepCovered(c, q, mints, Run(c, w, steps[..n]), steps[n])
  {
    hide StepCovered, Run;
    assert forall i | 0 <= i < |steps| - 1 :: steps[..|steps| - 1][..i] == steps[..i];
  }

  /** Solvency over every run from an empty pool. */
  lemma {:induction false} AlwaysSolvent(c: Config, q: Asked, mints: iset<Pubkey>, w: World, steps: seq<Step>)
    requires Trusted(c, q, mints) && RunCovered(c, q, mints, w, steps)
    requires w.leaves == [] && PrefixesAsked(c.hash, q, [])
    ensures Solvent(c, q, mints, Run(c, w, steps))
    ensures PrefixesAsked(c.hash, q, Run(c, w, steps).leaves)
    decreases steps
  {
    hide NoCollisions, PrefixesAsked, Solvent, ApplyStep, StepCovered, RunCovered;
    if steps == [] {
      EmptyPoolSolvent(c, q, mints, w);
    } else {
      var n := |steps| - 1;
      RunCoveredSplit(c, q, mints, w, steps);
      AlwaysSolvent(c, q, mints, w, steps[..n]);
      StepKeepsSolvency(c, q, mints, Run(c, w, steps[..n]), steps[n]);
    }
  }

  /** In a solvent pool every spend that passes the processor's checks is
      covered by the vault: the pre-check on vault funds never refuses it. */
  lemma ValidSpendCovered(c: Config, q: Asked, mints: iset<Pubkey>, w: World, ix: Instruction)
    requires Trusted(c, q, mints) && Solvent(c, q, mints, w) && PrefixesAsked(c.hash, q, w.leaves)
    requires InUse(mints, AssetOf(ix)) && Witnessed(c, q, ix)
    ensures ix.Transfer? && TransferRefusal(c, w.leaves, w.spent, ix).None? ==> VaultBalance(c, w, Native) >= ix.fee
    ensures ix.Unshield? && UnshieldRefusal(c, w.leaves, w.spent, ix).None? ==>
            VaultBalance(c, w, ix.asset) >= ix.amount
  {
    hide Unspent, TreeAsked, Root, Opens;
    var notes :| Opens(c.hash, q, notes, w.leaves);
    assert SolventWith(c, q, mints, w, notes);
    if ix.Transfer? && TransferRefusal(c, w.leaves, w.spent, ix).None? {
      var x := TransferInputsOf(ix);
      var t := TransferWitnessFor(c, q, ix);
      TransferConserves(c.hash, x, t);
      var k :| 0 <= k <= |w.leaves| < k + ROOT_HISTORY && ix.root == Root(c.hash.h2, w.leaves[..k]);
      TransferSpends(c.hash, q, notes, w.leaves, k, x, t, w.spent, 0);
      assert InUse(mints, Native);
    }
    if ix.Unshield? && UnshieldRefusal(c, w.leaves, w.spent, ix).None? {
      var x := UnshieldInputsOf(ix);
      var u := UnshieldWitnessFor(c, q, ix);
      UnshieldConserves(c.hash, x, u);
      var k :| 0 <= k <= |w.leaves| < k + ROOT_HISTORY && ix.root == Root(c.hash.h2, w.leaves[..k]);
      UnshieldSpends(c.hash, q, notes, w.leaves, k, x, u, w.spent, AssetId(ix.asset));
    }
  }

  /** Why ids must differ: shields of two mints whose bytes agree modulo the
      field order append the same leaf. The order's own bytes act as native. */
  lemma ConfusableMints(c: Config, leaves: seq<Fr>, spent: seq<FieldBytes>, amount: U64, secret: FieldBytes,
                        a: Asset, b: Asset)
    requires NoCollisions(c.hash,
                          Asked(iset{}, iset{}, iset{(AssetId(a), amount as Fr, secret % P),
                                                     (AssetId(b), amount as Fr, secret % P)}))
    requires ProcessShield(c, leaves, spent, Shield(a, amount, secret)).verdict.Accepted?
    ensures (ProcessShield(c, leaves, spent, Shield(a, amount, secret)).leaves ==
             ProcessShield(c, leaves, spent, Shield(b, amount, secret)).leaves) <==> AssetId(a) == AssetId(b)
    ensures AssetId(Spl(P)) == AssetId(Native)
  {
    var q := Asked(iset{}, iset{},
                   iset{(AssetId(a), amount as Fr, secret % P), (AssetId(b), amount as Fr, secret % P)});
    var la := ProcessShield(c, leaves, spent, Shield(a, amount, secret)).leaves;
    var lb := ProcessShield(c, leaves, spent, Shield(b, amount, secret)).leaves;
    assert la[|leaves|] == c.hash.h3(AssetId(a), amount, secret) &&
           lb[|leaves|] == c.hash.h3(AssetId(b), amount, secret);
    assert secret % P == secret;
    var x, y: (Fr, Fr, Fr) := (AssetId(a), amount, secret), (AssetId(b), amount, secret);
    assert x in q.h3 && y in q.h3;
  }

  /** And so they must: with one id for two assets in use, one shield of the one
      leaves the other uncovered. */
  lemma DistinctIdsNeeded(c: Config, q: Asked, mints: iset<Pubkey>, w: World, tx: Tx, b: Asset)
    requires tx.ix.Shield? && ApplyTx(c, w, tx).status.Ok? && ShieldAsked(q, tx.ix)
    requires w.leaves == [] && w.spent == [] && tx.payer != c.vault
    requires InUse(mints, b) && b != tx.ix.asset && AssetId(b) == AssetId(tx.ix.asset)
    requires VaultBalance(c, w, b) + c.flatFee < tx.ix.amount
    ensures !Solvent(c, q, mints, ApplyTx(c, w, tx).world)
  {
    hide MoveLamports, MoveWrapped, Outstanding, SpentSet;
    var ix := tx.ix;
    var note := Note(AssetId(ix.asset), ix.amount, ix.secret);
    var after := ApplyTx(c, w, tx).world;
    TxPoolPart(c, w, tx);
    assert after.leaves == [Leaf(c.hash, note)] && after.spent == [];
    assert Opens(c.hash, q, [note], after.leaves);
    UnspentOne(c.hash, q, note);
    OtherVaultKept(c, w, tx, b);
    assert !SolventWith(c, q, mints, after, [note]);
  }

  lemma UnspentOne(h: Poseidon, q: Asked, note: Note)
    ensures Unspent(h, q, [note], [], note.asset) == note.amount
  {
    assert SpentSet(h, q, [note], []) == {};
    assert [note][..0] == [];
    assert Outstanding([], {}, note.asset) == 0;
    assert Outstanding([note], {}, note.asset) == Value(note, note.asset);
  }

  /** A shield of one asset raises another's vault by the flat fee at most. */
  lemma OtherVaultKept(c: Config, w: World, tx: Tx, b: Asset)
    requires tx.ix.Shield? && tx.payer != c.vault && b != tx.ix.asset && ApplyTx(c, w, tx).status.Ok?
    ensures VaultBalance(c, ApplyTx(c, w, tx).world, b) <= VaultBalance(c, w, b) + c.flatFee
  {
    hide MoveLamports, MoveWrapped, ApplyEffect;
    var r := Process(c, w.leaves, w.spent, tx.ix);
    var w1 := w.(leaves := r.leaves, spent := r.spent);
    var w2 := w1.(lamports := MoveLamports(w1.lamports, tx.payer, c.collector, c.flatFee));
    FeeRaisesVaultBy(c, w1, tx.payer, b);
    OneEffect(c, w2, tx.payer, r.verdict.effects[0]);
    OtherEffect(c, w2, tx.payer, r.verdict.effects[0], b);
  }

  lemma OtherEffect(c: Config, w: World, payer: Pubkey, e: Effect, b: Asset)
    requires payer != c.vault && e.DepositToVault? && e.asset != b
    ensures VaultBalance(c, ApplyEffect(c, w, payer, e), b) == VaultBalance(c, w, b)
  {
  }
}
