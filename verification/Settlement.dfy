/** Settlement of the L2 chain on L1: the batcher's cursor and batch number, an
    L1 that takes only the next number, posts that fail, land late or are never
    confirmed, and batchers re-derived from what L1 shows. */
module Settlement {
  import opened Bytes

  /** A committed block; block `s` of a chain is at index `s - 1`. */
  datatype Block = Block(transactions: seq<seq<Byte>>, stateRoot: H256)

  type Chain = seq<Block>

  /** A block in a payload, with its slot. */
  datatype Entry = Entry(slot: nat, block: Block)

  /** A settlement record together with the blocks its payload carries. */
  datatype Record = Record(no: nat, first: nat, last: nat, stateRoot: H256, payload: seq<Entry>)

  /** At most this many slots are read per sweep. */
  const SWEEP_LIMIT := 10_000

  function Min(a: int, b: int): int {
    if a < b then a else b
  }

  /** The non-empty blocks with slots in `[lo, hi]`, in slot order. */
  function NonEmpty(chain: Chain, lo: nat, hi: nat): seq<Entry>
    requires 1 <= lo && hi <= |chain|
    decreases hi
  {
    if hi < lo then []
    else NonEmpty(chain, lo, hi - 1) + if chain[hi - 1].transactions != [] then [Entry(hi, chain[hi - 1])] else []
  }

  lemma {:induction false} NonEmptySplit(chain: Chain, a: nat, b: nat, c: nat)
    requires 1 <= a <= b + 1 && b <= c <= |chain|
    ensures NonEmpty(chain, a, c) == NonEmpty(chain, a, b) + NonEmpty(chain, b + 1, c)
    decreases c
  {
    if b < c {
      NonEmptySplit(chain, a, b, c - 1);
    }
  }

  lemma {:induction false} NonEmptyStable(chain: Chain, more: Chain, a: nat, b: nat)
    requires 1 <= a && b <= |chain|
    ensures NonEmpty(chain + more, a, b) == NonEmpty(chain, a, b)
    decreases b
  {
    if a <= b {
      NonEmptyStable(chain, more, a, b - 1);
    }
  }

  /** Exactly the non-empty blocks of the range are listed. */
  lemma {:induction false} NonEmptyHas(chain: Chain, a: nat, b: nat, e: Entry)
    requires 1 <= a && b <= |chain|
    ensures e in NonEmpty(chain, a, b) <==>
            a <= e.slot <= b && e.block == chain[e.slot - 1] && e.block.transactions != []
    decreases b
  {
    if a <= b {
      NonEmptyHas(chain, a, b - 1, e);
    }
  }

  // ----- one sweep -----------------------------------------------------------

  /** The record for the window `[cursor, tip]`, if it holds a non-empty block
      among the slots read. */
  function Window(chain: Chain, no: nat, cursor: nat, tip: nat): (r: seq<Record>)
    requires 1 <= cursor <= tip <= |chain|
    ensures |r| <= 1
  {
    var end := Min(tip, cursor + SWEEP_LIMIT - 1);
    var blocks := NonEmpty(chain, cursor, end);
    if blocks == [] then [] else [Record(no, cursor, tip, chain[end - 1].stateRoot, blocks)]
  }

  datatype Sweep = Idle | Posted(record: Record) | Failed(record: Record)

  class Batcher {
    var cursor: nat
    var nextNo: nat

    /** Start from one view of L1: past its last settled slot, at its count. */
    constructor (records: seq<Record>)
      ensures cursor == ResumeSlot(records) && nextNo == |records|
    {
      cursor := if |records| == 0 then 1 else records[|records| - 1].last + 1;
      nextNo := |records|;
    }

    /** Read the window, collect its non-empty blocks, and post them. The cursor
        and number move only past an empty window or a confirmed post. */
    method RunOnce(chain: Chain, tip: nat, confirmed: bool) returns (r: Sweep)
      requires 1 <= cursor && tip <= |chain|
      modifies this
      ensures r.Idle? <==> tip < old(cursor) || Window(chain, old(nextNo), old(cursor), tip) == []
      ensures !r.Idle? ==> [r.record] == Window(chain, old(nextNo), old(cursor), tip) && r.Posted? == confirmed
      ensures cursor == if tip < old(cursor) || r.Failed? then old(cursor) else tip + 1
      ensures nextNo == old(nextNo) + if r.Posted? then 1 else 0
    {
      if tip < cursor {
        return Idle;
      }
      var blocks: seq<Entry> := [];
      var slot := cursor;
      var stateRoot := ZERO_HASH;
      while slot <= tip && slot < cursor + SWEEP_LIMIT
        invariant cursor <= slot <= Min(tip, cursor + SWEEP_LIMIT - 1) + 1
        invariant cursor == old(cursor) && nextNo == old(nextNo)
        invariant blocks == NonEmpty(chain, cursor, slot - 1)
        invariant slot > cursor ==> stateRoot == chain[slot - 2].stateRoot
      {
        stateRoot := chain[slot - 1].stateRoot;
        if |chain[slot - 1].transactions| > 0 {
          blocks := blocks + [Entry(slot, chain[slot - 1])];
        }
        slot := slot + 1;
      }
      if blocks == [] {
        cursor := tip + 1;
        return Idle;
      }
      var record := Record(nextNo, cursor, tip, stateRoot, blocks);
      if !confirmed {
        return Failed(record);
      }
      cursor := tip + 1;
      nextNo := nextNo + 1;
      r := Posted(record);
    }
  }

  function ResumeSlot(records: seq<Record>): nat {
    if records == [] then 1 else records[|records| - 1].last + 1
  }

  /** A sweep reads its whole window, on every chain, exactly when the interval
      is within the read limit. */
  lemma SweepReadsAll(interval: nat)
    requires interval >= 1
    ensures interval <= 10_000 <==>
            forall chain: Chain, no: nat, cursor: nat, tip: nat
              | 1 <= cursor <= tip <= |chain| && tip < cursor + interval && Window(chain, no, cursor, tip) != [] ::
              Window(chain, no, cursor, tip)[0].payload == NonEmpty(chain, cursor, tip)
  {
    if interval > SWEEP_LIMIT {
      var full := Block([[]], ZERO_HASH);
      var chain: Chain := seq(SWEEP_LIMIT + 1, i => full);
      var tip := SWEEP_LIMIT + 1;
      assert NonEmpty(chain, 1, tip) == NonEmpty(chain, 1, tip - 1) + [Entry(tip, full)];
      NonEmptyHas(chain, 1, SWEEP_LIMIT, Entry(1, full));
      assert NonEmpty(chain, 1, SWEEP_LIMIT) != [];
      assert Window(chain, 0, 1, tip)[0].payload == NonEmpty(chain, 1, SWEEP_LIMIT);
      assert |Window(chain, 0, 1, tip)[0].payload| < |NonEmpty(chain, 1, tip)|;
    }
  }

  // ----- the protocol --------------------------------------------------------

  /** One attempt at a batch. The chunks of its payload go first and the record
      last: an attempt that failed before its record was sent leaves the first few
      chunks on L1. */
  datatype Posting = Whole(record: Record) | Cut(record: Record, chunks: nat)

  /** The L2 chain, the records L1 holds, posts that may still land, the batcher in
      memory, and the attempts so far, which is history. */
  datatype State = State(chain: Chain, l1: seq<Record>, flying: set<Record>, cursor: nat, next: nat,
                         posted: seq<Posting>)

  datatype Fate = Confirmed | InFlight | Lost(chunks: nat)

  datatype Event =
    | Produce(block: Block)
      /** One loop iteration that read `latest` as the tip. */
    | RunSweep(latest: nat, fate: Fate)
      /** A post sent earlier is executed, or rejected, by L1. */
    | Land(record: Record)
    | Reject(record: Record)
      /** A new batcher from the first `seen` records: one L1 snapshot, possibly
          an old one. Also a restart of the process. */
    | Rederive(seen: nat)

  /** The settlement program takes the next number with a proper range. */
  predicate Takes(l1: seq<Record>, r: Record) {
    r.no == |l1| && r.first <= r.last
  }

  function Tip(s: State, interval: nat, latest: nat): int {
    Min(latest, s.cursor + interval - 1)
  }

  ghost predicate Enabled(s: State, interval: nat, e: Event)
    requires interval >= 1
  {
    match e
    case Produce(_) => true
    case RunSweep(latest, fate) =>
      && 1 <= s.cursor <= latest <= |s.chain|
      && var w := Window(s.chain, s.next, s.cursor, Tip(s, interval, latest));
         fate.Confirmed? && w != [] ==> Takes(s.l1, w[0])
    case Land(r) => r in s.flying && Takes(s.l1, r)
    case Reject(r) => r in s.flying
    case Rederive(seen) => seen <= |s.l1|
  }

  ghost function Next(s: State, interval: nat, e: Event): State
    requires interval >= 1 && Enabled(s, interval, e)
  {
    match e
    case Produce(b) => s.(chain := s.chain + [b])
    case RunSweep(latest, fate) =>
      var tip := Tip(s, interval, latest);
      var w := Window(s.chain, s.next, s.cursor, tip);
      if w == [] then s.(cursor := tip + 1)
      else (match fate
            case Confirmed =>
              s.(l1 := s.l1 + w, cursor := tip + 1, next := s.next + 1, posted := s.posted + [Whole(w[0])])
            case InFlight => s.(flying := s.flying + {w[0]}, posted := s.posted + [Whole(w[0])])
            case Lost(n) => s.(posted := s.posted + [Cut(w[0], n)]))
    case Land(r) => s.(l1 := s.l1 + [r], flying := s.flying - {r})
    case Reject(r) => s.(flying := s.flying - {r})
    case Rederive(seen) => s.(cursor := ResumeSlot(s.l1[..seen]), next := seen)
  }

  const GENESIS := State([], [], {}, 1, 0, [])

  ghost predicate Runs(interval: nat, events: seq<Event>)
    requires interval >= 1
    decreases |events|, 0
  {
    events == [] ||
    (Runs(interval, events[..|events| - 1]) &&
     Enabled(After(interval, events[..|events| - 1]), interval, events[|events| - 1]))
  }

  ghost function After(interval: nat, events: seq<Event>): State
    requires interval >= 1 && Runs(interval, events)
    decreases |events|, 1
  {
    if events == [] then GENESIS else Next(After(interval, events[..|events| - 1]), interval, events[|events| - 1])
  }

  /** One iteration of the batcher loop is one `RunSweep` of the protocol. */
  method SweepLatest(b: Batcher, interval: nat, latest: nat, confirmed: bool, chain: Chain, ghost s: State,
                     ghost chunks: nat)
    returns (r: Sweep)
    requires interval >= 1 && s.chain == chain && s.cursor == b.cursor && s.next == b.nextNo && b.cursor >= 1
    requires latest <= |chain|
    requires latest >= b.cursor ==>
               Enabled(s, interval, RunSweep(latest, if confirmed then Confirmed else Lost(chunks)))
    modifies b
    ensures latest < old(b.cursor) ==> r == Idle && b.cursor == old(b.cursor) && b.nextNo == old(b.nextNo)
    ensures latest >= old(b.cursor) && !r.Failed? ==>
              b.cursor == (if latest < old(b.cursor) + interval - 1 then latest else old(b.cursor) + interval - 1) + 1
    ensures latest >= old(b.cursor) ==>
              var after := Next(s, interval, RunSweep(latest, if confirmed then Confirmed else Lost(chunks)));
              && b.cursor == after.cursor && b.nextNo == after.next
              && after.l1 == s.l1 + if r.Posted? then [r.record] else []
  {
    if latest < b.cursor {
      return Idle;
    }
    var tip := Min(latest, b.cursor + interval - 1);
    r := b.RunOnce(chain, tip, confirmed);
  }

  // ----- the invariant -------------------------------------------------------

  /** `slot` follows the first `k` records with nothing but empty blocks between. */
  ghost predicate Follows(chain: Chain, l1: seq<Record>, k: nat, slot: nat) {
    && k <= |l1|
    && 1 <= ResumeSlot(l1[..k]) <= slot <= |chain| + 1
    && NonEmpty(chain, ResumeSlot(l1[..k]), slot - 1) == []
  }

  /** A record that may take place `r.no` on L1. */
  ghost predicate Fits(chain: Chain, l1: seq<Record>, r: Record) {
    && Follows(chain, l1, r.no, r.first)
    && r.first <= r.last <= |chain|
    && r.payload == NonEmpty(chain, r.first, r.last) != []
    && r.stateRoot == chain[r.last - 1].stateRoot
  }

  ghost predicate Inv(s: State) {
    && (forall k | 0 <= k < |s.l1| :: s.l1[k].no == k && Fits(s.chain, s.l1, s.l1[k]))
    && (forall r | r in s.flying :: Fits(s.chain, s.l1, r))
    && Follows(s.chain, s.l1, s.next, s.cursor)
  }

  lemma FollowsStable(chain: Chain, more: Chain, l1: seq<Record>, newer: seq<Record>, k: nat, slot: nat)
    requires Follows(chain, l1, k, slot)
    ensures Follows(chain + more, l1 + newer, k, slot)
  {
    assert (l1 + newer)[..k] == l1[..k];
    NonEmptyStable(chain, more, ResumeSlot(l1[..k]), slot - 1);
  }

  lemma FitsStable(chain: Chain, more: Chain, l1: seq<Record>, newer: seq<Record>, r: Record)
    requires Fits(chain, l1, r)
    ensures Fits(chain + more, l1 + newer, r)
  {
    FollowsStable(chain, more, l1, newer, r.no, r.first);
    NonEmptyStable(chain, more, r.first, r.last);
  }

  lemma ProduceKeeps(s: State, interval: nat, b: Block)
    requires interval >= 1 && Inv(s)
    ensures Inv(Next(s, interval, Produce(b)))
  {
    hide Fits, Follows;
    assert s.l1 + [] == s.l1;
    forall r | r in s.flying ensures Fits(s.chain + [b], s.l1, r) {
      FitsStable(s.chain, [b], s.l1, [], r);
    }
    forall k | 0 <= k < |s.l1| ensures Fits(s.chain + [b], s.l1, s.l1[k]) {
      FitsStable(s.chain, [b], s.l1, [], s.l1[k]);
    }
    FollowsStable(s.chain, [b], s.l1, [], s.next, s.cursor);
  }

  /** Appending a fitting record keeps everything, whoever else is waiting. */
  lemma AppendKeeps(s: State, r: Record, flying: set<Record>)
    requires Inv(s) && Fits(s.chain, s.l1, r) && Takes(s.l1, r) && flying <= s.flying
    ensures Inv(s.(l1 := s.l1 + [r], flying := flying))
    ensures Follows(s.chain, s.l1 + [r], s.next, s.cursor)
    ensures Follows(s.chain, s.l1 + [r], |s.l1| + 1, r.last + 1)
  {
    assert s.chain + [] == s.chain;
    forall x | x in flying + {r} ensures Fits(s.chain, s.l1 + [r], x) {
      FitsStable(s.chain, [], s.l1, [r], x);
    }
    forall k | 0 <= k < |s.l1| ensures Fits(s.chain, s.l1 + [r], s.l1[k]) {
      FitsStable(s.chain, [], s.l1, [r], s.l1[k]);
    }
    FollowsStable(s.chain, [], s.l1, [r], s.next, s.cursor);
    assert (s.l1 + [r])[..|s.l1| + 1] == s.l1 + [r];
  }

  lemma WindowFits(s: State, interval: nat, latest: nat)
    requires 1 <= interval <= SWEEP_LIMIT && Inv(s) && 1 <= s.cursor <= latest <= |s.chain|
    ensures var tip := Tip(s, interval, latest);
            var w := Window(s.chain, s.next, s.cursor, tip);
            if w == [] then Follows(s.chain, s.l1, s.next, tip + 1) else Fits(s.chain, s.l1, w[0])
  {
    var tip := Tip(s, interval, latest);
    var w := Window(s.chain, s.next, s.cursor, tip);
    if w == [] {
      NonEmptySplit(s.chain, ResumeSlot(s.l1[..s.next]), s.cursor - 1, tip);
    }
  }

  lemma NextKeeps(s: State, interval: nat, e: Event)
    requires 1 <= interval <= SWEEP_LIMIT && Inv(s) && Enabled(s, interval, e)
    ensures Inv(Next(s, interval, e))
  {
    hide Fits, Follows, Window;
    match e {
      case Produce(b) => ProduceKeeps(s, interval, b);
      case RunSweep(latest, fate) =>
        WindowFits(s, interval, latest);
        var w := Window(s.chain, s.next, s.cursor, Tip(s, interval, latest));
        if w != [] && fate.Confirmed? {
          assert w == [w[0]];
          WindowRecord(s.chain, s.next, s.cursor, Tip(s, interval, latest));
          AppendKeeps(s, w[0], s.flying);
        }
      case Land(r) => AppendKeeps(s, r, s.flying - {r});
      case Reject(r) =>
      case Rederive(seen) => ResumeFollows(s, seen);
    }
  }

  lemma WindowRecord(chain: Chain, no: nat, cursor: nat, tip: nat)
    requires 1 <= cursor <= tip <= |chain| && Window(chain, no, cursor, tip) != []
    ensures var r := Window(chain, no, cursor, tip)[0]; r.no == no && r.first == cursor && r.last == tip
  {
  }

  lemma ResumeFollows(s: State, seen: nat)
    requires Inv(s) && seen <= |s.l1|
    ensures Follows(s.chain, s.l1, seen, ResumeSlot(s.l1[..seen]))
  {
    if seen > 0 {
      var r := s.l1[seen - 1];
      assert Fits(s.chain, s.l1, r) && s.l1[..seen][seen - 1] == r;
    }
  }

  lemma {:induction false} RunsKeepInv(interval: nat, events: seq<Event>)
    requires 1 <= interval <= SWEEP_LIMIT && Runs(interval, events)
    ensures Inv(After(interval, events))
  {
    if events != [] {
      RunsKeepInv(interval, events[..|events| - 1]);
      NextKeeps(After(interval, events[..|events| - 1]), interval, events[|events| - 1]);
    }
  }

  /** No record is sent before all chunks of its payload are on L1. */
  lemma {:induction false} ChunksFirst(interval: nat, events: seq<Event>, r: Record)
    requires interval >= 1 && Runs(interval, events)
    requires r in After(interval, events).l1 || r in After(interval, events).flying
    ensures Whole(r) in After(interval, events).posted
  {
    hide Window;
    if events != [] {
      var before := After(interval, events[..|events| - 1]);
      if r in before.l1 || r in before.flying {
        ChunksFirst(interval, events[..|events| - 1], r);
      }
    }
  }

  // ----- exactly once --------------------------------------------------------

  function Payloads(l1: seq<Record>): seq<Entry> {
    if l1 == [] then [] else Payloads(l1[..|l1| - 1]) + l1[|l1| - 1].payload
  }

  /** What one more record adds to the settled range. */
  lemma RecordExtends(s: State, k: nat)
    requires Inv(s) && k < |s.l1|
    ensures var from, r := ResumeSlot(s.l1[..k]), s.l1[k];
            && 1 <= from <= r.first <= r.last <= |s.chain|
            && ResumeSlot(s.l1[..k + 1]) == r.last + 1
            && NonEmpty(s.chain, 1, r.last) == NonEmpty(s.chain, 1, from - 1) + r.payload
  {
    hide NonEmpty;
    var from, r := ResumeSlot(s.l1[..k]), s.l1[k];
    assert Fits(s.chain, s.l1, r);
    NonEmptySplit(s.chain, 1, from - 1, r.last);
    NonEmptySplit(s.chain, from, r.first - 1, r.last);
    assert s.l1[..k + 1][k] == r;
  }

  lemma {:induction false} PayloadsAre(s: State, k: nat)
    requires Inv(s) && k <= |s.l1|
    ensures 1 <= ResumeSlot(s.l1[..k]) <= |s.chain| + 1
    ensures Payloads(s.l1[..k]) == NonEmpty(s.chain, 1, ResumeSlot(s.l1[..k]) - 1)
  {
    hide Inv;
    if k > 0 {
      hide NonEmpty, ResumeSlot;
      var l := s.l1[..k];
      PayloadsAre(s, k - 1);
      RecordExtends(s, k - 1);
      assert l[..k - 1] == s.l1[..k - 1] && l[k - 1] == s.l1[k - 1];
      assert Payloads(l) == Payloads(l[..k - 1]) + l[k - 1].payload;
    }
  }

  /** Over every run: numbers are consecutive, ranges increase and never overlap,
      each record has the state root after its last slot, and the payloads, in
      order, are exactly the non-empty blocks up to the last settled slot. */
  lemma SettledExactlyOnce(interval: nat, events: seq<Event>)
    requires 1 <= interval <= SWEEP_LIMIT && Runs(interval, events)
    ensures var s := After(interval, events);
            && (forall k | 0 <= k < |s.l1| :: s.l1[k].no == k && 1 <= s.l1[k].first <= s.l1[k].last <= |s.chain|)
            && (forall j, k | 0 <= j < k < |s.l1| :: s.l1[j].last < s.l1[k].first)
            && (forall k | 0 <= k < |s.l1| :: s.l1[k].stateRoot == s.chain[s.l1[k].last - 1].stateRoot)
            && 1 <= ResumeSlot(s.l1) <= |s.chain| + 1
            && Payloads(s.l1) == NonEmpty(s.chain, 1, ResumeSlot(s.l1) - 1)
  {
    hide NonEmpty, Follows, Payloads, Runs, After, ResumeSlot;
    RunsKeepInv(interval, events);
    var s := After(interval, events);
    forall k | 0 <= k < |s.l1| ensures 1 <= s.l1[k].first <= s.l1[k].last <= |s.chain| {
      RecordExtends(s, k);
    }
    forall j, k | 0 <= j < k < |s.l1| ensures s.l1[j].last < s.l1[k].first {
      RangesOrdered(s, j, k);
    }
    PayloadsAre(s, |s.l1|);
    assert s.l1[..|s.l1|] == s.l1;
  }

  /** Each settled non-empty block is in exactly one payload. */
  lemma BlockInOnePayload(interval: nat, events: seq<Event>, slot: nat) returns (k: nat)
    requires 1 <= interval <= SWEEP_LIMIT && Runs(interval, events)
    requires var s := After(interval, events);
             1 <= slot < ResumeSlot(s.l1) && slot <= |s.chain| && s.chain[slot - 1].transactions != []
    ensures var s := After(interval, events);
            && k < |s.l1| && Entry(slot, s.chain[slot - 1]) in s.l1[k].payload
            && forall j, e | 0 <= j < |s.l1| && e in s.l1[j].payload && e.slot == slot :: j == k
  {
    hide NonEmpty, Inv, Runs, After, Payloads, ResumeSlot;
    RunsKeepInv(interval, events);
    var s := After(interval, events);
    var e := Entry(slot, s.chain[slot - 1]);
    SettledExactlyOnce(interval, events);
    NonEmptyHas(s.chain, 1, ResumeSlot(s.l1) - 1, e);
    k := InSomePayload(s.l1, e);
    forall j, x | 0 <= j < |s.l1| && x in s.l1[j].payload && x.slot == slot ensures j == k {
      OnePayload(s, j, x, k, e);
    }
  }

  lemma OnePayload(s: State, j: nat, x: Entry, k: nat, y: Entry)
    requires Inv(s) && j < |s.l1| && k < |s.l1| && x in s.l1[j].payload && y in s.l1[k].payload && x.slot == y.slot
    ensures j == k
  {
    hide Inv;
    PayloadRange(s, j, x);
    PayloadRange(s, k, y);
    RangesOrdered(s, j, k);
    RangesOrdered(s, k, j);
  }

  lemma {:induction false} InSomePayload(l1: seq<Record>, e: Entry) returns (k: nat)
    requires e in Payloads(l1)
    ensures k < |l1| && e in l1[k].payload
  {
    var n := |l1| - 1;
    if e in l1[n].payload {
      k := n;
    } else {
      k := InSomePayload(l1[..n], e);
    }
  }

  lemma PayloadRange(s: State, k: nat, e: Entry)
    requires Inv(s) && k < |s.l1| && e in s.l1[k].payload
    ensures s.l1[k].first <= e.slot <= s.l1[k].last
  {
    assert Fits(s.chain, s.l1, s.l1[k]);
    NonEmptyHas(s.chain, s.l1[k].first, s.l1[k].last, e);
  }

  lemma {:induction false} RangesOrdered(s: State, j: nat, k: nat)
    requires Inv(s) && j < |s.l1| && k < |s.l1|
    ensures j < k ==> s.l1[j].last < s.l1[k].first
  {
    if j < k {
      assert Fits(s.chain, s.l1, s.l1[k]) && s.l1[..k][k - 1] == s.l1[k - 1];
      if j < k - 1 {
        RangesOrdered(s, j, k - 1);
        assert Fits(s.chain, s.l1, s.l1[k - 1]);
      }
    }
  }

  // ----- one snapshot is needed ----------------------------------------------

  /** A batcher whose cursor was read when L1 held `j` records and whose number
      was read when it held `k` is in step with L1 exactly when `j == k`. */
  lemma TornView(s: State, j: nat, k: nat)
    requires Inv(s) && j <= k <= |s.l1|
    ensures Follows(s.chain, s.l1, k, ResumeSlot(s.l1[..j])) <==> j == k
  {
    hide NonEmpty, Inv;
    if j == k {
      ResumeFollows(s, j);
    } else {
      ResumesLater(s, j, k);
    }
  }

  lemma ResumesLater(s: State, j: nat, k: nat)
    requires Inv(s) && j < k <= |s.l1|
    ensures ResumeSlot(s.l1[..j]) < ResumeSlot(s.l1[..k])
  {
    hide Inv, NonEmpty;
    RecordExtends(s, k - 1);
    if j < k - 1 {
      ResumesLater(s, j, k - 1);
    }
  }

  lemma RunExtends(interval: nat, events: seq<Event>, e: Event)
    requires interval >= 1 && Runs(interval, events) && Enabled(After(interval, events), interval, e)
    ensures Runs(interval, events + [e]) && After(interval, events + [e]) == Next(After(interval, events), interval, e)
  {
    assert (events + [e])[..|events|] == events;
  }

  /** A post in flight lands late. */
  lemma LandsLate(b: Block, sent: Record)
    requires b.transactions != [] && sent == Record(0, 1, 1, b.stateRoot, [Entry(1, b)])
    ensures var events := [Produce(b)] + [RunSweep(1, InFlight)];
            && Runs(1, events) && After(1, events) == State([b], [], {sent}, 1, 0, [Whole(sent)])
            && Runs(1, events + [Land(sent)])
            && After(1, events + [Land(sent)]) == State([b], [sent], {}, 1, 0, [Whole(sent)])
  {
    OneBlock(b, 0);
    RunExtends(1, [], Produce(b));
    assert [] + [Produce(b)] == [Produce(b)];
    assert After(1, [Produce(b)]) == State([b], [], {}, 1, 0, []);
    RunExtends(1, [Produce(b)], RunSweep(1, InFlight));
    RunExtends(1, [Produce(b)] + [RunSweep(1, InFlight)], Land(sent));
    assert {sent} - {sent} == {};
  }

  lemma OneBlock(b: Block, no: nat)
    requires b.transactions != []
    ensures Window([b], no, 1, 1) == [Record(no, 1, 1, b.stateRoot, [Entry(1, b)])]
  {
    assert NonEmpty([b], 1, 0) == [];
    assert NonEmpty([b], 1, 1) == [Entry(1, b)];
  }

  /** The batcher of state `now`, with its cursor from an earlier state. */
  function Torn(earlier: State, now: State): State {
    now.(cursor := ResumeSlot(earlier.l1), next := |now.l1|)
  }

  /** A run in which the landing falls between the two reads of a re-derivation:
      the cursor comes from the empty L1 and the number from the new one, and the
      next sweep settles the block a second time. */
  lemma TornViewSettlesTwice(b: Block) returns (events: seq<Event>, last: Event)
    requires b.transactions != []
    ensures Runs(1, events) && Runs(1, events + [last])
    ensures var torn := Torn(After(1, events), After(1, events + [last]));
            && Enabled(torn, 1, RunSweep(1, Confirmed))
            && Payloads(Next(torn, 1, RunSweep(1, Confirmed)).l1) == [Entry(1, b), Entry(1, b)]
  {
    var sent, again := Record(0, 1, 1, b.stateRoot, [Entry(1, b)]), Record(1, 1, 1, b.stateRoot, [Entry(1, b)]);
    LandsLate(b, sent);
    events, last := [Produce(b)] + [RunSweep(1, InFlight)], Land(sent);
    OneBlock(b, 1);
    var torn := State([b], [sent], {}, 1, 1, [Whole(sent)]);
    assert Tip(torn, 1, 1) == 1;
    TwoPayloads(sent, again);
  }

  lemma TwoPayloads(a: Record, b: Record)
    ensures Payloads([a] + [b]) == a.payload + b.payload
  {
    assert [a][..0] == [] && ([a] + [b])[..1] == [a];
    assert Payloads([a]) == [] + a.payload;
  }
}
