/** Disaster recovery: reassemble every batch payload from the chunks published
    on L1, check the recovered history, and get the settled blocks back. */
module Recovery {
  import opened Common
  import opened Bytes
  import opened Settlement

  const CHUNK_BYTES := 800

  /** A published chunk: its index within the batch and its bytes. */
  datatype Part = Part(index: nat, data: seq<Byte>)

  // ----- chunking ------------------------------------------------------------

  function Chunks(data: seq<Byte>): seq<seq<Byte>> {
    if data == [] then []
    else if |data| <= CHUNK_BYTES then [data]
    else [data[..CHUNK_BYTES]] + Chunks(data[CHUNK_BYTES..])
  }

  function Concat(parts: seq<Part>): seq<Byte> {
    if parts == [] then [] else parts[0].data + Concat(parts[1..])
  }

  /** The chunks of a payload, numbered from `from`. */
  function Numbered(chunks: seq<seq<Byte>>, from: nat): (parts: seq<Part>)
    ensures |parts| == |chunks|
    ensures forall i | 0 <= i < |parts| :: parts[i] == Part(from + i, chunks[i])
  {
    if chunks == [] then [] else [Part(from, chunks[0])] + Numbered(chunks[1..], from + 1)
  }

  lemma {:induction false} ChunksRoundTrip(data: seq<Byte>, from: nat)
    ensures Concat(Numbered(Chunks(data), from)) == data
    ensures forall c | c in Chunks(data) :: 0 < |c| <= 800
    ensures forall i | 0 <= i < |Chunks(data)| - 1 :: |Chunks(data)[i]| == 800
    decreases |data|
  {
    if |data| > CHUNK_BYTES {
      ChunksRoundTrip(data[CHUNK_BYTES..], from + 1);
      assert Chunks(data)[1..] == Chunks(data[CHUNK_BYTES..]);
    }
  }

  // ----- sorting by index ----------------------------------------------------

  /** Stable insertion: before the first part with a larger index. */
  function Insert(p: Part, sorted: seq<Part>): seq<Part> {
    if sorted == [] || p.index < sorted[0].index then [p] + sorted else [sorted[0]] + Insert(p, sorted[1..])
  }

  function Sort(parts: seq<Part>): seq<Part> {
    if parts == [] then [] else Insert(parts[|parts| - 1], Sort(parts[..|parts| - 1]))
  }

  predicate Sorted(parts: seq<Part>) {
    |parts| < 2 || (parts[0].index <= parts[1].index && Sorted(parts[1..]))
  }

  lemma {:induction false} InsertKeeps(p: Part, s: seq<Part>)
    ensures multiset(Insert(p, s)) == multiset(s) + multiset{p}
  {
    if s != [] && p.index >= s[0].index {
      InsertKeeps(p, s[1..]);
      assert s == [s[0]] + s[1..];
    }
  }

  lemma {:induction false} InsertSorts(p: Part, s: seq<Part>)
    requires Sorted(s)
    ensures Sorted(Insert(p, s))
  {
    if s == [] || p.index < s[0].index {
      assert ([p] + s)[1..] == s;
    } else {
      var rest := Insert(p, s[1..]);
      InsertSorts(p, s[1..]);
      assert ([s[0]] + rest)[1..] == rest;
    }
  }

  lemma {:induction false} SortSorts(parts: seq<Part>)
    ensures Sorted(Sort(parts))
  {
    hide Insert;
    if parts != [] {
      var n := |parts| - 1;
      SortSorts(parts[..n]);
      InsertSorts(parts[n], Sort(parts[..n]));
    }
  }

  lemma {:induction false} SortKeeps(parts: seq<Part>)
    ensures multiset(Sort(parts)) == multiset(parts)
  {
    hide Insert;
    if parts != [] {
      var n := |parts| - 1;
      SortKeeps(parts[..n]);
      InsertKeeps(parts[n], Sort(parts[..n]));
      assert parts == parts[..n] + [parts[n]];
      assert multiset(parts) == multiset(parts[..n]) + multiset{parts[n]};
    }
  }

  lemma {:induction false} SortedMin(a: seq<Part>, j: nat)
    requires Sorted(a) && j < |a|
    ensures a[0].index <= a[j].index
  {
    if j > 0 {
      SortedMin(a[1..], j - 1);
    }
  }

  lemma HeadIsFirst(a: seq<Part>, chunks: seq<seq<Byte>>, from: nat)
    requires Sorted(a) && chunks != [] && multiset(a) == multiset(Numbered(chunks, from))
    ensures a != [] && a[0] == Part(from, chunks[0])
  {
    var b := Numbered(chunks, from);
    assert b[0] in multiset(b) && b[0] in multiset(a);
    var j :| 0 <= j < |a| && a[j] == b[0];
    SortedMin(a, j);
    assert a[0] in multiset(a) && a[0] in multiset(b);
    var i :| 0 <= i < |b| && b[i] == a[0];
  }

  lemma WithoutHead(a: seq<Part>)
    requires a != []
    ensures multiset(a[1..]) == multiset(a) - multiset{a[0]}
  {
    assert a == [a[0]] + a[1..];
  }

  /** Distinctly numbered parts have one sorted order. */
  lemma {:induction false} SortedUnique(a: seq<Part>, chunks: seq<seq<Byte>>, from: nat)
    requires Sorted(a) && multiset(a) == multiset(Numbered(chunks, from))
    ensures a == Numbered(chunks, from)
    decreases |chunks|
  {
    var b := Numbered(chunks, from);
    if chunks == [] {
      assert |multiset(a)| == |a|;
    } else {
      HeadIsFirst(a, chunks, from);
      WithoutHead(a);
      WithoutHead(b);
      assert b[1..] == Numbered(chunks[1..], from + 1);
      SortedUnique(a[1..], chunks[1..], from + 1);
    }
  }

  /** Sort and concatenate whatever was fetched for a batch. */
  function Reassemble(parts: seq<Part>): seq<Byte> {
    Concat(Sort(parts))
  }

  // ----- reassembly ----------------------------------------------------------

  /** Fetched in any order, chunks published once give the payload back. */
  lemma ReassembleOnce(data: seq<Byte>, parts: seq<Part>)
    requires multiset(parts) == multiset(Numbered(Chunks(data), 0))
    ensures Reassemble(parts) == data
  {
    SortSorts(parts);
    SortKeeps(parts);
    SortedUnique(Sort(parts), Chunks(data), 0);
    ChunksRoundTrip(data, 0);
  }

  // ----- chunks published more than once -------------------------------------

  lemma {:induction false} LengthWithoutOne(all: seq<Part>, i: nat)
    requires i < |all|
    ensures |Concat(all)| == |Concat(all[..i] + all[i + 1..])| + |all[i].data|
  {
    var rest := all[..i] + all[i + 1..];
    if i == 0 {
      assert rest == all[1..];
    } else {
      LengthWithoutOne(all[1..], i - 1);
      assert rest[0] == all[0] && rest[1..] == all[1..][..i - 1] + all[1..][i..];
    }
  }

  lemma WithoutOne(all: seq<Part>, i: nat)
    requires i < |all|
    ensures multiset(all[..i] + all[i + 1..]) == multiset(all) - multiset{all[i]}
  {
    assert all == all[..i] + [all[i]] + all[i + 1..];
  }

  predicate AllFilled(parts: seq<Part>) {
    forall p | p in parts :: p.data != []
  }

  lemma NothingOrMore(all: seq<Part>)
    requires AllFilled(all)
    ensures |Concat([])| == 0
    ensures |Concat(all)| == 0 ==> all == []
  {
    if all != [] {
      assert all[0] in all;
    }
  }

  lemma OccursIn(p: Part, all: seq<Part>) returns (i: nat)
    requires p in multiset(all)
    ensures i < |all| && all[i] == p
  {
    i :| 0 <= i < |all| && all[i] == p;
  }

  /** A part list that covers another is at least as long, and longer when it
      holds anything more. */
  lemma {:induction false} LengthOfSubset(sub: seq<Part>, all: seq<Part>)
    requires multiset(sub) <= multiset(all) && AllFilled(all)
    ensures |Concat(sub)| <= |Concat(all)|
    ensures |Concat(sub)| == |Concat(all)| ==> multiset(sub) == multiset(all)
    decreases |sub|
  {
    hide Concat, AllFilled;
    if sub == [] {
      NothingOrMore(all);
    } else {
      var tail, rest := TakeOneFromBoth(sub, all);
      LengthOfSubset(tail, rest);
    }
  }

  /** The first part of `sub` removed from both lists. */
  lemma TakeOneFromBoth(sub: seq<Part>, all: seq<Part>) returns (tail: seq<Part>, rest: seq<Part>)
    requires multiset(sub) <= multiset(all) && AllFilled(all) && sub != []
    ensures multiset(tail) <= multiset(rest) && AllFilled(rest) && |tail| < |sub|
    ensures multiset(tail) == multiset(rest) ==> multiset(sub) == multiset(all)
    ensures |Concat(sub)| - |Concat(tail)| == |Concat(all)| - |Concat(rest)|
  {
    hide Concat, AllFilled;
    var p := sub[0];
    assert p in multiset(sub) by { assert sub[0] in sub; }
    var i := OccursIn(p, all);
    tail := TakeOne(sub, 0);
    rest := TakeOne(all, i);
    StillFilled(all, i);
    OneLess(multiset(sub), multiset(all), p);
  }

  lemma TakeOne(all: seq<Part>, i: nat) returns (rest: seq<Part>)
    requires i < |all|
    ensures rest == all[..i] + all[i + 1..] && multiset(rest) == multiset(all) - multiset{all[i]}
    ensures |Concat(all)| == |Concat(rest)| + |all[i].data|
  {
    hide Concat;
    rest := all[..i] + all[i + 1..];
    LengthWithoutOne(all, i);
    WithoutOne(all, i);
  }

  lemma OneLess(a: multiset<Part>, b: multiset<Part>, p: Part)
    requires a <= b && p in a
    ensures a - multiset{p} <= b - multiset{p}
    ensures a - multiset{p} == b - multiset{p} ==> a == b
  {
    if a - multiset{p} == b - multiset{p} {
      assert a == (a - multiset{p}) + multiset{p};
      assert b == (b - multiset{p}) + multiset{p};
    }
  }

  lemma StillFilled(all: seq<Part>, i: nat)
    requires AllFilled(all) && i < |all|
    ensures AllFilled(all[..i] + all[i + 1..])
  {
  }

  /** When every chunk was published at least once, reassembly returns the
      payload exactly when nothing was published beyond that: a retried batch
      number leaves extra chunks behind and can no longer be recovered. */
  lemma ReassembleIff(data: seq<Byte>, parts: seq<Part>)
    requires multiset(Numbered(Chunks(data), 0)) <= multiset(parts)
    requires AllFilled(parts)
    ensures Reassemble(parts) == data <==> multiset(parts) == multiset(Numbered(Chunks(data), 0))
  {
    if multiset(parts) == multiset(Numbered(Chunks(data), 0)) {
      ReassembleOnce(data, parts);
    }
    if Reassemble(parts) == data {
      SortKeeps(parts);
      ChunksRoundTrip(data, 0);
      assert forall p | p in Sort(parts) :: p in multiset(Sort(parts)) && p in multiset(parts) && p in parts;
      LengthOfSubset(Numbered(Chunks(data), 0), Sort(parts));
    }
  }

  // ----- fetching batches ----------------------------------------------------

  datatype BatchPayload = BatchPayload(no: nat, first: nat, last: nat, blocks: seq<Entry>)
  datatype L1Record = L1Record(no: nat, first: nat, last: nat, stateRoot: H256, daHash: H256, chunkCount: nat)
  datatype Recovered = Recovered(record: L1Record, payload: BatchPayload)

  /** Payload compression and the hash that ties the bytes to the record. */
  datatype Codec = Codec(
    compress: BatchPayload -> seq<Byte>,
    decompress: seq<Byte> -> Option<BatchPayload>,
    daHash: seq<Byte> -> H256)

  ghost predicate Lossless(c: Codec) {
    forall p :: c.decompress(c.compress(p)) == Some(p)
  }

  function PayloadOf(r: Record): BatchPayload {
    BatchPayload(r.no, r.first, r.last, r.payload)
  }

  /** What L1 stores for a record of the protocol. */
  function Published(c: Codec, r: Record): L1Record {
    var data := c.compress(PayloadOf(r));
    L1Record(r.no, r.first, r.last, r.stateRoot, c.daHash(data), |Chunks(data)|)
  }

  function FetchOne(c: Codec, record: L1Record, parts: seq<Part>): Option<Recovered> {
    var bytes := Reassemble(parts);
    if c.daHash(bytes) != record.daHash then None
    else match c.decompress(bytes)
      case Some(payload) => Some(Recovered(record, payload))
      case None => None
  }

  /** Batch by batch; the first that does not reassemble stops the recovery. */
  method FetchBatches(c: Codec, records: seq<L1Record>, chunks: map<nat, seq<Part>>) returns (r: Option<seq<Recovered>>)
    ensures r.Some? <==> forall k | 0 <= k < |records| :: FetchOne(c, records[k], PartsOf(chunks, k)).Some?
    ensures r.Some? ==> |r.value| == |records| &&
                        forall k | 0 <= k < |records| :: Some(r.value[k]) == FetchOne(c, records[k], PartsOf(chunks, k))
  {
    hide Reassemble;
    var out: seq<Recovered> := [];
    for k := 0 to |records|
      invariant |out| == k
      invariant forall j | 0 <= j < k :: FetchOne(c, records[j], PartsOf(chunks, j)) == Some(out[j])
    {
      var bytes := Reassemble(PartsOf(chunks, k));
      if c.daHash(bytes) != records[k].daHash {
        assert FetchOne(c, records[k], PartsOf(chunks, k)).None?;
        return None;
      }
      var payload := c.decompress(bytes);
      if payload.None? {
        assert FetchOne(c, records[k], PartsOf(chunks, k)).None?;
        return None;
      }
      out := out + [Recovered(records[k], payload.value)];
    }
    r := Some(out);
  }

  function PartsOf(chunks: map<nat, seq<Part>>, k: nat): seq<Part> {
    if k in chunks then chunks[k] else []
  }

  // ----- checking the history ------------------------------------------------

  datatype RecoverError =
    | NoBatches
    | SequenceGap(expected: nat, got: nat)
    | NonContiguous(batch: nat, first: nat, prev: nat)
    | EmptyPayload(batch: nat)
    | OutOfRange(batch: nat, slot: nat)

  datatype Summary = Summary(batches: nat, blocks: nat, transactions: nat, firstSlot: nat, lastSlot: nat,
                             finalStateRoot: H256)

  datatype Verdict = Intact(summary: Summary) | Broken(error: RecoverError)

  /** The first block of a batch outside its declared range. */
  function Stray(record: L1Record, blocks: seq<Entry>): Option<nat> {
    if blocks == [] then None
    else if blocks[0].slot < record.first || blocks[0].slot > record.last then Some(blocks[0].slot)
    else Stray(record, blocks[1..])
  }

  /** What is wrong with batch `i`, given the one before it. */
  function Problem(batches: seq<Recovered>, i: nat): Option<RecoverError>
    requires i < |batches|
  {
    var r := batches[i].record;
    if r.no != i then Some(SequenceGap(i, r.no))
    else if i > 0 && r.first <= batches[i - 1].record.last then
      Some(NonContiguous(r.no, r.first, batches[i - 1].record.last))
    else if batches[i].payload.blocks == [] then Some(EmptyPayload(r.no))
    else match Stray(r, batches[i].payload.blocks)
      case Some(slot) => Some(OutOfRange(r.no, slot))
      case None => None
  }

  /** What the check demands of batch `i`: its number, a range after the one
      before it, and blocks, all of them in its range. */
  ghost predicate Sound(batches: seq<Recovered>, i: nat)
    requires i < |batches|
  {
    var r, blocks := batches[i].record, batches[i].payload.blocks;
    && r.no == i
    && (i > 0 ==> batches[i - 1].record.last < r.first)
    && blocks != []
    && forall e | e in blocks :: r.first <= e.slot <= r.last
  }

  /** The error names the first demand that batch `i` fails. */
  ghost predicate Blames(batches: seq<Recovered>, i: nat, error: RecoverError)
    requires i < |batches|
  {
    var r, blocks := batches[i].record, batches[i].payload.blocks;
    match error
    case NoBatches => false
    case SequenceGap(expected, got) => expected == i != got == r.no
    case NonContiguous(batch, first, prev) =>
      batch == i == r.no && i > 0 && first == r.first <= prev == batches[i - 1].record.last
    case EmptyPayload(batch) =>
      batch == i == r.no && (i > 0 ==> batches[i - 1].record.last < r.first) && blocks == []
    case OutOfRange(batch, slot) =>
      && batch == i == r.no && (i > 0 ==> batches[i - 1].record.last < r.first)
      && exists k | 0 <= k < |blocks| :: slot == blocks[k].slot && !(r.first <= slot <= r.last) &&
           forall j | 0 <= j < k :: r.first <= blocks[j].slot <= r.last
  }

  lemma {:induction false} StrayIs(record: L1Record, blocks: seq<Entry>) returns (k: nat)
    ensures Stray(record, blocks).None? <==> forall e | e in blocks :: record.first <= e.slot <= record.last
    ensures Stray(record, blocks).Some? ==>
              && k < |blocks| && Stray(record, blocks).value == blocks[k].slot
              && !(record.first <= blocks[k].slot <= record.last)
              && forall j | 0 <= j < k :: record.first <= blocks[j].slot <= record.last
  {
    k := 0;
    if blocks != [] && record.first <= blocks[0].slot <= record.last {
      var n := StrayIs(record, blocks[1..]);
      k := n + 1;
    }
  }

  lemma ProblemIff(batches: seq<Recovered>, i: nat)
    requires i < |batches|
    ensures Problem(batches, i).None? <==> Sound(batches, i)
    ensures Problem(batches, i).Some? ==> Blames(batches, i, Problem(batches, i).value)
  {
    hide Stray;
    var k := StrayIs(batches[i].record, batches[i].payload.blocks);
  }

  lemma AllSound(batches: seq<Recovered>)
    ensures (forall i | 0 <= i < |batches| :: Sound(batches, i)) <==>
            && (forall i | 0 <= i < |batches| :: batches[i].record.no == i)
            && (forall i | 0 < i < |batches| :: batches[i - 1].record.last < batches[i].record.first)
            && (forall i | 0 <= i < |batches| :: batches[i].payload.blocks != [])
            && (forall i, e | 0 <= i < |batches| && e in batches[i].payload.blocks ::
                  batches[i].record.first <= e.slot <= batches[i].record.last)
  {
    if forall i | 0 <= i < |batches| :: Sound(batches, i) {
      forall i, e | 0 <= i < |batches| && e in batches[i].payload.blocks
        ensures batches[i].record.first <= e.slot <= batches[i].record.last
      {
        assert Sound(batches, i);
      }
      forall i | 0 <= i < |batches|
        ensures batches[i].record.no == i && batches[i].payload.blocks != []
        ensures i > 0 ==> batches[i - 1].record.last < batches[i].record.first
      {
        assert Sound(batches, i);
      }
    }
  }

  function AllBlocks(batches: seq<Recovered>): seq<Entry> {
    if batches == [] then [] else AllBlocks(batches[..|batches| - 1]) + batches[|batches| - 1].payload.blocks
  }

  function AllTransactions(blocks: seq<Entry>): seq<seq<Byte>> {
    if blocks == [] then [] else blocks[0].block.transactions + AllTransactions(blocks[1..])
  }

  /** The totals of a history, from its first record to its last. */
  ghost predicate Totals(batches: seq<Recovered>, s: Summary)
    requires batches != []
  {
    var last := batches[|batches| - 1].record;
    && s.batches == |batches|
    && s.blocks == |AllBlocks(batches)| && s.transactions == |AllTransactions(AllBlocks(batches))|
    && s.firstSlot == batches[0].record.first && s.lastSlot == last.last && s.finalStateRoot == last.stateRoot
  }

  lemma {:induction false} TransactionsSplit(a: seq<Entry>, b: seq<Entry>)
    ensures AllTransactions(a + b) == AllTransactions(a) + AllTransactions(b)
  {
    if a == [] {
      assert a + b == b;
    } else {
      TransactionsSplit(a[1..], b);
      assert (a + b)[0] == a[0] && (a + b)[1..] == a[1..] + b;
      var first, mid, rest := a[0].block.transactions, AllTransactions(a[1..]), AllTransactions(b);
      assert first + (mid + rest) == first + mid + rest;
    }
  }

  method CountTransactions(blocks: seq<Entry>) returns (n: nat)
    ensures n == |AllTransactions(blocks)|
  {
    n := 0;
    for i := 0 to |blocks|
      invariant n + |AllTransactions(blocks[i..])| == |AllTransactions(blocks)|
    {
      assert blocks[i..][1..] == blocks[i + 1..];
      n := n + |blocks[i].block.transactions|;
    }
  }

  method FindStray(record: L1Record, blocks: seq<Entry>) returns (slot: Option<nat>)
    ensures slot == Stray(record, blocks)
  {
    for i := 0 to |blocks|
      invariant Stray(record, blocks) == Stray(record, blocks[i..])
    {
      assert blocks[i..][1..] == blocks[i + 1..];
      if blocks[i].slot < record.first || blocks[i].slot > record.last {
        return Some(blocks[i].slot);
      }
    }
    slot := None;
  }

  /** Accepts exactly the histories numbered from 0 with increasing ranges and
      blocks within them, and blames the first batch that fails otherwise. */
  method VerifyHistory(batches: seq<Recovered>) returns (v: Verdict)
    ensures batches == [] <==> v == Broken(NoBatches)
    ensures v.Intact? <==>
              && batches != []
              && (forall i | 0 <= i < |batches| :: batches[i].record.no == i)
              && (forall i | 0 < i < |batches| :: batches[i - 1].record.last < batches[i].record.first)
              && (forall i | 0 <= i < |batches| :: batches[i].payload.blocks != [])
              && (forall i, e | 0 <= i < |batches| && e in batches[i].payload.blocks ::
                    batches[i].record.first <= e.slot <= batches[i].record.last)
    ensures v.Intact? ==> Totals(batches, v.summary)
    ensures v.Broken? && batches != [] ==>
              exists i | 0 <= i < |batches| :: Blames(batches, i, v.error) && forall j | 0 <= j < i :: Sound(batches, j)
  {
    hide Stray, Blames, Sound;
    if batches == [] {
      return Broken(NoBatches);
    }
    AllSound(batches);
    var blocks, transactions, first, prev := 0, 0, 0, 0;
    for i := 0 to |batches|
      invariant forall j | 0 <= j < i :: Sound(batches, j)
      invariant i > 0 ==> prev == batches[i - 1].record.last && first == batches[0].record.first
      invariant blocks == |AllBlocks(batches[..i])|
      invariant transactions == |AllTransactions(AllBlocks(batches[..i]))|
    {
      var r := batches[i].record;
      ProblemIff(batches, i);
      if r.no != i {
        return Broken(SequenceGap(i, r.no));
      }
      if i > 0 && r.first <= prev {
        return Broken(NonContiguous(r.no, r.first, prev));
      }
      if batches[i].payload.blocks == [] {
        return Broken(EmptyPayload(r.no));
      }
      var stray := FindStray(r, batches[i].payload.blocks);
      if stray.Some? {
        return Broken(OutOfRange(r.no, stray.value));
      }
      var n := CountTransactions(batches[i].payload.blocks);
      TransactionsSplit(AllBlocks(batches[..i]), batches[i].payload.blocks);
      assert batches[..i + 1][..i] == batches[..i];
      blocks := blocks + |batches[i].payload.blocks|;
      transactions := transactions + n;
      first := if i == 0 then r.first else first;
      prev := r.last;
    }
    assert batches[..|batches|] == batches;
    var last := batches[|batches| - 1].record;
    v := Intact(Summary(|batches|, blocks, transactions, first, prev, last.stateRoot));
  }

  // ----- the round trip ------------------------------------------------------

  function RecoveredFrom(c: Codec, l1: seq<Record>): (batches: seq<Recovered>)
    ensures |batches| == |l1|
  {
    seq(|l1|, k requires 0 <= k < |l1| => Recovered(Published(c, l1[k]), PayloadOf(l1[k])))
  }

  /** Each batch's chunks, in some order, published once. */
  ghost predicate PublishedOnce(c: Codec, l1: seq<Record>, chunks: map<nat, seq<Part>>) {
    forall k | 0 <= k < |l1| ::
      multiset(PartsOf(chunks, k)) == multiset(Numbered(Chunks(c.compress(PayloadOf(l1[k]))), 0))
  }

  lemma FetchesPublished(c: Codec, l1: seq<Record>, chunks: map<nat, seq<Part>>, k: nat)
    requires Lossless(c) && PublishedOnce(c, l1, chunks) && k < |l1|
    ensures FetchOne(c, Published(c, l1[k]), PartsOf(chunks, k)) == Some(RecoveredFrom(c, l1)[k])
  {
    hide Reassemble, Chunks;
    ReassembleOnce(c.compress(PayloadOf(l1[k])), PartsOf(chunks, k));
  }

  lemma {:induction false} BlocksArePayloads(c: Codec, l1: seq<Record>)
    ensures AllBlocks(RecoveredFrom(c, l1)) == Payloads(l1)
  {
    if l1 != [] {
      var n := |l1| - 1;
      BlocksArePayloads(c, l1[..n]);
      assert RecoveredFrom(c, l1)[..n] == RecoveredFrom(c, l1[..n]);
    }
  }

  lemma SettledIsSound(c: Codec, s: State, k: nat)
    requires Inv(s) && k < |s.l1|
    ensures Sound(RecoveredFrom(c, s.l1), k)
  {
    hide NonEmpty;
    var r := s.l1[k];
    assert Fits(s.chain, s.l1, r);
    if k > 0 {
      RangesOrdered(s, k - 1, k);
    }
    forall e | e in r.payload ensures r.first <= e.slot <= r.last {
      PayloadRange(s, k, e);
    }
  }

  /** Every batch reassembles, the check finds nothing wrong with any of them,
      and the recovered blocks are exactly the settled non-empty blocks in slot
      order. The totals are those of the settled chain, with the state root after
      its last settled slot. */
  ghost predicate RecoversExactly(c: Codec, s: State, chunks: map<nat, seq<Part>>)
    requires s.l1 != []
  {
    var batches := RecoveredFrom(c, s.l1);
    var end := s.l1[|s.l1| - 1].last;
    && (forall k | 0 <= k < |s.l1| :: FetchOne(c, Published(c, s.l1[k]), PartsOf(chunks, k)) == Some(batches[k]))
    && (forall k | 0 <= k < |s.l1| :: Sound(batches, k))
    && 1 <= end <= |s.chain|
    && AllBlocks(batches) == NonEmpty(s.chain, 1, end)
    && Totals(batches, Summary(|s.l1|, |NonEmpty(s.chain, 1, end)|, |AllTransactions(NonEmpty(s.chain, 1, end))|,
                               s.l1[0].first, end, s.chain[end - 1].stateRoot))
  }

  /** Whatever history the protocol produced, chunks published once and fetched
      in any order recover it. */
  lemma RecoversSettledChain(interval: nat, events: seq<Event>, c: Codec, chunks: map<nat, seq<Part>>)
    requires 1 <= interval <= SWEEP_LIMIT && Runs(interval, events)
    requires Lossless(c) && After(interval, events).l1 != []
    requires PublishedOnce(c, After(interval, events).l1, chunks)
    ensures RecoversExactly(c, After(interval, events), chunks)
  {
    hide NonEmpty, Runs, After, Sound, FetchOne, AllBlocks, Payloads, PublishedOnce, Inv, AllTransactions, Totals;
    hide Published, PartsOf, ResumeSlot;
    var s := After(interval, events);
    RunsKeepInv(interval, events);
    SettledExactlyOnce(interval, events);
    forall k | 0 <= k < |s.l1|
      ensures FetchOne(c, Published(c, s.l1[k]), PartsOf(chunks, k)) == Some(RecoveredFrom(c, s.l1)[k])
    {
      FetchesPublished(c, s.l1, chunks, k);
    }
    forall k | 0 <= k < |s.l1| ensures Sound(RecoveredFrom(c, s.l1), k) {
      SettledIsSound(c, s, k);
    }
    BlocksArePayloads(c, s.l1);
    LastEnds(s.l1);
    TotalsSettled(c, s);
  }

  lemma LastEnds(l1: seq<Record>)
    requires l1 != []
    ensures ResumeSlot(l1) - 1 == l1[|l1| - 1].last
  {
  }

  lemma TotalsSettled(c: Codec, s: State)
    requires s.l1 != [] && 1 <= s.l1[|s.l1| - 1].last <= |s.chain|
    requires AllBlocks(RecoveredFrom(c, s.l1)) == NonEmpty(s.chain, 1, s.l1[|s.l1| - 1].last)
    requires s.l1[|s.l1| - 1].stateRoot == s.chain[s.l1[|s.l1| - 1].last - 1].stateRoot
    ensures var end := s.l1[|s.l1| - 1].last;
            Totals(RecoveredFrom(c, s.l1),
                   Summary(|s.l1|, |NonEmpty(s.chain, 1, end)|, |AllTransactions(NonEmpty(s.chain, 1, end))|,
                           s.l1[0].first, end, s.chain[end - 1].stateRoot))
  {
    hide NonEmpty, AllBlocks, AllTransactions;
  }

  // ----- what a run leaves on L1 ---------------------------------------------

  function PartsFor(c: Codec, r: Record): seq<Part> {
    Numbered(Chunks(c.compress(PayloadOf(r))), 0)
  }

  /** The chunks an attempt put on L1. */
  function PartsFrom(c: Codec, p: Posting): seq<Part> {
    var all := PartsFor(c, p.record);
    if p.Cut? && p.chunks < |all| then all[..p.chunks] else all
  }

  /** Everything under number `k`, from every attempt at it. */
  function PartsUnder(c: Codec, posted: seq<Posting>, k: nat): seq<Part> {
    if posted == [] then []
    else
      var n := |posted| - 1;
      PartsUnder(c, posted[..n], k) + if posted[n].record.no == k then PartsFrom(c, posted[n]) else []
  }

  /** The chunks read back are those the run posted, in some order. */
  ghost predicate ReadFrom(c: Codec, posted: seq<Posting>, chunks: map<nat, seq<Part>>) {
    forall k: nat :: multiset(PartsOf(chunks, k)) == multiset(PartsUnder(c, posted, k))
  }

  /** Every batch has as many chunks on L1 as its record announces. */
  ghost predicate Counted(c: Codec, l1: seq<Record>, chunks: map<nat, seq<Part>>) {
    forall k | 0 <= k < |l1| :: |PartsOf(chunks, k)| == Published(c, l1[k]).chunkCount
  }

  /** The data hash tells what is reassembled from what was settled. */
  ghost predicate HashTells(c: Codec, l1: seq<Record>, chunks: map<nat, seq<Part>>) {
    forall k | 0 <= k < |l1| ::
      var bytes, data := Reassemble(PartsOf(chunks, k)), c.compress(PayloadOf(l1[k]));
      c.daHash(bytes) == c.daHash(data) ==> bytes == data
  }

  lemma {:induction false} WholeIsUnder(c: Codec, posted: seq<Posting>, r: Record)
    requires Whole(r) in posted
    ensures multiset(PartsFor(c, r)) <= multiset(PartsUnder(c, posted, r.no))
  {
    hide PartsFor;
    var n := |posted| - 1;
    if posted[n] != Whole(r) {
      WholeIsUnder(c, posted[..n], r);
    }
  }

  lemma {:induction false} UnderFilled(c: Codec, posted: seq<Posting>, k: nat)
    ensures AllFilled(PartsUnder(c, posted, k))
  {
    if posted != [] {
      var n := |posted| - 1;
      UnderFilled(c, posted[..n], k);
      ChunksRoundTrip(c.compress(PayloadOf(posted[n].record)), 0);
    }
  }

  lemma SameCount(sub: seq<Part>, all: seq<Part>)
    requires multiset(sub) <= multiset(all)
    ensures |sub| == |all| <==> multiset(sub) == multiset(all)
  {
    assert |multiset(sub)| == |sub| && |multiset(all)| == |all|;
    assert multiset(all) == multiset(sub) + (multiset(all) - multiset(sub));
  }

  /** A settled batch reassembles exactly when nothing but its own chunks was ever
      posted under its number, which its announced count tells. */
  lemma SettledReassembles(interval: nat, events: seq<Event>, c: Codec, chunks: map<nat, seq<Part>>, k: nat)
    requires 1 <= interval <= SWEEP_LIMIT && Runs(interval, events) && k < |After(interval, events).l1|
    requires ReadFrom(c, After(interval, events).posted, chunks)
    ensures var parts, r := PartsOf(chunks, k), After(interval, events).l1[k];
            && (Reassemble(parts) == c.compress(PayloadOf(r)) <==> |parts| == Published(c, r).chunkCount)
            && (|parts| == Published(c, r).chunkCount <==> multiset(parts) == multiset(PartsFor(c, r)))
  {
    hide Runs, After, Chunks, Reassemble;
    var s := After(interval, events);
    var parts, r, under := PartsOf(chunks, k), s.l1[k], PartsUnder(c, s.posted, k);
    SettledExactlyOnce(interval, events);
    ChunksFirst(interval, events, r);
    WholeIsUnder(c, s.posted, r);
    UnderFilled(c, s.posted, k);
    assert forall p | p in parts :: p in multiset(parts) && p in multiset(under) && p in under;
    SameCount(PartsFor(c, r), parts);
    ReassembleIff(c.compress(PayloadOf(r)), parts);
  }

  /** Over every run, the history on L1 is recovered exactly when every batch has as
      many chunks as its record announces. */
  lemma RecoversIff(interval: nat, events: seq<Event>, c: Codec, chunks: map<nat, seq<Part>>)
    requires 1 <= interval <= SWEEP_LIMIT && Runs(interval, events) && Lossless(c)
    requires var s := After(interval, events);
             s.l1 != [] && ReadFrom(c, s.posted, chunks) && HashTells(c, s.l1, chunks)
    ensures RecoversExactly(c, After(interval, events), chunks) <==> Counted(c, After(interval, events).l1, chunks)
  {
    hide Runs, After, PartsFor, Reassemble, ReadFrom, NonEmpty, Sound, AllBlocks, AllTransactions;
    var s := After(interval, events);
    forall k | 0 <= k < |s.l1|
      ensures var parts, r := PartsOf(chunks, k), s.l1[k];
              && (Reassemble(parts) == c.compress(PayloadOf(r)) <==> |parts| == Published(c, r).chunkCount)
              && (|parts| == Published(c, r).chunkCount <==> multiset(parts) == multiset(PartsFor(c, r)))
    {
      SettledReassembles(interval, events, c, chunks, k);
    }
    if Counted(c, s.l1, chunks) {
      assert PublishedOnce(c, s.l1, chunks) by { OnceIs(c, s.l1, chunks); }
      RecoversSettledChain(interval, events, c, chunks);
    }
    if RecoversExactly(c, s, chunks) {
      forall k | 0 <= k < |s.l1| ensures |PartsOf(chunks, k)| == Published(c, s.l1[k]).chunkCount {
        assert FetchOne(c, Published(c, s.l1[k]), PartsOf(chunks, k)).Some?;
      }
    }
  }

  lemma OnceIs(c: Codec, l1: seq<Record>, chunks: map<nat, seq<Part>>)
    requires forall k | 0 <= k < |l1| :: multiset(PartsOf(chunks, k)) == multiset(PartsFor(c, l1[k]))
    ensures PublishedOnce(c, l1, chunks)
  {
    hide Chunks, Numbered;
  }

  /** A run in which a sweep fails after some chunks and is retried. The retry
      settles, and the history can no longer be read back. */
  lemma RetryLosesHistory(b: Block, n: nat, c: Codec, chunks: map<nat, seq<Part>>) returns (events: seq<Event>)
    requires b.transactions != [] && 0 < n && Lossless(c)
    requires var r := Record(0, 1, 1, b.stateRoot, [Entry(1, b)]);
             && c.compress(PayloadOf(r)) != []
             && ReadFrom(c, [Cut(r, n), Whole(r)], chunks) && HashTells(c, [r], chunks)
    ensures Runs(1, events)
    ensures var s := After(1, events);
            |s.l1| == 1 && s.posted == [Cut(s.l1[0], n), Whole(s.l1[0])] && !RecoversExactly(c, s, chunks)
  {
    hide PartsFor, Reassemble, RecoversExactly, Lossless;
    var r := Record(0, 1, 1, b.stateRoot, [Entry(1, b)]);
    events := FailThenPost(b, n, r);
    RetriedCount(c, r, n);
    assert multiset(PartsOf(chunks, 0)) == multiset(PartsUnder(c, [Cut(r, n), Whole(r)], 0));
    assert |multiset(PartsOf(chunks, 0))| == |PartsOf(chunks, 0)|;
    RecoversIff(1, events, c, chunks);
  }

  lemma FailThenPost(b: Block, n: nat, r: Record) returns (events: seq<Event>)
    requires b.transactions != [] && r == Record(0, 1, 1, b.stateRoot, [Entry(1, b)])
    ensures Runs(1, events) && After(1, events) == State([b], [r], {}, 2, 1, [Cut(r, n), Whole(r)])
  {
    OneBlock(b, 0);
    RunExtends(1, [], Produce(b));
    var first := [] + [Produce(b)];
    assert After(1, first) == State([b], [], {}, 1, 0, []);
    RunExtends(1, first, RunSweep(1, Lost(n)));
    var second := first + [RunSweep(1, Lost(n))];
    assert After(1, second) == State([b], [], {}, 1, 0, [Cut(r, n)]);
    RunExtends(1, second, RunSweep(1, Confirmed));
    events := second + [RunSweep(1, Confirmed)];
    assert [] + [r] == [r] && [Cut(r, n)] + [Whole(r)] == [Cut(r, n), Whole(r)];
  }

  lemma RetriedCount(c: Codec, r: Record, n: nat)
    requires r.no == 0 && 0 < n && c.compress(PayloadOf(r)) != []
    ensures |multiset(PartsUnder(c, [Cut(r, n), Whole(r)], 0))| > Published(c, r).chunkCount
  {
    var posted := [Cut(r, n), Whole(r)];
    assert posted[..1] == [Cut(r, n)] && posted[..1][..0] == [];
    assert PartsUnder(c, posted[..1], 0) == [] + PartsFrom(c, Cut(r, n));
    assert Published(c, r).chunkCount > 0;
    assert |PartsUnder(c, posted, 0)| == |multiset(PartsUnder(c, posted, 0))|;
  }
}
