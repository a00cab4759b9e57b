/**
 * Compact-filter headers: what peers must agree on before the wallet adopts it.
 *
 * The fingerprint of a candidate is the data it hashes, so equal fingerprints mean equal data.
 */
module Filters {
  import opened Machine
  import opened Lineage
  import opened HeaderChain

  const CHECKPOINT_INTERVAL: nat := 1000
  const MAX_CANDIDATES: nat := 16
  const MAX_VOTERS: nat := 8

  type FilterHash = nat
  type FilterHeader = nat
  type Group = nat

  datatype FilterRecord = FilterRecord(height: nat, filterHash: FilterHash, filterHeader: FilterHeader)

  datatype Pair = Pair(filterHash: FilterHash, filterHeader: FilterHeader)

  datatype Fingerprint = Fingerprint(checkpoints: map<nat, FilterHeader>, filters: map<Hash, Pair>)

  /** A candidate's key: the tip it was seen for and its fingerprint. */
  datatype Key = Key(tip: Hash, fingerprint: Fingerprint)

  function PairOf(r: FilterRecord): Pair { Pair(r.filterHash, r.filterHeader) }

  function PairsOf(records: map<Hash, FilterRecord>): map<Hash, Pair> { map h | h in records :: PairOf(records[h]) }

  ghost predicate ListsOnce<T(!new)>(order: seq<T>, keys: set<T>) {
    && (forall i, j :: 0 <= i < j < |order| ==> order[i] != order[j])
    && (forall k :: k in order <==> k in keys)
  }

  lemma {:induction false} ListLength<T(!new)>(order: seq<T>, keys: set<T>)
    requires ListsOnce(order, keys)
    ensures |order| == |keys|
  {
    if order == [] {
      assert keys == {};
    } else {
      var rest := keys - {order[0]};
      assert forall k :: k in order[1..] <==> k in rest;
      ListLength(order[1..], rest);
    }
  }

  lemma ListDropFirst<T(!new)>(order: seq<T>, keys: set<T>)
    requires ListsOnce(order, keys) && order != []
    ensures order[0] in keys && ListsOnce(order[1..], keys - {order[0]})
  {
    assert order[0] in order;
    assert order == [order[0]] + order[1..];
    forall i | 0 <= i < |order[1..]| ensures order[1..][i] != order[0] { assert order[i + 1] != order[0]; }
  }

  lemma ListAppend<T(!new)>(order: seq<T>, keys: set<T>, k: T)
    requires ListsOnce(order, keys) && k !in keys
    ensures ListsOnce(order + [k], keys + {k})
  {
    forall i | 0 <= i < |order| ensures order[i] != k { assert order[i] in order; }
    forall x ensures x in order + [k] <==> x in keys + {k} {
    }
  }

  /** At most 16 candidates of at most 8 voters, all for the current tip, and a queue that lists each once. */
  ghost predicate BooksOk(candidates: map<Key, set<Group>>, order: seq<Key>, tip: Option<Hash>, backers: map<Key, set<Group>>) {
    && |candidates| <= MAX_CANDIDATES
    && ListsOnce(order, candidates.Keys)
    && forall k :: k in candidates ==>
         |candidates[k]| <= MAX_VOTERS && tip == Some(k.tip) && k in backers && candidates[k] <= backers[k]
  }

  predicate MoreBacking(before: map<Key, set<Group>>, after: map<Key, set<Group>>) {
    forall k :: k in before ==> k in after && before[k] <= after[k]
  }

  datatype Book = Book(candidates: map<Key, set<Group>>, order: seq<Key>)

  /** The candidates and their queue once `key` has its place: first in, first out. */
  function Entered(candidates: map<Key, set<Group>>, order: seq<Key>, key: Key): Book {
    if key in candidates then Book(candidates, order)
    else if |candidates| < MAX_CANDIDATES || order == [] then Book(candidates[key := {}], order + [key])
    else Book((candidates - {order[0]})[key := {}], order[1..] + [key])
  }

  /** A group is counted while there is room for it. */
  function WithVoter(groups: set<Group>, group: Group): set<Group> {
    if |groups| < MAX_VOTERS then groups + {group} else groups
  }

  /** The voters of a candidate once `group` has reported it; those of another tip do not count. */
  function Voters(candidates: map<Key, set<Group>>, tip: Option<Hash>, key: Key, group: Group): set<Group> {
    WithVoter(if tip == Some(key.tip) then GroupsOf(candidates, key) else {}, group)
  }

  function GroupsOf(m: map<Key, set<Group>>, k: Key): set<Group> { if k in m then m[k] else {} }

  lemma NewCandidate(candidates: map<Key, set<Group>>, order: seq<Key>, tip: Option<Hash>, backers: map<Key, set<Group>>, key: Key)
    requires BooksOk(candidates, order, tip, backers) && key !in candidates && |candidates| < MAX_CANDIDATES && tip == Some(key.tip)
    ensures BooksOk(candidates[key := {}], order + [key], tip, backers[key := GroupsOf(backers, key)])
  {
    ListAppend(order, candidates.Keys, key);
    assert candidates[key := {}].Keys == candidates.Keys + {key};
    assert |candidates[key := {}]| == |candidates.Keys + {key}|;
  }

  lemma OneMoreVoter(candidates: map<Key, set<Group>>, order: seq<Key>, tip: Option<Hash>, backers: map<Key, set<Group>>, key: Key, groups: set<Group>)
    requires BooksOk(candidates, order, tip, backers) && key in candidates && |groups| <= MAX_VOTERS
    ensures BooksOk(candidates[key := groups], order, tip, backers[key := backers[key] + groups])
    ensures MoreBacking(backers, backers[key := backers[key] + groups])
  {
    assert candidates[key := groups].Keys == candidates.Keys;
    assert |candidates[key := groups]| == |candidates.Keys|;
  }

  lemma DropOldest(candidates: map<Key, set<Group>>, order: seq<Key>, tip: Option<Hash>, backers: map<Key, set<Group>>)
    requires BooksOk(candidates, order, tip, backers) && |candidates| == MAX_CANDIDATES
    ensures order != [] && order[0] in candidates
    ensures BooksOk(candidates - {order[0]}, order[1..], tip, backers) && |candidates - {order[0]}| < MAX_CANDIDATES
  {
    ListLength(order, candidates.Keys);
    ListDropFirst(order, candidates.Keys);
    assert (candidates - {order[0]}).Keys == candidates.Keys - {order[0]};
    assert |candidates - {order[0]}| == |candidates.Keys - {order[0]}|;
  }

  /** Enough distinct groups reported exactly this filter for this block, in one candidate. */
  predicate Backed(backers: map<Key, set<Group>>, required: nat, block: Hash, pair: Pair, k: Key) {
    && k in backers && required <= |backers[k]|
    && block in k.fingerprint.filters && k.fingerprint.filters[block] == pair
  }

  ghost predicate AllBacked(backers: map<Key, set<Group>>, required: nat, records: map<Hash, FilterRecord>) {
    forall h :: h in records ==> exists k :: Backed(backers, required, h, PairOf(records[h]), k)
  }

  /** Enough distinct groups reported exactly this filter header at this height, in one candidate. */
  predicate MarkBacked(backers: map<Key, set<Group>>, required: nat, height: nat, header: FilterHeader, k: Key) {
    && k in backers && required <= |backers[k]|
    && height in k.fingerprint.checkpoints && k.fingerprint.checkpoints[height] == header
  }

  ghost predicate MarksBacked(backers: map<Key, set<Group>>, required: nat, checkpoints: map<nat, FilterHeader>) {
    forall h :: h in checkpoints ==> exists k :: MarkBacked(backers, required, h, checkpoints[h], k)
  }

  /** Adopted filters are kept: the same blocks, with the same filter hash and header. */
  predicate Keeps(before: map<Hash, FilterRecord>, after: map<Hash, FilterRecord>) {
    forall h :: h in before ==> h in after && PairOf(after[h]) == PairOf(before[h])
  }

  predicate Agree<K, V(==)>(a: map<K, V>, b: map<K, V>) { forall k :: k in a && k in b ==> a[k] == b[k] }

  /** The loops that look for a conflict before anything is adopted. */
  method CheckAgree<K, V(==)>(a: map<K, V>, b: map<K, V>) returns (ok: bool)
    ensures ok <==> Agree(a, b)
  {
    var left := a.Keys;
    while left != {}
      invariant left <= a.Keys
      invariant forall k :: k in a && k !in left && k in b ==> a[k] == b[k]
      decreases left
    {
      var k :| k in left;
      if k in b && b[k] != a[k] { return false; }
      left := left - {k};
    }
    ok := true;
  }

  // ------------------------------------------------------------- header ranges

  type HeaderHash = (FilterHash, FilterHeader) -> FilterHeader

  /** The filter header after the first `n` filter hashes. */
  function HeaderAfter(f: HeaderHash, hashes: seq<FilterHash>, previous: FilterHeader, n: nat): FilterHeader
    requires n <= |hashes|
  {
    if n == 0 then previous else f(hashes[n - 1], HeaderAfter(f, hashes, previous, n - 1))
  }

  function RecordAt(f: HeaderHash, start: nat, hashes: seq<FilterHash>, previous: FilterHeader, i: nat): FilterRecord
    requires i < |hashes|
  {
    FilterRecord(start + i, hashes[i], HeaderAfter(f, hashes, previous, i + 1))
  }

  /** `checkpoint`: there are none at genesis or between the regular heights. */
  function CheckpointAt(checkpoints: map<nat, FilterHeader>, height: nat): (mark: Option<FilterHeader>)
    ensures mark.Some? <==> 0 < height && height % 1000 == 0 && height in checkpoints
    ensures mark.Some? ==> mark.value == checkpoints[height]
  {
    if height == 0 || height % CHECKPOINT_INTERVAL != 0 then None else Lookup(checkpoints, height)
  }

  /** The `i`th filter of a range contradicts neither what is known of its block nor a checkpoint. */
  predicate Fits(f: HeaderHash, records: map<Hash, FilterRecord>, checkpoints: map<nat, FilterHeader>, start: nat,
                 blocks: seq<Hash>, hashes: seq<FilterHash>, previous: FilterHeader, i: nat)
    requires i < |blocks| == |hashes|
  {
    var r := RecordAt(f, start, hashes, previous, i);
    && (blocks[i] in records ==> PairOf(records[blocks[i]]) == PairOf(r))
    && (CheckpointAt(checkpoints, start + i).Some? ==> CheckpointAt(checkpoints, start + i).value == r.filterHeader)
  }

  ghost predicate AllFit(f: HeaderHash, records: map<Hash, FilterRecord>, checkpoints: map<nat, FilterHeader>, start: nat,
                         blocks: seq<Hash>, hashes: seq<FilterHash>, previous: FilterHeader)
    requires |blocks| == |hashes|
  {
    forall i :: 0 <= i < |blocks| ==> Fits(f, records, checkpoints, start, blocks, hashes, previous, i)
  }

  /** The records of the first `n` blocks of a range; a repeated block keeps its last one. */
  function RangeRecords(f: HeaderHash, start: nat, blocks: seq<Hash>, hashes: seq<FilterHash>, previous: FilterHeader, n: nat): map<Hash, FilterRecord>
    requires n <= |blocks| == |hashes|
  {
    if n == 0 then map[]
    else RangeRecords(f, start, blocks, hashes, previous, n - 1)[blocks[n - 1] := RecordAt(f, start, hashes, previous, n - 1)]
  }

  lemma {:induction false} RangeRecordsAre(f: HeaderHash, start: nat, blocks: seq<Hash>, hashes: seq<FilterHash>, previous: FilterHeader, n: nat, h: Hash)
    requires n <= |blocks| == |hashes| && h in RangeRecords(f, start, blocks, hashes, previous, n)
    ensures exists i :: 0 <= i < n && blocks[i] == h
              && RangeRecords(f, start, blocks, hashes, previous, n)[h] == RecordAt(f, start, hashes, previous, i)
  {
    if blocks[n - 1] != h {
      RangeRecordsAre(f, start, blocks, hashes, previous, n - 1, h);
    }
  }

  lemma RangeKeeps(f: HeaderHash, records: map<Hash, FilterRecord>, checkpoints: map<nat, FilterHeader>, start: nat,
                   blocks: seq<Hash>, hashes: seq<FilterHash>, previous: FilterHeader)
    requires |blocks| == |hashes|
    requires forall i :: 0 <= i < |blocks| ==> Fits(f, records, checkpoints, start, blocks, hashes, previous, i)
    ensures Keeps(records, records + RangeRecords(f, start, blocks, hashes, previous, |blocks|))
  {
    var added := RangeRecords(f, start, blocks, hashes, previous, |blocks|);
    forall h | h in records ensures PairOf((records + added)[h]) == PairOf(records[h]) {
      if h in added {
        RangeRecordsAre(f, start, blocks, hashes, previous, |blocks|, h);
        var i :| 0 <= i < |blocks| && blocks[i] == h && added[h] == RecordAt(f, start, hashes, previous, i);
        assert Fits(f, records, checkpoints, start, blocks, hashes, previous, i);
      }
    }
  }

  /**
   * The headers of a range form a chain: each is the hash of its filter with the header before it, the first with
   * the given one; and a block that is listed once is recorded with its own height, filter and header.
   */
  lemma {:induction false} RangeIsChained(f: HeaderHash, start: nat, blocks: seq<Hash>, hashes: seq<FilterHash>, previous: FilterHeader, n: nat, i: nat)
    requires i < n <= |blocks| == |hashes| && forall j :: 0 <= j < n && j != i ==> blocks[j] != blocks[i]
    ensures var records := RangeRecords(f, start, blocks, hashes, previous, n);
            && blocks[i] in records
            && records[blocks[i]].height == start + i && records[blocks[i]].filterHash == hashes[i]
            && records[blocks[i]].filterHeader == HeaderAfter(f, hashes, previous, i + 1)
    ensures HeaderAfter(f, hashes, previous, 0) == previous
    ensures HeaderAfter(f, hashes, previous, i + 1) == f(hashes[i], HeaderAfter(f, hashes, previous, i))
  {
    if i < n - 1 { RangeIsChained(f, start, blocks, hashes, previous, n - 1, i); }
  }

  // ------------------------------------------------------------------ the store

  class FilterHeaderStore {
    /** How many distinct network groups must agree. */
    const required: nat
    var records: map<Hash, FilterRecord>
    var checkpoints: map<nat, FilterHeader>
    var checkpointFloor: nat
    var observedTip: Option<Hash>
    var agreeingGroups: set<Group>
    var candidates: map<Key, set<Group>>
    var candidateOrder: seq<Key>
    var candidateTip: Option<Hash>
    /** Every group that ever backed a candidate. */
    ghost var backers: map<Key, set<Group>>

    /** The bookkeeping of candidates, kept by every operation. */
    ghost predicate Bookkeeping()
      reads this
    {
      BooksOk(candidates, candidateOrder, candidateTip, backers)
    }

    /** Everything adopted, filters and checkpoints alike, was backed by enough groups. */
    ghost predicate Valid()
      reads this
    {
      Bookkeeping() && AllBacked(backers, required, records) && MarksBacked(backers, required, checkpoints)
    }

    constructor (required: nat)
      ensures Valid() && this.required == required
      ensures records == map[] && checkpoints == map[] && checkpointFloor == 0 && observedTip == None
    {
      this.required := required;
      records, checkpoints, checkpointFloor, observedTip := map[], map[], 0, None;
      agreeingGroups, candidates, candidateOrder, candidateTip, backers := {}, map[], [], None, map[];
    }

    /** `clear`. */
    method Clear()
      modifies this
      ensures Valid()
      ensures records == map[] && checkpoints == map[] && checkpointFloor == 0 && observedTip == None
      ensures candidates == map[] && candidateOrder == [] && candidateTip == None && agreeingGroups == {}
    {
      records, checkpoints, checkpointFloor, observedTip := map[], map[], 0, None;
      agreeingGroups, candidates, candidateOrder, candidateTip := {}, map[], [], None;
    }

    /**
     * `retain_checkpoints`: what stays is what the window needs. A checkpoint at a regular height stays exactly if
     * it is at most one interval below the window and not above the tip.
     */
    method RetainCheckpoints(floor: nat, tip: nat)
      modifies this`checkpointFloor, this`checkpoints
      ensures IsCheckpointFloor(checkpointFloor, floor)
      ensures checkpoints == Between(old(checkpoints), checkpointFloor, tip)
      ensures forall h :: h in checkpoints ==> h in old(checkpoints) && checkpoints[h] == old(checkpoints)[h]
      ensures forall h :: h in old(checkpoints) && h % 1000 == 0 ==> (h in checkpoints <==> floor <= h + 1000 && h <= tip)
    {
      checkpointFloor := SatSub(floor, 1) / CHECKPOINT_INTERVAL * CHECKPOINT_INTERVAL;
      forall h: nat | h % CHECKPOINT_INTERVAL == 0 ensures checkpointFloor <= h <==> floor <= h + CHECKPOINT_INTERVAL {
        FloorReaches(floor, h);
      }
      checkpoints := Between(checkpoints, checkpointFloor, tip);
    }

    /** `prune`: records below the window or off the stored chain go; a new tip ends the collection of votes. */
    method Prune(chain: HeaderChain)
      requires Valid()
      modifies this
      ensures Valid() && backers == old(backers)
      ensures records == Retained(old(records), SatSub(chain.RetainedFloor(), 1), chain.headers.Keys)
      ensures forall h :: h in records <==> h in old(records) && chain.RetainedFloor() <= old(records)[h].height + 1 && h in chain.headers
      ensures forall h :: h in records ==> records[h] == old(records)[h]
      ensures IsCheckpointFloor(checkpointFloor, chain.RetainedFloor())
      ensures checkpoints == Between(old(checkpoints), checkpointFloor, chain.bestHeight)
      ensures candidateTip == Some(chain.best)
      ensures candidates == if old(candidateTip) == Some(chain.best) then old(candidates) else map[]
      ensures agreeingGroups == if old(candidateTip) == Some(chain.best) then old(agreeingGroups) else {}
      ensures observedTip == old(observedTip)
    {
      PruneTo(chain.RetainedFloor(), chain.headers.Keys, chain.best, chain.bestHeight);
    }

    /** The same, for a window and a tip. */
    method PruneTo(floor: nat, stored: set<Hash>, best: Hash, bestHeight: nat)
      requires Valid()
      modifies this
      ensures Valid() && backers == old(backers) && observedTip == old(observedTip)
      ensures records == Retained(old(records), SatSub(floor, 1), stored)
      ensures IsCheckpointFloor(checkpointFloor, floor) && checkpoints == Between(old(checkpoints), checkpointFloor, bestHeight)
      ensures candidateTip == Some(best)
      ensures candidates == if old(candidateTip) == Some(best) then old(candidates) else map[]
      ensures agreeingGroups == if old(candidateTip) == Some(best) then old(agreeingGroups) else {}
    {
      KeepRecords(floor, stored);
      KeepCheckpoints(floor, bestHeight);
      FollowTip(best);
    }

    method KeepRecords(floor: nat, stored: set<Hash>)
      requires Valid()
      modifies this`records
      ensures Valid() && records == Retained(old(records), SatSub(floor, 1), stored)
    {
      var kept := Retained(records, SatSub(floor, 1), stored);
      FewerRecords(backers, required, records, kept);
      records := kept;
    }

    method KeepCheckpoints(floor: nat, tip: nat)
      requires Valid()
      modifies this`checkpointFloor, this`checkpoints
      ensures Valid() && IsCheckpointFloor(checkpointFloor, floor) && checkpoints == Between(old(checkpoints), checkpointFloor, tip)
    {
      RetainCheckpoints(floor, tip);
      FewerMarks(backers, required, old(checkpoints), checkpoints);
    }

    method FollowTip(tip: Hash)
      requires Valid()
      modifies this`candidates, this`candidateOrder, this`candidateTip, this`agreeingGroups
      ensures Valid() && candidateTip == Some(tip)
      ensures candidates == if old(candidateTip) == Some(tip) then old(candidates) else map[]
      ensures agreeingGroups == if old(candidateTip) == Some(tip) then old(agreeingGroups) else {}
    {
      if candidateTip != Some(tip) {
        candidates, candidateOrder, agreeingGroups := map[], [], {};
        candidateTip := Some(tip);
      }
    }

    /**
     * `reconcile_checkpoints`: a known checkpoint is never replaced, even by a list that is refused half-way.
     */
    method ReconcileCheckpoints(stopHash: Hash, stopHeight: nat, list: seq<FilterHeader>) returns (ok: bool)
      modifies this`checkpoints, this`observedTip, this`agreeingGroups
      ensures ok <==> |list| == stopHeight / 1000
                      && forall i :: 0 <= i < |list| ==> ListedFits(old(checkpoints), checkpointFloor, list, i)
      ensures forall h :: h in old(checkpoints) ==> h in checkpoints && checkpoints[h] == old(checkpoints)[h]
      ensures ok ==> forall i :: 0 <= i < |list| && checkpointFloor <= CheckpointHeight(i) ==>
                CheckpointHeight(i) in checkpoints && checkpoints[CheckpointHeight(i)] == list[i]
      ensures forall h :: h in checkpoints && h !in old(checkpoints) ==>
                exists i :: 0 <= i < |list| && h == CheckpointHeight(i) && checkpointFloor <= h && checkpoints[h] == list[i]
      ensures ok ==> observedTip == Some(stopHash) && agreeingGroups == if old(observedTip) == Some(stopHash) then old(agreeingGroups) else {}
      ensures !ok ==> observedTip == old(observedTip) && agreeingGroups == old(agreeingGroups)
    {
      if |list| != stopHeight / CHECKPOINT_INTERVAL { return false; }
      var i := 0;
      while i < |list|
        invariant 0 <= i <= |list|
        invariant forall h :: h in old(checkpoints) ==> h in checkpoints && checkpoints[h] == old(checkpoints)[h]
        invariant forall h :: h in checkpoints && CheckpointHeight(i) <= h ==> h in old(checkpoints)
        invariant forall j :: 0 <= j < i ==> ListedFits(old(checkpoints), checkpointFloor, list, j)
        invariant forall j :: 0 <= j < i && checkpointFloor <= CheckpointHeight(j) ==>
          CheckpointHeight(j) in checkpoints && checkpoints[CheckpointHeight(j)] == list[j]
        invariant forall h :: h in checkpoints && h !in old(checkpoints) ==>
          exists j :: 0 <= j < i && h == CheckpointHeight(j) && checkpointFloor <= h && checkpoints[h] == list[j]
        invariant observedTip == old(observedTip) && agreeingGroups == old(agreeingGroups)
      {
        var height := CheckpointHeight(i);
        if height >= checkpointFloor {
          if height in checkpoints && checkpoints[height] != list[i] {
            assert !ListedFits(old(checkpoints), checkpointFloor, list, i);
            return false;
          }
          checkpoints := checkpoints[height := list[i]];
        }
        i := i + 1;
      }
      if observedTip != Some(stopHash) {
        observedTip := Some(stopHash);
        agreeingGroups := {};
      }
      ok := true;
    }

    /**
     * `apply_range`: a range is applied whole or not at all, exactly when every filter in it fits; what was known
     * of a block before is kept.
     */
    method ApplyRange(f: HeaderHash, start: nat, blocks: seq<Hash>, hashes: seq<FilterHash>, previous: FilterHeader)
      returns (r: Option<FilterHeader>)
      modifies this`records
      ensures r.Some? <==> |blocks| == |hashes| && AllFit(f, old(records), checkpoints, start, blocks, hashes, previous)
      ensures r.None? ==> records == old(records)
      ensures r.Some? ==> r.value == HeaderAfter(f, hashes, previous, |hashes|)
      ensures r.Some? ==> records == old(records) + RangeRecords(f, start, blocks, hashes, previous, |blocks|)
      ensures Keeps(old(records), records)
    {
      if |blocks| != |hashes| { return None; }
      var pending: map<Hash, FilterRecord>, running, i := map[], previous, 0;
      while i < |blocks|
        invariant 0 <= i <= |blocks|
        invariant running == HeaderAfter(f, hashes, previous, i)
        invariant pending == RangeRecords(f, start, blocks, hashes, previous, i)
        invariant forall j :: 0 <= j < i ==> Fits(f, records, checkpoints, start, blocks, hashes, previous, j)
      {
        var height := start + i;
        var header := f(hashes[i], running);
        if blocks[i] in records && (records[blocks[i]].filterHash != hashes[i] || records[blocks[i]].filterHeader != header) {
          assert !Fits(f, records, checkpoints, start, blocks, hashes, previous, i);
          return None;
        }
        var checkpoint := CheckpointAt(checkpoints, height);
        if checkpoint.Some? && checkpoint.value != header {
          assert !Fits(f, records, checkpoints, start, blocks, hashes, previous, i);
          return None;
        }
        pending := pending[blocks[i] := FilterRecord(height, hashes[i], header)];
        running := header;
        i := i + 1;
      }
      RangeKeeps(f, records, checkpoints, start, blocks, hashes, previous);
      records := records + pending;
      r := Some(running);
    }

    /**
     * `observe_candidate`. Nothing is adopted until enough groups back the very same candidate; then all of it
     * is, unless it contradicts something adopted before, and what was adopted before never changes.
     */
    method ObserveCandidate(group: Group, candidate: FilterHeaderStore) returns (agreement: Option<nat>)
      requires Valid() && candidate != this
      modifies this
      ensures Valid()
      ensures Keeps(old(records), records)
      ensures MoreBacking(old(backers), backers)
      ensures candidate.observedTip.None? ==> agreement.None?
      ensures candidate.observedTip.Some? ==>
        var n := |Voters(old(candidates), old(candidateTip), KeyOf(candidate), group)|;
        agreement == if n < required || Consistent(candidate, old(records), old(checkpoints)) then Some(n) else None
      ensures agreement.None? || agreement.value < required ==> records == old(records) && checkpoints == old(checkpoints)
      ensures agreement.Some? && required <= agreement.value ==>
        records == old(records) + candidate.records && checkpoints == old(checkpoints) + candidate.checkpoints
      ensures agreement.Some? && required <= agreement.value ==>
        && candidate.observedTip.Some? && observedTip == candidate.observedTip
        && agreeingGroups == Voters(old(candidates), old(candidateTip), KeyOf(candidate), group) && |agreeingGroups| == agreement.value
      ensures agreement.None? || agreement.value < required ==> observedTip == old(observedTip) && agreeingGroups == old(agreeingGroups)
      ensures candidate.observedTip.Some? ==>
        && candidateTip == candidate.observedTip && KeyOf(candidate) in candidates
        && candidates[KeyOf(candidate)] == Voters(old(candidates), old(candidateTip), KeyOf(candidate), group)
    {
      if candidate.observedTip.None? { return None; }
      var key := KeyOf(candidate);
      var groups := Vote(key, group);
      if |groups| < required { return Some(|groups|); }
      var adopted := Adopt(key, groups, candidate.records, candidate.checkpoints);
      agreement := if adopted then Some(|groups|) else None;
    }

    /** The second half of `observe_candidate`: look for conflicts, then take everything over. */
    method Adopt(key: Key, groups: set<Group>, more: map<Hash, FilterRecord>, marks: map<nat, FilterHeader>) returns (ok: bool)
      requires Valid() && key in backers && required <= |groups| && groups <= backers[key]
      requires key.fingerprint.filters == PairsOf(more) && key.fingerprint.checkpoints == marks
      modifies this`records, this`checkpoints, this`observedTip, this`agreeingGroups
      ensures Valid() && Keeps(old(records), records)
      ensures ok <==> Agree(marks, old(checkpoints)) && Agree(PairsOf(more), PairsOf(old(records)))
      ensures !ok ==> records == old(records) && checkpoints == old(checkpoints) && observedTip == old(observedTip) && agreeingGroups == old(agreeingGroups)
      ensures ok ==> records == old(records) + more && checkpoints == old(checkpoints) + marks
                     && observedTip == Some(key.tip) && agreeingGroups == groups
    {
      ok := CheckAgree(marks, checkpoints);
      if !ok { return; }
      ok := CheckAgree(PairsOf(more), PairsOf(records));
      if !ok { return; }
      SubsetSize(groups, backers[key]);
      AdoptionBacked(backers, required, records, more, key);
      MarksAdopted(backers, required, checkpoints, marks, key);
      checkpoints := checkpoints + marks;
      records := records + more;
      observedTip := Some(key.tip);
      agreeingGroups := groups;
    }

    /** A new tip starts over, and the oldest candidate gives way when there are too many. */
    method Enter(key: Key)
      requires Bookkeeping()
      modifies this`candidates, this`candidateOrder, this`candidateTip, this`backers
      ensures Bookkeeping() && key in candidates && MoreBacking(old(backers), backers)
      ensures candidateTip == Some(key.tip)
      ensures candidates[key] == if old(candidateTip) == Some(key.tip) then GroupsOf(old(candidates), key) else {}
      ensures if old(candidateTip) == Some(key.tip) then Book(candidates, candidateOrder) == Entered(old(candidates), old(candidateOrder), key)
              else Book(candidates, candidateOrder) == Entered(map[], [], key)
    {
      if candidateTip != Some(key.tip) {
        candidates, candidateOrder, candidateTip := map[], [], Some(key.tip);
        assert ListsOnce(candidateOrder, candidates.Keys);
      }
      if key !in candidates {
        MakeRoom();
        Append(key);
      }
    }

    method MakeRoom()
      requires Bookkeeping()
      modifies this`candidates, this`candidateOrder
      ensures Bookkeeping() && |candidates| < MAX_CANDIDATES
      ensures if |old(candidates)| < MAX_CANDIDATES then candidates == old(candidates) && candidateOrder == old(candidateOrder)
              else old(candidateOrder) != [] && candidates == old(candidates) - {old(candidateOrder)[0]}
                   && candidateOrder == old(candidateOrder)[1..]
    {
      if |candidates| == MAX_CANDIDATES {
        DropOldest(candidates, candidateOrder, candidateTip, backers);
        candidates, candidateOrder := candidates - {candidateOrder[0]}, candidateOrder[1..];
      }
    }

    method Append(key: Key)
      requires Bookkeeping() && key !in candidates && |candidates| < MAX_CANDIDATES && candidateTip == Some(key.tip)
      modifies this`candidates, this`candidateOrder, this`backers
      ensures Bookkeeping() && MoreBacking(old(backers), backers)
      ensures candidates == old(candidates)[key := {}] && candidateOrder == old(candidateOrder) + [key]
    {
      NewCandidate(candidates, candidateOrder, candidateTip, backers, key);
      candidateOrder := candidateOrder + [key];
      candidates := candidates[key := {}];
      backers := backers[key := GroupsOf(backers, key)];
    }

    /** Count a group for a candidate, up to the limit of voters. */
    method Vote(key: Key, group: Group) returns (groups: set<Group>)
      requires Valid()
      modifies this`candidates, this`candidateOrder, this`candidateTip, this`backers
      ensures Valid()
      ensures key in backers && groups <= backers[key]
      ensures MoreBacking(old(backers), backers)
      ensures key in candidates && groups == candidates[key] && candidateTip == Some(key.tip)
      ensures groups == Voters(old(candidates), old(candidateTip), key, group)
    {
      Enter(key);
      groups := Count(key, group);
      StillBacked(old(backers), backers, required, records, checkpoints);
    }

    method Count(key: Key, group: Group) returns (groups: set<Group>)
      requires Bookkeeping() && key in candidates
      modifies this`candidates, this`backers
      ensures Bookkeeping() && MoreBacking(old(backers), backers) && key in backers && groups <= backers[key]
      ensures groups == WithVoter(old(candidates)[key], group) && candidates == old(candidates)[key := groups]
    {
      groups := WithVoter(candidates[key], group);
      OneMoreVoter(candidates, candidateOrder, candidateTip, backers, key, groups);
      candidates := candidates[key := groups];
      backers := backers[key := backers[key] + groups];
    }
  }

  function Retained(records: map<Hash, FilterRecord>, floor: nat, stored: set<Hash>): map<Hash, FilterRecord> {
    map h | h in records && floor <= records[h].height && h in stored :: records[h]
  }

  function Between(checkpoints: map<nat, FilterHeader>, low: nat, high: nat): map<nat, FilterHeader> {
    map h | h in checkpoints && low <= h <= high :: checkpoints[h]
  }

  /** The last checkpoint height below the window, from which its first filter header can be derived. */
  predicate IsCheckpointFloor(c: nat, floor: nat) {
    && c % CHECKPOINT_INTERVAL == 0
    && if floor == 0 then c == 0 else c < floor <= c + CHECKPOINT_INTERVAL
  }

  lemma FloorReaches(floor: nat, h: nat)
    requires h % CHECKPOINT_INTERVAL == 0
    ensures SatSub(floor, 1) / CHECKPOINT_INTERVAL * CHECKPOINT_INTERVAL <= h <==> floor <= h + CHECKPOINT_INTERVAL
  {
  }

  /** Checkpoints are a thousand blocks apart, and the first is not genesis. */
  function CheckpointHeight(i: nat): (h: nat)
    ensures h % 1000 == 0 && h / 1000 == i + 1
  {
    (i + 1) * CHECKPOINT_INTERVAL
  }

  predicate ListedFits(checkpoints: map<nat, FilterHeader>, floor: nat, list: seq<FilterHeader>, i: nat)
    requires i < |list|
  {
    floor <= CheckpointHeight(i) && CheckpointHeight(i) in checkpoints ==> checkpoints[CheckpointHeight(i)] == list[i]
  }

  function KeyOf(candidate: FilterHeaderStore): Key
    requires candidate.observedTip.Some?
    reads candidate
  {
    Key(candidate.observedTip.value, Fingerprint(candidate.checkpoints, PairsOf(candidate.records)))
  }

  /** The same filters: for the same blocks, with the same hash and header. Heights do not matter. */
  predicate SameFilters(a: map<Hash, FilterRecord>, b: map<Hash, FilterRecord>) {
    a.Keys == b.Keys && forall h :: h in a ==> a[h].filterHash == b[h].filterHash && a[h].filterHeader == b[h].filterHeader
  }

  /** Two candidates are counted together exactly if they report the same tip, the same checkpoints and the same filters. */
  lemma KeyExactly(a: FilterHeaderStore, b: FilterHeaderStore)
    requires a.observedTip.Some? && b.observedTip.Some?
    ensures KeyOf(a) == KeyOf(b)
       <==> a.observedTip == b.observedTip && a.checkpoints == b.checkpoints && SameFilters(a.records, b.records)
  {
    var x, y := PairsOf(a.records), PairsOf(b.records);
    assert x.Keys == a.records.Keys && y.Keys == b.records.Keys;
    if x == y {
      forall h | h in a.records ensures PairOf(a.records[h]) == PairOf(b.records[h]) { assert x[h] == y[h]; }
    }
  }

  /** A candidate that contradicts nothing adopted. */
  predicate Consistent(candidate: FilterHeaderStore, records: map<Hash, FilterRecord>, checkpoints: map<nat, FilterHeader>)
    reads candidate
  {
    Agree(candidate.checkpoints, checkpoints) && Agree(PairsOf(candidate.records), PairsOf(records))
  }

  lemma MoreBackers(before: map<Key, set<Group>>, after: map<Key, set<Group>>, required: nat, records: map<Hash, FilterRecord>)
    requires AllBacked(before, required, records)
    requires MoreBacking(before, after)
    ensures AllBacked(after, required, records)
  {
    forall h | h in records ensures exists k :: Backed(after, required, h, PairOf(records[h]), k) {
      var k :| Backed(before, required, h, PairOf(records[h]), k);
      SubsetSize(before[k], after[k]);
      assert Backed(after, required, h, PairOf(records[h]), k);
    }
  }

  lemma FewerRecords(backers: map<Key, set<Group>>, required: nat, before: map<Hash, FilterRecord>, after: map<Hash, FilterRecord>)
    requires AllBacked(backers, required, before)
    requires forall h :: h in after ==> h in before && after[h] == before[h]
    ensures AllBacked(backers, required, after)
  {
    forall h | h in after ensures exists k :: Backed(backers, required, h, PairOf(after[h]), k) {
      var k :| Backed(backers, required, h, PairOf(before[h]), k);
      assert Backed(backers, required, h, PairOf(after[h]), k);
    }
  }

  lemma MoreMarkBackers(before: map<Key, set<Group>>, after: map<Key, set<Group>>, required: nat, checkpoints: map<nat, FilterHeader>)
    requires MarksBacked(before, required, checkpoints) && MoreBacking(before, after)
    ensures MarksBacked(after, required, checkpoints)
  {
    forall h | h in checkpoints ensures exists k :: MarkBacked(after, required, h, checkpoints[h], k) {
      var k :| MarkBacked(before, required, h, checkpoints[h], k);
      SubsetSize(before[k], after[k]);
      assert MarkBacked(after, required, h, checkpoints[h], k);
    }
  }

  lemma StillBacked(before: map<Key, set<Group>>, after: map<Key, set<Group>>, required: nat,
                    records: map<Hash, FilterRecord>, checkpoints: map<nat, FilterHeader>)
    requires AllBacked(before, required, records) && MarksBacked(before, required, checkpoints) && MoreBacking(before, after)
    ensures AllBacked(after, required, records) && MarksBacked(after, required, checkpoints)
  {
    MoreBackers(before, after, required, records);
    MoreMarkBackers(before, after, required, checkpoints);
  }

  lemma FewerMarks(backers: map<Key, set<Group>>, required: nat, before: map<nat, FilterHeader>, after: map<nat, FilterHeader>)
    requires MarksBacked(backers, required, before)
    requires forall h :: h in after ==> h in before && after[h] == before[h]
    ensures MarksBacked(backers, required, after)
  {
    forall h | h in after ensures exists k :: MarkBacked(backers, required, h, after[h], k) {
      var k :| MarkBacked(backers, required, h, before[h], k);
      assert MarkBacked(backers, required, h, after[h], k);
    }
  }

  lemma MarksAdopted(backers: map<Key, set<Group>>, required: nat, checkpoints: map<nat, FilterHeader>, marks: map<nat, FilterHeader>, k: Key)
    requires MarksBacked(backers, required, checkpoints)
    requires k in backers && required <= |backers[k]| && k.fingerprint.checkpoints == marks
    ensures MarksBacked(backers, required, checkpoints + marks)
  {
    var all := checkpoints + marks;
    forall h | h in all ensures exists j :: MarkBacked(backers, required, h, all[h], j) {
      if h in marks {
        assert MarkBacked(backers, required, h, all[h], k);
      } else {
        var j :| MarkBacked(backers, required, h, checkpoints[h], j);
        assert MarkBacked(backers, required, h, all[h], j);
      }
    }
  }

  lemma SubsetSize<T>(a: set<T>, b: set<T>)
    requires a <= b
    ensures |a| <= |b|
  {
    assert b == a + (b - a);
  }

  lemma AdoptionBacked(backers: map<Key, set<Group>>, required: nat, records: map<Hash, FilterRecord>, adopted: map<Hash, FilterRecord>, k: Key)
    requires AllBacked(backers, required, records) && Agree(PairsOf(adopted), PairsOf(records))
    requires k in backers && required <= |backers[k]| && k.fingerprint.filters == PairsOf(adopted)
    ensures AllBacked(backers, required, records + adopted)
    ensures Keeps(records, records + adopted)
  {
    forall h | h in records + adopted ensures exists j :: Backed(backers, required, h, PairOf((records + adopted)[h]), j) {
      if h in adopted {
        assert (records + adopted)[h] == adopted[h];
        assert Backed(backers, required, h, PairOf((records + adopted)[h]), k);
      } else {
        assert (records + adopted)[h] == records[h];
        var j :| Backed(backers, required, h, PairOf(records[h]), j);
        assert Backed(backers, required, h, PairOf((records + adopted)[h]), j);
      }
    }
    forall h | h in records ensures PairOf((records + adopted)[h]) == PairOf(records[h]) {
      if h in adopted {
        assert PairsOf(adopted)[h] == PairsOf(records)[h];
      }
    }
  }
}
