/**
 * The `bins_data` accumulation of `recommend_week.py`: per weekday and bin,
 * a pair of counters `n` (samples) and `ok` (samples with a free connector).
 */
module Aggregation {
  import opened Clock
  import opened Seqs
  import opened Samples

  /** The counters of one bin. */
  datatype Cell = Cell(n: nat, ok: nat)

  /** A bin of the week: the weekday and the per-day key. */
  type BinId = (Weekday, Slot)

  function KeyOf(r: Record): BinId {
    (r.weekday, r.slot)
  }

  /** A sample counts as a success when at least one connector is free. */
  predicate Success(r: Record) {
    r.available >= 1
  }

  /** Number of records falling in bin `k`. */
  function Hits(rs: seq<Record>, k: BinId): nat {
    if rs == [] then 0
    else Hits(rs[..|rs| - 1], k) + (if KeyOf(rs[|rs| - 1]) == k then 1 else 0)
  }

  /** Number of successful records falling in bin `k`. */
  function OkHits(rs: seq<Record>, k: BinId): nat {
    if rs == [] then 0
    else OkHits(rs[..|rs| - 1], k) + (if KeyOf(rs[|rs| - 1]) == k && Success(rs[|rs| - 1]) then 1 else 0)
  }

  /** One loop iteration: `d["n"] += 1` and `d["ok"] += 1 if a >= 1 else 0` at the record's bin. */
  function AddRecord(m: map<BinId, Cell>, r: Record): map<BinId, Cell> {
    var c := if KeyOf(r) in m then m[KeyOf(r)] else Cell(0, 0);
    m[KeyOf(r) := Cell(c.n + 1, c.ok + (if Success(r) then 1 else 0))]
  }

  /**
   * The accumulation loop over all records. A bin is present exactly when some
   * record fell in it, and then holds that record count and success count.
   */
  function Aggregate(rs: seq<Record>): (m: map<BinId, Cell>)
    ensures forall k :: k in m <==> Hits(rs, k) > 0
    ensures forall k | k in m :: m[k] == Cell(Hits(rs, k), OkHits(rs, k))
  {
    if rs == [] then map[]
    else
      var prev := Aggregate(rs[..|rs| - 1]);
      var m := AddRecord(prev, rs[|rs| - 1]);
      assert forall k | k in m :: m[k] == Cell(Hits(rs, k), OkHits(rs, k)) by {
        forall k | k in m
          ensures m[k] == Cell(Hits(rs, k), OkHits(rs, k))
        {
          if k != KeyOf(rs[|rs| - 1]) {
            assert k in prev;
          } else {
            OkHitsAtMostHits(rs[..|rs| - 1], k);
          }
        }
      }
      m
  }

  /** Every bin holds at least one sample and no more successes than samples. */
  lemma {:induction false} CellsBounded(rs: seq<Record>)
    ensures forall k | k in Aggregate(rs) :: 1 <= Aggregate(rs)[k].n && Aggregate(rs)[k].ok <= Aggregate(rs)[k].n
  {
    forall k | k in Aggregate(rs)
      ensures OkHits(rs, k) <= Hits(rs, k)
    {
      OkHitsAtMostHits(rs, k);
    }
  }

  lemma {:induction false} OkHitsAtMostHits(rs: seq<Record>, k: BinId)
    ensures OkHits(rs, k) <= Hits(rs, k)
  {
    if rs != [] {
      OkHitsAtMostHits(rs[..|rs| - 1], k);
    }
  }

  /**
   * One more record adds one sample to its own bin, one success exactly when
   * a connector was free, and leaves every other bin as it was.
   */
  lemma AppendRecord(rs: seq<Record>, r: Record)
    ensures var before := Aggregate(rs);
      var after := Aggregate(rs + [r]);
      && KeyOf(r) in after
      && after[KeyOf(r)].n == (if KeyOf(r) in before then before[KeyOf(r)].n else 0) + 1
      && after[KeyOf(r)].ok == (if KeyOf(r) in before then before[KeyOf(r)].ok else 0) + (if Success(r) then 1 else 0)
      && forall k | k != KeyOf(r) :: (k in after <==> k in before) && (k in before ==> after[k] == before[k])
  {
    assert (rs + [r])[..|rs|] == rs;
  }

  lemma {:induction false} HitsAppend(a: seq<Record>, b: seq<Record>, k: BinId)
    ensures Hits(a + b, k) == Hits(a, k) + Hits(b, k)
    ensures OkHits(a + b, k) == OkHits(a, k) + OkHits(b, k)
    decreases |b|
  {
    if b == [] {
      assert a + b == a;
    } else {
      assert (a + b)[..|a + b| - 1] == a + b[..|b| - 1];
      HitsAppend(a, b[..|b| - 1], k);
    }
  }

  /** The counts depend only on which records occur, not on their order. */
  lemma {:induction false} HitsPermutation(a: seq<Record>, b: seq<Record>, k: BinId)
    requires multiset(a) == multiset(b)
    ensures Hits(a, k) == Hits(b, k) && OkHits(a, k) == OkHits(b, k)
    decreases |a|
  {
    if a == [] {
      assert |b| == |multiset(b)| == 0;
    } else {
      var x := a[|a| - 1];
      var a' := a[..|a| - 1];
      assert a == a' + [x];
      var j := PickOut(a, b);
      var b' := b[..j] + b[j + 1..];
      HitsPermutation(a', b', k);
      HitsAppend(a', [x], k);
      HitsAppend(b[..j], [x], k);
      HitsAppend(b[..j] + [x], b[j + 1..], k);
      HitsAppend(b[..j], b[j + 1..], k);
      assert [x][..0] == [];
    }
  }

  /** Reordering the records yields the same bins with the same counters. */
  lemma AggregateOrderIndependent(a: seq<Record>, b: seq<Record>)
    requires multiset(a) == multiset(b)
    ensures Aggregate(a) == Aggregate(b)
  {
    forall k
      ensures Hits(a, k) == Hits(b, k) && OkHits(a, k) == OkHits(b, k)
    {
      HitsPermutation(a, b, k);
    }
    assert Aggregate(a).Keys == Aggregate(b).Keys;
  }

  /** `bins_data[wd]`: the bins of one weekday, keyed by `(hour, minute_bin)`. */
  function DayBins(m: map<BinId, Cell>, wd: Weekday): (day: map<Slot, Cell>)
    ensures forall s :: s in day <==> (wd, s) in m
    ensures forall s | s in day :: day[s] == m[(wd, s)]
  {
    map k | k in m && k.0 == wd :: k.1 := m[k]
  }
}
