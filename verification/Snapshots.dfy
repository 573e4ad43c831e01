/** Values recorded per block, and the history of a set of balances and their total kept that way. */
module Snapshots {
  import opened Base
  import opened Totals

  /** The value saved at each block height that changed it; saving twice in a block overwrites. */
  type Series = map<nat, nat>

  /** The last value recorded up to and including `block`, or zero. */
  function ValueAt(s: Series, block: nat): nat {
    if block in s then s[block] else if block == 0 then 0 else ValueAt(s, block - 1)
  }

  /** It is the value of the greatest recorded height not above `block`. */
  lemma {:induction false} ValueIsLatest(s: Series, block: nat)
    ensures (forall h :: h in s ==> h > block) ==> ValueAt(s, block) == 0
    ensures forall h :: h in s && h <= block && (forall g :: g in s && g <= block ==> g <= h) ==> ValueAt(s, block) == s[h]
  {
    if block !in s && block > 0 {
      ValueIsLatest(s, block - 1);
    }
  }

  /** From `height` on the series stands at `value`. */
  ghost predicate StandsAt(s: Series, height: nat, value: nat) {
    (forall h :: h in s ==> h <= height) && ValueAt(s, height) == value
  }

  lemma {:induction false} StandsLater(s: Series, height: nat, value: nat, later: nat)
    requires StandsAt(s, height, value) && height <= later
    ensures ValueAt(s, later) == value && StandsAt(s, later, value)
    decreases later
  {
    if height < later {
      StandsLater(s, height, value, later - 1);
    }
  }

  /** Saving at a height leaves everything before it as it was. */
  lemma {:induction false} SavedAt(s: Series, height: nat, value: nat, block: nat)
    ensures block < height ==> ValueAt(s[height := value], block) == ValueAt(s, block)
  {
    if block > 0 {
      SavedAt(s, height, value, block - 1);
    }
  }

  /** Recorded balances by address, and their recorded total. */
  datatype History = History(entries: map<Addr, Series>, totals: Series)

  const NoHistory := History(map[], map[])

  function SeriesOf(entries: map<Addr, Series>, a: Addr): Series {
    if a in entries then entries[a] else map[]
  }

  function BalanceAt(h: History, a: Addr, block: nat): nat {
    ValueAt(SeriesOf(h.entries, a), block)
  }

  function TotalAt(h: History, block: nat): nat {
    ValueAt(h.totals, block)
  }

  function CaptureBalance(h: History, a: Addr, height: nat, value: nat): History {
    h.(entries := h.entries[a := SeriesOf(h.entries, a)[height := value]])
  }

  function CaptureTotal(h: History, height: nat, value: nat): History {
    h.(totals := h.totals[height := value])
  }

  /** The history records the present balances and total. */
  ghost predicate Current(h: History, balances: map<Addr, nat>, total: nat, height: nat) {
    && (forall a :: StandsAt(SeriesOf(h.entries, a), height, Lookup(balances, a)))
    && StandsAt(h.totals, height, total)
  }

  /** Two histories agree on all blocks before `height`. */
  ghost predicate SamePast(h: History, g: History, height: nat) {
    && (forall a, b: nat :: b < height ==> BalanceAt(g, a, b) == BalanceAt(h, a, b))
    && (forall b: nat :: b < height ==> TotalAt(g, b) == TotalAt(h, b))
  }

  /** A value saved now stands from now on. */
  lemma SavedStands(s: Series, height: nat, value: nat)
    requires forall h :: h in s ==> h <= height
    ensures StandsAt(s[height := value], height, value)
  {
  }

  lemma CurrentLater(h: History, balances: map<Addr, nat>, total: nat, height: nat, later: nat)
    requires Current(h, balances, total, height) && height <= later
    ensures Current(h, balances, total, later)
  {
    forall a
      ensures StandsAt(SeriesOf(h.entries, a), later, Lookup(balances, a))
    {
      StandsLater(SeriesOf(h.entries, a), height, Lookup(balances, a), later);
    }
    StandsLater(h.totals, height, total, later);
  }

  lemma CurrentAnswers(h: History, balances: map<Addr, nat>, total: nat, height: nat, block: nat)
    requires Current(h, balances, total, height) && height <= block
    ensures forall a :: BalanceAt(h, a, block) == Lookup(balances, a)
    ensures TotalAt(h, block) == total
  {
    CurrentLater(h, balances, total, height, block);
    forall a
      ensures BalanceAt(h, a, block) == Lookup(balances, a)
    {
      assert StandsAt(SeriesOf(h.entries, a), block, Lookup(balances, a));
    }
  }

  /** Capturing a changed balance keeps the history current and its past. */
  lemma BalanceCaptured(h: History, balances: map<Addr, nat>, total: nat, height: nat, a: Addr, value: nat)
    requires Current(h, balances, total, height)
    ensures Current(CaptureBalance(h, a, height, value), balances[a := value], total, height)
    ensures SamePast(h, CaptureBalance(h, a, height, value), height)
  {
    var g := CaptureBalance(h, a, height, value);
    assert StandsAt(SeriesOf(h.entries, a), height, Lookup(balances, a));
    SavedStands(SeriesOf(h.entries, a), height, value);
    forall o
      ensures StandsAt(SeriesOf(g.entries, o), height, Lookup(balances[a := value], o))
    {
      assert StandsAt(SeriesOf(h.entries, o), height, Lookup(balances, o));
    }
    forall o, b: nat | b < height
      ensures BalanceAt(g, o, b) == BalanceAt(h, o, b)
    {
      SavedAt(SeriesOf(h.entries, a), height, value, b);
    }
  }

  lemma TotalCaptured(h: History, balances: map<Addr, nat>, total: nat, height: nat, value: nat)
    requires Current(h, balances, total, height)
    ensures Current(CaptureTotal(h, height, value), balances, value, height)
    ensures SamePast(h, CaptureTotal(h, height, value), height)
  {
    var g := CaptureTotal(h, height, value);
    SavedStands(h.totals, height, value);
    forall a
      ensures StandsAt(SeriesOf(g.entries, a), height, Lookup(balances, a))
    {
      assert StandsAt(SeriesOf(h.entries, a), height, Lookup(balances, a));
    }
    forall b: nat | b < height
      ensures TotalAt(g, b) == TotalAt(h, b)
    {
      SavedAt(h.totals, height, value, b);
    }
  }

  lemma PastChains(h: History, g: History, k: History, height: nat)
    requires SamePast(h, g, height) && SamePast(g, k, height)
    ensures SamePast(h, k, height)
  {
    forall a, b: nat | b < height
      ensures BalanceAt(k, a, b) == BalanceAt(h, a, b)
    {
      assert BalanceAt(g, a, b) == BalanceAt(h, a, b);
    }
    forall b: nat | b < height
      ensures TotalAt(k, b) == TotalAt(h, b)
    {
      assert TotalAt(g, b) == TotalAt(h, b);
    }
  }

  // ---------- the sum of what a block records ----------

  /** All balances as recorded at a block. */
  ghost function Column(h: History, block: nat): map<Addr, nat> {
    map a | a in h.entries :: BalanceAt(h, a, block)
  }

  /** At every block, past and future, the recorded balances add up to the recorded total. */
  ghost predicate AddsUp(h: History) {
    forall block: nat :: Total(Column(h, block)) == TotalAt(h, block)
  }

  lemma {:induction false} NothingRecorded(block: nat)
    ensures ValueAt(map[], block) == 0
  {
    if block > 0 {
      NothingRecorded(block - 1);
    }
  }

  lemma EmptyAddsUp()
    ensures AddsUp(NoHistory)
  {
    forall block: nat
      ensures Total(Column(NoHistory, block)) == TotalAt(NoHistory, block)
    {
      NothingRecorded(block);
      assert Column(NoHistory, block) == map[];
    }
  }

  lemma ColumnLookup(h: History, a: Addr, block: nat)
    ensures Lookup(Column(h, block), a) == BalanceAt(h, a, block)
  {
    NothingRecorded(block);
  }

  /** If the balances and the total are recorded, were adding up before, and add up now, every block adds
      up. */
  lemma StillAddsUp(h: History, g: History, balances: map<Addr, nat>, total: nat, height: nat)
    requires AddsUp(h) && SamePast(h, g, height)
    requires Current(g, balances, total, height) && Total(balances) == total
    ensures AddsUp(g)
  {
    forall block: nat
      ensures Total(Column(g, block)) == TotalAt(g, block)
    {
      if block < height {
        assert forall a :: BalanceAt(g, a, block) == BalanceAt(h, a, block);
        SameColumn(g, Column(h, block), block, h);
        assert TotalAt(g, block) == TotalAt(h, block);
        assert Total(Column(h, block)) == TotalAt(h, block);
      } else {
        CurrentAnswers(g, balances, total, height, block);
        TotalOfColumn(g, block, balances);
      }
    }
  }

  lemma TotalOfColumn(g: History, block: nat, balances: map<Addr, nat>)
    requires forall a :: BalanceAt(g, a, block) == Lookup(balances, a)
    ensures Total(Column(g, block)) == Total(balances)
  {
    forall a | a in balances
      ensures balances[a] <= Lookup(Column(g, block), a)
    {
      ColumnLookup(g, a, block);
      assert BalanceAt(g, a, block) == Lookup(balances, a);
    }
    TotalMonotone(Column(g, block), balances);
    TotalMonotone(balances, Column(g, block));
  }

  lemma SameColumn(g: History, column: map<Addr, nat>, block: nat, h: History)
    requires column == Column(h, block)
    requires forall a :: BalanceAt(g, a, block) == BalanceAt(h, a, block)
    ensures Total(Column(g, block)) == Total(column)
  {
    forall a
      ensures BalanceAt(g, a, block) == Lookup(column, a)
    {
      ColumnLookup(h, a, block);
    }
    TotalOfColumn(g, block, column);
  }
}
