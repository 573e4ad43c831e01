/** The price oracle's log of cumulative prices: what it records, what it prunes, and the average price
    it answers with. */
module TwapLog {
  import opened Base
  import opened FixedPoint

  datatype Snapshot = Snapshot(timestamp: nat, cumulative: nat)

  type Log = seq<Snapshot>

  /** The window an average should span, and by how much it may be missed. */
  datatype Window = Window(size: nat, tolerance: nat)

  /** Cumulative prices are unsigned 128-bit counters. */
  const MODULUS: nat := 0x1_0000_0000_0000_0000_0000_0000_0000_0000

  function Distance(a: nat, b: nat): nat {
    if a > b then a - b else b - a
  }

  /** By how much the period between two times misses the window. */
  function PeriodDiff(t1: nat, t2: nat, size: nat): nat {
    Distance(Distance(t1, t2), size)
  }

  // ---------- recording ----------

  /** The snapshots at most `limit` seconds old, in order. */
  function Retained(log: Log, now: nat, limit: nat): Log {
    if log == [] then []
    else
      var last := log[|log| - 1];
      Retained(log[..|log| - 1], now, limit) + if now <= last.timestamp + limit then [last] else []
  }

  predicate NotAhead(log: Log, now: nat) {
    forall i :: 0 <= i < |log| ==> log[i].timestamp <= now
  }

  function Last(log: Log): Snapshot
    requires log != []
  {
    log[|log| - 1]
  }

  /** A snapshot less than the tolerance after the latest one is skipped without an error. */
  predicate TooSoon(log: Log, w: Window, now: nat) {
    log != [] && Last(log).timestamp <= now < Last(log).timestamp + w.tolerance
  }

  /** Ages are computed by a subtraction that fails for a snapshot of the future. */
  function Recorded(log: Log, w: Window, now: nat, cumulative: nat): Result<Log> {
    if TooSoon(log, w, now) then Ok(log)
    else
      :- Need(NotAhead(log, now), Overflow);
      Ok(Retained(log, now, w.size + w.tolerance) + [Snapshot(now, cumulative)])
  }

  // ---------- answering ----------

  predicate Suits(s: Snapshot, w: Window, now: nat) {
    PeriodDiff(now, s.timestamp, w.size) <= w.tolerance
  }

  /** The first snapshot in the log whose period is within tolerance of the window. */
  function Find(log: Log, w: Window, now: nat): Option<Snapshot> {
    if log == [] then None
    else if Suits(log[0], w, now) then Some(log[0])
    else Find(log[1..], w, now)
  }

  /** The increase of the counter, with one wrap around zero allowed for. */
  function Delta(current: nat, previous: nat): nat
    requires current < MODULUS && previous < MODULUS
  {
    if current >= previous then current - previous else current + (MODULUS - 1 - previous)
  }

  /** The average price since the snapshot found. `precision` is the factor the pair contract applies to
      its counter. */
  function AveragePrice(log: Log, w: Window, now: nat, current: nat, precision: nat): Result<nat>
    requires current < MODULUS
  {
    PriceSince(Find(log, w, now), now, current, precision)
  }

  function PriceSince(found: Option<Snapshot>, now: nat, current: nat, precision: nat): Result<nat>
    requires current < MODULUS
  {
    if found.None? then Err(NoSnapshotWithinTolerance)
    else
      var s := found.value;
      :- Need(s.cumulative < MODULUS && s.timestamp <= now, Overflow);
      :- Need(precision * (now - s.timestamp) > 0, DivideByZero);
      Ok(FromRatio(Delta(current, s.cumulative), precision * (now - s.timestamp)))
  }

  // ---------- the never-pruned log ----------

  /** The same recording rule without pruning. */
  function Appended(log: Log, w: Window, now: nat, cumulative: nat): Log {
    if TooSoon(log, w, now) then log else log + [Snapshot(now, cumulative)]
  }

  /** The contract's log after a series of attempted recordings; one that fails changes nothing. */
  function Pruned(readings: seq<Snapshot>, w: Window): Log {
    if readings == [] then []
    else
      var log, s := Pruned(readings[..|readings| - 1], w), Last(readings);
      var r := Recorded(log, w, s.timestamp, s.cumulative);
      if r.Ok? then r.value else log
  }

  function Full(readings: seq<Snapshot>, w: Window): Log {
    if readings == [] then []
    else Appended(Full(readings[..|readings| - 1], w), w, Last(readings).timestamp, Last(readings).cumulative)
  }

  predicate Chronological(log: Log) {
    forall i, j :: 0 <= i < j < |log| ==> log[i].timestamp <= log[j].timestamp
  }

  ghost predicate Spaced(log: Log, tolerance: nat) {
    forall i, j :: 0 <= i < j < |log| ==> log[i].timestamp + tolerance <= log[j].timestamp
  }

  /** `pruned` is what is left of `full` once its first `cut` snapshots, all outdated by `time`, are gone. */
  ghost predicate CutAt(pruned: Log, full: Log, cut: nat, w: Window, time: nat) {
    && cut <= |full|
    && (full != [] ==> cut < |full|)
    && pruned == full[cut..]
    && (forall i :: 0 <= i < cut ==> full[i].timestamp + w.size + w.tolerance < time)
  }

  /** Nothing in the log is too old for its latest snapshot. */
  ghost predicate Fresh(log: Log, limit: nat) {
    forall i :: 0 <= i < |log| ==> Last(log).timestamp <= log[i].timestamp + limit
  }

  /** Pruning has cut off the first `cut` snapshots, the ones that are too old. */
  ghost predicate PrunedTo(log: Log, cut: nat, now: nat, limit: nat) {
    && cut <= |log| && Retained(log, now, limit) == log[cut..]
    && (forall i :: 0 <= i < cut ==> log[i].timestamp + limit < now)
    && (forall i :: cut <= i < |log| ==> now <= log[i].timestamp + limit)
  }

  lemma LastIsKept(rest: Log, last: Snapshot, cut: nat, now: nat, limit: nat)
    requires PrunedTo(rest, cut, now, limit) && now <= last.timestamp + limit
    ensures PrunedTo(rest + [last], cut, now, limit)
  {
    assert (rest + [last])[..|rest|] == rest;
    assert (rest + [last])[cut..] == rest[cut..] + [last];
  }

  lemma LastIsDropped(rest: Log, last: Snapshot, cut: nat, now: nat, limit: nat)
    requires PrunedTo(rest, cut, now, limit) && now > last.timestamp + limit
    requires forall i :: 0 <= i < |rest| ==> rest[i].timestamp <= last.timestamp
    ensures PrunedTo(rest + [last], |rest| + 1, now, limit)
  {
    assert (rest + [last])[..|rest|] == rest;
    assert cut == |rest|;
  }

  /** In an ordered log pruning cuts off a prefix. */
  lemma {:induction false} RetainedIsSuffix(log: Log, now: nat, limit: nat) returns (cut: nat)
    requires Chronological(log)
    ensures PrunedTo(log, cut, now, limit)
  {
    if log == [] {
      cut := 0;
    } else {
      var rest, last := log[..|log| - 1], Last(log);
      assert log == rest + [last];
      cut := RetainedIsSuffix(rest, now, limit);
      if now <= last.timestamp + limit {
        LastIsKept(rest, last, cut, now, limit);
      } else {
        LastIsDropped(rest, last, cut, now, limit);
        cut := |log|;
      }
    }
  }

  /** What is outdated already makes no difference to pruning. */
  lemma {:induction false} RetainedSkipsOld(log: Log, cut: nat, now: nat, limit: nat)
    requires cut <= |log|
    requires forall i :: 0 <= i < cut ==> log[i].timestamp + limit < now
    ensures Retained(log[cut..], now, limit) == Retained(log, now, limit)
  {
    if log != [] {
      var n := |log| - 1;
      if cut <= n {
        RetainedSkipsOld(log[..n], cut, now, limit);
        assert log[cut..][..n - cut] == log[..n][cut..];
      } else {
        RetainedSkipsOld(log[..n], n, now, limit);
        assert log[..n][n..] == [] && log[cut..] == [];
      }
    }
  }

  lemma LastOfCut(pruned: Log, full: Log, cut: nat, w: Window, time: nat)
    requires CutAt(pruned, full, cut, w, time)
    ensures pruned == [] <==> full == []
    ensures full != [] ==> Last(pruned) == Last(full)
  {
  }

  lemma CutIsNotAhead(pruned: Log, full: Log, cut: nat, w: Window, time: nat, now: nat)
    requires CutAt(pruned, full, cut, w, time) && NotAhead(full, time) && time <= now
    ensures NotAhead(pruned, now)
  {
  }

  lemma PushKeepsCut(full: Log, cut: nat, w: Window, s: Snapshot)
    requires cut <= |full| && NotAhead(full, s.timestamp)
    requires forall i :: 0 <= i < cut ==> full[i].timestamp + w.size + w.tolerance < s.timestamp
    requires forall i :: cut <= i < |full| ==> s.timestamp <= full[i].timestamp + w.size + w.tolerance
    ensures CutAt(full[cut..] + [s], full + [s], cut, w, s.timestamp)
    ensures Fresh(full[cut..] + [s], w.size + w.tolerance)
  {
    assert (full + [s])[cut..] == full[cut..] + [s];
  }

  lemma RecordedPushes(log: Log, w: Window, s: Snapshot)
    requires !TooSoon(log, w, s.timestamp) && NotAhead(log, s.timestamp)
    ensures Recorded(log, w, s.timestamp, s.cumulative) == Ok(Retained(log, s.timestamp, w.size + w.tolerance) + [s])
  {
  }

  /** A snapshot that is not skipped cuts off what it makes outdated. */
  lemma PushedKeepsCut(pruned: Log, full: Log, cut: nat, w: Window, time: nat, s: Snapshot) returns (cut': nat)
    requires CutAt(pruned, full, cut, w, time) && Chronological(full)
    requires NotAhead(full, time) && time <= s.timestamp
    ensures var after := Retained(pruned, s.timestamp, w.size + w.tolerance) + [s];
            CutAt(after, full + [s], cut', w, s.timestamp) && Fresh(after, w.size + w.tolerance)
  {
    RetainedSkipsOld(full, cut, s.timestamp, w.size + w.tolerance);
    cut' := RetainedIsSuffix(full, s.timestamp, w.size + w.tolerance);
    PushKeepsCut(full, cut', w, s);
  }

  lemma SkippingKeepsCut(pruned: Log, full: Log, cut: nat, w: Window, time: nat, later: nat)
    requires CutAt(pruned, full, cut, w, time) && time <= later
    ensures CutAt(pruned, full, cut, w, later)
  {
  }

  /** One recording keeps the pruned log a cut of the full one, and never fails. */
  lemma RecordingKeepsCut(pruned: Log, full: Log, cut: nat, w: Window, time: nat, s: Snapshot)
    returns (after: Log, cut': nat)
    requires CutAt(pruned, full, cut, w, time) && Chronological(full)
    requires Fresh(pruned, w.size + w.tolerance)
    requires NotAhead(full, time) && time <= s.timestamp
    ensures Recorded(pruned, w, s.timestamp, s.cumulative) == Ok(after)
    ensures CutAt(after, Appended(full, w, s.timestamp, s.cumulative), cut', w, s.timestamp)
    ensures Fresh(after, w.size + w.tolerance)
  {
    LastOfCut(pruned, full, cut, w, time);
    if TooSoon(full, w, s.timestamp) {
      after, cut' := pruned, cut;
      SkippingKeepsCut(pruned, full, cut, w, time, s.timestamp);
    } else {
      CutIsNotAhead(pruned, full, cut, w, time, s.timestamp);
      RecordedPushes(pruned, w, s);
      cut' := PushedKeepsCut(pruned, full, cut, w, time, s);
      after := Retained(pruned, s.timestamp, w.size + w.tolerance) + [s];
    }
  }

  lemma AppendingKeepsOrder(full: Log, w: Window, s: Snapshot)
    requires Chronological(full) && Spaced(full, w.tolerance) && NotAhead(full, s.timestamp)
    ensures var after := Appended(full, w, s.timestamp, s.cumulative);
            Chronological(after) && Spaced(after, w.tolerance) && NotAhead(after, s.timestamp) && after != []
  {
    if full != [] {
      assert forall i :: 0 <= i < |full| ==> full[i].timestamp <= Last(full).timestamp;
    }
  }

  lemma {:induction false} FullIsOrdered(readings: seq<Snapshot>, w: Window)
    requires Chronological(readings)
    ensures Chronological(Full(readings, w)) && Spaced(Full(readings, w), w.tolerance)
    ensures NotAhead(Full(readings, w), LatestTime(readings))
  {
    if readings != [] {
      var rest := readings[..|readings| - 1];
      FullIsOrdered(rest, w);
      assert LatestTime(rest) <= Last(readings).timestamp;
      AppendingKeepsOrder(Full(rest, w), w, Last(readings));
    }
  }

  function LatestTime(readings: seq<Snapshot>): nat {
    if readings == [] then 0 else Last(readings).timestamp
  }

  lemma {:induction false} PrunedIsCut(readings: seq<Snapshot>, w: Window) returns (cut: nat)
    requires Chronological(readings)
    ensures CutAt(Pruned(readings, w), Full(readings, w), cut, w, LatestTime(readings))
    ensures Fresh(Pruned(readings, w), w.size + w.tolerance)
  {
    if readings == [] {
      cut := 0;
    } else {
      var rest := readings[..|readings| - 1];
      cut := PrunedIsCut(rest, w);
      FullIsOrdered(rest, w);
      assert LatestTime(rest) <= Last(readings).timestamp;
      var log, next := RecordingKeepsCut(Pruned(rest, w), Full(rest, w), cut, w, LatestTime(rest), Last(readings));
      cut := next;
    }
  }

  lemma {:induction false} FindSkips(log: Log, cut: nat, w: Window, now: nat)
    requires cut <= |log|
    requires forall i :: 0 <= i < cut ==> !Suits(log[i], w, now)
    ensures Find(log, w, now) == Find(log[cut..], w, now)
  {
    if cut > 0 {
      FindSkips(log[1..], cut - 1, w, now);
      assert log[1..][cut - 1..] == log[cut..];
    } else {
      assert log[0..] == log;
    }
  }

  /** The pruned log answers every query as the full one would, now and at any later time. */
  lemma PruningIsInvisible(readings: seq<Snapshot>, w: Window, now: nat, current: nat, precision: nat)
    requires Chronological(readings)
    requires LatestTime(readings) <= now
    requires current < MODULUS
    ensures Find(Pruned(readings, w), w, now) == Find(Full(readings, w), w, now)
    ensures AveragePrice(Pruned(readings, w), w, now, current, precision)
         == AveragePrice(Full(readings, w), w, now, current, precision)
  {
    var cut := PrunedIsCut(readings, w);
    FindSkips(Full(readings, w), cut, w, now);
  }

  /** What is found is the oldest snapshot that suits: nothing older does. */
  lemma {:induction false} FoundIsOldest(log: Log, w: Window, now: nat)
    ensures match Find(log, w, now)
            case Some(s) => s in log && Suits(s, w, now)
                            && (Chronological(log) ==> forall t <- log :: Suits(t, w, now) ==> s.timestamp <= t.timestamp)
            case None => forall t <- log :: !Suits(t, w, now)
  {
    if log != [] {
      FoundIsOldest(log[1..], w, now);
      if Chronological(log) {
        assert forall t <- log :: log[0].timestamp <= t.timestamp;
      }
      assert log == [log[0]] + log[1..];
    }
  }

  lemma {:induction false} SpanOfSpaced(log: Log, tolerance: nat)
    requires log != [] && Spaced(log, tolerance)
    ensures log[0].timestamp + (|log| - 1) * tolerance <= Last(log).timestamp
  {
    if |log| > 1 {
      SpanOfSpaced(log[..|log| - 1], tolerance);
      assert (|log| - 1) * tolerance == (|log| - 2) * tolerance + tolerance;
    }
  }

  lemma CountWithin(count: nat, size: nat, tolerance: nat)
    requires count > 0 && tolerance > 0
    requires (count - 1) * tolerance <= size + tolerance
    ensures count <= size / tolerance + 2
  {
    if count > 2 {
      DifferenceOfProducts(count - 1, 1, tolerance);
      FloorAtLeast(size, tolerance, count - 2);
    }
  }

  /** A log without outdated snapshots that are spaced apart is short. */
  lemma FreshIsShort(log: Log, w: Window)
    requires Spaced(log, w.tolerance) && Fresh(log, w.size + w.tolerance) && w.tolerance > 0
    ensures |log| <= w.size / w.tolerance + 2
  {
    if log != [] {
      SpanOfSpaced(log, w.tolerance);
      CountWithin(|log|, w.size, w.tolerance);
    } else {
      FloorBounds(w.size, w.tolerance);
    }
  }

  lemma SuffixIsSpaced(log: Log, cut: nat, tolerance: nat)
    requires cut <= |log| && Spaced(log, tolerance)
    ensures Spaced(log[cut..], tolerance)
  {
  }

  /** Snapshots are at least the tolerance apart, and there are never more than the window allows. */
  lemma LengthIsBounded(readings: seq<Snapshot>, w: Window)
    requires Chronological(readings)
    ensures Spaced(Pruned(readings, w), w.tolerance)
    ensures w.tolerance > 0 ==> |Pruned(readings, w)| <= w.size / w.tolerance + 2
  {
    var cut := PrunedIsCut(readings, w);
    FullIsOrdered(readings, w);
    SuffixIsSpaced(Full(readings, w), cut, w.tolerance);
    if w.tolerance > 0 {
      FreshIsShort(Pruned(readings, w), w);
    }
  }

  // ---------- what is recorded, and what can be found ----------

  lemma {:induction false} RetainedExactly(log: Log, now: nat, limit: nat, s: Snapshot)
    ensures s in Retained(log, now, limit) <==> s in log && now <= s.timestamp + limit
  {
    if log != [] {
      RetainedExactly(log[..|log| - 1], now, limit, s);
      assert log == log[..|log| - 1] + [log[|log| - 1]];
    }
  }

  /** Less than the tolerance after the latest snapshot nothing is recorded. From the tolerance on, and in an
      empty log, the reading becomes the latest snapshot, and of the others exactly those stay that are at
      most window and tolerance old. Only a snapshot of the future makes a recording fail. */
  lemma RecordedEffect(log: Log, w: Window, now: nat, cumulative: nat)
    ensures log != [] && Last(log).timestamp <= now < Last(log).timestamp + w.tolerance ==>
              Recorded(log, w, now, cumulative) == Ok(log)
    ensures NotAhead(log, now) && (log == [] || Last(log).timestamp + w.tolerance <= now) ==>
              var r := Recorded(log, w, now, cumulative);
              && r.Ok? && r.value != [] && Last(r.value) == Snapshot(now, cumulative)
              && forall s :: s in r.value[..|r.value| - 1] <==> s in log && now <= s.timestamp + w.size + w.tolerance
    ensures Recorded(log, w, now, cumulative).Err? ==> !NotAhead(log, now)
  {
    var kept := Retained(log, now, w.size + w.tolerance);
    forall s
      ensures s in kept <==> s in log && now <= s.timestamp + w.size + w.tolerance
    {
      RetainedExactly(log, now, w.size + w.tolerance, s);
    }
    assert (kept + [Snapshot(now, cumulative)])[..|kept|] == kept;
  }

  /** Every reading that was offered is recorded, or follows a snapshot by less than the tolerance. */
  lemma {:induction false} EveryReadingIsNear(readings: seq<Snapshot>, w: Window, k: nat) returns (s: Snapshot)
    requires Chronological(readings) && k < |readings|
    ensures s in Full(readings, w)
    ensures s.timestamp <= readings[k].timestamp
    ensures s == readings[k] || readings[k].timestamp < s.timestamp + w.tolerance
    decreases |readings|
  {
    var n := |readings| - 1;
    var before := Full(readings[..n], w);
    if k < n {
      s := EveryReadingIsNear(readings[..n], w, k);
    } else if TooSoon(before, w, readings[n].timestamp) {
      s := Last(before);
    } else {
      s := readings[n];
    }
  }

  /** A reading offered between window less tolerance and window ago is enough for a snapshot to be found. */
  lemma OfferedIsFound(readings: seq<Snapshot>, w: Window, now: nat, k: nat)
    requires Chronological(readings) && LatestTime(readings) <= now
    requires k < |readings|
    requires now <= readings[k].timestamp + w.size
    requires readings[k].timestamp + w.size <= now + w.tolerance
    ensures Find(Pruned(readings, w), w, now).Some?
  {
    assert readings[k].timestamp <= LatestTime(readings);
    var s := EveryReadingIsNear(readings, w, k);
    assert Suits(s, w, now);
    FoundIsOldest(Full(readings, w), w, now);
    PruningIsInvisible(readings, w, now, 0, 0);
  }

  // ---------- the average ----------

  /** With a window wider than the tolerance the period divided by is within tolerance of the window,
      and so never zero. */
  lemma PeriodWithinTolerance(log: Log, w: Window, now: nat)
    requires NotAhead(log, now)
    requires Find(log, w, now).Some?
    ensures var period := now - Find(log, w, now).value.timestamp;
            && w.size <= period + w.tolerance && period <= w.size + w.tolerance
            && (w.size > w.tolerance ==> period > 0)
  {
    FoundIsOldest(log, w, now);
  }

  /** For a counter that wraps at most once the difference is the true increase, or exactly one less
      when it wrapped; the addition behind it stays within 128 bits. */
  lemma DeltaOfWrapped(before: nat, after: nat)
    requires before <= after < before + MODULUS
    ensures Delta(after % MODULUS, before % MODULUS) ==
            after - before - if after / MODULUS > before / MODULUS then 1 else 0
    ensures Delta(after % MODULUS, before % MODULUS) < MODULUS
  {
    var p, q := before / MODULUS, after / MODULUS;
    var r, s := before % MODULUS, after % MODULUS;
    assert before == p * MODULUS + r && after == q * MODULUS + s;
    assert q == p || q == p + 1;
  }

  /** `total` gives the true counter at each time of which the readings show the low 128 bits. */
  ghost predicate ReadingsOf(readings: seq<Snapshot>, total: map<nat, nat>) {
    forall s <- readings :: s.timestamp in total && s.cumulative == total[s.timestamp] % MODULUS
  }

  lemma {:induction false} FullComesFromReadings(readings: seq<Snapshot>, w: Window)
    ensures forall s <- Full(readings, w) :: s in readings
  {
    if readings != [] {
      FullComesFromReadings(readings[..|readings| - 1], w);
      assert Last(readings) in readings;
      assert readings == readings[..|readings| - 1] + [Last(readings)];
    }
  }

  /** How often the counter passed zero on its way, at most once. */
  function Wraps(before: nat, after: nat): nat {
    if after / MODULUS > before / MODULUS then 1 else 0
  }

  /** The average of the true counter over a period, short by one unit if it wrapped. */
  function AverageOf(before: nat, after: nat, precision: nat, period: nat): nat
    requires before + Wraps(before, after) <= after && precision * period > 0
  {
    FromRatio(after - before - Wraps(before, after), precision * period)
  }

  /** The answer from a suitable snapshot, in terms of the true counter. */
  lemma AnswerFrom(log: Log, w: Window, now: nat, before: nat, after: nat, precision: nat)
    requires NotAhead(log, now) && Find(log, w, now).Some?
    requires Find(log, w, now).value.cumulative == before % MODULUS
    requires before <= after < before + MODULUS
    requires precision > 0 && w.size > w.tolerance
    ensures var s := Find(log, w, now).value;
            && s.timestamp < now && precision * (now - s.timestamp) > 0
            && before + Wraps(before, after) <= after
            && AveragePrice(log, w, now, after % MODULUS, precision)
            == Ok(AverageOf(before, after, precision, now - s.timestamp))
  {
    var s := Find(log, w, now).value;
    PeriodWithinTolerance(log, w, now);
    DeltaOfWrapped(before, after);
    SignOfProduct(precision, now - s.timestamp);
  }

  lemma FoundIsReading(readings: seq<Snapshot>, w: Window, now: nat, total: map<nat, nat>)
    requires Chronological(readings) && ReadingsOf(readings, total) && LatestTime(readings) <= now
    requires Find(Full(readings, w), w, now).Some?
    ensures var s := Find(Full(readings, w), w, now).value;
            && s in readings && s.timestamp <= now
            && s.timestamp in total && s.cumulative == total[s.timestamp] % MODULUS
  {
    FullIsOrdered(readings, w);
    FullComesFromReadings(readings, w);
    FoundIsOldest(Full(readings, w), w, now);
  }

  /** Over every run, a query with a window wider than its tolerance either finds no snapshot, or answers
      with the true average since the oldest suitable reading that was recorded, short by one counter
      unit if the counter wrapped in between. */
  lemma AnswerIsTrueAverage(readings: seq<Snapshot>, w: Window, now: nat, total: map<nat, nat>, precision: nat)
    requires Chronological(readings) && ReadingsOf(readings, total)
    requires LatestTime(readings) <= now
    requires now in total && precision > 0 && w.size > w.tolerance
    requires forall t :: t in total && t <= now ==> total[t] <= total[now] < total[t] + MODULUS
    ensures var answer := AveragePrice(Pruned(readings, w), w, now, total[now] % MODULUS, precision);
            match Find(Full(readings, w), w, now)
            case None => answer == Err(NoSnapshotWithinTolerance)
            case Some(s) =>
              && s in readings && s.timestamp < now
              && total[s.timestamp] + Wraps(total[s.timestamp], total[now]) <= total[now]
              && precision * (now - s.timestamp) > 0
              && answer == Ok(AverageOf(total[s.timestamp], total[now], precision, now - s.timestamp))
  {
    PruningIsInvisible(readings, w, now, total[now] % MODULUS, precision);
    FullIsOrdered(readings, w);
    if Find(Full(readings, w), w, now).Some? {
      FoundIsReading(readings, w, now, total);
      var s := Find(Full(readings, w), w, now).value;
      AnswerFrom(Full(readings, w), w, now, total[s.timestamp], total[now], precision);
    }
  }

  // ---------- the contract ----------

  type AssetRef = string

  datatype PriceSource = Twap(window: Window) | OtherSource

  datatype Feeds = Feeds(sources: map<AssetRef, PriceSource>, logs: map<AssetRef, Log>)

  function LogOf(logs: map<AssetRef, Log>, a: AssetRef): Log {
    if a in logs then logs[a] else []
  }

  /** The logs after recording one asset. `cumulative` gives the pairs' counters. */
  function RecordAsset(sources: map<AssetRef, PriceSource>, logs: map<AssetRef, Log>, a: AssetRef, now: nat,
                       cumulative: map<AssetRef, nat>): Result<map<AssetRef, Log>>
  {
    if a !in sources then Err(NotFound)
    else if !sources[a].Twap? then Err(PriceSourceNotTwap)
    else if TooSoon(LogOf(logs, a), sources[a].window, now) then Ok(logs)
    else
      :- Need(a in cumulative, OracleFailure);
      var log :- Recorded(LogOf(logs, a), sources[a].window, now, cumulative[a]);
      Ok(logs[a := log])
  }

  /** The logs after recording the first `n` assets of a message in order; one that cannot be recorded
      fails the message. */
  function RecordAssets(f: Feeds, assets: seq<AssetRef>, n: nat, now: nat, cumulative: map<AssetRef, nat>):
    Result<map<AssetRef, Log>>
    requires n <= |assets|
  {
    if n == 0 then Ok(f.logs)
    else
      var logs :- RecordAssets(f, assets, n - 1, now, cumulative);
      RecordAsset(f.sources, logs, assets[n - 1], now, cumulative)
  }

  /** Each asset of a message is recorded for itself: its log makes one recording step or none at all if
      it is not mentioned. With a positive tolerance mentioning it again makes no difference. */
  lemma {:induction false} AssetsAreIndependent(f: Feeds, assets: seq<AssetRef>, n: nat, now: nat,
                                                cumulative: map<AssetRef, nat>, a: AssetRef)
    requires n <= |assets|
    requires RecordAssets(f, assets, n, now, cumulative).Ok?
    requires a in f.sources && f.sources[a].Twap? && f.sources[a].window.tolerance > 0
    requires a in cumulative
    ensures var logs := RecordAssets(f, assets, n, now, cumulative).value;
            if a in assets[..n] then Ok(LogOf(logs, a)) == Recorded(LogOf(f.logs, a), f.sources[a].window, now, cumulative[a])
            else LogOf(logs, a) == LogOf(f.logs, a)
  {
    if n > 0 {
      AssetsAreIndependent(f, assets, n - 1, now, cumulative, a);
      assert assets[..n] == assets[..n - 1] + [assets[n - 1]];
      if assets[n - 1] == a && a in assets[..n - 1] {
        SecondRecordingIsSkipped(LogOf(f.logs, a), f.sources[a].window, now, cumulative[a]);
      }
    }
  }

  lemma SecondRecordingIsSkipped(log: Log, w: Window, now: nat, cumulative: nat)
    requires w.tolerance > 0
    requires Recorded(log, w, now, cumulative).Ok?
    ensures TooSoon(Recorded(log, w, now, cumulative).value, w, now)
  {
  }

  /** The oracle contract's storage. */
  class Oracle {
    var sources: map<AssetRef, PriceSource>
    var logs: map<AssetRef, Log>

    ghost function Contents(): Feeds
      reads this
    {
      Feeds(sources, logs)
    }

    constructor ()
      ensures Contents() == Feeds(map[], map[])
    {
      sources, logs := map[], map[];
    }

    method SetAsset(a: AssetRef, source: PriceSource)
      modifies this`sources
      ensures sources == old(sources)[a := source]
    {
      sources := sources[a := source];
    }

    method RecordSnapshot(written: map<AssetRef, Log>, a: AssetRef, now: nat, cumulative: map<AssetRef, nat>)
      returns (r: Result<map<AssetRef, Log>>)
      ensures r == RecordAsset(sources, written, a, now, cumulative)
    {
      if a !in sources {
        return Err(NotFound);
      }
      if !sources[a].Twap? {
        return Err(PriceSourceNotTwap);
      }
      var w := sources[a].window;
      var snapshots := LogOf(written, a);
      if TooSoon(snapshots, w, now) {
        return Ok(written);
      }
      if a !in cumulative {
        return Err(OracleFailure);
      }
      if !NotAhead(snapshots, now) {
        return Err(Overflow);
      }
      snapshots := Retained(snapshots, now, w.size + w.tolerance);
      snapshots := snapshots + [Snapshot(now, cumulative[a])];
      return Ok(written[a := snapshots]);
    }

    /** Works on a copy of the logs, as the chain discards the writes of a message that fails. */
    method RecordTwapSnapshots(assets: seq<AssetRef>, now: nat, cumulative: map<AssetRef, nat>) returns (r: Check)
      modifies this`logs
      ensures r.Pass? <==> RecordAssets(old(Contents()), assets, |assets|, now, cumulative).Ok?
      ensures r.Pass? ==> Ok(logs) == RecordAssets(old(Contents()), assets, |assets|, now, cumulative)
      ensures r.Fail? ==> logs == old(logs) && RecordAssets(old(Contents()), assets, |assets|, now, cumulative) == Err(r.error)
    {
      var written := logs;
      for i := 0 to |assets|
        invariant Ok(written) == RecordAssets(Contents(), assets, i, now, cumulative)
        invariant logs == old(logs)
      {
        var recorded := RecordSnapshot(written, assets[i], now, cumulative);
        if recorded.Err? {
          FailureSticks(Contents(), assets, i + 1, |assets|, now, cumulative);
          return Fail(recorded.error);
        }
        written := recorded.value;
      }
      logs := written;
      return Pass;
    }
  }

  lemma {:induction false} FailureSticks(f: Feeds, assets: seq<AssetRef>, m: nat, n: nat, now: nat,
                                         cumulative: map<AssetRef, nat>)
    requires m <= n <= |assets|
    requires RecordAssets(f, assets, m, now, cumulative).Err?
    ensures RecordAssets(f, assets, n, now, cumulative) == RecordAssets(f, assets, m, now, cumulative)
    decreases n
  {
    if m < n {
      FailureSticks(f, assets, m, n - 1, now, cumulative);
    }
  }

  /** The linear search for the oldest suitable snapshot. */
  method FindSnapshot(log: Log, w: Window, now: nat) returns (found: Option<Snapshot>)
    ensures found == Find(log, w, now)
  {
    for i := 0 to |log|
      invariant Find(log, w, now) == Find(log[i..], w, now)
    {
      if Suits(log[i], w, now) {
        return Some(log[i]);
      }
      assert log[i..][1..] == log[i + 1..];
    }
    return None;
  }
}
