/**
 * The deduplication policy shared by both detector variants: one step per
 * inference result, over the log of labels and the last logged count.
 */
module Dedup {
  import opened Records
  import opened Labels

  /** The detector's log state: the labels logged so far and the last count. */
  datatype Session = Session(detects: seq<string>, lastCount: int)

  /** One inference result: the number of objects and the clock reading. */
  datatype Sample = Sample(objects: int, at: Stamp)

  /** The state a detector starts in. */
  const Empty := Session([], 0)

  predicate NoDuplicates(s: seq<string>) {
    forall i, j :: 0 <= i < j < |s| ==> s[i] != s[j]
  }

  /** A step logs when objects are present, the count changed and the label is new. */
  predicate Logs(s: Session, x: Sample) {
    x.objects > 0 && x.objects != s.lastCount && Label(x.at, x.objects) !in s.detects
  }

  /**
   * One result-processing step. The log only grows, by one label exactly when
   * the step logs; `lastCount` becomes the logged count, drops to 0 when no
   * object is seen, and is otherwise left as it was.
   */
  function Process(s: Session, x: Sample): (r: Session)
    ensures s.detects <= r.detects && |r.detects| <= |s.detects| + 1
    ensures |r.detects| == |s.detects| + 1 <==> Logs(s, x)
    ensures Logs(s, x) ==> r.detects[|s.detects|] == Label(x.at, x.objects) && r.lastCount == x.objects
    ensures x.objects <= 0 ==> r.lastCount == 0
    ensures x.objects > 0 && !Logs(s, x) ==> r == s
  {
    if x.objects > 0 then
      var entry := Label(x.at, x.objects);
      if x.objects != s.lastCount && entry !in s.detects then
        Session(s.detects + [entry], x.objects)
      else
        s
    else
      s.(lastCount := 0)
  }

  /** The state after a sequence of steps, applied in order. */
  function Run(s: Session, xs: seq<Sample>): Session
    decreases |xs|
  {
    if xs == [] then s else Process(Run(s, xs[..|xs| - 1]), xs[|xs| - 1])
  }

  /** The inference results of one frame, all stamped with the same clock reading. */
  function AtStamp(counts: seq<int>, now: Stamp): (xs: seq<Sample>)
    ensures |xs| == |counts|
    ensures forall i :: 0 <= i < |xs| ==> xs[i] == Sample(counts[i], now)
  {
    seq(|counts|, i requires 0 <= i < |counts| => Sample(counts[i], now))
  }

  /** Processing one more result of a frame extends the run by one step. */
  lemma RunFrameStep(s: Session, counts: seq<int>, i: nat, now: Stamp)
    requires i < |counts|
    ensures Run(s, AtStamp(counts[..i + 1], now))
            == Process(Run(s, AtStamp(counts[..i], now)), Sample(counts[i], now))
  {
    assert AtStamp(counts[..i + 1], now)[..i] == AtStamp(counts[..i], now);
  }

  /** A log entry is the label of some valid clock reading and positive count. */
  predicate IsEntry(d: string) {
    var p := ParseLabel(d);
    p.Some? && ValidStamp(p.value.at) && p.value.count > 0 && d == Label(p.value.at, p.value.count)
  }

  /**
   * The invariant of the log state: no label twice, every entry a label, and a
   * non-zero `lastCount` is the count of the last entry.
   */
  predicate Consistent(s: Session) {
    && NoDuplicates(s.detects)
    && (forall i :: 0 <= i < |s.detects| ==> IsEntry(s.detects[i]))
    && (s.lastCount != 0 ==>
          && |s.detects| > 0
          && ParseLabel(s.detects[|s.detects| - 1]).Some?
          && ParseLabel(s.detects[|s.detects| - 1]).value.count == s.lastCount)
  }

  lemma AppendNoDuplicates(ds: seq<string>, e: string)
    requires NoDuplicates(ds) && e !in ds
    ensures NoDuplicates(ds + [e])
  {
  }

  /** Appending a new well-formed entry keeps the invariant, with its count as the last count. */
  lemma AppendConsistent(s: Session, e: string, count: int)
    requires Consistent(s) && IsEntry(e) && e !in s.detects
    requires ParseLabel(e).value.count == count
    ensures Consistent(Session(s.detects + [e], count))
  {
    AppendNoDuplicates(s.detects, e);
  }

  /** The label of a valid clock reading and a positive count is a log entry. */
  lemma LabelIsEntry(t: Stamp, count: nat)
    requires ValidStamp(t) && count > 0
    ensures IsEntry(Label(t, count)) && ParseLabel(Label(t, count)).value.count == count
  {
    LabelRoundTrip(t, count);
  }

  /** The labels of a consistent log contain no newline, so each saves as one line. */
  lemma ConsistentNoNewlines(s: Session)
    requires Consistent(s)
    ensures NoNewlines(s.detects)
  {
    forall i | 0 <= i < |s.detects| ensures '\n' !in s.detects[i] {
      assert IsEntry(s.detects[i]);
    }
  }

  lemma ProcessConsistent(s: Session, x: Sample)
    requires Consistent(s) && ValidStamp(x.at)
    ensures Consistent(Process(s, x))
  {
    if Logs(s, x) {
      LabelIsEntry(x.at, x.objects);
      AppendConsistent(s, Label(x.at, x.objects), x.objects);
    }
  }

  lemma {:induction false} RunConsistent(s: Session, xs: seq<Sample>)
    requires Consistent(s)
    requires forall i :: 0 <= i < |xs| ==> ValidStamp(xs[i].at)
    ensures Consistent(Run(s, xs))
    decreases |xs|
  {
    if xs != [] {
      RunConsistent(s, xs[..|xs| - 1]);
      ProcessConsistent(Run(s, xs[..|xs| - 1]), xs[|xs| - 1]);
    }
  }

  /** Across any run the old log is a prefix of the new one: entries are only appended. */
  lemma {:induction false} RunAppendOnly(s: Session, xs: seq<Sample>)
    ensures s.detects <= Run(s, xs).detects
    ensures |Run(s, xs).detects| <= |s.detects| + |xs|
    decreases |xs|
  {
    if xs != [] {
      RunAppendOnly(s, xs[..|xs| - 1]);
    }
  }

  /** While the count stays at the last logged one, nothing is logged, whatever the clock. */
  lemma {:induction false} RunSteadyCount(s: Session, xs: seq<Sample>)
    requires s.lastCount > 0
    requires forall i :: 0 <= i < |xs| ==> xs[i].objects == s.lastCount
    ensures Run(s, xs) == s
    decreases |xs|
  {
    if xs != [] {
      RunSteadyCount(s, xs[..|xs| - 1]);
    }
  }

  /** Seeing the same result twice in a row changes nothing the second time. */
  lemma ProcessIdempotent(s: Session, x: Sample)
    ensures Process(Process(s, x), x) == Process(s, x)
  {
  }

  /**
   * After a frame with no objects the last count is forgotten: the next
   * positive count logs exactly when its label is new.
   */
  lemma ZeroResets(s: Session, z: Sample, x: Sample)
    requires z.objects <= 0
    ensures Logs(Process(s, z), x) <==> x.objects > 0 && Label(x.at, x.objects) !in s.detects
  {
  }

  /**
   * Deduplication is by label: in the same minute, a different count after a
   * logged one is logged as well.
   */
  lemma SameMinuteNewCount(s: Session, x: Sample, y: Sample)
    requires ValidStamp(x.at) && y.at == x.at
    requires Logs(s, x) && y.objects > 0 && y.objects != x.objects
    requires Label(y.at, y.objects) !in s.detects
    ensures Logs(Process(s, x), y)
    ensures Process(Process(s, x), y).detects == s.detects + [Label(x.at, x.objects), Label(y.at, y.objects)]
  {
    LabelInjective(x.at, x.objects, y.at, y.objects);
  }

  /** The scan over the log: whether `entry` is already recorded. */
  method IsPresent(detects: seq<string>, entry: string) returns (present: bool)
    ensures present <==> entry in detects
  {
    present := false;
    for i := 0 to |detects|
      invariant present <==> entry in detects[..i]
    {
      assert detects[..i + 1] == detects[..i] + [detects[i]];
      if detects[i] == entry {
        present := true;
      }
    }
    assert detects[..|detects|] == detects;
  }

  /** Samples at 09:00 with counts 1, 1, 2 log the 1 and the 2. */
  lemma ScenarioSameMinute()
    ensures var t := Stamp(3, 7, 9, 0);
            Run(Empty, [Sample(1, t), Sample(1, t), Sample(2, t)]).detects == [Label(t, 1), Label(t, 2)]
  {
    var t := Stamp(3, 7, 9, 0);
    LabelInjective(t, 1, t, 2);
    var xs := [Sample(1, t), Sample(1, t), Sample(2, t)];
    assert xs[..2][..1] == [Sample(1, t)];
    assert xs[..2] == [Sample(1, t), Sample(1, t)];
    assert [Sample(1, t)][..0] == [];
    assert Run(Empty, [Sample(1, t)][..0]) == Empty;
    var s1 := Run(Empty, [Sample(1, t)]);
    assert s1 == Session([Label(t, 1)], 1);
    var s2 := Run(Empty, xs[..2]);
    assert s2 == s1;
    assert Run(Empty, xs) == Process(s2, Sample(2, t));
  }

  /** Zero, then 3 at 10:15, then 3 again at 10:16: only the first 3 is logged. */
  lemma ScenarioSteadyAcrossMinutes()
    ensures Run(Empty, [Sample(0, Stamp(3, 7, 10, 15)), Sample(3, Stamp(3, 7, 10, 15)),
                        Sample(3, Stamp(3, 7, 10, 16))]).detects
            == [Label(Stamp(3, 7, 10, 15), 3)]
  {
    var t0, t1 := Stamp(3, 7, 10, 15), Stamp(3, 7, 10, 16);
    var xs := [Sample(0, t0), Sample(3, t0), Sample(3, t1)];
    assert xs[..2][..1] == [Sample(0, t0)];
    assert xs[..2] == [Sample(0, t0), Sample(3, t0)];
    assert [Sample(0, t0)][..0] == [];
    assert Run(Empty, [Sample(0, t0)][..0]) == Empty;
    var s1 := Run(Empty, [Sample(0, t0)]);
    assert s1 == Empty;
    var s2 := Run(Empty, xs[..2]);
    assert s2 == Session([Label(t0, 3)], 3);
    assert Run(Empty, xs) == Process(s2, Sample(3, t1));
  }

  /** The label of the first scenario, written out. */
  lemma ScenarioLabelText()
    ensures Label(Stamp(3, 7, 9, 0), 1) == "03/07 09:00, 1"
  {
  }
}
