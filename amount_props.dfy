/** What `calculate_worklog_amount` computes, against a reference definition
    that walks each table once without filtering, and how the amount reacts
    to rows being added. */
module AmountProps {
  import opened Models
  import opened Seqs
  import opened Service

  /** Reference: the minutes of the ACTIVE segments of one worklog. */
  function MinutesOf(segments: seq<TimeSegment>, worklogId: Id): int
  {
    if segments == [] then 0
    else
      (if segments[0].worklogId == worklogId && segments[0].status == Active then segments[0].minutes else 0)
      + MinutesOf(segments[1..], worklogId)
  }

  /** Reference: the sum of the adjustments of one worklog. */
  function AdjustmentTotal(adjustments: seq<Adjustment>, worklogId: Id): Money
  {
    if adjustments == [] then 0.0
    else
      (if adjustments[0].worklogId == worklogId then adjustments[0].amount else 0.0)
      + AdjustmentTotal(adjustments[1..], worklogId)
  }

  lemma {:induction false} SumMinutesConcat(a: seq<TimeSegment>, b: seq<TimeSegment>)
    ensures SumMinutes(a + b) == SumMinutes(a) + SumMinutes(b)
  {
    if a == [] {
      assert a + b == b;
    } else {
      assert (a + b)[1..] == a[1..] + b;
      SumMinutesConcat(a[1..], b);
    }
  }

  lemma {:induction false} SumAdjustmentsConcat(a: seq<Adjustment>, b: seq<Adjustment>)
    ensures SumAdjustments(a + b) == SumAdjustments(a) + SumAdjustments(b)
  {
    if a == [] {
      assert a + b == b;
    } else {
      assert (a + b)[1..] == a[1..] + b;
      SumAdjustmentsConcat(a[1..], b);
    }
  }

  /** Summing the filtered ACTIVE segments is the reference minute count. */
  lemma {:induction false} ActiveMinutesMatchReference(segments: seq<TimeSegment>, worklogId: Id)
    ensures SumMinutes(ActiveSegmentsOf(segments, worklogId)) == MinutesOf(segments, worklogId)
  {
    if segments != [] {
      var p := (s: TimeSegment) => s.worklogId == worklogId && s.status == Active;
      assert segments == [segments[0]] + segments[1..];
      FilterConcat([segments[0]], segments[1..], p);
      assert Filter([segments[0]], p) == if p(segments[0]) then [segments[0]] else [];
      SumMinutesConcat(Filter([segments[0]], p), Filter(segments[1..], p));
      ActiveMinutesMatchReference(segments[1..], worklogId);
    }
  }

  /** Summing the filtered adjustments is the reference adjustment total. */
  lemma {:induction false} AdjustmentsMatchReference(adjustments: seq<Adjustment>, worklogId: Id)
    ensures SumAdjustments(AdjustmentsOf(adjustments, worklogId)) == AdjustmentTotal(adjustments, worklogId)
  {
    if adjustments != [] {
      var p := (a: Adjustment) => a.worklogId == worklogId;
      assert adjustments == [adjustments[0]] + adjustments[1..];
      FilterConcat([adjustments[0]], adjustments[1..], p);
      assert Filter([adjustments[0]], p) == if p(adjustments[0]) then [adjustments[0]] else [];
      SumAdjustmentsConcat(Filter([adjustments[0]], p), Filter(adjustments[1..], p));
      AdjustmentsMatchReference(adjustments[1..], worklogId);
    }
  }

  /** The amount of time at an hourly rate. */
  function TimeAmount(minutes: int, rate: Money): Money
  {
    (minutes as real / 60.0) * rate
  }

  /** A worklog's amount is its active minutes / 60 times its task's hourly
      rate, plus the sum of its adjustments. */
  lemma AmountFormula(t: Tables, w: WorkLog)
    ensures CalculateWorklogAmount(t, w)
         == TimeAmount(MinutesOf(t.segments, w.id), HourlyRate(t.tasks, w.taskId)) + AdjustmentTotal(t.adjustments, w.id)
  {
    ActiveMinutesMatchReference(t.segments, w.id);
    AdjustmentsMatchReference(t.adjustments, w.id);
  }

  lemma {:induction false} MinutesOfConcat(a: seq<TimeSegment>, b: seq<TimeSegment>, worklogId: Id)
    ensures MinutesOf(a + b, worklogId) == MinutesOf(a, worklogId) + MinutesOf(b, worklogId)
  {
    if a == [] {
      assert a + b == b;
    } else {
      assert (a + b)[1..] == a[1..] + b;
      MinutesOfConcat(a[1..], b, worklogId);
    }
  }

  lemma {:induction false} AdjustmentTotalConcat(a: seq<Adjustment>, b: seq<Adjustment>, worklogId: Id)
    ensures AdjustmentTotal(a + b, worklogId) == AdjustmentTotal(a, worklogId) + AdjustmentTotal(b, worklogId)
  {
    if a == [] {
      assert a + b == b;
    } else {
      assert (a + b)[1..] == a[1..] + b;
      AdjustmentTotalConcat(a[1..], b, worklogId);
    }
  }

  lemma MinutesIgnoresOther(segments: seq<TimeSegment>, i: nat, seg: TimeSegment, worklogId: Id)
    requires i <= |segments|
    requires seg.worklogId != worklogId || seg.status != Active
    ensures MinutesOf(segments[..i] + [seg] + segments[i..], worklogId) == MinutesOf(segments, worklogId)
  {
    MinutesOfConcat(segments[..i] + [seg], segments[i..], worklogId);
    MinutesOfConcat(segments[..i], [seg], worklogId);
    MinutesOfConcat(segments[..i], segments[i..], worklogId);
    assert segments[..i] + segments[i..] == segments;
  }

  lemma AdjustmentTotalIgnoresOther(adjustments: seq<Adjustment>, i: nat, adj: Adjustment, worklogId: Id)
    requires i <= |adjustments|
    requires adj.worklogId != worklogId
    ensures AdjustmentTotal(adjustments[..i] + [adj] + adjustments[i..], worklogId) == AdjustmentTotal(adjustments, worklogId)
  {
    AdjustmentTotalConcat(adjustments[..i] + [adj], adjustments[i..], worklogId);
    AdjustmentTotalConcat(adjustments[..i], [adj], worklogId);
    AdjustmentTotalConcat(adjustments[..i], adjustments[i..], worklogId);
    assert adjustments[..i] + adjustments[i..] == adjustments;
  }

  /** A segment of another worklog, or one that is not ACTIVE, changes
      nothing wherever it is inserted. */
  lemma AmountIgnoresOtherSegments(t: Tables, w: WorkLog, i: nat, seg: TimeSegment)
    requires i <= |t.segments|
    requires seg.worklogId != w.id || seg.status != Active
    ensures CalculateWorklogAmount(t.(segments := t.segments[..i] + [seg] + t.segments[i..]), w)
         == CalculateWorklogAmount(t, w)
  {
    AmountFormula(t, w);
    AmountFormula(t.(segments := t.segments[..i] + [seg] + t.segments[i..]), w);
    MinutesIgnoresOther(t.segments, i, seg, w.id);
  }

  /** An adjustment of another worklog changes nothing wherever it is inserted. */
  lemma AmountIgnoresOtherAdjustments(t: Tables, w: WorkLog, i: nat, adj: Adjustment)
    requires i <= |t.adjustments|
    requires adj.worklogId != w.id
    ensures CalculateWorklogAmount(t.(adjustments := t.adjustments[..i] + [adj] + t.adjustments[i..]), w)
         == CalculateWorklogAmount(t, w)
  {
    AmountFormula(t, w);
    AmountFormula(t.(adjustments := t.adjustments[..i] + [adj] + t.adjustments[i..]), w);
    AdjustmentTotalIgnoresOther(t.adjustments, i, adj, w.id);
  }

  lemma TimeAmountAdds(m: int, k: int, rate: Money)
    ensures TimeAmount(m + k, rate) == TimeAmount(m, rate) + TimeAmount(k, rate)
  {
    var a, b := m as real, k as real;
    assert (a + b) / 60.0 == a / 60.0 + b / 60.0;
    assert ((a / 60.0) + (b / 60.0)) * rate == (a / 60.0) * rate + (b / 60.0) * rate;
  }

  /** An ACTIVE segment of the worklog adds its minutes / 60 at the task's rate. */
  lemma AmountAddsActiveSegment(t: Tables, w: WorkLog, seg: TimeSegment)
    requires seg.worklogId == w.id && seg.status == Active
    ensures CalculateWorklogAmount(t.(segments := t.segments + [seg]), w)
         == CalculateWorklogAmount(t, w) + TimeAmount(seg.minutes, HourlyRate(t.tasks, w.taskId))
  {
    var t2 := t.(segments := t.segments + [seg]);
    var m, rate, adj := MinutesOf(t.segments, w.id), HourlyRate(t.tasks, w.taskId), AdjustmentTotal(t.adjustments, w.id);
    assert MinutesOf(t2.segments, w.id) == m + seg.minutes by {
      MinutesOfConcat(t.segments, [seg], w.id);
      assert MinutesOf([seg], w.id) == seg.minutes;
    }
    calc {
      CalculateWorklogAmount(t2, w);
      { AmountFormula(t2, w); }
      TimeAmount(m + seg.minutes, rate) + adj;
      { TimeAmountAdds(m, seg.minutes, rate); }
      TimeAmount(m, rate) + adj + TimeAmount(seg.minutes, rate);
      { AmountFormula(t, w); }
      CalculateWorklogAmount(t, w) + TimeAmount(seg.minutes, rate);
    }
  }

  /** An adjustment of the worklog adds its amount. */
  lemma AmountAddsAdjustment(t: Tables, w: WorkLog, adj: Adjustment)
    requires adj.worklogId == w.id
    ensures CalculateWorklogAmount(t.(adjustments := t.adjustments + [adj]), w)
         == CalculateWorklogAmount(t, w) + adj.amount
  {
    AmountFormula(t, w);
    AmountFormula(t.(adjustments := t.adjustments + [adj]), w);
    AdjustmentTotalConcat(t.adjustments, [adj], w.id);
    assert AdjustmentTotal([adj], w.id) == adj.amount;
  }

  /** With no task of that id the rate is zero: only the adjustments remain. */
  lemma AmountWithoutTask(t: Tables, w: WorkLog)
    requires forall task :: task in t.tasks ==> task.id != w.taskId
    ensures CalculateWorklogAmount(t, w) == AdjustmentTotal(t.adjustments, w.id)
  {
    AmountFormula(t, w);
  }

  /** A worklog with no ACTIVE segment and no adjustment is worth zero. */
  lemma AmountOfEmptyWorklog(t: Tables, w: WorkLog)
    requires forall s :: s in t.segments ==> s.worklogId != w.id || s.status != Active
    requires forall a :: a in t.adjustments ==> a.worklogId != w.id
    ensures CalculateWorklogAmount(t, w) == 0.0
  {
    FilterNone(t.segments, (s: TimeSegment) => s.worklogId == w.id && s.status == Active);
    FilterNone(t.adjustments, (a: Adjustment) => a.worklogId == w.id);
  }
}
