/**
 * The statistics dashboard: totals over the saved study sessions, study time
 * and topic progress per catalogue volume, a twelve-month chart, the overall
 * progress and the advice shown under it.  Everything here is computed from
 * what the page loads; the loaded lists are parameters.
 */
module DashboardPage {
  import opened Wrappers
  import opened Text
  import opened Collections
  import opened Rounding
  import opened CalendarDates
  import opened FmeVolumes
  import GuidePage
  import SchedulePage

  /**
   * A saved session as the dashboard reads it: the volume id and the month of
   * its `date` (local time), each absent when the record has no such field or
   * the date is invalid (`getMonth()` is then `NaN`).
   */
  datatype DashboardSession = DashboardSession(volumeId: Option<string>, duration: int, month: Option<Month>)

  function Duration(s: DashboardSession): int {
    s.duration
  }

  /** `totalStudyTime`: the minutes of all sessions. */
  function TotalStudyTime(sessions: seq<DashboardSession>): int {
    SumBy(sessions, Duration)
  }

  predicate NonNegative(sessions: seq<DashboardSession>) {
    forall i :: 0 <= i < |sessions| ==> sessions[i].duration >= 0
  }

  /** JavaScript's `%`: the remainder takes the sign of the dividend. */
  function JsRem(a: int, d: int): (r: int)
    requires d > 0
    ensures a >= 0 ==> r == a % d
    ensures a < 0 ==> -d < r <= 0
  {
    if a >= 0 then a % d else -((-a) % d)
  }

  /** `totalStudyHours` and `totalStudyMinutes`: `Math.floor(t / 60)` and `t % 60`. */
  function SplitMinutes(total: int): (r: (int, int))
    ensures total >= 0 ==> r.0 * 60 + r.1 == total && 0 <= r.1 < 60 && r.0 >= 0
  {
    (total / 60, JsRem(total, 60))
  }

  /** A non-negative total of minutes is written back exactly as hours and minutes. */
  lemma SplitRoundTrip(hours: nat, minutes: nat)
    requires minutes < 60
    ensures SplitMinutes(hours * 60 + minutes) == (hours, minutes)
  {
    DivUnique(hours * 60 + minutes, 60, hours, minutes);
  }

  // ---------------------------------------------------------------------------
  // Per volume

  function OfVolume(id: string): DashboardSession -> bool {
    (s: DashboardSession) => s.volumeId == Some(id)
  }

  function VolumeLabel(v: Volume): string {
    "Vol " + IntToString(v.number)
  }

  /** One bar of the time chart, in minutes (the page shows hours to one decimal). */
  datatype VolumeTime = VolumeTime(name: string, minutes: int, fullName: string)

  /** The bar of one volume: the minutes of the sessions naming it. */
  function VolumeTimeOf(v: Volume, sessions: seq<DashboardSession>): (b: VolumeTime)
    requires NonNegative(sessions)
    ensures b.name == VolumeLabel(v) && b.fullName == v.title
    ensures b.minutes == SumBy(Filter(sessions, OfVolume(v.id)), Duration)
    ensures 0 <= b.minutes <= TotalStudyTime(sessions)
    ensures (forall s :: s in sessions ==> s.volumeId != Some(v.id)) ==> b.minutes == 0
  {
    SumByFilterBound(sessions, OfVolume(v.id), Duration);
    FilterNoneWhenAbsent(sessions, v.id);
    VolumeTime(VolumeLabel(v), SumBy(Filter(sessions, OfVolume(v.id)), Duration), v.title)
  }

  /** `timeByVolume`: one bar per catalogue volume, in catalogue order. */
  function TimeByVolume(volumes: seq<Volume>, sessions: seq<DashboardSession>): (r: seq<VolumeTime>)
    requires NonNegative(sessions)
    ensures |r| == |volumes|
    ensures forall i :: 0 <= i < |r| ==> r[i] == VolumeTimeOf(volumes[i], sessions)
  {
    seq(|volumes|, i requires 0 <= i < |volumes| => VolumeTimeOf(volumes[i], sessions))
  }

  function BarMinutes(b: VolumeTime): int {
    b.minutes
  }

  /** The minutes of the sessions naming a volume, as a function of the volume. */
  function VolumeMinutes(sessions: seq<DashboardSession>): Volume -> int {
    (v: Volume) => SumBy(Filter(sessions, OfVolume(v.id)), Duration)
  }

  /** The sessions that name one of the volumes, and so appear in some bar. */
  function Charted(volumes: seq<Volume>): DashboardSession -> bool {
    (s: DashboardSession) => s.volumeId.Some? && exists i :: 0 <= i < |volumes| && volumes[i].id == s.volumeId.value
  }

  /**
   * Over a catalogue with distinct ids, the bars of the time chart together hold
   * every minute of the sessions naming a catalogue volume, each once, and so
   * never more than the total study time.
   */
  lemma VolumeBarsAddUp(volumes: seq<Volume>, sessions: seq<DashboardSession>)
    requires NonNegative(sessions) && DistinctIds(volumes)
    ensures SumBy(TimeByVolume(volumes, sessions), BarMinutes) == SumBy(Filter(sessions, Charted(volumes)), Duration)
    ensures SumBy(TimeByVolume(volumes, sessions), BarMinutes) <= TotalStudyTime(sessions)
  {
    var bars := TimeByVolume(volumes, sessions);
    SumByEqual(bars, volumes, BarMinutes, VolumeMinutes(sessions));
    VolumeMinutesPartition(volumes, sessions);
    SumByFilterBound(sessions, Charted(volumes), Duration);
  }

  lemma {:induction false} VolumeMinutesPartition(volumes: seq<Volume>, sessions: seq<DashboardSession>)
    requires DistinctIds(volumes)
    ensures SumBy(volumes, VolumeMinutes(sessions)) == SumBy(Filter(sessions, Charted(volumes)), Duration)
  {
    if sessions == [] {
      SumByZero(volumes, VolumeMinutes(sessions));
    } else {
      var s, rest := sessions[0], sessions[1..];
      assert sessions == [s] + rest;
      VolumeMinutesPartition(volumes, rest);
      VolumeMinutesStep(volumes, s, rest);
      FilterCons(s, rest, Charted(volumes));
      SumByConcat(if Charted(volumes)(s) then [s] else [], Filter(rest, Charted(volumes)), Duration);
    }
  }

  /** A session in front adds its minutes to the bar of the one volume it names, if any. */
  lemma VolumeMinutesStep(volumes: seq<Volume>, s: DashboardSession, rest: seq<DashboardSession>)
    requires DistinctIds(volumes)
    ensures SumBy(volumes, VolumeMinutes([s] + rest))
         == SumBy(volumes, VolumeMinutes(rest)) + (if Charted(volumes)(s) then s.duration else 0)
  {
    var before, after := VolumeMinutes(rest), VolumeMinutes([s] + rest);
    if Charted(volumes)(s) {
      var m :| 0 <= m < |volumes| && volumes[m].id == s.volumeId.value;
      forall i | 0 <= i < |volumes| && i != m ensures after(volumes[i]) == before(volumes[i]) {
        VolumeMinutesCons(s, rest, volumes[i]);
      }
      VolumeMinutesCons(s, rest, volumes[m]);
      SumByUpdate(volumes, volumes, after, before, m);
    } else {
      forall i | 0 <= i < |volumes| ensures after(volumes[i]) == before(volumes[i]) {
        VolumeMinutesCons(s, rest, volumes[i]);
      }
      SumByEqual(volumes, volumes, after, before);
    }
  }

  /** A session in front adds its minutes to a volume's bar exactly when it names the volume. */
  lemma VolumeMinutesCons(s: DashboardSession, rest: seq<DashboardSession>, v: Volume)
    ensures VolumeMinutes([s] + rest)(v) == VolumeMinutes(rest)(v) + (if s.volumeId == Some(v.id) then s.duration else 0)
  {
    FilterCons(s, rest, OfVolume(v.id));
    SumByConcat(if OfVolume(v.id)(s) then [s] else [], Filter(rest, OfVolume(v.id)), Duration);
  }

  lemma FilterNoneWhenAbsent(sessions: seq<DashboardSession>, id: string)
    ensures (forall s :: s in sessions ==> s.volumeId != Some(id)) ==> Filter(sessions, OfVolume(id)) == []
  {
    if forall s :: s in sessions ==> s.volumeId != Some(id) {
      FilterNone(sessions, OfVolume(id));
    }
  }

  function TopicOf(id: string): GuidePage.CompletedTopic -> bool {
    (t: GuidePage.CompletedTopic) => t.volumeId == id
  }

  /** One bar of the progress chart. */
  datatype Progress = Progress(name: string, progress: int, fullName: string)

  /**
   * The bar of one volume: 0 without topics, otherwise the share of its topics
   * among the completion records naming it, rounded to the nearest percent.
   */
  function ProgressOf(v: Volume, completed: seq<GuidePage.CompletedTopic>): (b: Progress)
    ensures b.name == VolumeLabel(v) && b.fullName == v.title
    ensures |v.topics| == 0 ==> b.progress == 0
    ensures |v.topics| > 0 ==>
      2 * b.progress * |v.topics| <= 200 * |Filter(completed, TopicOf(v.id))| + |v.topics| < 2 * (b.progress + 1) * |v.topics|
    ensures |Filter(completed, TopicOf(v.id))| <= |v.topics| ==> 0 <= b.progress <= 100
  {
    var n := |v.topics|;
    var k := |Filter(completed, TopicOf(v.id))|;
    var p := if n > 0 then RoundDiv(100 * k, n) else 0;
    assert p == Percentage(k, n);
    Progress(VolumeLabel(v), p, v.title)
  }

  /** `progressByVolume`: one bar per catalogue volume, in catalogue order. */
  function ProgressByVolume(volumes: seq<Volume>, completed: seq<GuidePage.CompletedTopic>): (r: seq<Progress>)
    ensures |r| == |volumes|
    ensures forall i :: 0 <= i < |r| ==> r[i] == ProgressOf(volumes[i], completed)
  {
    seq(|volumes|, i requires 0 <= i < |volumes| => ProgressOf(volumes[i], completed))
  }

  // ---------------------------------------------------------------------------
  // Per month

  function InMonth(m: Month): DashboardSession -> bool {
    (s: DashboardSession) => s.month == Some(m)
  }

  function Dated(): DashboardSession -> bool {
    (s: DashboardSession) => s.month.Some?
  }

  /** One point of the monthly chart: how many sessions, and their minutes. */
  datatype MonthPoint = MonthPoint(sessions: int, minutes: int)

  /** `monthlyProgress`: twelve points, January first, each over the sessions dated in that month. */
  function MonthlyProgress(sessions: seq<DashboardSession>): (r: seq<MonthPoint>)
    ensures |r| == 12
    ensures forall m: Month :: r[m].sessions == |Filter(sessions, InMonth(m))|
    ensures forall m: Month :: r[m].minutes == SumBy(Filter(sessions, InMonth(m)), Duration)
  {
    seq(12, (m: int) requires 0 <= m < 12 =>
      var mine := Filter(sessions, InMonth(m));
      MonthPoint(|mine|, SumBy(mine, Duration)))
  }

  function PointSessions(p: MonthPoint): int {
    p.sessions
  }

  function PointMinutes(p: MonthPoint): int {
    p.minutes
  }

  /** A session put in front changes the point of its own month only, by one session and its minutes. */
  lemma MonthStep(s: DashboardSession, rest: seq<DashboardSession>, m: Month)
    ensures MonthlyProgress([s] + rest)[m].sessions
         == MonthlyProgress(rest)[m].sessions + (if s.month == Some(m) then 1 else 0)
    ensures MonthlyProgress([s] + rest)[m].minutes
         == MonthlyProgress(rest)[m].minutes + (if s.month == Some(m) then s.duration else 0)
  {
    var p := InMonth(m);
    var head := if p(s) then [s] else [];
    FilterCons(s, rest, p);
    SumByConcat(head, Filter(rest, p), Duration);
    if p(s) {
      assert head[1..] == [];
    }
  }

  /** A session put in front adds one session to the chart when it is dated. */
  lemma SessionsStep(s: DashboardSession, rest: seq<DashboardSession>)
    ensures SumBy(MonthlyProgress([s] + rest), PointSessions)
         == SumBy(MonthlyProgress(rest), PointSessions) + (if s.month.Some? then 1 else 0)
  {
    var a, b := MonthlyProgress([s] + rest), MonthlyProgress(rest);
    forall m: Month ensures a[m].sessions == b[m].sessions + (if s.month == Some(m) then 1 else 0) {
      MonthStep(s, rest, m);
    }
    var at := if s.month.Some? then s.month.value else 0;
    SumByUpdate(a, b, PointSessions, PointSessions, at);
  }

  /** A session put in front adds its minutes to the chart when it is dated. */
  lemma MinutesStep(s: DashboardSession, rest: seq<DashboardSession>)
    ensures SumBy(MonthlyProgress([s] + rest), PointMinutes)
         == SumBy(MonthlyProgress(rest), PointMinutes) + (if s.month.Some? then s.duration else 0)
  {
    var a, b := MonthlyProgress([s] + rest), MonthlyProgress(rest);
    forall m: Month ensures a[m].minutes == b[m].minutes + (if s.month == Some(m) then s.duration else 0) {
      MonthStep(s, rest, m);
    }
    var at := if s.month.Some? then s.month.value else 0;
    SumByUpdate(a, b, PointMinutes, PointMinutes, at);
  }

  /** A session put in front is one more dated session when it is dated. */
  lemma DatedStep(s: DashboardSession, rest: seq<DashboardSession>)
    ensures |Filter([s] + rest, Dated())| == |Filter(rest, Dated())| + (if s.month.Some? then 1 else 0)
    ensures SumBy(Filter([s] + rest, Dated()), Duration)
         == SumBy(Filter(rest, Dated()), Duration) + (if s.month.Some? then s.duration else 0)
  {
    var head := if Dated()(s) then [s] else [];
    FilterCons(s, rest, Dated());
    SumByConcat(head, Filter(rest, Dated()), Duration);
    if Dated()(s) {
      assert head[1..] == [];
    }
  }

  /**
   * Every session with a valid date is counted in exactly the point of its
   * month: the twelve points together hold all dated sessions and their minutes.
   */
  lemma {:induction false} MonthlyProgressAddsUp(sessions: seq<DashboardSession>)
    ensures SumBy(MonthlyProgress(sessions), PointSessions) == |Filter(sessions, Dated())|
    ensures SumBy(MonthlyProgress(sessions), PointMinutes) == SumBy(Filter(sessions, Dated()), Duration)
  {
    if sessions == [] {
      SumByZero(MonthlyProgress(sessions), PointSessions);
      SumByZero(MonthlyProgress(sessions), PointMinutes);
    } else {
      var s, rest := sessions[0], sessions[1..];
      assert sessions == [s] + rest;
      MonthlyProgressAddsUp(rest);
      SessionsStep(s, rest);
      MinutesStep(s, rest);
      DatedStep(s, rest);
    }
  }

  /** A session appears in the point of its own month and in no other. */
  lemma SessionInItsMonth(sessions: seq<DashboardSession>, s: DashboardSession, m: Month)
    requires s in sessions
    ensures s in Filter(sessions, InMonth(m)) <==> s.month == Some(m)
  {
    FilterMembers(sessions, InMonth(m));
  }

  // ---------------------------------------------------------------------------
  // Overall progress and advice

  /** `totalTopics`: the topics of all catalogue volumes. */
  function TotalTopics(volumes: seq<Volume>): (r: nat)
    ensures volumes != [] && volumes[0].topics != [] ==> r > 0
  {
    if volumes == [] then 0 else |volumes[0].topics| + TotalTopics(volumes[1..])
  }

  /**
   * `overallProgress`: 0 without topics, otherwise the completion records as a
   * share of all topics, rounded to the nearest percent.
   */
  function OverallProgress(volumes: seq<Volume>, topicsCompleted: nat): (r: int)
    ensures TotalTopics(volumes) == 0 ==> r == 0
    ensures TotalTopics(volumes) > 0 ==>
      2 * r * TotalTopics(volumes) <= 200 * topicsCompleted + TotalTopics(volumes) < 2 * (r + 1) * TotalTopics(volumes)
    ensures topicsCompleted <= TotalTopics(volumes) ==> 0 <= r <= 100
    ensures topicsCompleted == TotalTopics(volumes) > 0 ==> r == 100
    ensures topicsCompleted == 0 ==> r == 0
  {
    var total := TotalTopics(volumes);
    if total > 0 then Percentage(topicsCompleted, total) else 0
  }

  /** The four progress tips; the page guards each with its own range test. */
  datatype ProgressTip = JustStarting | GoodProgress | Halfway | AlmostThere

  /** The condition under which the page renders `tip`. */
  predicate TipShown(tip: ProgressTip, progress: int) {
    match tip
    case JustStarting => progress < 25
    case GoodProgress => progress >= 25 && progress < 50
    case Halfway => progress >= 50 && progress < 75
    case AlmostThere => progress >= 75
  }

  /** The tip shown for a progress value: the guards pick exactly one. */
  function TipFor(progress: int): (tip: ProgressTip)
    ensures TipShown(tip, progress)
    ensures forall other: ProgressTip :: TipShown(other, progress) ==> other == tip
  {
    if progress < 25 then JustStarting
    else if progress < 50 then GoodProgress
    else if progress < 75 then Halfway
    else AlmostThere
  }

  /** A higher progress never shows an earlier tip. */
  lemma TipMonotone(p: int, q: int)
    requires p <= q
    ensures TipRank(TipFor(p)) <= TipRank(TipFor(q))
  {
  }

  function TipRank(tip: ProgressTip): int {
    match tip
    case JustStarting => 0
    case GoodProgress => 1
    case Halfway => 2
    case AlmostThere => 3
  }

  datatype Insight = Tip(tip: ProgressTip) | PendingReviews(count: int) | StudyMore

  /** The insight card: one progress tip, a reminder when reviews are pending, a nudge under ten hours. */
  function Insights(progress: int, pending: int, studyHours: int): (r: seq<Insight>)
    ensures |r| >= 1 && r[0] == Tip(TipFor(progress))
    ensures |r| == 1 + (if pending > 0 then 1 else 0) + (if studyHours < 10 then 1 else 0)
    ensures PendingReviews(pending) in r <==> pending > 0
    ensures StudyMore in r <==> studyHours < 10
    ensures forall i :: 1 <= i < |r| ==> !r[i].Tip?
  {
    [Tip(TipFor(progress))]
      + (if pending > 0 then [PendingReviews(pending)] else [])
      + (if studyHours < 10 then [StudyMore] else [])
  }

  // ---------------------------------------------------------------------------
  // What the dashboard makes of the sessions the timer page saves

  /**
   * A session the timer page saves under the same storage key has neither a
   * `volumeId` nor a `date`: the dashboard reads it with both absent.
   */
  function FromTimerSession(s: SchedulePage.StudySession): (r: DashboardSession)
    ensures r.volumeId.None? && r.month.None? && r.duration == s.duration
  {
    DashboardSession(None, s.duration, None)
  }

  function FromTimerSessions(records: seq<SchedulePage.StudySession>): (r: seq<DashboardSession>)
    ensures |r| == |records|
    ensures forall i :: 0 <= i < |r| ==> r[i] == FromTimerSession(records[i])
  {
    if records == [] then [] else [FromTimerSession(records[0])] + FromTimerSessions(records[1..])
  }

  /**
   * Sessions recorded by the timer page count towards the total study time,
   * but in no volume bar and in no month of the monthly chart.
   */
  lemma {:induction false} TimerSessionsUncharted(records: seq<SchedulePage.StudySession>, volumes: seq<Volume>)
    requires forall i :: 0 <= i < |records| ==> records[i].duration >= 0
    ensures TotalStudyTime(FromTimerSessions(records)) == SchedulePage.TotalStudyTime(records)
    ensures forall p :: p in MonthlyProgress(FromTimerSessions(records)) ==> p == MonthPoint(0, 0)
    ensures forall b :: b in TimeByVolume(volumes, FromTimerSessions(records)) ==> b.minutes == 0
  {
    var sessions := FromTimerSessions(records);
    TimerTotals(records);
    forall m: Month ensures Filter(sessions, InMonth(m)) == [] {
      FilterNone(sessions, InMonth(m));
    }
  }

  lemma {:induction false} TimerTotals(records: seq<SchedulePage.StudySession>)
    ensures TotalStudyTime(FromTimerSessions(records)) == SchedulePage.TotalStudyTime(records)
  {
    if records != [] {
      TimerTotals(records[1..]);
    }
  }
}
