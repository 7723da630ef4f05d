/**
 * The study-session recorder (the `Schedule` page). A timer counts the
 * seconds of a session; ending it saves the session and schedules five
 * spaced reviews; a volume can be marked complete once, which schedules five
 * reviews of the whole volume. Times are milliseconds since the epoch, and
 * "now" is a parameter of every operation that reads the clock.
 */
module SchedulePage {
  import opened Wrappers
  import opened Text
  import opened Collections
  import opened Rounding
  import opened FmeVolumes
  import StudyPlanner

  /** The milliseconds of one day: `setDate(getDate() + d)` moves a date by `d` of them. */
  const DayMs := 86400000

  datatype StudySession = StudySession(
    id: string, volume: string, topic: string, duration: int,
    startTime: int, endTime: int, completedReviews: seq<int>)

  datatype ScheduledReview = ScheduledReview(
    id: string, sessionId: string, volume: string, topic: string,
    daysAfter: int, scheduledDate: int, completed: bool)

  datatype CompletedVolume = CompletedVolume(
    id: string, volumeId: string, volumeTitle: string, completionDate: int,
    reviews: seq<ScheduledReview>)

  /** Why a handler left the state as it was. */
  datatype Refusal =
    | NoVolumeOrTopic          // startSession: "Selecione um volume e um tópico"
    | NoTimeRecorded           // endSession: "Nenhum tempo de estudo registrado"
    | SelectedVolumeUndefined  // endSession: `selectedVolume!` is undefined and the handler throws
    | NoVolumeSelected         // completeVolume: "Selecione um volume"
    | VolumeAlreadyCompleted   // completeVolume: "Este volume já foi marcado como completo"

  // ---------------------------------------------------------------------------
  // formatTime

  /** `formatTime(seconds)`: hours, minutes and seconds, each zero-padded to two digits, joined by colons. */
  function FormatTime(seconds: nat): string {
    Pad2(seconds / 3600) + ":" + Pad2(seconds % 3600 / 60) + ":" + Pad2(seconds % 60)
  }

  /**
   * The text splits at its two colons into three digit fields: minutes and
   * seconds exactly two digits and below 60, hours at least two digits, and
   * the fields read back as the number of seconds.
   */
  lemma FormatTimeReadsBack(seconds: nat)
    ensures |Split(FormatTime(seconds), ':')| == 3
    ensures AllDigits(Split(FormatTime(seconds), ':')[0]) && |Split(FormatTime(seconds), ':')[0]| >= 2
    ensures AllDigits(Split(FormatTime(seconds), ':')[1]) && |Split(FormatTime(seconds), ':')[1]| == 2
    ensures AllDigits(Split(FormatTime(seconds), ':')[2]) && |Split(FormatTime(seconds), ':')[2]| == 2
    ensures DigitsValue(Split(FormatTime(seconds), ':')[1]) < 60
    ensures DigitsValue(Split(FormatTime(seconds), ':')[2]) < 60
    ensures DigitsValue(Split(FormatTime(seconds), ':')[0]) * 3600
          + DigitsValue(Split(FormatTime(seconds), ':')[1]) * 60
          + DigitsValue(Split(FormatTime(seconds), ':')[2]) == seconds
  {
    var h, m, sec := seconds / 3600, seconds % 3600 / 60, seconds % 60;
    TimeFields(seconds);
    FormatTimeFields(seconds);
    ClockFields(Split(FormatTime(seconds), ':'), Pad2(h), Pad2(m), Pad2(sec), h, m, sec, seconds);
  }

  /** Three padded fields of hours, minutes and seconds below 60 read back as the total. */
  lemma ClockFields(parts: seq<string>, ph: string, pm: string, ps: string, h: nat, m: nat, sec: nat, seconds: nat)
    requires parts == [ph, pm, ps]
    requires AllDigits(ph) && AllDigits(pm) && AllDigits(ps)
    requires |ph| >= 2 && |pm| == 2 && |ps| == 2
    requires DigitsValue(ph) == h && DigitsValue(pm) == m && DigitsValue(ps) == sec
    requires m < 60 && sec < 60 && h * 3600 + m * 60 + sec == seconds
    ensures |parts| == 3
    ensures AllDigits(parts[0]) && |parts[0]| >= 2
    ensures AllDigits(parts[1]) && |parts[1]| == 2
    ensures AllDigits(parts[2]) && |parts[2]| == 2
    ensures DigitsValue(parts[1]) < 60 && DigitsValue(parts[2]) < 60
    ensures DigitsValue(parts[0]) * 3600 + DigitsValue(parts[1]) * 60 + DigitsValue(parts[2]) == seconds
  {
  }

  /** The text splits at its colons into the three padded fields. */
  lemma FormatTimeFields(seconds: nat)
    ensures Split(FormatTime(seconds), ':') == [Pad2(seconds / 3600), Pad2(seconds % 3600 / 60), Pad2(seconds % 60)]
  {
    SplitThree(Pad2(seconds / 3600), Pad2(seconds % 3600 / 60), Pad2(seconds % 60));
  }

  lemma SplitThree(a: string, b: string, c: string)
    requires AllDigits(a) && AllDigits(b) && AllDigits(c)
    ensures Split(a + ":" + b + ":" + c, ':') == [a, b, c]
  {
    var parts := [a, b, c];
    JoinThree(a, b, c);
    DigitsOnly(a);
    DigitsOnly(b);
    DigitsOnly(c);
    SplitJoin(parts, ':');
  }

  /** The three fields `formatTime` computes: minutes and seconds below 60, and they add back up. */
  lemma TimeFields(seconds: nat)
    ensures seconds % 3600 / 60 < 60 && seconds % 60 < 60
    ensures (seconds / 3600) * 3600 + (seconds % 3600 / 60) * 60 + seconds % 60 == seconds
  {
    var r := seconds % 3600;
    assert seconds == (seconds / 3600) * 3600 + r;
    assert r == (r / 60) * 60 + r % 60;
    assert r % 60 == seconds % 60 by {
      assert seconds == ((seconds / 3600) * 60 + r / 60) * 60 + r % 60;
    }
  }

  lemma JoinThree(a: string, b: string, c: string)
    ensures Join([a, b, c], ':') == a + ":" + b + ":" + c
  {
    assert [a, b, c][1..] == [b, c];
    assert [b, c][1..] == [c];
    assert Join([b, c], ':') == b + [':'] + c;
    assert Join([a, b, c], ':') == a + [':'] + (b + [':'] + c);
  }

  lemma DigitsOnly(s: string)
    requires AllDigits(s)
    ensures ':' !in s
  {
  }

  // ---------------------------------------------------------------------------
  // The reviews a session or a completed volume schedules

  /**
   * The five reviews `reviewDays.map(...)` builds for a session (or a volume's
   * pseudo-session): id `<sessionId>-<d>`, due `d` days from now, not done.
   */
  function SpacedReviews(sessionId: string, volume: string, topic: string, now: int): (r: seq<ScheduledReview>)
    ensures |r| == |StudyPlanner.ReviewDays|
  {
    seq(|StudyPlanner.ReviewDays|, i requires 0 <= i < |StudyPlanner.ReviewDays| =>
      var d := StudyPlanner.ReviewDays[i];
      ScheduledReview(sessionId + "-" + IntToString(d), sessionId, volume, topic, d, now + d * DayMs, false))
  }

  /**
   * The reviews belong to the session, are pending, fall due `daysAfter` whole
   * days from now at 1, 7, 14, 30 and 90 days, strictly later one after the
   * other, and have pairwise different ids.
   */
  lemma SpacedReviewsShape(sessionId: string, volume: string, topic: string, now: int)
    ensures forall i :: 0 <= i < 5 ==>
      var r := SpacedReviews(sessionId, volume, topic, now)[i];
      && r.sessionId == sessionId && r.volume == volume && r.topic == topic && !r.completed
      && r.daysAfter == [1, 7, 14, 30, 90][i]
      && r.scheduledDate == now + r.daysAfter * DayMs
    ensures forall i, j :: 0 <= i < j < 5 ==>
      SpacedReviews(sessionId, volume, topic, now)[i].scheduledDate
        < SpacedReviews(sessionId, volume, topic, now)[j].scheduledDate
    ensures forall i, j :: 0 <= i < j < 5 ==>
      SpacedReviews(sessionId, volume, topic, now)[i].id != SpacedReviews(sessionId, volume, topic, now)[j].id
  {
    var rs := SpacedReviews(sessionId, volume, topic, now);
    forall i, j | 0 <= i < j < 5 ensures rs[i].id != rs[j].id {
      var di, dj := StudyPlanner.ReviewDays[i], StudyPlanner.ReviewDays[j];
      var pre := sessionId + "-";
      assert rs[i].id == pre + NatToString(di) && rs[j].id == pre + NatToString(dj);
      if rs[i].id == rs[j].id {
        assert NatToString(di) == rs[i].id[|pre|..] == rs[j].id[|pre|..] == NatToString(dj);
        NatToStringInjective(di, dj);
      }
    }
  }

  // ---------------------------------------------------------------------------
  // Catalogue lookups the handlers use

  /** `topics.find((t) => t.id === id)`. */
  function FindTopic(topics: seq<Topic>, id: string): (r: Option<Topic>)
    ensures r.None? <==> forall j :: 0 <= j < |topics| ==> topics[j].id != id
    ensures r.Some? ==> exists j :: 0 <= j < |topics| && topics[j] == r.value && r.value.id == id
                                    && forall k :: 0 <= k < j ==> topics[k].id != id
  {
    if topics == [] then None
    else if topics[0].id == id then Some(topics[0])
    else
      var r := FindTopic(topics[1..], id);
      if r.Some? then
        var j :| 0 <= j < |topics[1..]| && topics[1..][j] == r.value && r.value.id == id
                 && forall k :: 0 <= k < j ==> topics[1..][k].id != id;
        assert topics[j + 1] == r.value;
        r
      else r
  }

  /** `topic?.name || ""` for the selected topic among the selected volume's topics (`topicsForVolume`). */
  function SelectedTopicName(catalogue: seq<Volume>, volumeId: string, topicId: string): string {
    var topics := if volumeId != "" then TopicsById(catalogue, volumeId) else [];
    match FindTopic(topics, topicId)
    case None => ""
    case Some(t) => t.name
  }

  /** `Volume ${number} - ${title}`. */
  function VolumeTitle(v: Volume): string {
    "Volume " + IntToString(v.number) + " - " + v.title
  }

  // ---------------------------------------------------------------------------
  // Pure views of the state

  function SessionDuration(s: StudySession): int { s.duration }
  function ScheduledDate(r: ScheduledReview): int { r.scheduledDate }
  /** The history comparator `b.endTime - a.endTime` sorts by this key ascending. */
  function NewestFirst(s: StudySession): int { -s.endTime }

  predicate IsDone(r: ScheduledReview) { r.completed }
  predicate IsPending(r: ScheduledReview) { !r.completed }
  predicate IsOverdue(r: ScheduledReview, now: int) { !r.completed && r.scheduledDate < now }
  /** Pending and due within a day from now: the "upcoming" tab. */
  predicate IsUpcoming(r: ScheduledReview, now: int) { !r.completed && r.scheduledDate <= now + DayMs }
  /** Pending and due later than a day from now: the "future" tab. */
  predicate IsFuture(r: ScheduledReview, now: int) { !r.completed && r.scheduledDate > now + DayMs }

  /** `sessions.reduce((acc, s) => acc + s.duration, 0)`. */
  function TotalStudyTime(sessions: seq<StudySession>): int {
    SumBy(sessions, SessionDuration)
  }

  function CompletedReviews(reviews: seq<ScheduledReview>): nat { |Filter(reviews, IsDone)| }
  function PendingReviews(reviews: seq<ScheduledReview>): nat { |Filter(reviews, IsPending)| }
  function OverdueReviews(reviews: seq<ScheduledReview>, now: int): nat {
    |Filter(reviews, r => IsOverdue(r, now))|
  }

  /** Every review is either done or pending, and an overdue review is a pending one. */
  lemma ReviewCounts(reviews: seq<ScheduledReview>, now: int)
    ensures CompletedReviews(reviews) + PendingReviews(reviews) == |reviews|
    ensures OverdueReviews(reviews, now) <= PendingReviews(reviews)
  {
    FilterComplement(reviews, IsDone, IsPending);
    FilterStronger(reviews, IsPending, r => IsOverdue(r, now));
  }

  /** The "upcoming" list: pending reviews due within a day, earliest first. */
  function Upcoming(reviews: seq<ScheduledReview>, now: int): (r: seq<ScheduledReview>)
    ensures SortedBy(r, ScheduledDate)
  {
    SortBy(Filter(reviews, x => IsUpcoming(x, now)), ScheduledDate)
  }

  /** The "future" list: pending reviews due later than a day from now, earliest first. */
  function Future(reviews: seq<ScheduledReview>, now: int): (r: seq<ScheduledReview>)
    ensures SortedBy(r, ScheduledDate)
  {
    SortBy(Filter(reviews, x => IsFuture(x, now)), ScheduledDate)
  }

  /**
   * The two tabs split the pending reviews: together they hold each pending
   * review as often as the state does, the first only those due within a day,
   * the second only the later ones.
   */
  lemma UpcomingFuturePartition(reviews: seq<ScheduledReview>, now: int)
    ensures multiset(Upcoming(reviews, now)) + multiset(Future(reviews, now)) == multiset(Filter(reviews, IsPending))
    ensures forall r :: r in Upcoming(reviews, now) ==> !r.completed && r.scheduledDate <= now + DayMs
    ensures forall r :: r in Future(reviews, now) ==> !r.completed && r.scheduledDate > now + DayMs
  {
    FilterSplit(reviews, IsPending, x => IsUpcoming(x, now), x => IsFuture(x, now));
    var up, fut := Upcoming(reviews, now), Future(reviews, now);
    forall r | r in up ensures !r.completed && r.scheduledDate <= now + DayMs {
      assert r in multiset(up);
    }
    forall r | r in fut ensures !r.completed && r.scheduledDate > now + DayMs {
      assert r in multiset(fut);
    }
  }

  /** `sessions.filter((s) => s.id !== id)`. */
  function SessionsWithout(sessions: seq<StudySession>, id: string): (r: seq<StudySession>)
    ensures forall s :: s in r <==> s in sessions && s.id != id
  {
    FilterMembers(sessions, (s: StudySession) => s.id != id);
    Filter(sessions, (s: StudySession) => s.id != id)
  }

  /** `reviews.filter((r) => r.sessionId !== id)`. */
  function ReviewsWithoutSession(reviews: seq<ScheduledReview>, id: string): (r: seq<ScheduledReview>)
    ensures forall x :: x in r <==> x in reviews && x.sessionId != id
  {
    FilterMembers(reviews, (x: ScheduledReview) => x.sessionId != id);
    Filter(reviews, (x: ScheduledReview) => x.sessionId != id)
  }

  /** `reviews.filter((r) => r.id !== id)`. */
  function ReviewsWithoutId(reviews: seq<ScheduledReview>, id: string): (r: seq<ScheduledReview>)
    ensures forall x :: x in r <==> x in reviews && x.id != id
  {
    FilterMembers(reviews, (x: ScheduledReview) => x.id != id);
    Filter(reviews, (x: ScheduledReview) => x.id != id)
  }

  /** `reviews.map((r) => r.id === id ? { ...r, completed: true } : r)`. */
  function MarkComplete(reviews: seq<ScheduledReview>, id: string): (r: seq<ScheduledReview>)
    ensures |r| == |reviews|
    ensures forall i :: 0 <= i < |r| ==> r[i].(completed := reviews[i].completed) == reviews[i]
    ensures forall i :: 0 <= i < |r| ==> (r[i].completed <==> reviews[i].completed || reviews[i].id == id)
  {
    seq(|reviews|, i requires 0 <= i < |reviews| =>
      if reviews[i].id == id then reviews[i].(completed := true) else reviews[i])
  }

  /** Marking a review done twice is marking it once. */
  lemma MarkCompleteIdempotent(reviews: seq<ScheduledReview>, id: string)
    ensures MarkComplete(MarkComplete(reviews, id), id) == MarkComplete(reviews, id)
  {
  }

  /** Marking a review done never adds pending reviews, and the review marked is no longer pending. */
  lemma MarkCompletePending(reviews: seq<ScheduledReview>, id: string)
    ensures PendingReviews(MarkComplete(reviews, id)) <= PendingReviews(reviews)
    ensures forall r :: r in MarkComplete(reviews, id) && r.id == id ==> r.completed
  {
    MarkPendingStep(reviews, id);
  }

  lemma {:induction false} MarkPendingStep(reviews: seq<ScheduledReview>, id: string)
    ensures |Filter(MarkComplete(reviews, id), IsPending)| <= |Filter(reviews, IsPending)|
  {
    if reviews != [] {
      MarkPendingStep(reviews[1..], id);
      assert MarkComplete(reviews, id)[1..] == MarkComplete(reviews[1..], id);
    }
  }

  /** No two completion records name the same volume. */
  predicate OncePerVolume(volumes: seq<CompletedVolume>) {
    forall i, j :: 0 <= i < j < |volumes| ==> volumes[i].volumeId != volumes[j].volumeId
  }

  /** `completedVolumes.some((v) => v.volumeId === id)`. */
  predicate IsCompletedVolume(volumes: seq<CompletedVolume>, id: string) {
    exists i :: 0 <= i < |volumes| && volumes[i].volumeId == id
  }

  // ---------------------------------------------------------------------------
  // The page state and its handlers

  class ScheduleState {
    var sessions: seq<StudySession>
    var reviews: seq<ScheduledReview>
    var completedVolumes: seq<CompletedVolume>
    var timerActive: bool
    var timerSeconds: nat
    var selectedVolumeId: string
    var selectedTopicId: string
    /** The catalogue the page imports (`fmeVolumes`). */
    const catalogue: seq<Volume>

    /** The saved lists, or empty ones when nothing was saved; the timer stopped at zero, nothing selected. */
    constructor(savedSessions: Option<seq<StudySession>>, savedReviews: Option<seq<ScheduledReview>>,
                savedVolumes: Option<seq<CompletedVolume>>)
      ensures sessions == (if savedSessions.Some? then savedSessions.value else [])
      ensures reviews == (if savedReviews.Some? then savedReviews.value else [])
      ensures completedVolumes == (if savedVolumes.Some? then savedVolumes.value else [])
      ensures !timerActive && timerSeconds == 0 && selectedVolumeId == "" && selectedTopicId == ""
      ensures catalogue == FmeVolumes.FmeVolumes
    {
      catalogue := FmeVolumes.FmeVolumes;
      sessions := if savedSessions.Some? then savedSessions.value else [];
      reviews := if savedReviews.Some? then savedReviews.value else [];
      completedVolumes := if savedVolumes.Some? then savedVolumes.value else [];
      timerActive := false;
      timerSeconds := 0;
      selectedVolumeId := "";
      selectedTopicId := "";
    }

    /** While the timer runs or holds time, the selected volume is one of the catalogue. */
    predicate TimerHasVolume()
      reads this
    {
      (timerActive || timerSeconds > 0) ==> VolumeById(catalogue, selectedVolumeId).Some?
    }

    /** Choosing a volume in the first select, whose options are the catalogue's volume ids. */
    method SelectVolume(id: string)
      requires VolumeById(catalogue, id).Some?
      modifies this
      ensures selectedVolumeId == id
      ensures sessions == old(sessions) && reviews == old(reviews) && completedVolumes == old(completedVolumes)
      ensures timerActive == old(timerActive) && timerSeconds == old(timerSeconds) && selectedTopicId == old(selectedTopicId)
      ensures old(TimerHasVolume()) ==> TimerHasVolume()
    {
      selectedVolumeId := id;
    }

    /** Choosing a topic in the second select. */
    method SelectTopic(id: string)
      modifies this
      ensures selectedTopicId == id
      ensures sessions == old(sessions) && reviews == old(reviews) && completedVolumes == old(completedVolumes)
      ensures timerActive == old(timerActive) && timerSeconds == old(timerSeconds) && selectedVolumeId == old(selectedVolumeId)
      ensures old(TimerHasVolume()) ==> TimerHasVolume()
    {
      selectedTopicId := id;
    }

    /** One firing of the one-second interval: the count grows by one while the timer is active. */
    method Tick()
      modifies this
      ensures timerSeconds == if old(timerActive) then old(timerSeconds) + 1 else old(timerSeconds)
      ensures sessions == old(sessions) && reviews == old(reviews) && completedVolumes == old(completedVolumes)
      ensures timerActive == old(timerActive) && selectedVolumeId == old(selectedVolumeId) && selectedTopicId == old(selectedTopicId)
      ensures old(TimerHasVolume()) ==> TimerHasVolume()
    {
      if timerActive {
        timerSeconds := timerSeconds + 1;
      }
    }

    /** `startSession`: refused without a catalogue volume and a topic; otherwise the timer starts. */
    method StartSession() returns (outcome: Outcome<Refusal>)
      modifies this
      ensures outcome == (if VolumeById(catalogue, selectedVolumeId).None? || selectedTopicId == "" then Refused(NoVolumeOrTopic) else Done)
      ensures timerActive == (outcome.Done? || old(timerActive))
      ensures sessions == old(sessions) && reviews == old(reviews) && completedVolumes == old(completedVolumes)
      ensures timerSeconds == old(timerSeconds) && selectedVolumeId == old(selectedVolumeId) && selectedTopicId == old(selectedTopicId)
      ensures old(TimerHasVolume()) ==> TimerHasVolume()
    {
      if VolumeById(catalogue, selectedVolumeId).None? || selectedTopicId == "" {
        return Refused(NoVolumeOrTopic);
      }
      timerActive := true;
      outcome := Done;
    }

    /** `pauseSession`: the timer stops and keeps its count. */
    method PauseSession()
      modifies this
      ensures !timerActive
      ensures sessions == old(sessions) && reviews == old(reviews) && completedVolumes == old(completedVolumes)
      ensures timerSeconds == old(timerSeconds) && selectedVolumeId == old(selectedVolumeId) && selectedTopicId == old(selectedTopicId)
      ensures old(TimerHasVolume()) ==> TimerHasVolume()
    {
      timerActive := false;
    }

    /** `resetTimer`: the timer stops at zero and the topic is deselected. */
    method ResetTimer()
      modifies this
      ensures !timerActive && timerSeconds == 0 && selectedTopicId == ""
      ensures sessions == old(sessions) && reviews == old(reviews) && completedVolumes == old(completedVolumes)
      ensures selectedVolumeId == old(selectedVolumeId)
      ensures TimerHasVolume()
    {
      timerActive := false;
      timerSeconds := 0;
      selectedTopicId := "";
    }

    /**
     * `endSession`: with no recorded time nothing changes; with time but no
     * selected volume the handler throws before changing anything; otherwise one
     * session of `ceil(seconds / 60)` minutes ending now is appended, with its
     * five reviews, and the timer stops at zero with the topic deselected.
     */
    method EndSession(now: int) returns (outcome: Outcome<Refusal>)
      modifies this
      ensures outcome == if old(timerSeconds) == 0 then Refused(NoTimeRecorded)
                         else if VolumeById(catalogue, old(selectedVolumeId)).None? then Refused(SelectedVolumeUndefined)
                         else Done
      ensures outcome.Refused? ==>
        && sessions == old(sessions) && reviews == old(reviews) && completedVolumes == old(completedVolumes)
        && timerActive == old(timerActive) && timerSeconds == old(timerSeconds)
        && selectedVolumeId == old(selectedVolumeId) && selectedTopicId == old(selectedTopicId)
      ensures outcome.Done? ==>
        var title := VolumeTitle(VolumeById(catalogue, old(selectedVolumeId)).value);
        var topic := SelectedTopicName(catalogue, old(selectedVolumeId), old(selectedTopicId));
        var id := IntToString(now);
        && old(timerSeconds) > 0 && VolumeById(catalogue, old(selectedVolumeId)).Some?
        && sessions == old(sessions) + [StudySession(id, title, topic, CeilDiv(old(timerSeconds), 60),
                                                     now - old(timerSeconds) * 1000, now, [])]
        && reviews == old(reviews) + SpacedReviews(id, title, topic, now)
        && completedVolumes == old(completedVolumes)
        && !timerActive && timerSeconds == 0 && selectedTopicId == ""
        && selectedVolumeId == old(selectedVolumeId)
      ensures old(TimerHasVolume()) ==> outcome != Refused(SelectedVolumeUndefined) && TimerHasVolume()
    {
      if timerSeconds == 0 {
        return Refused(NoTimeRecorded);
      }
      var volume := VolumeById(catalogue, selectedVolumeId);
      if volume.None? {
        return Refused(SelectedVolumeUndefined);
      }
      var title := VolumeTitle(volume.value);
      var topic := SelectedTopicName(catalogue, selectedVolumeId, selectedTopicId);
      var id := IntToString(now);
      var session := StudySession(id, title, topic, CeilDiv(timerSeconds, 60), now - timerSeconds * 1000, now, []);
      sessions := sessions + [session];
      reviews := reviews + SpacedReviews(id, title, topic, now);
      timerActive := false;
      timerSeconds := 0;
      selectedTopicId := "";
      outcome := Done;
    }

    /**
     * `completeVolume` as written: refused without a selected volume or when
     * the volume already has a completion record; otherwise one record with five
     * volume reviews is appended, the reviews are added to the list, the
     * selection is cleared and the count is reset, while the timer is left
     * running if it was.
     */
    method CompleteVolume(now: int) returns (outcome: Outcome<Refusal>)
      modifies this
      ensures outcome == if VolumeById(catalogue, old(selectedVolumeId)).None? then Refused(NoVolumeSelected)
                         else if IsCompletedVolume(old(completedVolumes), old(selectedVolumeId)) then Refused(VolumeAlreadyCompleted)
                         else Done
      ensures outcome.Refused? ==>
        && sessions == old(sessions) && reviews == old(reviews) && completedVolumes == old(completedVolumes)
        && timerActive == old(timerActive) && timerSeconds == old(timerSeconds)
        && selectedVolumeId == old(selectedVolumeId) && selectedTopicId == old(selectedTopicId)
      ensures outcome.Done? ==>
        && VolumeById(catalogue, old(selectedVolumeId)).Some? && !IsCompletedVolume(old(completedVolumes), old(selectedVolumeId))
        && completedVolumes == old(completedVolumes) + [VolumeRecord(catalogue, old(selectedVolumeId), now)]
        && reviews == old(reviews) + VolumeRecord(catalogue, old(selectedVolumeId), now).reviews
        && sessions == old(sessions)
        && selectedVolumeId == "" && selectedTopicId == "" && timerSeconds == 0
        && timerActive == old(timerActive)
      ensures old(OncePerVolume(completedVolumes)) ==> OncePerVolume(completedVolumes)
    {
      outcome := CompleteVolumeCore(now);
    }

    /**
     * `completeVolume` with the timer also stopped, which keeps
     * `TimerHasVolume`: otherwise identical to `CompleteVolume`.
     */
    method CompleteVolumeStoppingTimer(now: int) returns (outcome: Outcome<Refusal>)
      modifies this
      ensures outcome == if VolumeById(catalogue, old(selectedVolumeId)).None? then Refused(NoVolumeSelected)
                         else if IsCompletedVolume(old(completedVolumes), old(selectedVolumeId)) then Refused(VolumeAlreadyCompleted)
                         else Done
      ensures outcome.Refused? ==>
        && sessions == old(sessions) && reviews == old(reviews) && completedVolumes == old(completedVolumes)
        && timerActive == old(timerActive) && timerSeconds == old(timerSeconds)
        && selectedVolumeId == old(selectedVolumeId) && selectedTopicId == old(selectedTopicId)
      ensures outcome.Done? ==>
        && VolumeById(catalogue, old(selectedVolumeId)).Some? && !IsCompletedVolume(old(completedVolumes), old(selectedVolumeId))
        && completedVolumes == old(completedVolumes) + [VolumeRecord(catalogue, old(selectedVolumeId), now)]
        && reviews == old(reviews) + VolumeRecord(catalogue, old(selectedVolumeId), now).reviews
        && sessions == old(sessions)
        && selectedVolumeId == "" && selectedTopicId == "" && timerSeconds == 0
        && !timerActive
      ensures old(OncePerVolume(completedVolumes)) ==> OncePerVolume(completedVolumes)
      ensures old(TimerHasVolume()) ==> TimerHasVolume()
    {
      outcome := CompleteVolumeCore(now);
      if outcome.Done? {
        timerActive := false;
      }
    }

    /** The body both variants of `completeVolume` share. */
    method CompleteVolumeCore(now: int) returns (outcome: Outcome<Refusal>)
      modifies this
      ensures outcome == if VolumeById(catalogue, old(selectedVolumeId)).None? then Refused(NoVolumeSelected)
                         else if IsCompletedVolume(old(completedVolumes), old(selectedVolumeId)) then Refused(VolumeAlreadyCompleted)
                         else Done
      ensures outcome.Refused? ==>
        && sessions == old(sessions) && reviews == old(reviews) && completedVolumes == old(completedVolumes)
        && timerActive == old(timerActive) && timerSeconds == old(timerSeconds)
        && selectedVolumeId == old(selectedVolumeId) && selectedTopicId == old(selectedTopicId)
      ensures outcome.Done? ==>
        && VolumeById(catalogue, old(selectedVolumeId)).Some? && !IsCompletedVolume(old(completedVolumes), old(selectedVolumeId))
        && completedVolumes == old(completedVolumes) + [VolumeRecord(catalogue, old(selectedVolumeId), now)]
        && reviews == old(reviews) + VolumeRecord(catalogue, old(selectedVolumeId), now).reviews
        && sessions == old(sessions)
        && selectedVolumeId == "" && selectedTopicId == "" && timerSeconds == 0
        && timerActive == old(timerActive)
      ensures old(OncePerVolume(completedVolumes)) ==> OncePerVolume(completedVolumes)
    {
      if VolumeById(catalogue, selectedVolumeId).None? {
        return Refused(NoVolumeSelected);
      }
      if IsCompletedVolume(completedVolumes, selectedVolumeId) {
        return Refused(VolumeAlreadyCompleted);
      }
      var record := VolumeRecord(catalogue, selectedVolumeId, now);
      completedVolumes := completedVolumes + [record];
      reviews := reviews + record.reviews;
      selectedVolumeId := "";
      selectedTopicId := "";
      timerSeconds := 0;
      outcome := Done;
    }

    /** `deleteSession(id)`: the session goes, and with it exactly the reviews it scheduled. */
    method DeleteSession(id: string)
      modifies this
      ensures sessions == SessionsWithout(old(sessions), id)
      ensures reviews == ReviewsWithoutSession(old(reviews), id)
      ensures completedVolumes == old(completedVolumes)
      ensures timerActive == old(timerActive) && timerSeconds == old(timerSeconds)
      ensures selectedVolumeId == old(selectedVolumeId) && selectedTopicId == old(selectedTopicId)
    {
      sessions := SessionsWithout(sessions, id);
      reviews := ReviewsWithoutSession(reviews, id);
    }

    /** `markReviewComplete(id)`. */
    method MarkReviewComplete(id: string)
      modifies this
      ensures reviews == MarkComplete(old(reviews), id)
      ensures sessions == old(sessions) && completedVolumes == old(completedVolumes)
      ensures timerActive == old(timerActive) && timerSeconds == old(timerSeconds)
      ensures selectedVolumeId == old(selectedVolumeId) && selectedTopicId == old(selectedTopicId)
    {
      reviews := MarkComplete(reviews, id);
    }

    /** `deleteReview(id)`. */
    method DeleteReview(id: string)
      modifies this
      ensures reviews == ReviewsWithoutId(old(reviews), id)
      ensures sessions == old(sessions) && completedVolumes == old(completedVolumes)
      ensures timerActive == old(timerActive) && timerSeconds == old(timerSeconds)
      ensures selectedVolumeId == old(selectedVolumeId) && selectedTopicId == old(selectedTopicId)
    {
      reviews := ReviewsWithoutId(reviews, id);
    }

    /**
     * Rendering the history tab calls `sessions.sort(...)`, which reorders the
     * state's own array: newest end time first, ties kept in their order.
     */
    method ShowHistory() returns (shown: seq<StudySession>)
      modifies this
      ensures shown == sessions && multiset(sessions) == multiset(old(sessions))
      ensures sessions == SortBy(old(sessions), NewestFirst)
      ensures forall i, j :: 0 <= i < j < |shown| ==> shown[i].endTime >= shown[j].endTime
      ensures reviews == old(reviews) && completedVolumes == old(completedVolumes)
      ensures timerActive == old(timerActive) && timerSeconds == old(timerSeconds)
      ensures selectedVolumeId == old(selectedVolumeId) && selectedTopicId == old(selectedTopicId)
    {
      sessions := SortBy(sessions, NewestFirst);
      shown := sessions;
      assert forall i, j :: 0 <= i < j < |shown| ==> NewestFirst(shown[i]) <= NewestFirst(shown[j]);
    }
  }

  /** The completion record for a catalogue volume: five reviews of the whole volume, titled after it. */
  function VolumeRecord(catalogue: seq<Volume>, volumeId: string, now: int): (r: CompletedVolume)
    requires VolumeById(catalogue, volumeId).Some?
    ensures r.volumeId == volumeId && |r.reviews| == 5
    ensures forall i :: 0 <= i < 5 ==> r.reviews[i].sessionId == "volume-" + volumeId && !r.reviews[i].completed
  {
    var v := VolumeById(catalogue, volumeId).value;
    var title := VolumeTitle(v);
    var reviews := SpacedReviews("volume-" + volumeId, title, "Revisão Completa - " + v.title, now);
    SpacedReviewsShape("volume-" + volumeId, title, "Revisão Completa - " + v.title, now);
    CompletedVolume("completed-" + volumeId + "-" + IntToString(now), volumeId, title, now, reviews)
  }

  /**
   * Deleting a session keeps every review of a completed volume: their
   * pseudo-session ids start with "volume-", which no session id (the decimal
   * `Date.now()`) does.
   */
  lemma DeleteSessionKeepsVolumeReviews(reviews: seq<ScheduledReview>, now: int, r: ScheduledReview)
    requires r in reviews && |r.sessionId| >= 7 && r.sessionId[..7] == "volume-"
    ensures r in ReviewsWithoutSession(reviews, IntToString(now))
  {
    var id := IntToString(now);
    assert r.sessionId[0] == 'v';
    assert id[0] == '-' || IsDigit(id[0]);
  }

  /**
   * With the timer running, `completeVolume` clears the selection but leaves
   * the timer active: one second later `endSession` finds time recorded and no
   * selected volume, and throws.
   */
  method CompleteVolumeLeavesTimerRunning(page: ScheduleState, now: int, later: int) returns (outcome: Outcome<Refusal>)
    requires page.catalogue == FmeVolumes.FmeVolumes
    requires page.timerActive
    requires VolumeById(page.catalogue, page.selectedVolumeId).Some?
    requires !IsCompletedVolume(page.completedVolumes, page.selectedVolumeId)
    modifies page
    ensures outcome == Refused(SelectedVolumeUndefined)
  {
    var completed := page.CompleteVolume(now);
    assert completed == Done;
    EmptyIdUnknown();
    assert !page.TimerHasVolume();
    page.Tick();
    outcome := page.EndSession(later);
  }
}
