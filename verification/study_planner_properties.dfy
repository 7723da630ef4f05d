/**
 * What the schedule generator guarantees: how one topic is placed, the order
 * and the budget of the study entries, which entries get reviews and when, and
 * what the final sort keeps.
 */
module StudyPlannerProperties {
  import opened Wrappers
  import opened Text
  import opened Collections
  import opened Rounding
  import opened Curriculum
  import opened StudyPlanner

  // ---------------------------------------------------------------------------
  // One topic

  /** The entries `Place` appends for one topic. */
  function NewEntries(c: Cursor, s: Slot, completedTopics: set<string>): seq<ScheduleItem> {
    Place(c, s, completedTopics).items[|c.items|..]
  }

  lemma PlaceAppends(c: Cursor, s: Slot, completedTopics: set<string>)
    ensures Place(c, s, completedTopics).items == c.items + NewEntries(c, s, completedTopics)
  {
  }

  /**
   * A topic that fits in what is left of the day becomes one entry on that day.
   * One that does not becomes `_part1`, which uses up the day, and `_part2`,
   * the rest, on the next day; both keep the first day as their study date.
   */
  lemma PlaceShape(c: Cursor, s: Slot, completedTopics: set<string>)
    ensures Place(c, s, completedTopics).items == c.items + NewEntries(c, s, completedTopics)
    ensures StartDay(c) == (if c.minutesRemaining == 0 then c.date + 1 else c.date)
    ensures StartBudget(c) == (if c.minutesRemaining == 0 then DailyStudyMinutes else c.minutesRemaining)
    ensures var e := NewEntries(c, s, completedTopics);
      s.duration <= StartBudget(c) ==>
        && |e| == 1
        && e[0].id == "study_" + s.key
        && e[0].date == StartDay(c)
        && e[0].duration == s.duration
        && e[0].topic == s.topic
        && Place(c, s, completedTopics).date == StartDay(c)
        && Place(c, s, completedTopics).minutesRemaining == StartBudget(c) - s.duration
    ensures var e := NewEntries(c, s, completedTopics);
      s.duration > StartBudget(c) ==>
        && |e| == 2
        && e[0].id == "study_" + s.key + "_part1"
        && e[1].id == "study_" + s.key + "_part2"
        && e[0].date == StartDay(c)
        && e[1].date == StartDay(c) + 1
        && e[0].duration == StartBudget(c)
        && e[0].duration + e[1].duration == s.duration
        && e[0].topic == s.topic
        && e[1].topic == s.topic + " (continuação)"
        && Place(c, s, completedTopics).date == StartDay(c) + 1
        && Place(c, s, completedTopics).minutesRemaining == DailyStudyMinutes - e[1].duration
    ensures var e := NewEntries(c, s, completedTopics);
      forall k :: 0 <= k < |e| ==>
        && e[k].kind == Study
        && e[k].reviewDay == None
        && e[k].completed == (s.key in completedTopics)
        && e[k].originalStudyDate == StartDay(c)
        && e[k].volume == s.volume && e[k].volumeTitle == s.volumeTitle && e[k].chapter == s.chapter
  {
  }

  // ---------------------------------------------------------------------------
  // Order of the study entries

  /**
   * The study entries come in date order, the first one on the day after the
   * start date, each topic gives one or two entries, and a fragment is at most
   * one day after its study date.
   */
  lemma {:induction false} RunOrder(slots: seq<Slot>, startDate: int, completedTopics: set<string>)
    ensures var c := Run(slots, startDate, completedTopics);
      && c.date >= startDate
      && |slots| <= |c.items| <= 2 * |slots|
      && (slots != [] ==> c.items[0].date == startDate + 1)
      && (forall i :: 0 <= i < |c.items| ==> startDate + 1 <= c.items[i].date <= c.date)
      && (forall i, j :: 0 <= i < j < |c.items| ==> c.items[i].date <= c.items[j].date)
      && (forall i :: 0 <= i < |c.items| ==>
            IsStudy(c.items[i]) && c.items[i].originalStudyDate <= c.items[i].date <= c.items[i].originalStudyDate + 1)
  {
    if slots != [] {
      var prefix := slots[..|slots| - 1];
      RunOrder(prefix, startDate, completedTopics);
      PlaceKeepsOrder(Run(prefix, startDate, completedTopics), slots[|slots| - 1], startDate, |prefix|, completedTopics);
    }
  }

  /** What `RunOrder` states of a cursor after `n` topics, with the budget empty before the first. */
  predicate StudyRun(c: Cursor, startDate: int, n: nat) {
    && c.date >= startDate
    && n <= |c.items| <= 2 * n
    && (c.items == [] ==> c.minutesRemaining == 0)
    && (n != 0 ==> c.items[0].date == startDate + 1)
    && (forall i :: 0 <= i < |c.items| ==> startDate + 1 <= c.items[i].date <= c.date)
    && DatesInOrder(c.items)
    && (forall i :: 0 <= i < |c.items| ==>
          IsStudy(c.items[i]) && c.items[i].originalStudyDate <= c.items[i].date <= c.items[i].originalStudyDate + 1)
  }

  predicate DatesInOrder(items: seq<ScheduleItem>) {
    forall i, j :: 0 <= i < j < |items| ==> items[i].date <= items[j].date
  }

  /** Entries in date order followed by entries in date order, none earlier than the last before them. */
  lemma DatesInOrderConcat(a: seq<ScheduleItem>, b: seq<ScheduleItem>)
    requires DatesInOrder(a) && DatesInOrder(b)
    requires forall i, j :: 0 <= i < |a| && 0 <= j < |b| ==> a[i].date <= b[j].date
    ensures DatesInOrder(a + b)
  {
    var items := a + b;
    forall i, j | 0 <= i < j < |items| ensures items[i].date <= items[j].date {
      if j < |a| {
        assert items[i] == a[i] && items[j] == a[j];
      } else if i >= |a| {
        assert items[i] == b[i - |a|] && items[j] == b[j - |a|];
      } else {
        assert items[i] == a[i] && items[j] == b[j - |a|];
      }
    }
  }

  /** The one or two entries of a topic: study entries from its start day, in order, up to the cursor's new date. */
  lemma EntriesInOrder(c: Cursor, s: Slot, completedTopics: set<string>)
    ensures var e := NewEntries(c, s, completedTopics);
      && 1 <= |e| <= 2
      && e[0].date == StartDay(c)
      && Place(c, s, completedTopics).date >= StartDay(c)
      && DatesInOrder(e)
      && forall k :: 0 <= k < |e| ==>
           && IsStudy(e[k])
           && StartDay(c) <= e[k].date <= Place(c, s, completedTopics).date
           && e[k].originalStudyDate == StartDay(c)
           && e[k].date <= StartDay(c) + 1
  {
    var day := StartDay(c);
    var e := NewEntries(c, s, completedTopics);
    var isCompleted := s.key in completedTopics;
    if s.duration <= StartBudget(c) {
      assert e == [StudyItem("study_" + s.key, day, s, s.topic, s.duration, isCompleted, day)];
    } else {
      var remaining := s.duration - StartBudget(c);
      assert e == [StudyItem("study_" + s.key + "_part1", day, s, s.topic, StartBudget(c), isCompleted, day),
                   StudyItem("study_" + s.key + "_part2", day + 1, s, s.topic + " (continuação)", remaining, isCompleted, day)];
    }
  }

  lemma PlaceKeepsOrder(c: Cursor, s: Slot, startDate: int, n: nat, completedTopics: set<string>)
    requires n == 0 ==> c == Cursor([], startDate, 0)
    requires StudyRun(c, startDate, n)
    ensures StudyRun(Place(c, s, completedTopics), startDate, n + 1)
  {
    PlaceAppends(c, s, completedTopics);
    EntriesInOrder(c, s, completedTopics);
    OrderStep(c, NewEntries(c, s, completedTopics), Place(c, s, completedTopics), StartDay(c), startDate, n);
  }

  /** The entries of the next topic start on the day the cursor resumes, which is after every earlier entry. */
  lemma OrderStep(c: Cursor, e: seq<ScheduleItem>, next: Cursor, day: int, startDate: int, n: nat)
    requires n == 0 ==> c == Cursor([], startDate, 0)
    requires StudyRun(c, startDate, n)
    requires day == (if c.minutesRemaining == 0 then c.date + 1 else c.date)
    requires next.items == c.items + e && 1 <= |e| <= 2 && e[0].date == day && next.date >= day && DatesInOrder(e)
    requires forall k :: 0 <= k < |e| ==>
      IsStudy(e[k]) && day <= e[k].date <= next.date && e[k].originalStudyDate == day && e[k].date <= day + 1
    ensures StudyRun(next, startDate, n + 1)
  {
    assert c.items != [] ==> c.items[0].date <= c.date;
    AppendKeepsRun(c, e, next, day, startDate, n);
  }

  /** Appending one or two ordered entries from `day` on keeps the shape of a run. */
  lemma AppendKeepsRun(c: Cursor, e: seq<ScheduleItem>, next: Cursor, day: int, startDate: int, n: nat)
    requires StudyRun(c, startDate, n)
    requires next.items == c.items + e && 1 <= |e| <= 2 && e[0].date == day && DatesInOrder(e)
    requires day >= startDate + 1 && day >= c.date && next.date >= day
    requires c.items == [] ==> day == startDate + 1
    requires forall k :: 0 <= k < |e| ==>
      IsStudy(e[k]) && day <= e[k].date <= next.date && e[k].originalStudyDate <= e[k].date <= e[k].originalStudyDate + 1
    ensures StudyRun(next, startDate, n + 1)
  {
    DatesInOrderConcat(c.items, e);
    var items := next.items;
    assert forall i :: 0 <= i < |c.items| ==> items[i] == c.items[i];
    assert forall i :: |c.items| <= i < |items| ==> items[i] == e[i - |c.items|];
  }

  // ---------------------------------------------------------------------------
  // The daily budget

  /** The minutes of study scheduled on day `d`. */
  function DayLoad(items: seq<ScheduleItem>, d: int): int {
    if items == [] then 0
    else (if items[0].date == d then items[0].duration else 0) + DayLoad(items[1..], d)
  }

  lemma {:induction false} DayLoadConcat(a: seq<ScheduleItem>, b: seq<ScheduleItem>, d: int)
    ensures DayLoad(a + b, d) == DayLoad(a, d) + DayLoad(b, d)
  {
    if a == [] {
      assert a + b == b;
    } else {
      assert (a + b)[0] == a[0] && (a + b)[1..] == a[1..] + b;
      DayLoadConcat(a[1..], b, d);
    }
  }

  lemma DayLoadOne(x: ScheduleItem, d: int)
    ensures DayLoad([x], d) == if x.date == d then x.duration else 0
  {
    assert [x][1..] == [];
  }

  /**
   * The cursor after placing topics of one to 120 minutes: the budget left is
   * within the day, every fragment is positive, no day holds more than two
   * hours of study, nothing lies after the current day, and the current day's
   * load is what its budget has lost.
   */
  ghost predicate WithinBudget(c: Cursor) {
    && 0 <= c.minutesRemaining < DailyStudyMinutes
    && (forall i :: 0 <= i < |c.items| ==> 1 <= c.items[i].duration <= DailyStudyMinutes)
    && (forall d :: DayLoad(c.items, d) <= DailyStudyMinutes)
    && (forall d :: d > c.date ==> DayLoad(c.items, d) == 0)
    && (c.items != [] ==> DayLoad(c.items, c.date) == DailyStudyMinutes - c.minutesRemaining)
    && (c.items == [] ==> c.minutesRemaining == 0)
  }

  /** Topics of one to 120 minutes: every fragment is positive and no day holds more than two hours of study. */
  lemma {:induction false} RunBudget(slots: seq<Slot>, startDate: int, completedTopics: set<string>)
    requires forall k :: 0 <= k < |slots| ==> 1 <= slots[k].duration <= DailyStudyMinutes
    ensures WithinBudget(Run(slots, startDate, completedTopics))
  {
    if slots != [] {
      var prefix := slots[..|slots| - 1];
      var s := slots[|slots| - 1];
      var c := Run(prefix, startDate, completedTopics);
      RunBudget(prefix, startDate, completedTopics);
      PlaceShape(c, s, completedTopics);
      assert Run(slots, startDate, completedTopics) == Place(c, s, completedTopics);
      BudgetStep(c, NewEntries(c, s, completedTopics), Place(c, s, completedTopics), s.duration, StartDay(c), StartBudget(c));
    }
  }

  /** Appending the entries of one topic of `duration` minutes keeps a cursor within budget. */
  lemma BudgetStep(c: Cursor, e: seq<ScheduleItem>, next: Cursor, duration: int, day: int, budget: int)
    requires WithinBudget(c) && 1 <= duration <= DailyStudyMinutes
    requires day == (if c.minutesRemaining == 0 then c.date + 1 else c.date)
    requires budget == (if c.minutesRemaining == 0 then DailyStudyMinutes else c.minutesRemaining)
    requires next.items == c.items + e
    requires duration <= budget ==>
      && |e| == 1 && e[0].date == day && e[0].duration == duration
      && next.date == day && next.minutesRemaining == budget - duration
    requires duration > budget ==>
      && |e| == 2 && e[0].date == day && e[1].date == day + 1
      && e[0].duration == budget && e[0].duration + e[1].duration == duration
      && next.date == day + 1 && next.minutesRemaining == DailyStudyMinutes - e[1].duration
    ensures WithinBudget(next)
  {
    forall d ensures DayLoad(next.items, d) == DayLoad(c.items, d) + DayLoad(e, d) {
      DayLoadConcat(c.items, e, d);
    }
    if |e| == 1 {
      assert e == [e[0]];
      forall d ensures DayLoad(e, d) == (if d == day then duration else 0) {
        DayLoadOne(e[0], d);
      }
    } else {
      assert e == [e[0]] + [e[1]];
      forall d ensures DayLoad(e, d) == (if d == day then e[0].duration else 0)
                                      + (if d == day + 1 then e[1].duration else 0) {
        DayLoadConcat([e[0]], [e[1]], d);
        DayLoadOne(e[0], d);
        DayLoadOne(e[1], d);
      }
    }
  }

  /**
   * Topics longer than two hours are split only once: the second fragment
   * exceeds the day and the budget left for the next topic is negative.
   */
  lemma LongTopicOverrunsDay()
    ensures var s := Slot(1, "Conjuntos e Funções", "Capítulo 1", "Conjuntos", "vol1_ch1_t1", 300);
      var c := Run([s], 0, {});
      && |c.items| == 2
      && c.items[0].duration == 120 && c.items[0].date == 1
      && c.items[1].duration == 180 && c.items[1].date == 2
      && DayLoad(c.items, 2) == 180
      && c.minutesRemaining == -60
  {
    var s := Slot(1, "Conjuntos e Funções", "Capítulo 1", "Conjuntos", "vol1_ch1_t1", 300);
    var c := Run([s], 0, {});
    RunSnoc([], s, 0, {});
    assert [] + [s] == [s];
    assert c.items == [c.items[0]] + [c.items[1]];
    DayLoadConcat([c.items[0]], [c.items[1]], 2);
    DayLoadOne(c.items[0], 2);
    DayLoadOne(c.items[1], 2);
  }

  // ---------------------------------------------------------------------------
  // Completion and review keys

  /** The key a study id is made from is recovered from any of the three ids a topic can get. */
  lemma RecoverStudyKey(key: string, suffix: string)
    requires !Contains(key, "_part")
    requires suffix == "" || suffix == "_part1" || suffix == "_part2"
    ensures RecoverKey("study_" + key + suffix) == key
  {
    assert "study_" + key + suffix == "study_" + (key + suffix);
    ReplaceLeading("study_", key + suffix);
    if suffix == "" {
      assert key + suffix == key;
    } else {
      FirstOccurrenceAtSeam(key, "_part", suffix);
    }
  }

  /**
   * When no topic key contains `_part`, a study entry's recovered key is
   * complete exactly when the entry is marked complete.
   */
  lemma {:induction false} RunCompletion(slots: seq<Slot>, startDate: int, completedTopics: set<string>)
    requires forall k :: 0 <= k < |slots| ==> !Contains(slots[k].key, "_part")
    ensures forall i :: 0 <= i < |Run(slots, startDate, completedTopics).items| ==>
      (RecoverKey(Run(slots, startDate, completedTopics).items[i].id) in completedTopics
       <==> Run(slots, startDate, completedTopics).items[i].completed)
  {
    if slots != [] {
      var prefix := slots[..|slots| - 1];
      var s := slots[|slots| - 1];
      var c := Run(prefix, startDate, completedTopics);
      RunCompletion(prefix, startDate, completedTopics);
      PlaceAppends(c, s, completedTopics);
      var e := NewEntries(c, s, completedTopics);
      var items := c.items + e;
      assert Run(slots, startDate, completedTopics).items == items;
      EntriesCompletion(c, s, completedTopics);
      forall i | 0 <= i < |items| ensures RecoverKey(items[i].id) in completedTopics <==> items[i].completed {
        if i < |c.items| {
          assert items[i] == c.items[i];
          assert RecoverKey(c.items[i].id) in completedTopics <==> c.items[i].completed;
        } else {
          var k := i - |c.items|;
          assert items[i] == e[k];
          assert RecoverKey(e[k].id) == s.key && e[k].completed == (s.key in completedTopics);
        }
      }
    }
  }

  /** The entries of one topic whose key is free of `_part` are complete exactly when their recovered key is. */
  lemma EntriesCompletion(c: Cursor, s: Slot, completedTopics: set<string>)
    requires !Contains(s.key, "_part")
    ensures var e := NewEntries(c, s, completedTopics);
      forall k :: 0 <= k < |e| ==> RecoverKey(e[k].id) == s.key && e[k].completed == (s.key in completedTopics)
  {
    EntriesExact(c, s, completedTopics);
    KeyedParts(NewEntries(c, s, completedTopics), s, completedTopics, StartDay(c), StartBudget(c));
  }

  /** The entries `Place` appends, written out. */
  lemma EntriesExact(c: Cursor, s: Slot, completedTopics: set<string>)
    ensures EntriesAre(NewEntries(c, s, completedTopics), s, completedTopics, StartDay(c), StartBudget(c))
  {
  }

  ghost predicate EntriesAre(e: seq<ScheduleItem>, s: Slot, completedTopics: set<string>, day: int, budget: int) {
    var done := s.key in completedTopics;
    if s.duration <= budget then
      e == [StudyItem("study_" + s.key, day, s, s.topic, s.duration, done, day)]
    else
      e == [StudyItem("study_" + s.key + "_part1", day, s, s.topic, budget, done, day),
            StudyItem("study_" + s.key + "_part2", day + 1, s, s.topic + " (continuação)", s.duration - budget, done, day)]
  }

  lemma KeyedParts(e: seq<ScheduleItem>, s: Slot, completedTopics: set<string>, day: int, budget: int)
    requires !Contains(s.key, "_part")
    requires EntriesAre(e, s, completedTopics, day, budget)
    ensures forall k :: 0 <= k < |e| ==> RecoverKey(e[k].id) == s.key && e[k].completed == (s.key in completedTopics)
  {
    var done := s.key in completedTopics;
    if s.duration <= budget {
      RecoverStudyKey(s.key, "");
      assert e[0].id == "study_" + s.key + "";
      OneKeyed(e, RecoverKey, s.key, done);
    } else {
      RecoverStudyKey(s.key, "_part1");
      RecoverStudyKey(s.key, "_part2");
      TwoKeyed(e, RecoverKey, s.key, done);
    }
  }

  /** A property of the ids that holds of each of one or two entries holds of all of them. */
  lemma OneKeyed(e: seq<ScheduleItem>, recover: string -> string, key: string, done: bool)
    requires |e| == 1 && recover(e[0].id) == key && e[0].completed == done
    ensures forall k :: 0 <= k < |e| ==> recover(e[k].id) == key && e[k].completed == done
  {
  }

  lemma TwoKeyed(e: seq<ScheduleItem>, recover: string -> string, key: string, done: bool)
    requires |e| == 2 && recover(e[0].id) == key && e[0].completed == done
    requires recover(e[1].id) == key && e[1].completed == done
    ensures forall k :: 0 <= k < |e| ==> recover(e[k].id) == key && e[k].completed == done
  {
  }

  /** A topic id containing `_part` loses its reviews: the recovered key is cut short. */
  lemma PartInKeyLosesReviews()
    ensures RecoverKey("study_vol1_ch1_partes") == "vol1_ch1"
  {
    var key := "vol1_ch1";
    assert "study_vol1_ch1_partes" == "study_" + (key + "_partes");
    ReplaceLeading("study_", key + "_partes");
    assert !Contains(key, "_part") by {
      forall j ensures !OccursAt(key, "_part", j) {
        if 0 <= j && j + 5 <= |key| {
          assert key[j..j + 5][1] == key[j + 1] != 'p';
        }
      }
    }
    FirstOccurrenceAtSeam(key, "_part", "_partes");
  }

  // ---------------------------------------------------------------------------
  // Reviews

  /**
   * A study entry whose key is complete gets one pending review per review day,
   * dated that many days after the entry's study date and lasting half the
   * entry rounded up; any other entry gets none.
   */
  lemma ReviewsOfShape(study: ScheduleItem, completedTopics: set<string>)
    ensures var r := ReviewsOf(study, completedTopics);
      RecoverKey(study.id) !in completedTopics ==> r == []
    ensures var r := ReviewsOf(study, completedTopics);
      RecoverKey(study.id) in completedTopics ==>
        && |r| == 5
        && forall k :: 0 <= k < 5 ==>
             && r[k].id == "review_" + RecoverKey(study.id) + "_" + NatToString(ReviewDays[k]) + "d"
             && r[k].date == study.originalStudyDate + ReviewDays[k]
             && r[k].kind == Review && r[k].reviewDay == Some(ReviewDays[k]) && !r[k].completed
             && 2 * r[k].duration - 2 < study.duration <= 2 * r[k].duration
             && r[k].volume == study.volume && r[k].chapter == study.chapter
  {
  }

  /** The number of entries marked complete. */
  function CompletedCount(items: seq<ScheduleItem>): nat {
    if items == [] then 0
    else CompletedCount(items[..|items| - 1]) + (if items[|items| - 1].completed then 1 else 0)
  }

  /** Five reviews per completed study entry and none for the others. */
  lemma {:induction false} ReviewsForCount(items: seq<ScheduleItem>, completedTopics: set<string>)
    requires forall i :: 0 <= i < |items| ==> (RecoverKey(items[i].id) in completedTopics <==> items[i].completed)
    ensures |ReviewsFor(items, completedTopics)| == |ReviewDays| * CompletedCount(items)
  {
    if items != [] {
      var prefix, last := items[..|items| - 1], items[|items| - 1];
      ReviewsForCount(prefix, completedTopics);
      ReviewsOfCount(last, completedTopics);
      assert ReviewsFor(items, completedTopics) == ReviewsFor(prefix, completedTopics) + ReviewsOf(last, completedTopics);
      assert CompletedCount(items) == CompletedCount(prefix) + (if last.completed then 1 else 0);
    }
  }

  lemma ReviewsOfCount(study: ScheduleItem, completedTopics: set<string>)
    ensures |ReviewsOf(study, completedTopics)| == if RecoverKey(study.id) in completedTopics then |ReviewDays| else 0
  {
  }

  /** Every review is pending and dated one of the review days after its study date. */
  lemma {:induction false} ReviewsForPending(items: seq<ScheduleItem>, completedTopics: set<string>)
    ensures forall r :: r in ReviewsFor(items, completedTopics) ==>
        && r.kind == Review && !r.completed && r.reviewDay.Some?
        && r.reviewDay.value in ReviewDays
        && r.date == r.originalStudyDate + r.reviewDay.value
  {
    if items != [] {
      var prefix := items[..|items| - 1];
      var last := items[|items| - 1];
      ReviewsForPending(prefix, completedTopics);
      var a := ReviewsFor(prefix, completedTopics);
      var b := ReviewsOf(last, completedTopics);
      assert ReviewsFor(items, completedTopics) == a + b;
      var r: seq<ScheduleItem> := a + b;
      forall x | x in r
        ensures && x.kind == Review && !x.completed && x.reviewDay.Some?
                && x.reviewDay.value in ReviewDays
                && x.date == x.originalStudyDate + x.reviewDay.value
      {
        if x !in a {
          var k :| 0 <= k < |b| && b[k] == x;
          assert b[k] == ReviewItem(last, RecoverKey(last.id), ReviewDays[k]);
        }
      }
    }
  }

  /**
   * A completed topic that was split gets ten reviews, not five: both fragments
   * produce the same ids on the same dates, counted from the first fragment's day.
   */
  lemma SplitTopicReviewedTwice(c: Cursor, s: Slot, completedTopics: set<string>)
    requires s.duration > StartBudget(c)
    requires s.key in completedTopics && !Contains(s.key, "_part")
    ensures var r := ReviewsFor(NewEntries(c, s, completedTopics), completedTopics);
      && |r| == 10
      && forall k :: 0 <= k < 5 ==>
           r[k].id == r[k + 5].id && r[k].date == r[k + 5].date == StartDay(c) + ReviewDays[k]
  {
    var e := NewEntries(c, s, completedTopics);
    SplitEntries(c, s, completedTopics);
    assert e == [e[0], e[1]];
    TwinReviews(e[0], e[1], completedTopics);
  }

  /** A split topic's two fragments recover its key and share its study date. */
  lemma SplitEntries(c: Cursor, s: Slot, completedTopics: set<string>)
    requires s.duration > StartBudget(c)
    requires !Contains(s.key, "_part")
    ensures var e := NewEntries(c, s, completedTopics);
      && |e| == 2
      && RecoverKey(e[0].id) == s.key && RecoverKey(e[1].id) == s.key
      && e[0].originalStudyDate == StartDay(c) && e[1].originalStudyDate == StartDay(c)
  {
    var day := StartDay(c);
    var e := NewEntries(c, s, completedTopics);
    var isCompleted := s.key in completedTopics;
    assert e == [StudyItem("study_" + s.key + "_part1", day, s, s.topic, StartBudget(c), isCompleted, day),
                 StudyItem("study_" + s.key + "_part2", day + 1, s, s.topic + " (continuação)", s.duration - StartBudget(c), isCompleted, day)];
    RecoverStudyKey(s.key, "_part1");
    RecoverStudyKey(s.key, "_part2");
  }

  /** Two study entries with the same completed key and study date get the same five reviews each. */
  lemma TwinReviews(a: ScheduleItem, b: ScheduleItem, completedTopics: set<string>)
    requires RecoverKey(a.id) == RecoverKey(b.id) && RecoverKey(a.id) in completedTopics
    requires a.originalStudyDate == b.originalStudyDate
    ensures var r := ReviewsFor([a, b], completedTopics);
      && |r| == 10
      && forall k :: 0 <= k < 5 ==>
           r[k].id == r[k + 5].id && r[k].date == r[k + 5].date == a.originalStudyDate + ReviewDays[k]
  {
    ReviewsForTwo(a, b, completedTopics);
    var key := RecoverKey(a.id);
    TwinSeqs(ReviewsOf(a, completedTopics), ReviewsOf(b, completedTopics), a, b, key);
  }

  lemma TwinSeqs(ra: seq<ScheduleItem>, rb: seq<ScheduleItem>, a: ScheduleItem, b: ScheduleItem, key: string)
    requires |ra| == |ReviewDays| == |rb|
    requires forall k :: 0 <= k < |ReviewDays| ==> ra[k] == ReviewItem(a, key, ReviewDays[k]) && rb[k] == ReviewItem(b, key, ReviewDays[k])
    requires a.originalStudyDate == b.originalStudyDate
    ensures var r := ra + rb;
      && |r| == 10
      && forall k :: 0 <= k < 5 ==>
           r[k].id == r[k + 5].id && r[k].date == r[k + 5].date == a.originalStudyDate + ReviewDays[k]
  {
    var r := ra + rb;
    forall k | 0 <= k < 5
      ensures r[k].id == r[k + 5].id && r[k].date == r[k + 5].date == a.originalStudyDate + ReviewDays[k]
    {
      assert r[k] == ra[k] && r[k + 5] == rb[k];
    }
  }

  lemma ReviewsForTwo(a: ScheduleItem, b: ScheduleItem, completedTopics: set<string>)
    ensures ReviewsFor([a, b], completedTopics) == ReviewsOf(a, completedTopics) + ReviewsOf(b, completedTopics)
  {
    assert [a, b] == [a] + [b] && [a] == [] + [a];
    ReviewsForSnoc([], a, completedTopics);
    ReviewsForSnoc([a], b, completedTopics);
  }

  // ---------------------------------------------------------------------------
  // The whole schedule

  /** `s` is the slot of some topic of some chapter of one of `volumes`. */
  ghost predicate FromCurriculum(volumes: seq<StudyVolume>, s: Slot) {
    exists v, c, t :: v in volumes && c in v.chapters && t in c.topics && s == SlotOf(v, c, t)
  }

  /** `s` is the slot of some topic of one of `chapters` of volume `v`. */
  ghost predicate FromChapters(v: StudyVolume, chapters: seq<Chapter>, s: Slot) {
    exists c, t :: c in chapters && t in c.topics && s == SlotOf(v, c, t)
  }

  /** Every slot comes from a topic of the curriculum. */
  lemma {:induction false} CurriculumSlotsMembers(volumes: seq<StudyVolume>)
    ensures forall k :: 0 <= k < |CurriculumSlots(volumes)| ==> FromCurriculum(volumes, CurriculumSlots(volumes)[k])
  {
    if volumes != [] {
      var prefix := volumes[..|volumes| - 1];
      var v := volumes[|volumes| - 1];
      CurriculumSlotsMembers(prefix);
      ChaptersSlotsMembers(v, v.chapters);
      var a := CurriculumSlots(prefix);
      var b := ChaptersSlots(v, v.chapters);
      var r := CurriculumSlots(volumes);
      assert r == a + b;
      forall k | 0 <= k < |r| ensures FromCurriculum(volumes, r[k]) {
        if k < |a| {
          assert r[k] == a[k];
          assert FromCurriculum(prefix, a[k]);
          var v', c, t :| v' in prefix && c in v'.chapters && t in c.topics && a[k] == SlotOf(v', c, t);
          assert v' in volumes;
        } else {
          assert r[k] == b[k - |a|];
          assert FromChapters(v, v.chapters, b[k - |a|]);
          var c, t :| c in v.chapters && t in c.topics && b[k - |a|] == SlotOf(v, c, t);
          assert v in volumes;
        }
      }
    }
  }

  lemma {:induction false} ChaptersSlotsMembers(v: StudyVolume, chapters: seq<Chapter>)
    ensures forall k :: 0 <= k < |ChaptersSlots(v, chapters)| ==> FromChapters(v, chapters, ChaptersSlots(v, chapters)[k])
  {
    if chapters != [] {
      var prefix := chapters[..|chapters| - 1];
      var ch := chapters[|chapters| - 1];
      ChaptersSlotsMembers(v, prefix);
      var a := ChaptersSlots(v, prefix);
      var b := ChapterSlots(v, ch);
      var r := ChaptersSlots(v, chapters);
      assert r == a + b;
      forall k | 0 <= k < |r| ensures FromChapters(v, chapters, r[k]) {
        if k < |a| {
          assert r[k] == a[k];
          assert FromChapters(v, prefix, a[k]);
          var c, t :| c in prefix && t in c.topics && a[k] == SlotOf(v, c, t);
          assert c in chapters;
        } else {
          assert r[k] == b[k - |a|];
          assert ch.topics[k - |a|] in ch.topics;
        }
      }
    }
  }

  /** No topic key of the studied volumes contains `_part`. */
  ghost predicate PlainKeys(volumes: seq<StudyVolume>) {
    forall v, c, t :: v in volumes && c in v.chapters && t in c.topics ==> !Contains(TopicKey(v, c, t), "_part")
  }

  /**
   * The schedule is sorted by date and holds the study entries and five reviews
   * per completed entry; on each day the study entries come first, in
   * generation order, and the reviews after them.
   */
  lemma ScheduleContents(volumes: seq<StudyVolume>, startDate: int, includeComplementary: bool, completedTopics: set<string>)
    requires PlainKeys(volumes)
    ensures var study := StudyPlan(volumes, startDate, includeComplementary, completedTopics);
      var reviews := ReviewsFor(study, completedTopics);
      var schedule := Schedule(volumes, startDate, includeComplementary, completedTopics);
      && SortedBy(schedule, ItemDate)
      && multiset(schedule) == multiset(study) + multiset(reviews)
      && |schedule| == |study| + |ReviewDays| * CompletedCount(study)
      && forall d :: WithKey(schedule, ItemDate, d) == WithKey(study, ItemDate, d) + WithKey(reviews, ItemDate, d)
  {
    var vs := VolumesToStudy(volumes, includeComplementary);
    var slots := CurriculumSlots(vs);
    var study := StudyPlan(volumes, startDate, includeComplementary, completedTopics);
    CurriculumSlotsMembers(vs);
    forall k | 0 <= k < |slots| ensures !Contains(slots[k].key, "_part") {
      assert FromCurriculum(vs, slots[k]);
      var v, c, t :| v in vs && c in v.chapters && t in c.topics && slots[k] == SlotOf(v, c, t);
    }
    RunOrder(slots, startDate, completedTopics);
    RunCompletion(slots, startDate, completedTopics);
    FilterAll(study, IsStudy);
    ReviewsForCount(study, completedTopics);
    var reviews := ReviewsFor(study, completedTopics);
    forall d ensures WithKey(Schedule(volumes, startDate, includeComplementary, completedTopics), ItemDate, d)
                  == WithKey(study, ItemDate, d) + WithKey(reviews, ItemDate, d) {
      SortByStable(study + reviews, ItemDate, d);
      WithKeyConcat(study, reviews, ItemDate, d);
    }
  }

  /** Topics of one to 120 minutes: no day of the schedule holds more than two hours of study. */
  lemma ScheduleBudget(volumes: seq<StudyVolume>, startDate: int, includeComplementary: bool, completedTopics: set<string>)
    requires forall v, c, t :: v in volumes && c in v.chapters && t in c.topics ==> 1 <= Duration(t) <= DailyStudyMinutes
    ensures var study := StudyPlan(volumes, startDate, includeComplementary, completedTopics);
      && (forall i :: 0 <= i < |study| ==> 1 <= study[i].duration <= DailyStudyMinutes)
      && forall d :: DayLoad(study, d) <= DailyStudyMinutes
  {
    var vs := VolumesToStudy(volumes, includeComplementary);
    var slots := CurriculumSlots(vs);
    CurriculumSlotsMembers(vs);
    forall k | 0 <= k < |slots| ensures 1 <= slots[k].duration <= DailyStudyMinutes {
      assert FromCurriculum(vs, slots[k]);
      var v, c, t :| v in vs && c in v.chapters && t in c.topics && slots[k] == SlotOf(v, c, t);
    }
    RunBudget(slots, startDate, completedTopics);
  }

  /** Two one-and-a-half-hour topics: the second is split, half an hour on day 1 and an hour on day 2. */
  lemma SplitExample()
    ensures var a := Slot(1, "V", "C", "A", "v_c_a", 90);
      var b := Slot(1, "V", "C", "B", "v_c_b", 90);
      var c := Run([a, b], 0, {"v_c_b"});
      && |c.items| == 3
      && c.items[0].id == "study_v_c_a" && c.items[0].date == 1 && c.items[0].duration == 90
      && c.items[1].id == "study_v_c_b_part1" && c.items[1].date == 1 && c.items[1].duration == 30
      && c.items[1].completed && !c.items[0].completed
      && c.minutesRemaining == 60
  {
    var a := Slot(1, "V", "C", "A", "v_c_a", 90);
    var b := Slot(1, "V", "C", "B", "v_c_b", 90);
    var C := {"v_c_b"};
    SplitExampleFirstDay();
    SplitExampleSteps();
    PlaceShape(Run([a], 0, C), b, C);
    var e := NewEntries(Run([a], 0, C), b, C);
    assert Run([a, b], 0, C).items[1] == e[0];
    assert "study_" + b.key + "_part1" == "study_v_c_b_part1";
  }

  /** The second fragment of that example: an hour on day 2, studied on day 1, marked as a continuation. */
  lemma SplitExampleSecondPart()
    ensures var a := Slot(1, "V", "C", "A", "v_c_a", 90);
      var b := Slot(1, "V", "C", "B", "v_c_b", 90);
      var c := Run([a, b], 0, {"v_c_b"});
      && |c.items| == 3
      && c.items[2].id == "study_v_c_b_part2" && c.items[2].date == 2 && c.items[2].duration == 60
      && c.items[2].topic == "B (continuação)" && c.items[2].originalStudyDate == 1
  {
    var a := Slot(1, "V", "C", "A", "v_c_a", 90);
    var b := Slot(1, "V", "C", "B", "v_c_b", 90);
    var C := {"v_c_b"};
    SplitExampleFirstDay();
    SplitExampleSteps();
    PlaceShape(Run([a], 0, C), b, C);
    var e := NewEntries(Run([a], 0, C), b, C);
    assert Run([a, b], 0, C).items[2] == e[1];
    assert "study_" + b.key + "_part2" == "study_v_c_b_part2";
    assert b.topic + " (continuação)" == "B (continuação)";
  }

  lemma SplitExampleSteps()
    ensures var a := Slot(1, "V", "C", "A", "v_c_a", 90);
      var b := Slot(1, "V", "C", "B", "v_c_b", 90);
      var c1 := Run([a], 0, {"v_c_b"});
      Run([a, b], 0, {"v_c_b"}) == Place(c1, b, {"v_c_b"})
  {
    var a := Slot(1, "V", "C", "A", "v_c_a", 90);
    var b := Slot(1, "V", "C", "B", "v_c_b", 90);
    RunSnoc([a], b, 0, {"v_c_b"});
    assert [a] + [b] == [a, b];
  }

  lemma SplitExampleFirstDay()
    ensures var a := Slot(1, "V", "C", "A", "v_c_a", 90);
      var c1 := Run([a], 0, {"v_c_b"});
      c1.date == 1 && c1.minutesRemaining == 30 && |c1.items| == 1
      && c1.items[0].id == "study_v_c_a" && c1.items[0].date == 1 && c1.items[0].duration == 90 && !c1.items[0].completed
  {
    var a := Slot(1, "V", "C", "A", "v_c_a", 90);
    RunSnoc([], a, 0, {"v_c_b"});
    assert [] + [a] == [a];
  }
}
