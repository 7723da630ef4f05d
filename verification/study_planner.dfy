/**
 * The schedule generator of the study planner page.
 *
 * It walks the selected volumes, their chapters and their topics in order and
 * gives each day a budget of two hours. The budget starts empty, so the first
 * topic lands on the day after the start date. A topic that does not fit in
 * what is left of the day is split into a `_part1` fragment that uses up the
 * day and a `_part2` fragment on the next day. Every study entry whose topic is
 * marked complete then gets five reviews, 1, 7, 14, 30 and 90 days after the
 * entry's own date, and the whole list is sorted by date (stably).
 *
 * Dates are day numbers: `setDate(getDate() + n)` is `+ n`.
 */
module StudyPlanner {
  import opened Wrappers
  import opened Text
  import opened Collections
  import opened Rounding
  import opened Curriculum

  const DailyStudyHours := 2
  const DailyStudyMinutes := DailyStudyHours * 60

  /** Days after the study date on which a completed topic is reviewed. */
  const ReviewDays: seq<nat> := [1, 7, 14, 30, 90]

  datatype ItemKind = Study | Review

  datatype ScheduleItem = ScheduleItem(
    id: string,
    date: int,
    volume: int,
    volumeTitle: string,
    chapter: string,
    topic: string,
    duration: int,
    kind: ItemKind,
    reviewDay: Option<nat>,
    completed: bool,
    originalStudyDate: int)

  function ItemDate(item: ScheduleItem): int {
    item.date
  }

  predicate IsStudy(item: ScheduleItem) {
    item.kind == Study
  }

  // ---------------------------------------------------------------------------
  // Which volumes are studied

  predicate Selected(v: StudyVolume, includeComplementary: bool) {
    includeComplementary || v.priority != Complementary
  }

  /** The volumes to study: all of them, or all but the complementary ones, in curriculum order. */
  function VolumesToStudy(volumes: seq<StudyVolume>, includeComplementary: bool): (r: seq<StudyVolume>)
    ensures includeComplementary ==> r == volumes
    ensures forall i :: 0 <= i < |r| ==> Selected(r[i], includeComplementary)
    ensures forall v :: v in volumes && Selected(v, includeComplementary) ==> v in r
    ensures forall v :: v in r ==> v in volumes
  {
    if volumes == [] then []
    else
      assert volumes == [volumes[0]] + volumes[1..];
      (if Selected(volumes[0], includeComplementary) then [volumes[0]] else [])
        + VolumesToStudy(volumes[1..], includeComplementary)
  }

  /** Filtering keeps the curriculum order: it distributes over concatenation. */
  lemma {:induction false} VolumesToStudyOrder(a: seq<StudyVolume>, b: seq<StudyVolume>, includeComplementary: bool)
    ensures VolumesToStudy(a + b, includeComplementary)
         == VolumesToStudy(a, includeComplementary) + VolumesToStudy(b, includeComplementary)
  {
    if a == [] {
      assert a + b == b;
    } else {
      assert (a + b)[0] == a[0] && (a + b)[1..] == a[1..] + b;
      VolumesToStudyOrder(a[1..], b, includeComplementary);
    }
  }

  // ---------------------------------------------------------------------------
  // The topics in study order

  /** `topic.durationMinutes || 60`: an absent or zero duration counts as an hour. */
  function Duration(t: StudyTopic): int {
    match t.durationMinutes
    case None => 60
    case Some(d) => if d == 0 then 60 else d
  }

  /** `${volume.id}_${chapter.id}_${topic.id}`. */
  function TopicKey(v: StudyVolume, c: Chapter, t: StudyTopic): string {
    v.id + "_" + c.id + "_" + t.id
  }

  /** One topic as the generator sees it. */
  datatype Slot = Slot(volume: int, volumeTitle: string, chapter: string, topic: string, key: string, duration: int)

  function SlotOf(v: StudyVolume, c: Chapter, t: StudyTopic): Slot {
    Slot(v.number, v.title, c.name, t.name, TopicKey(v, c, t), Duration(t))
  }

  function ChapterSlots(v: StudyVolume, c: Chapter): (r: seq<Slot>)
    ensures |r| == |c.topics|
    ensures forall k :: 0 <= k < |r| ==> r[k] == SlotOf(v, c, c.topics[k])
  {
    seq(|c.topics|, k requires 0 <= k < |c.topics| => SlotOf(v, c, c.topics[k]))
  }

  function ChaptersSlots(v: StudyVolume, chapters: seq<Chapter>): seq<Slot> {
    if chapters == [] then []
    else ChaptersSlots(v, chapters[..|chapters| - 1]) + ChapterSlots(v, chapters[|chapters| - 1])
  }

  /** Every topic of every chapter of every volume, in that nesting order. */
  function CurriculumSlots(volumes: seq<StudyVolume>): seq<Slot> {
    if volumes == [] then []
    else CurriculumSlots(volumes[..|volumes| - 1]) + ChaptersSlots(volumes[|volumes| - 1], volumes[|volumes| - 1].chapters)
  }

  lemma ChaptersSlotsSnoc(v: StudyVolume, chapters: seq<Chapter>, j: nat)
    requires j < |chapters|
    ensures ChaptersSlots(v, chapters[..j + 1]) == ChaptersSlots(v, chapters[..j]) + ChapterSlots(v, chapters[j])
  {
    assert chapters[..j + 1][..j] == chapters[..j];
  }

  lemma CurriculumSlotsSnoc(volumes: seq<StudyVolume>, i: nat)
    requires i < |volumes|
    ensures CurriculumSlots(volumes[..i + 1]) == CurriculumSlots(volumes[..i]) + ChaptersSlots(volumes[i], volumes[i].chapters)
  {
    assert volumes[..i + 1][..i] == volumes[..i];
  }

  // ---------------------------------------------------------------------------
  // Allocating topics to days

  /** The generator's running state: the entries so far, the current date and what is left of its budget. */
  datatype Cursor = Cursor(items: seq<ScheduleItem>, date: int, minutesRemaining: int)

  function StudyItem(id: string, date: int, s: Slot, topic: string, duration: int, completed: bool, originalStudyDate: int): ScheduleItem {
    ScheduleItem(id, date, s.volume, s.volumeTitle, s.chapter, topic, duration, Study, None, completed, originalStudyDate)
  }

  /** The day a topic starts on: a new day when the budget is used up. */
  function StartDay(c: Cursor): int {
    if c.minutesRemaining == 0 then c.date + 1 else c.date
  }

  /** The budget a topic starts with: a full day when the budget is used up. */
  function StartBudget(c: Cursor): int {
    if c.minutesRemaining == 0 then DailyStudyMinutes else c.minutesRemaining
  }

  /** Places one topic: a single entry when it fits, otherwise two fragments on consecutive days. */
  function Place(c: Cursor, s: Slot, completedTopics: set<string>): Cursor {
    var isCompleted := s.key in completedTopics;
    var studyDate := StartDay(c);
    var budget := StartBudget(c);
    if s.duration <= budget then
      Cursor(c.items + [StudyItem("study_" + s.key, studyDate, s, s.topic, s.duration, isCompleted, studyDate)],
             studyDate, budget - s.duration)
    else
      var remaining := s.duration - budget;
      var part1 := StudyItem("study_" + s.key + "_part1", studyDate, s, s.topic, budget, isCompleted, studyDate);
      var part2 := StudyItem("study_" + s.key + "_part2", studyDate + 1, s, s.topic + " (continuação)", remaining, isCompleted, studyDate);
      Cursor(c.items + [part1, part2], studyDate + 1, DailyStudyMinutes - remaining)
  }

  /** The state after placing `slots` in order, starting from `startDate` with an empty budget. */
  function Run(slots: seq<Slot>, startDate: int, completedTopics: set<string>): Cursor {
    if slots == [] then Cursor([], startDate, 0)
    else Place(Run(slots[..|slots| - 1], startDate, completedTopics), slots[|slots| - 1], completedTopics)
  }

  lemma RunSnoc(slots: seq<Slot>, s: Slot, startDate: int, completedTopics: set<string>)
    ensures Run(slots + [s], startDate, completedTopics) == Place(Run(slots, startDate, completedTopics), s, completedTopics)
  {
    assert (slots + [s])[..|slots|] == slots;
  }

  // ---------------------------------------------------------------------------
  // Reviews

  /** `id.replace("study_", "").split("_part")[0]`: the topic key a study id was made from. */
  function RecoverKey(id: string): string {
    BeforeFirst(ReplaceFirst(id, "study_", ""), "_part")
  }

  function ReviewItem(study: ScheduleItem, key: string, day: nat): ScheduleItem {
    ScheduleItem(
      "review_" + key + "_" + NatToString(day) + "d",
      study.originalStudyDate + day,
      study.volume, study.volumeTitle, study.chapter,
      "[REVISÃO] " + ReplaceFirst(study.topic, " (continuação)", ""),
      CeilDiv(study.duration, 2),
      Review, Some(day), false, study.originalStudyDate)
  }

  /** The reviews one study entry produces: five when its recovered key is complete, none otherwise. */
  function ReviewsOf(study: ScheduleItem, completedTopics: set<string>): seq<ScheduleItem> {
    var key := RecoverKey(study.id);
    if key in completedTopics then
      seq(|ReviewDays|, k requires 0 <= k < |ReviewDays| => ReviewItem(study, key, ReviewDays[k]))
    else []
  }

  function ReviewsFor(studyItems: seq<ScheduleItem>, completedTopics: set<string>): seq<ScheduleItem> {
    if studyItems == [] then []
    else ReviewsFor(studyItems[..|studyItems| - 1], completedTopics) + ReviewsOf(studyItems[|studyItems| - 1], completedTopics)
  }

  lemma ReviewsForSnoc(studyItems: seq<ScheduleItem>, item: ScheduleItem, completedTopics: set<string>)
    ensures ReviewsFor(studyItems + [item], completedTopics) == ReviewsFor(studyItems, completedTopics) + ReviewsOf(item, completedTopics)
  {
    assert (studyItems + [item])[..|studyItems|] == studyItems;
  }

  // ---------------------------------------------------------------------------
  // The whole generator

  /** The study entries, in generation order. */
  function StudyPlan(volumes: seq<StudyVolume>, startDate: int, includeComplementary: bool, completedTopics: set<string>): seq<ScheduleItem> {
    Run(CurriculumSlots(VolumesToStudy(volumes, includeComplementary)), startDate, completedTopics).items
  }

  /** Everything generated before sorting: the study entries, then the reviews. */
  function Generated(volumes: seq<StudyVolume>, startDate: int, includeComplementary: bool, completedTopics: set<string>): seq<ScheduleItem> {
    var study := StudyPlan(volumes, startDate, includeComplementary, completedTopics);
    study + ReviewsFor(Filter(study, IsStudy), completedTopics)
  }

  /** The generator's result: the generated entries sorted by date. */
  function Schedule(volumes: seq<StudyVolume>, startDate: int, includeComplementary: bool, completedTopics: set<string>): seq<ScheduleItem> {
    SortBy(Generated(volumes, startDate, includeComplementary, completedTopics), ItemDate)
  }

  /** One topic of the innermost loop: refill the budget on a new day if it is used up, then push one entry or two fragments. */
  method PlaceTopic(items0: seq<ScheduleItem>, date0: int, minutes0: int, volume: StudyVolume, chapter: Chapter, topic: StudyTopic,
                    completedTopics: set<string>)
    returns (items: seq<ScheduleItem>, currentDate: int, minutesRemaining: int)
    ensures Cursor(items, currentDate, minutesRemaining)
         == Place(Cursor(items0, date0, minutes0), SlotOf(volume, chapter, topic), completedTopics)
  {
    items, currentDate, minutesRemaining := items0, date0, minutes0;
    var duration := Duration(topic);
    var topicId := volume.id + "_" + chapter.id + "_" + topic.id;
    var isCompleted := topicId in completedTopics;

    if minutesRemaining == 0 {
      minutesRemaining := DailyStudyMinutes;
      currentDate := currentDate + 1;
    }

    var studyDate := currentDate;

    if duration <= minutesRemaining {
      items := items + [ScheduleItem("study_" + topicId, studyDate, volume.number, volume.title, chapter.name,
                                     topic.name, duration, Study, None, isCompleted, studyDate)];
      minutesRemaining := minutesRemaining - duration;
    } else {
      items := items + [ScheduleItem("study_" + topicId + "_part1", studyDate, volume.number, volume.title, chapter.name,
                                     topic.name, minutesRemaining, Study, None, isCompleted, studyDate)];
      var remaining := duration - minutesRemaining;
      currentDate := currentDate + 1;
      items := items + [ScheduleItem("study_" + topicId + "_part2", currentDate, volume.number, volume.title, chapter.name,
                                     topic.name + " (continuação)", remaining, Study, None, isCompleted, studyDate)];
      minutesRemaining := DailyStudyMinutes - remaining;
    }
  }

  /** The study entries of the `schedule` memo: nested loops that push entries while moving the date and the budget. */
  method PlanStudy(volumes: seq<StudyVolume>, startDate: int, includeComplementary: bool, completedTopics: set<string>)
    returns (items: seq<ScheduleItem>)
    ensures items == StudyPlan(volumes, startDate, includeComplementary, completedTopics)
  {
    items := [];
    var currentDate := startDate;
    var minutesRemaining := 0;

    var volumesToStudy := VolumesToStudy(volumes, includeComplementary);

    var i := 0;
    while i < |volumesToStudy|
      invariant 0 <= i <= |volumesToStudy|
      invariant Cursor(items, currentDate, minutesRemaining) == Run(CurriculumSlots(volumesToStudy[..i]), startDate, completedTopics)
    {
      var volume := volumesToStudy[i];
      ghost var before := CurriculumSlots(volumesToStudy[..i]);
      var j := 0;
      assert volume.chapters[..0] == [];
      AppendNil(before);
      while j < |volume.chapters|
        invariant 0 <= j <= |volume.chapters|
        invariant Cursor(items, currentDate, minutesRemaining)
               == Run(before + ChaptersSlots(volume, volume.chapters[..j]), startDate, completedTopics)
      {
        var chapter := volume.chapters[j];
        ghost var done := before + ChaptersSlots(volume, volume.chapters[..j]);
        ghost var slots := ChapterSlots(volume, chapter);
        var k := 0;
        assert slots[..0] == [];
        AppendNil(done);
        while k < |chapter.topics|
          invariant 0 <= k <= |chapter.topics|
          invariant Cursor(items, currentDate, minutesRemaining) == Run(done + slots[..k], startDate, completedTopics)
        {
          ghost var cursor := Cursor(items, currentDate, minutesRemaining);
          items, currentDate, minutesRemaining := PlaceTopic(items, currentDate, minutesRemaining, volume, chapter, chapter.topics[k], completedTopics);
          assert Cursor(items, currentDate, minutesRemaining) == Place(cursor, slots[k], completedTopics);
          TakeSnoc(slots, k);
          AppendAssoc(done, slots[..k], [slots[k]]);
          RunSnoc(done + slots[..k], slots[k], startDate, completedTopics);
          k := k + 1;
        }
        TakeAll(slots);
        ChaptersSlotsSnoc(volume, volume.chapters, j);
        AppendAssoc(before, ChaptersSlots(volume, volume.chapters[..j]), slots);
        j := j + 1;
      }
      TakeAll(volume.chapters);
      CurriculumSlotsSnoc(volumesToStudy, i);
      i := i + 1;
    }
    TakeAll(volumesToStudy);
  }

  /** The reviews of one study entry, pushed onto `items0`: one per review day when its topic is complete. */
  method PushReviews(items0: seq<ScheduleItem>, studyItem: ScheduleItem, completedTopics: set<string>) returns (items: seq<ScheduleItem>)
    ensures items == items0 + ReviewsOf(studyItem, completedTopics)
  {
    items := items0;
    var topicId := BeforeFirst(ReplaceFirst(studyItem.id, "study_", ""), "_part");
    var isCompleted := topicId in completedTopics;
    ghost var reviews := ReviewsOf(studyItem, completedTopics);

    if isCompleted {
      var completionDate := studyItem.originalStudyDate;
      var r := 0;
      while r < |ReviewDays|
        invariant 0 <= r <= |ReviewDays|
        invariant items == items0 + reviews[..r]
      {
        var reviewDay := ReviewDays[r];
        var reviewDate := completionDate + reviewDay;
        items := items + [ScheduleItem(
          "review_" + topicId + "_" + NatToString(reviewDay) + "d",
          reviewDate,
          studyItem.volume, studyItem.volumeTitle, studyItem.chapter,
          "[REVISÃO] " + ReplaceFirst(studyItem.topic, " (continuação)", ""),
          CeilDiv(studyItem.duration, 2),
          Review, Some(reviewDay), false, studyItem.originalStudyDate)];
        assert reviews[r] == ReviewItem(studyItem, topicId, ReviewDays[r]);
        TakeSnoc(reviews, r);
        AppendAssoc(items0, reviews[..r], [reviews[r]]);
        r := r + 1;
      }
      TakeAll(reviews);
    } else {
      assert reviews == [];
    }
  }

  /** The review pass of the `schedule` memo: five reviews after every study entry whose topic is complete. */
  method AddReviews(study: seq<ScheduleItem>, completedTopics: set<string>) returns (items: seq<ScheduleItem>)
    ensures items == study + ReviewsFor(Filter(study, IsStudy), completedTopics)
  {
    items := study;
    var studyItems := Filter(items, IsStudy);
    var s := 0;
    while s < |studyItems|
      invariant 0 <= s <= |studyItems|
      invariant items == study + ReviewsFor(studyItems[..s], completedTopics)
    {
      TakeSnoc(studyItems, s);
      ReviewsForSnoc(studyItems[..s], studyItems[s], completedTopics);
      AppendAssoc(study, ReviewsFor(studyItems[..s], completedTopics), ReviewsOf(studyItems[s], completedTopics));
      items := PushReviews(items, studyItems[s], completedTopics);
      s := s + 1;
    }
    TakeAll(studyItems);
  }

  /** The `schedule` memo: study entries, then reviews, then a stable sort by date. */
  method GenerateSchedule(volumes: seq<StudyVolume>, startDate: int, includeComplementary: bool, completedTopics: set<string>)
    returns (schedule: seq<ScheduleItem>)
    ensures schedule == Schedule(volumes, startDate, includeComplementary, completedTopics)
    ensures SortedBy(schedule, ItemDate)
    ensures multiset(schedule) == multiset(Generated(volumes, startDate, includeComplementary, completedTopics))
  {
    var items := PlanStudy(volumes, startDate, includeComplementary, completedTopics);
    items := AddReviews(items, completedTopics);
    schedule := SortBy(items, ItemDate);
  }
}
