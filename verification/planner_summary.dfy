/**
 * What the study planner page derives from a schedule: the entries grouped by
 * volume, the progress of each volume, the headline statistics, the CSV export,
 * and the completion and expansion toggles it keeps as page state.
 */
module PlannerSummary {
  import opened Wrappers
  import opened Text
  import opened Collections
  import opened Rounding
  import opened Curriculum
  import opened StudyPlanner
  import opened StudyPlannerProperties

  predicate IsReview(item: ScheduleItem) {
    item.kind == Review
  }

  predicate IsCompleted(item: ScheduleItem) {
    item.completed
  }

  function ItemDuration(item: ScheduleItem): int {
    item.duration
  }

  /** Every entry is a study entry or a review, never both. */
  lemma {:induction false} StudyReviewPartition(items: seq<ScheduleItem>)
    ensures |Filter(items, IsStudy)| + |Filter(items, IsReview)| == |items|
  {
    if items != [] {
      StudyReviewPartition(items[1..]);
    }
  }

  // ---------------------------------------------------------------------------
  // Grouping by volume

  datatype VolumeGroup = VolumeGroup(title: string, items: seq<ScheduleItem>)

  /** The entries of one volume, in schedule order. */
  function OfVolume(items: seq<ScheduleItem>, volume: int): (r: seq<ScheduleItem>)
    ensures |r| <= |items|
    ensures forall x :: x in r <==> x in items && x.volume == volume
  {
    if items == [] then []
    else OfVolume(items[..|items| - 1], volume) + (if items[|items| - 1].volume == volume then [items[|items| - 1]] else [])
  }

  /** The position of the first entry of a volume. */
  function FirstOfVolume(items: seq<ScheduleItem>, volume: int): (r: Option<nat>)
    ensures r.None? <==> forall k :: 0 <= k < |items| ==> items[k].volume != volume
    ensures r.Some? ==> r.value < |items| && items[r.value].volume == volume
                        && forall k :: 0 <= k < r.value ==> items[k].volume != volume
  {
    if items == [] then None
    else match FirstOfVolume(items[..|items| - 1], volume)
      case Some(j) => Some(j)
      case None => if items[|items| - 1].volume == volume then Some(|items| - 1) else None
  }

  /** The volume numbers that occur in a schedule. */
  function VolumesIn(items: seq<ScheduleItem>): set<int> {
    if items == [] then {} else VolumesIn(items[..|items| - 1]) + {items[|items| - 1].volume}
  }

  /** A volume occurs in a schedule exactly when one of its entries has that number. */
  lemma {:induction false} VolumesInMembers(items: seq<ScheduleItem>)
    ensures forall k :: 0 <= k < |items| ==> items[k].volume in VolumesIn(items)
    ensures forall v :: v in VolumesIn(items) ==> exists k :: 0 <= k < |items| && items[k].volume == v
  {
    if items != [] {
      var prefix := items[..|items| - 1];
      VolumesInMembers(prefix);
      forall k | 0 <= k < |items| - 1 ensures items[k].volume in VolumesIn(items) {
        assert items[k] == prefix[k];
      }
      forall v | v in VolumesIn(items) ensures exists k :: 0 <= k < |items| && items[k].volume == v {
        if v in VolumesIn(prefix) {
          var k :| 0 <= k < |prefix| && prefix[k].volume == v;
          assert items[k] == prefix[k];
        } else {
          assert items[|items| - 1].volume == v;
        }
      }
    }
  }

  /** What a group should hold: the volume's entries in order, titled after its first entry. */
  ghost predicate GroupedBy(groups: map<int, VolumeGroup>, items: seq<ScheduleItem>) {
    && groups.Keys == VolumesIn(items)
    && forall v :: v in groups ==> GroupHolds(groups, items, v)
  }

  /** Volume `v`'s group holds its entries in order and is titled after its first entry. */
  ghost predicate GroupHolds(groups: map<int, VolumeGroup>, items: seq<ScheduleItem>, v: int)
    requires v in groups
  {
    && groups[v].items == OfVolume(items, v)
    && FirstOfVolume(items, v).Some?
    && groups[v].title == items[FirstOfVolume(items, v).value].volumeTitle
  }

  lemma VolumesInSnoc(items: seq<ScheduleItem>, i: nat)
    requires i < |items|
    ensures VolumesIn(items[..i + 1]) == VolumesIn(items[..i]) + {items[i].volume}
  {
    assert items[..i + 1][..i] == items[..i];
  }

  lemma OfVolumeSnoc(items: seq<ScheduleItem>, i: nat, volume: int)
    requires i < |items|
    ensures OfVolume(items[..i + 1], volume)
         == OfVolume(items[..i], volume) + (if items[i].volume == volume then [items[i]] else [])
    ensures FirstOfVolume(items[..i + 1], volume)
         == match FirstOfVolume(items[..i], volume)
            case Some(j) => Some(j)
            case None => if items[i].volume == volume then Some(i) else None
  {
    assert items[..i + 1][..i] == items[..i];
  }

  /** One step of `scheduleByVolume`: create the volume's group at its first entry, then push the entry. */
  function AddToGroup(groups: map<int, VolumeGroup>, item: ScheduleItem): map<int, VolumeGroup> {
    var g := if item.volume in groups then groups else groups[item.volume := VolumeGroup(item.volumeTitle, [])];
    g[item.volume := VolumeGroup(g[item.volume].title, g[item.volume].items + [item])]
  }

  lemma GroupStep(groups: map<int, VolumeGroup>, schedule: seq<ScheduleItem>, i: nat)
    requires i < |schedule| && GroupedBy(groups, schedule[..i])
    ensures GroupedBy(AddToGroup(groups, schedule[i]), schedule[..i + 1])
  {
    var next := AddToGroup(groups, schedule[i]);
    VolumesInSnoc(schedule, i);
    assert next.Keys == groups.Keys + {schedule[i].volume};
    forall v | v in next ensures GroupHolds(next, schedule[..i + 1], v) {
      if v in groups {
        GroupStepExisting(groups, schedule, i, v);
      } else {
        GroupStepFirst(groups, schedule, i);
      }
    }
  }

  /** A volume that already has a group keeps its title and gains the entry if it is its own. */
  lemma GroupStepExisting(groups: map<int, VolumeGroup>, schedule: seq<ScheduleItem>, i: nat, v: int)
    requires i < |schedule| && GroupedBy(groups, schedule[..i]) && v in groups
    ensures var next := AddToGroup(groups, schedule[i]);
      && v in next
      && next[v].items == OfVolume(schedule[..i + 1], v)
      && FirstOfVolume(schedule[..i + 1], v) == FirstOfVolume(schedule[..i], v)
      && FirstOfVolume(schedule[..i + 1], v).Some?
      && next[v].title == schedule[..i + 1][FirstOfVolume(schedule[..i + 1], v).value].volumeTitle
  {
    OfVolumeSnoc(schedule, i, v);
    var j := FirstOfVolume(schedule[..i], v).value;
    assert schedule[..i + 1][j] == schedule[..i][j];
  }

  /** A volume seen for the first time gets a group titled after this entry and holding just it. */
  lemma GroupStepFirst(groups: map<int, VolumeGroup>, schedule: seq<ScheduleItem>, i: nat)
    requires i < |schedule| && GroupedBy(groups, schedule[..i]) && schedule[i].volume !in groups
    ensures var next := AddToGroup(groups, schedule[i]);
      var v := schedule[i].volume;
      && next[v].items == OfVolume(schedule[..i + 1], v)
      && FirstOfVolume(schedule[..i + 1], v) == Some(i)
      && next[v].title == schedule[..i + 1][i].volumeTitle
  {
    var v := schedule[i].volume;
    var prefix := schedule[..i];
    OfVolumeSnoc(schedule, i, v);
    VolumesInMembers(prefix);
    assert FirstOfVolume(prefix, v).None?;
    OfVolumeEmpty(prefix, v);
    assert schedule[..i + 1][i] == schedule[i];
  }

  lemma {:induction false} OfVolumeEmpty(items: seq<ScheduleItem>, volume: int)
    requires forall k :: 0 <= k < |items| ==> items[k].volume != volume
    ensures OfVolume(items, volume) == []
  {
    if items != [] {
      OfVolumeEmpty(items[..|items| - 1], volume);
    }
  }

  lemma GroupedByEmpty(schedule: seq<ScheduleItem>)
    ensures GroupedBy(map[], schedule[..0])
  {
    assert schedule[..0] == [];
  }

  /** `scheduleByVolume`: one group per volume, created at the volume's first entry, entries pushed in order. */
  method GroupByVolume(schedule: seq<ScheduleItem>) returns (groups: map<int, VolumeGroup>)
    ensures GroupedBy(groups, schedule)
  {
    groups := map[];
    var i := 0;
    GroupedByEmpty(schedule);
    while i < |schedule|
      invariant 0 <= i <= |schedule|
      invariant GroupedBy(groups, schedule[..i])
    {
      ghost var before := groups;
      groups := PushToGroup(groups, schedule[i]);
      GroupStep(before, schedule, i);
      i := i + 1;
    }
    TakeAll(schedule);
  }

  /** The body of the `forEach`: open the volume's group if it has none, then push the entry onto it. */
  method PushToGroup(groups: map<int, VolumeGroup>, item: ScheduleItem) returns (next: map<int, VolumeGroup>)
    ensures next == AddToGroup(groups, item)
  {
    next := groups;
    if item.volume !in next {
      next := next[item.volume := VolumeGroup(item.volumeTitle, [])];
    }
    next := next[item.volume := VolumeGroup(next[item.volume].title, next[item.volume].items + [item])];
  }

  /** Each entry lands in its own volume's group and in no other. */
  lemma GroupMembership(groups: map<int, VolumeGroup>, schedule: seq<ScheduleItem>, x: ScheduleItem)
    requires GroupedBy(groups, schedule)
    requires x in schedule
    ensures x.volume in groups && x in groups[x.volume].items
    ensures forall v :: v in groups && v != x.volume ==> x !in groups[v].items
  {
    VolumesInMembers(schedule);
  }

  /** A group of a schedule sorted by date is itself sorted by date. */
  lemma {:induction false} OfVolumeSorted(items: seq<ScheduleItem>, volume: int)
    requires SortedBy(items, ItemDate)
    ensures SortedBy(OfVolume(items, volume), ItemDate)
    ensures forall x :: x in OfVolume(items, volume) && items != [] ==> x.date <= items[|items| - 1].date
  {
    if items != [] {
      var prefix := items[..|items| - 1];
      var last := items[|items| - 1];
      SortedPrefix(items);
      OfVolumeSorted(prefix, volume);
      var g := OfVolume(prefix, volume);
      forall x | x in g ensures x.date <= last.date {
        var k :| 0 <= k < |prefix| && prefix[k] == x;
        assert items[k] == x;
      }
      if last.volume == volume {
        SortedSnoc(g, last);
      }
    }
  }

  lemma SortedPrefix(items: seq<ScheduleItem>)
    requires items != [] && SortedBy(items, ItemDate)
    ensures SortedBy(items[..|items| - 1], ItemDate)
    ensures forall k :: 0 <= k < |items| - 1 ==> items[k].date <= items[|items| - 1].date
  {
    var prefix := items[..|items| - 1];
    forall i, j | 0 <= i < j < |prefix| ensures prefix[i].date <= prefix[j].date {
      assert prefix[i] == items[i] && prefix[j] == items[j];
    }
  }

  lemma SortedSnoc(g: seq<ScheduleItem>, last: ScheduleItem)
    requires SortedBy(g, ItemDate) && forall x :: x in g ==> x.date <= last.date
    ensures SortedBy(g + [last], ItemDate)
  {
    var r := g + [last];
    forall i, j | 0 <= i < j < |r| ensures r[i].date <= r[j].date {
      assert r[i] == g[i];
      if j < |g| {
        assert r[j] == g[j];
      }
    }
  }

  // ---------------------------------------------------------------------------
  // Progress per volume

  datatype Progress = Progress(completed: nat, total: nat, percentage: int)

  /** The progress of one group: completed study entries over study entries, as a rounded percentage. */
  function ProgressOf(items: seq<ScheduleItem>): (p: Progress)
    ensures p.total == |Filter(items, IsStudy)| && p.total <= |items|
    ensures p.completed == |Filter(Filter(items, IsStudy), IsCompleted)|
    ensures p.completed <= p.total
    ensures 0 <= p.percentage <= 100
    ensures p.total == 0 ==> p.percentage == 0
    ensures p.total > 0 && p.completed == p.total ==> p.percentage == 100
    ensures p.completed == 0 ==> p.percentage == 0
    ensures p.total > 0 ==> 2 * p.percentage * p.total <= 200 * p.completed + p.total < 2 * (p.percentage + 1) * p.total
  {
    var studyItems := Filter(items, IsStudy);
    var completedItems := Filter(studyItems, IsCompleted);
    Progress(|completedItems|, |studyItems|, Percentage(|completedItems|, |studyItems|))
  }

  /** `volumeProgress`: the progress of every group, under the same volume number. */
  function VolumeProgress(groups: map<int, VolumeGroup>): (r: map<int, Progress>)
    ensures r.Keys == groups.Keys
    ensures forall v :: v in r ==> r[v] == ProgressOf(groups[v].items)
    ensures forall v :: v in r ==> r[v].completed <= r[v].total <= |groups[v].items| && 0 <= r[v].percentage <= 100
  {
    map v | v in groups :: ProgressOf(groups[v].items)
  }

  /** A group's total counts exactly its volume's study entries. */
  lemma VolumeProgressTotals(groups: map<int, VolumeGroup>, schedule: seq<ScheduleItem>, v: int)
    requires GroupedBy(groups, schedule) && v in groups
    ensures VolumeProgress(groups)[v].total == |Filter(OfVolume(schedule, v), IsStudy)|
    ensures VolumeProgress(groups)[v].completed == |Filter(Filter(OfVolume(schedule, v), IsStudy), IsCompleted)|
  {
  }

  // ---------------------------------------------------------------------------
  // Statistics

  datatype Stats = Stats(
    studyItems: nat,
    completedStudyItems: nat,
    reviewItems: nat,
    completedReviewItems: nat,
    totalMinutes: int,
    completedMinutes: int,
    totalDays: nat,
    endDate: int,
    progressPercentage: int)

  predicate ReviewDone(item: ScheduleItem, completedReviews: set<string>) {
    item.id in completedReviews
  }

  /** The filter `(item) => completedReviews.has(item.id)`. */
  function DoneIn(completedReviews: set<string>): ScheduleItem -> bool {
    (item: ScheduleItem) => ReviewDone(item, completedReviews)
  }

  /** The distinct dates of a schedule. */
  function Dates(items: seq<ScheduleItem>): set<int> {
    set k | 0 <= k < |items| :: items[k].date
  }

  lemma {:induction false} DatesBound(items: seq<ScheduleItem>)
    ensures |Dates(items)| <= |items|
    ensures items != [] ==> |Dates(items)| >= 1
  {
    if items != [] {
      var prefix := items[..|items| - 1];
      DatesBound(prefix);
      assert Dates(items) == Dates(prefix) + {items[|items| - 1].date} by {
        forall d | d in Dates(items) ensures d in Dates(prefix) + {items[|items| - 1].date} {
          var k :| 0 <= k < |items| && items[k].date == d;
          if k < |items| - 1 {
            assert prefix[k] == items[k];
          }
        }
        forall d | d in Dates(prefix) ensures d in Dates(items) {
          var k :| 0 <= k < |prefix| && prefix[k].date == d;
          assert items[k] == prefix[k];
        }
      }
      assert items[|items| - 1].date in Dates(items);
    }
  }

  /**
   * `stats`: counts of study entries and reviews, minutes of study only, the
   * number of distinct days, the last entry's date (today when empty) and the
   * completed share of the study entries.
   */
  function ComputeStats(schedule: seq<ScheduleItem>, completedReviews: set<string>, today: int): (s: Stats)
    ensures s.studyItems == |Filter(schedule, IsStudy)| && s.reviewItems == |Filter(schedule, IsReview)|
    ensures s.completedStudyItems == |Filter(Filter(schedule, IsStudy), IsCompleted)|
    ensures s.completedReviewItems == |Filter(Filter(schedule, IsReview), DoneIn(completedReviews))|
    ensures s.totalMinutes == SumBy(Filter(schedule, IsStudy), ItemDuration)
    ensures s.completedMinutes == SumBy(Filter(Filter(schedule, IsStudy), IsCompleted), ItemDuration)
    ensures s.totalDays == |Dates(schedule)|
    ensures s.studyItems + s.reviewItems == |schedule|
    ensures s.completedStudyItems <= s.studyItems && s.completedReviewItems <= s.reviewItems
    ensures s.totalDays <= |schedule| && (schedule != [] ==> s.totalDays >= 1)
    ensures s.endDate == if schedule == [] then today else schedule[|schedule| - 1].date
    ensures 0 <= s.progressPercentage <= 100
    ensures s.studyItems == 0 ==> s.progressPercentage == 0
    ensures s.progressPercentage == Percentage(s.completedStudyItems, s.studyItems)
  {
    var studyItems := Filter(schedule, IsStudy);
    var reviewItems := Filter(schedule, IsReview);
    var completedStudyItems := Filter(studyItems, IsCompleted);
    var completedReviewItems := Filter(reviewItems, DoneIn(completedReviews));
    var pct := Percentage(|completedStudyItems|, |studyItems|);
    StudyReviewPartition(schedule);
    DatesBound(schedule);
    Stats(
      |studyItems|,
      |completedStudyItems|,
      |reviewItems|,
      |completedReviewItems|,
      SumBy(studyItems, ItemDuration),
      SumBy(completedStudyItems, ItemDuration),
      |Dates(schedule)|,
      if |schedule| > 0 then schedule[|schedule| - 1].date else today,
      pct)
  }

  /** With non-negative study durations the completed minutes never exceed the total. */
  lemma StatsMinutes(schedule: seq<ScheduleItem>, completedReviews: set<string>, today: int)
    requires forall i :: 0 <= i < |schedule| && IsStudy(schedule[i]) ==> schedule[i].duration >= 0
    ensures var s := ComputeStats(schedule, completedReviews, today);
      0 <= s.completedMinutes <= s.totalMinutes
  {
    var studyItems := Filter(schedule, IsStudy);
    forall i | 0 <= i < |studyItems| ensures ItemDuration(studyItems[i]) >= 0 {
      assert studyItems[i] in multiset(schedule);
    }
    SumByFilterBound(studyItems, IsCompleted, ItemDuration);
  }

  /**
   * For a generated schedule the statistics count exactly the study entries
   * and their minutes as planned, whatever the final sort did; reviews add to
   * the review count only, five per completed topic entry.
   */
  lemma StatsOfSchedule(volumes: seq<StudyVolume>, startDate: int, includeComplementary: bool,
                        completedTopics: set<string>, completedReviews: set<string>, today: int)
    requires PlainKeys(volumes)
    ensures var study := StudyPlan(volumes, startDate, includeComplementary, completedTopics);
      var s := ComputeStats(Schedule(volumes, startDate, includeComplementary, completedTopics), completedReviews, today);
      && s.studyItems == |study|
      && s.reviewItems == |ReviewDays| * CompletedCount(study)
      && s.totalMinutes == SumBy(study, ItemDuration)
  {
    var study := StudyPlan(volumes, startDate, includeComplementary, completedTopics);
    var reviews := ReviewsFor(study, completedTopics);
    var schedule := Schedule(volumes, startDate, includeComplementary, completedTopics);
    ScheduleContents(volumes, startDate, includeComplementary, completedTopics);
    StudyOnly(volumes, startDate, includeComplementary, completedTopics);
    ReviewsForPending(study, completedTopics);
    FilterNone(reviews, IsStudy);
    FilterConcat(study, reviews, IsStudy);
    assert Filter(study + reviews, IsStudy) == study;
    FilterPermutation(schedule, study + reviews, IsStudy);
    SumByPermutation(Filter(schedule, IsStudy), study, ItemDuration);
    StudyReviewPartition(schedule);
  }

  /** The generated study entries are all study entries. */
  lemma StudyOnly(volumes: seq<StudyVolume>, startDate: int, includeComplementary: bool, completedTopics: set<string>)
    ensures Filter(StudyPlan(volumes, startDate, includeComplementary, completedTopics), IsStudy)
         == StudyPlan(volumes, startDate, includeComplementary, completedTopics)
  {
    var slots := CurriculumSlots(VolumesToStudy(volumes, includeComplementary));
    RunOrder(slots, startDate, completedTopics);
    FilterAll(StudyPlan(volumes, startDate, includeComplementary, completedTopics), IsStudy);
  }

  // ---------------------------------------------------------------------------
  // CSV export

  const CsvHeader: seq<string> := ["Data", "Volume", "Capítulo", "Tópico", "Duração (min)", "Tipo", "Status"]

  /** The seven fields of an entry's row; the date text comes from the locale formatter. */
  function CsvFields(item: ScheduleItem, formatDate: int -> string): seq<string> {
    [
      formatDate(item.date),
      "Vol " + IntToString(item.volume),
      item.chapter,
      item.topic,
      IntToString(item.duration),
      if item.kind == Study then "Estudo" else "Revisão",
      if item.completed then "Concluído" else "Pendente"
    ]
  }

  /** The CSV text: the header line, then one comma-joined line per entry, joined by newlines. */
  function ExportCsv(schedule: seq<ScheduleItem>, formatDate: int -> string): string {
    Join([Join(CsvHeader, ',')] + seq(|schedule|, i requires 0 <= i < |schedule| => Join(CsvFields(schedule[i], formatDate), ',')), '\n')
  }

  predicate CsvSafe(s: string) {
    ',' !in s && '\n' !in s
  }

  lemma IntToStringCsvSafe(i: int)
    ensures CsvSafe(IntToString(i))
  {
    var s := NatToString(if i < 0 then -i else i);
    assert forall k :: 0 <= k < |s| ==> IsDigit(s[k]);
  }

  lemma FieldsSafe(item: ScheduleItem, formatDate: int -> string)
    requires CsvSafe(formatDate(item.date)) && CsvSafe(item.chapter) && CsvSafe(item.topic)
    ensures forall k :: 0 <= k < 7 ==> CsvSafe(CsvFields(item, formatDate)[k])
  {
    IntToStringCsvSafe(item.volume);
    IntToStringCsvSafe(item.duration);
    assert "Vol " + IntToString(item.volume) == "Vol " + IntToString(item.volume);
  }

  /**
   * When no date text, chapter or topic holds a comma or a newline, the export
   * reads back: one line per entry after the header, each splitting into the
   * entry's seven fields.
   */
  lemma CsvReadsBack(schedule: seq<ScheduleItem>, formatDate: int -> string)
    requires forall i :: 0 <= i < |schedule| ==>
      CsvSafe(formatDate(schedule[i].date)) && CsvSafe(schedule[i].chapter) && CsvSafe(schedule[i].topic)
    ensures var lines := Split(ExportCsv(schedule, formatDate), '\n');
      && |lines| == |schedule| + 1
      && Split(lines[0], ',') == CsvHeader
      && forall i :: 0 <= i < |schedule| ==> Split(lines[i + 1], ',') == CsvFields(schedule[i], formatDate)
  {
    var rows := seq(|schedule|, i requires 0 <= i < |schedule| => Join(CsvFields(schedule[i], formatDate), ','));
    var expected := seq(|schedule|, i requires 0 <= i < |schedule| => CsvFields(schedule[i], formatDate));
    var parse := (line: string) => Split(line, ',');
    forall i | 0 <= i < |schedule| ensures '\n' !in rows[i] && parse(rows[i]) == expected[i] {
      RowReadsBack(schedule[i], formatDate);
    }
    HeaderReadsBack();
    LinesReadBack(Join(CsvHeader, ','), rows, expected, parse);
  }

  /** Lines free of newlines, joined by newlines, split back into those lines; each then parses as its row. */
  lemma LinesReadBack(header: string, rows: seq<string>, expected: seq<seq<string>>, parse: string -> seq<string>)
    requires '\n' !in header && |expected| == |rows|
    requires forall i :: 0 <= i < |rows| ==> '\n' !in rows[i] && parse(rows[i]) == expected[i]
    ensures var lines := Split(Join([header] + rows, '\n'), '\n');
      && lines == [header] + rows
      && forall i :: 0 <= i < |rows| ==> parse(lines[i + 1]) == expected[i]
  {
    var lines := [header] + rows;
    forall k | 0 <= k < |lines| ensures '\n' !in lines[k] {
      if k > 0 {
        assert lines[k] == rows[k - 1];
      }
    }
    SplitJoin(lines, '\n');
  }

  lemma RowReadsBack(item: ScheduleItem, formatDate: int -> string)
    requires CsvSafe(formatDate(item.date)) && CsvSafe(item.chapter) && CsvSafe(item.topic)
    ensures '\n' !in Join(CsvFields(item, formatDate), ',')
    ensures Split(Join(CsvFields(item, formatDate), ','), ',') == CsvFields(item, formatDate)
  {
    FieldsSafe(item, formatDate);
    JoinFree(CsvFields(item, formatDate), ',', '\n');
    SplitJoin(CsvFields(item, formatDate), ',');
  }

  lemma HeaderReadsBack()
    ensures '\n' !in Join(CsvHeader, ',') && Split(Join(CsvHeader, ','), ',') == CsvHeader
  {
    forall k | 0 <= k < |CsvHeader| ensures CsvSafe(CsvHeader[k]) {
      HeaderFieldSafe(k);
    }
    JoinFree(CsvHeader, ',', '\n');
    SplitJoin(CsvHeader, ',');
  }

  lemma HeaderFieldSafe(k: nat)
    requires k < |CsvHeader|
    ensures CsvSafe(CsvHeader[k])
  {
  }

  /** A comma inside a topic name shifts the columns: the row splits into eight fields. */
  lemma CommaInTopicShiftsColumns(item: ScheduleItem, formatDate: int -> string)
    requires item.topic == "Funções, parte A"
    requires CsvSafe(formatDate(item.date)) && CsvSafe(item.chapter)
    ensures |Split(Join(CsvFields(item, formatDate), ','), ',')| == 8
  {
    var f := CsvFields(item, formatDate);
    var g := f[..3] + ["Funções", " parte A"] + f[4..];
    IntToStringCsvSafe(item.volume);
    IntToStringCsvSafe(item.duration);
    assert Join(f, ',') == Join(g, ',') by {
      assert f[3] == "Funções" + [','] + " parte A";
      assert f == f[..3] + ["Funções" + [','] + " parte A"] + f[4..];
      JoinSplitField(f[..3], "Funções", " parte A", f[4..]);
    }
    forall k | 0 <= k < |g| ensures ',' !in g[k] {
    }
    SplitJoin(g, ',');
  }

  /** Joining with a field that contains the separator is joining with that field cut in two. */
  lemma {:induction false} JoinSplitField(before: seq<string>, a: string, b: string, after: seq<string>)
    requires after != []
    ensures Join(before + [a + [','] + b] + after, ',') == Join(before + [a, b] + after, ',')
  {
    if before == [] {
      assert [a + [','] + b] + after == [a + [','] + b] + after;
      assert ([a, b] + after)[1..] == [b] + after;
      assert Join([a, b] + after, ',') == a + [','] + Join([b] + after, ',');
      assert Join([b] + after, ',') == b + [','] + Join(after, ',') by {
        assert ([b] + after)[1..] == after;
      }
      assert ([a + [','] + b] + after)[1..] == after;
    } else {
      JoinSplitField(before[1..], a, b, after);
      assert (before + [a + [','] + b] + after)[1..] == before[1..] + [a + [','] + b] + after;
      assert (before + [a, b] + after)[1..] == before[1..] + [a, b] + after;
    }
  }

  // ---------------------------------------------------------------------------
  // Page state

  /** Adds an element that is absent and removes one that is present. */
  function Toggle<T(!new)>(s: set<T>, x: T): (r: set<T>)
    ensures x in r <==> x !in s
    ensures forall y :: y != x ==> (y in r <==> y in s)
  {
    if x in s then s - {x} else s + {x}
  }

  /** Toggling twice restores the set. */
  lemma ToggleTwice<T(!new)>(s: set<T>, x: T)
    ensures Toggle(Toggle(s, x), x) == s
  {
  }

  /** The planner page's state: completed topics and reviews and the expanded volumes, loaded from storage. */
  class PlannerState {
    var completedTopics: set<string>
    var completedReviews: set<string>
    var expandedVolumes: set<int>

    /** Saved sets are restored; without one, nothing is complete and volume 1 is expanded. */
    constructor(savedTopics: Option<set<string>>, savedReviews: Option<set<string>>, savedExpanded: Option<set<int>>)
      ensures completedTopics == (if savedTopics.Some? then savedTopics.value else {})
      ensures completedReviews == (if savedReviews.Some? then savedReviews.value else {})
      ensures expandedVolumes == (if savedExpanded.Some? then savedExpanded.value else {1})
    {
      completedTopics := if savedTopics.Some? then savedTopics.value else {};
      completedReviews := if savedReviews.Some? then savedReviews.value else {};
      expandedVolumes := if savedExpanded.Some? then savedExpanded.value else {1};
    }

    method ToggleTopicCompletion(topicId: string)
      modifies this
      ensures completedTopics == Toggle(old(completedTopics), topicId)
      ensures completedReviews == old(completedReviews) && expandedVolumes == old(expandedVolumes)
    {
      var newCompleted := completedTopics;
      if topicId in newCompleted {
        newCompleted := newCompleted - {topicId};
      } else {
        newCompleted := newCompleted + {topicId};
      }
      completedTopics := newCompleted;
    }

    method ToggleReviewCompletion(reviewId: string)
      modifies this
      ensures completedReviews == Toggle(old(completedReviews), reviewId)
      ensures completedTopics == old(completedTopics) && expandedVolumes == old(expandedVolumes)
    {
      var newCompleted := completedReviews;
      if reviewId in newCompleted {
        newCompleted := newCompleted - {reviewId};
      } else {
        newCompleted := newCompleted + {reviewId};
      }
      completedReviews := newCompleted;
    }

    method ToggleVolumeExpansion(volumeNum: int)
      modifies this
      ensures expandedVolumes == Toggle(old(expandedVolumes), volumeNum)
      ensures completedTopics == old(completedTopics) && completedReviews == old(completedReviews)
    {
      var newExpanded := expandedVolumes;
      if volumeNum in newExpanded {
        newExpanded := newExpanded - {volumeNum};
      } else {
        newExpanded := newExpanded + {volumeNum};
      }
      expandedVolumes := newExpanded;
    }

    /** The schedule the page shows for its current completed topics. */
    method CurrentSchedule(volumes: seq<StudyVolume>, startDate: int, includeComplementary: bool)
      returns (schedule: seq<ScheduleItem>)
      ensures schedule == Schedule(volumes, startDate, includeComplementary, completedTopics)
      ensures SortedBy(schedule, ItemDate)
    {
      schedule := GenerateSchedule(volumes, startDate, includeComplementary, completedTopics);
    }

    /** The statistics the page shows for a schedule and its current completed reviews. */
    function CurrentStats(schedule: seq<ScheduleItem>, today: int): (s: Stats)
      reads this
      ensures s == ComputeStats(schedule, completedReviews, today)
      ensures s.completedReviewItems <= s.reviewItems
      ensures s.studyItems + s.reviewItems == |schedule|
    {
      ComputeStats(schedule, completedReviews, today)
    }
  }
}
