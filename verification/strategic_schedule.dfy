/**
 * The six-month strategic plan page: the plan's weeks grouped by phase (the
 * phases in the order they first appear), hour and question totals per week
 * and per phase, and "Iniciar Semana", which hands the selected week's first
 * topic to the timer page as a preselection.  The plan data itself is a
 * parameter.
 */
module StrategicSchedulePage {
  import opened Wrappers
  import opened Text
  import opened Collections

  datatype WeekTopic = WeekTopic(
    id: string, name: string, volumeId: string, chapterId: string, topicId: string,
    estimatedHours: Option<int>, practiceQuestions: Option<int>)

  datatype ScheduleWeek = ScheduleWeek(week: int, phase: string, title: string, topics: seq<WeekTopic>)

  // ---------------------------------------------------------------------------
  // Phases

  predicate NoDuplicates(xs: seq<string>) {
    forall i, j :: 0 <= i < j < |xs| ==> xs[i] != xs[j]
  }

  /** The position of the first occurrence of `x`. */
  function FirstIndex(xs: seq<string>, x: string): (i: nat)
    requires x in xs
    ensures i < |xs| && xs[i] == x && x !in xs[..i]
  {
    if xs[0] == x then 0
    else
      var k := FirstIndex(xs[1..], x);
      assert xs[..k + 1] == [xs[0]] + xs[1..][..k];
      k + 1
  }

  /** Only one position is the first occurrence. */
  lemma FirstIndexUnique(xs: seq<string>, x: string, k: nat)
    requires k < |xs| && xs[k] == x && x !in xs[..k]
    ensures FirstIndex(xs, x) == k
  {
  }

  /** `Array.from(new Set(xs))`: each value once, at its first occurrence. */
  function UniqueInOrder(xs: seq<string>): (r: seq<string>)
    ensures forall x :: x in r <==> x in xs
    ensures NoDuplicates(r)
  {
    if xs == [] then []
    else
      var before := UniqueInOrder(xs[..|xs| - 1]);
      var x := xs[|xs| - 1];
      assert xs == xs[..|xs| - 1] + [x];
      if x in before then before else before + [x]
  }

  /** The values keep the order of their first occurrences. */
  lemma {:induction false} UniqueInOrderIsFirstOccurrenceOrder(xs: seq<string>)
    ensures forall i, j :: 0 <= i < j < |UniqueInOrder(xs)| ==>
      FirstIndex(xs, UniqueInOrder(xs)[i]) < FirstIndex(xs, UniqueInOrder(xs)[j])
  {
    if xs != [] {
      var prefix := xs[..|xs| - 1];
      var x := xs[|xs| - 1];
      var before := UniqueInOrder(prefix);
      var r := UniqueInOrder(xs);
      UniqueInOrderIsFirstOccurrenceOrder(prefix);
      assert xs[..|prefix|] == prefix;
      forall y | y in prefix ensures FirstIndex(xs, y) == FirstIndex(prefix, y) {
        var k := FirstIndex(prefix, y);
        assert xs[..k] == prefix[..k];
        FirstIndexUnique(xs, y, k);
      }
      if x !in before {
        FirstIndexUnique(xs, x, |prefix|);
        forall i, j | 0 <= i < j < |r| ensures FirstIndex(xs, r[i]) < FirstIndex(xs, r[j]) {
          if j == |before| {
            assert r[i] == before[i] && r[i] in prefix;
          } else {
            assert r[i] == before[i] && r[j] == before[j];
          }
        }
      }
    }
  }

  function PhaseOf(w: ScheduleWeek): string {
    w.phase
  }

  function PhaseColumn(weeks: seq<ScheduleWeek>): (r: seq<string>)
    ensures |r| == |weeks| && forall i :: 0 <= i < |r| ==> r[i] == weeks[i].phase
  {
    seq(|weeks|, i requires 0 <= i < |weeks| => weeks[i].phase)
  }

  /** `phases`: every week's phase, once, in the order the plan first reaches it. */
  function Phases(weeks: seq<ScheduleWeek>): (r: seq<string>)
    ensures NoDuplicates(r)
    ensures forall p :: p in r <==> exists i :: 0 <= i < |weeks| && weeks[i].phase == p
  {
    var column := PhaseColumn(weeks);
    assert forall p :: p in column <==> exists i :: 0 <= i < |weeks| && weeks[i].phase == p;
    UniqueInOrder(column)
  }

  // ---------------------------------------------------------------------------
  // Weeks by phase

  function InPhase(phase: string): ScheduleWeek -> bool {
    (w: ScheduleWeek) => w.phase == phase
  }

  /** `weeksByPhase`: for each phase, its weeks in plan order. */
  function WeeksByPhase(weeks: seq<ScheduleWeek>): (groups: map<string, seq<ScheduleWeek>>)
    ensures forall p :: p in groups <==> p in Phases(weeks)
    ensures forall p :: p in groups ==> groups[p] == Filter(weeks, InPhase(p))
  {
    map p | p in Phases(weeks) :: Filter(weeks, InPhase(p))
  }

  /** Each week is in the group of its phase and in no other. */
  lemma WeekInItsGroup(weeks: seq<ScheduleWeek>, w: ScheduleWeek, p: string)
    requires p in WeeksByPhase(weeks)
    ensures w in WeeksByPhase(weeks)[p] <==> w in weeks && w.phase == p
  {
    FilterMembership(weeks, InPhase(p), w);
  }

  /** No phase has an empty group. */
  lemma GroupNonEmpty(weeks: seq<ScheduleWeek>, p: string)
    requires p in WeeksByPhase(weeks)
    ensures WeeksByPhase(weeks)[p] != []
  {
    var i :| 0 <= i < |weeks| && weeks[i].phase == p;
    FilterMembership(weeks, InPhase(p), weeks[i]);
  }

  /** A phase's group starts with one of the plan's weeks of that phase. */
  lemma GroupStart(weeks: seq<ScheduleWeek>, p: string) returns (i: nat)
    requires p in Phases(weeks)
    ensures p in WeeksByPhase(weeks) && WeeksByPhase(weeks)[p] != []
    ensures i < |weeks| && weeks[i].phase == p && weeks[i].week == WeeksByPhase(weeks)[p][0].week
  {
    GroupNonEmpty(weeks, p);
    var group := WeeksByPhase(weeks)[p];
    WeekInItsGroup(weeks, group[0], p);
    assert group[0] in weeks;
    i :| 0 <= i < |weeks| && weeks[i] == group[0];
  }

  function WeekNumber(w: ScheduleWeek): int {
    w.week
  }

  /** A plan listed in week order lists every phase's weeks in week order, so a group starts at its earliest week. */
  lemma GroupsInWeekOrder(weeks: seq<ScheduleWeek>, p: string)
    requires SortedBy(weeks, WeekNumber)
    requires p in WeeksByPhase(weeks)
    ensures SortedBy(WeeksByPhase(weeks)[p], WeekNumber)
  {
    FilterSortedBy(weeks, InPhase(p), WeekNumber);
  }

  // ---------------------------------------------------------------------------
  // Totals

  /** `topic.estimatedHours || 0`. */
  function TopicHours(t: WeekTopic): int {
    match t.estimatedHours
    case Some(h) => h
    case None => 0
  }

  /** `topic.practiceQuestions || 0`. */
  function TopicQuestions(t: WeekTopic): int {
    match t.practiceQuestions
    case Some(q) => q
    case None => 0
  }

  /** `getTotalHours`. */
  function TotalHours(topics: seq<WeekTopic>): int {
    SumBy(topics, TopicHours)
  }

  /** `getTotalQuestions`. */
  function TotalQuestions(topics: seq<WeekTopic>): int {
    SumBy(topics, TopicQuestions)
  }

  /** A topic without an estimate adds nothing, wherever it stands. */
  lemma MissingCountsAsZero(before: seq<WeekTopic>, t: WeekTopic, after: seq<WeekTopic>)
    requires t.estimatedHours.None? && t.practiceQuestions.None?
    ensures TotalHours(before + [t] + after) == TotalHours(before + after)
    ensures TotalQuestions(before + [t] + after) == TotalQuestions(before + after)
  {
    SumByConcat(before + [t], after, TopicHours);
    SumByConcat(before, [t], TopicHours);
    SumByConcat(before, after, TopicHours);
    SumByConcat(before + [t], after, TopicQuestions);
    SumByConcat(before, [t], TopicQuestions);
    SumByConcat(before, after, TopicQuestions);
  }

  function WeekHours(w: ScheduleWeek): int {
    TotalHours(w.topics)
  }

  function WeekQuestions(w: ScheduleWeek): int {
    TotalQuestions(w.topics)
  }

  /** The topics of several weeks, one week after another. */
  function AllTopics(weeks: seq<ScheduleWeek>): seq<WeekTopic> {
    if weeks == [] then [] else weeks[0].topics + AllTopics(weeks[1..])
  }

  /** A phase card's totals, summed week by week, are the totals over all of the phase's topics. */
  lemma {:induction false} PhaseTotalsOverTopics(weeks: seq<ScheduleWeek>)
    ensures SumBy(weeks, WeekHours) == TotalHours(AllTopics(weeks))
    ensures SumBy(weeks, WeekQuestions) == TotalQuestions(AllTopics(weeks))
  {
    if weeks != [] {
      PhaseTotalsOverTopics(weeks[1..]);
      SumByConcat(weeks[0].topics, AllTopics(weeks[1..]), TopicHours);
      SumByConcat(weeks[0].topics, AllTopics(weeks[1..]), TopicQuestions);
    }
  }

  /** The total of `g` over the weeks of each phase. */
  function PhaseTotal(weeks: seq<ScheduleWeek>, g: ScheduleWeek -> int): string -> int {
    (p: string) => SumBy(Filter(weeks, InPhase(p)), g)
  }

  lemma PhaseTotalCons(w: ScheduleWeek, rest: seq<ScheduleWeek>, g: ScheduleWeek -> int, p: string)
    ensures PhaseTotal([w] + rest, g)(p) == PhaseTotal(rest, g)(p) + (if w.phase == p then g(w) else 0)
  {
    var head := if InPhase(p)(w) then [w] else [];
    FilterCons(w, rest, InPhase(p));
    SumByConcat(head, Filter(rest, InPhase(p)), g);
    if InPhase(p)(w) {
      assert head[1..] == [];
    }
  }

  /** Summed over a list of distinct phases that covers the plan, the phase totals give the plan's total. */
  lemma {:induction false} PhaseTotalsPartition(weeks: seq<ScheduleWeek>, phases: seq<string>, g: ScheduleWeek -> int)
    requires NoDuplicates(phases)
    requires forall i :: 0 <= i < |weeks| ==> weeks[i].phase in phases
    ensures SumBy(phases, PhaseTotal(weeks, g)) == SumBy(weeks, g)
  {
    if weeks == [] {
      SumByZero(phases, PhaseTotal(weeks, g));
    } else {
      var w, rest := weeks[0], weeks[1..];
      assert weeks == [w] + rest;
      assert forall i :: 0 <= i < |rest| ==> rest[i].phase in phases by {
        forall i | 0 <= i < |rest| ensures rest[i].phase in phases {
          assert rest[i] == weeks[i + 1];
        }
      }
      PhaseTotalsPartition(rest, phases, g);
      PartitionStep(w, rest, phases, g);
    }
  }

  /** Adding a week in front adds its value to exactly one phase total. */
  lemma PartitionStep(w: ScheduleWeek, rest: seq<ScheduleWeek>, phases: seq<string>, g: ScheduleWeek -> int)
    requires NoDuplicates(phases) && w.phase in phases
    ensures SumBy(phases, PhaseTotal([w] + rest, g)) == SumBy(phases, PhaseTotal(rest, g)) + g(w)
  {
    var m :| 0 <= m < |phases| && phases[m] == w.phase;
    forall i | 0 <= i < |phases|
      ensures PhaseTotal([w] + rest, g)(phases[i]) == PhaseTotal(rest, g)(phases[i]) + (if i == m then g(w) else 0)
    {
      PhaseTotalCons(w, rest, g, phases[i]);
    }
    SumByUpdate(phases, phases, PhaseTotal([w] + rest, g), PhaseTotal(rest, g), m);
  }

  /** The phase cards together account for every hour and question of the plan. */
  lemma PhaseCardsAddUp(weeks: seq<ScheduleWeek>)
    ensures SumBy(Phases(weeks), PhaseTotal(weeks, WeekHours)) == TotalHours(AllTopics(weeks))
    ensures SumBy(Phases(weeks), PhaseTotal(weeks, WeekQuestions)) == TotalQuestions(AllTopics(weeks))
  {
    PhaseTotalsPartition(weeks, Phases(weeks), WeekHours);
    PhaseTotalsPartition(weeks, Phases(weeks), WeekQuestions);
    PhaseTotalsOverTopics(weeks);
  }

  // ---------------------------------------------------------------------------
  // Starting a week

  /** The position of the first week numbered `n`. */
  function WeekIndex(weeks: seq<ScheduleWeek>, n: int): (r: Option<nat>)
    ensures r.None? <==> forall i :: 0 <= i < |weeks| ==> weeks[i].week != n
    ensures r.Some? ==> r.value < |weeks| && weeks[r.value].week == n
    ensures r.Some? ==> forall j :: 0 <= j < r.value ==> weeks[j].week != n
  {
    if weeks == [] then None
    else if weeks[0].week == n then Some(0)
    else
      match WeekIndex(weeks[1..], n)
      case None => None
      case Some(i) => Some(i + 1)
  }

  /** `strategicSchedule.find(s => s.week === n)`: the first week with that number. */
  function FindWeek(weeks: seq<ScheduleWeek>, n: int): (r: Option<ScheduleWeek>)
    ensures r.None? <==> forall i :: 0 <= i < |weeks| ==> weeks[i].week != n
    ensures r.Some? ==> exists i :: (0 <= i < |weeks| && weeks[i] == r.value && r.value.week == n
      && forall j :: 0 <= j < i ==> weeks[j].week != n)
  {
    match WeekIndex(weeks, n)
    case None => None
    case Some(i) => Some(weeks[i])
  }

  /** The ids the timer page preselects (all `null` until a week is started). */
  datatype Preselection = Preselection(volumeId: Option<string>, chapterId: Option<string>, topicId: Option<string>)

  const NoPreselection := Preselection(None, None, None)

  /** The first topic's ids, which "Iniciar Semana" preselects. */
  function FirstTopicPreselection(w: ScheduleWeek): (p: Preselection)
    requires w.topics != []
    ensures p.volumeId == Some(w.topics[0].volumeId)
    ensures p.chapterId == Some(w.topics[0].chapterId)
    ensures p.topicId == Some(w.topics[0].topicId)
  {
    Preselection(Some(w.topics[0].volumeId), Some(w.topics[0].chapterId), Some(w.topics[0].topicId))
  }

  /** What is saved of each topic for the timer page. */
  datatype TopicSummary = TopicSummary(id: string, name: string, volumeId: string, estimatedHours: Option<int>, practiceQuestions: Option<int>)

  function Summaries(topics: seq<WeekTopic>): (r: seq<TopicSummary>)
    ensures |r| == |topics|
    ensures forall i :: 0 <= i < |r| ==> r[i].id == topics[i].id && r[i].volumeId == topics[i].volumeId
  {
    seq(|topics|, i requires 0 <= i < |topics| =>
      var t := topics[i];
      TopicSummary(t.id, t.name, t.volumeId, t.estimatedHours, t.practiceQuestions))
  }

  /** `parseInt` of a stored week number: `None` where it gives `NaN`, which equals no week. */
  function ParseWeekNumber(text: string): (r: Option<int>)
    ensures r.Some? ==> r.value >= 0
  {
    if text != "" && AllDigits(text) then Some(DigitsValue(text)) else None
  }

  /** The week number `String(week)` saves reads back as that week. */
  lemma WeekNumberRoundTrip(week: nat)
    ensures ParseWeekNumber(NatToString(week)) == Some(week)
  {
    NatToStringRoundTrip(week);
  }

  /** The active week a page restores from the saved values of the browser's local storage. */
  function RestoredWeek(local: map<string, string>): Option<int> {
    if "currentWeekNumber" in local && local["currentWeekNumber"] != "" then ParseWeekNumber(local["currentWeekNumber"])
    else None
  }

  class StrategicState {
    /** The plan (`strategicSchedule`). */
    const schedule: seq<ScheduleWeek>
    var selectedWeek: int
    var selectedPhase: string
    var activeWeek: Option<int>
    /** The preselection held by the shared context. */
    var preselection: Preselection
    /** Saved values of the browser's local storage (string keys), and the saved preselection. */
    var local: map<string, string>
    var savedPreselection: Option<Preselection>
    /** Saved values of the tab's session storage, and the saved week topics. */
    var session: map<string, string>
    var sessionTopics: Option<seq<TopicSummary>>
    var location: string

    /** Opening the page: week 1 of the first phase selected, the active week read back from local storage. */
    constructor(plan: seq<ScheduleWeek>, storage: map<string, string>, shared: Preselection)
      ensures schedule == plan && selectedWeek == 1 && selectedPhase == "FASE 1: Fundamentos"
      ensures activeWeek == RestoredWeek(storage)
      ensures preselection == shared && local == storage && savedPreselection == None
      ensures session == map[] && sessionTopics == None && location == "/strategic"
    {
      schedule := plan;
      selectedWeek := 1;
      selectedPhase := "FASE 1: Fundamentos";
      activeWeek := RestoredWeek(storage);
      preselection := shared;
      local := storage;
      savedPreselection := None;
      session := map[];
      sessionTopics := None;
      location := "/strategic";
    }

    /** `isWeekActive`. */
    predicate IsWeekActive(week: int)
      reads this
    {
      activeWeek == Some(week)
    }

    /** Clicking a week badge. */
    method SelectWeek(week: int)
      modifies this
      ensures selectedWeek == week && selectedPhase == old(selectedPhase) && activeWeek == old(activeWeek)
      ensures preselection == old(preselection) && local == old(local) && savedPreselection == old(savedPreselection)
      ensures session == old(session) && sessionTopics == old(sessionTopics) && location == old(location)
    {
      selectedWeek := week;
    }

    /** Clicking a phase card: the phase and its first week are selected. */
    method SelectPhase(phase: string)
      requires phase in Phases(schedule)
      modifies this
      ensures selectedPhase == phase
      ensures WeeksByPhase(schedule)[phase] != [] && selectedWeek == WeeksByPhase(schedule)[phase][0].week
      ensures exists i :: 0 <= i < |schedule| && schedule[i].phase == phase && schedule[i].week == selectedWeek
      ensures activeWeek == old(activeWeek) && preselection == old(preselection)
      ensures local == old(local) && savedPreselection == old(savedPreselection)
      ensures session == old(session) && sessionTopics == old(sessionTopics) && location == old(location)
    {
      ghost var i := GroupStart(schedule, phase);
      var first := WeeksByPhase(schedule)[phase][0].week;
      selectedPhase := phase;
      selectedWeek := first;
      assert schedule[i].week == selectedWeek;
    }

    /**
     * `handleStartWeek`: nothing happens unless the selected week exists and
     * has topics; then its topics, number and title go to session storage, its
     * first topic becomes the preselection (saved and shared), it becomes the
     * active week, and the timer page opens.
     */
    method StartWeek() returns (started: bool)
      modifies this
      ensures var w := FindWeek(schedule, old(selectedWeek));
        started <==> w.Some? && w.value.topics != []
      ensures started ==>
        var w := FindWeek(schedule, old(selectedWeek)).value;
        && activeWeek == Some(w.week)
        && preselection == FirstTopicPreselection(w)
        && savedPreselection == Some(FirstTopicPreselection(w))
        && sessionTopics == Some(Summaries(w.topics))
        && session == old(session)["currentWeekNumber" := IntToString(w.week)]["currentWeekTitle" := w.title]
        && location == "/schedule"
      ensures !started ==> (activeWeek == old(activeWeek) && preselection == old(preselection)
        && savedPreselection == old(savedPreselection) && session == old(session)
        && sessionTopics == old(sessionTopics) && location == old(location))
      ensures local == old(local) && selectedWeek == old(selectedWeek) && selectedPhase == old(selectedPhase)
    {
      started := StartWeekCore();
    }

    /** The corrected start: the active week is also saved where the page reads it back. */
    method StartWeekRemembered() returns (started: bool)
      modifies this
      ensures var w := FindWeek(schedule, old(selectedWeek));
        started <==> w.Some? && w.value.topics != []
      ensures started ==>
        var w := FindWeek(schedule, old(selectedWeek)).value;
        && activeWeek == Some(w.week)
        && preselection == FirstTopicPreselection(w)
        && savedPreselection == Some(FirstTopicPreselection(w))
        && local == old(local)["currentWeekNumber" := IntToString(w.week)]
        && location == "/schedule"
      ensures !started ==> activeWeek == old(activeWeek) && local == old(local)
      ensures selectedWeek == old(selectedWeek) && selectedPhase == old(selectedPhase)
    {
      started := StartWeekCore();
      if started {
        local := local["currentWeekNumber" := IntToString(activeWeek.value)];
      }
    }

    method StartWeekCore() returns (started: bool)
      modifies this
      ensures var w := FindWeek(schedule, old(selectedWeek));
        started <==> w.Some? && w.value.topics != []
      ensures started ==>
        var w := FindWeek(schedule, old(selectedWeek)).value;
        && activeWeek == Some(w.week)
        && preselection == FirstTopicPreselection(w)
        && savedPreselection == Some(FirstTopicPreselection(w))
        && sessionTopics == Some(Summaries(w.topics))
        && session == old(session)["currentWeekNumber" := IntToString(w.week)]["currentWeekTitle" := w.title]
        && location == "/schedule"
      ensures !started ==> (activeWeek == old(activeWeek) && preselection == old(preselection)
        && savedPreselection == old(savedPreselection) && session == old(session)
        && sessionTopics == old(sessionTopics) && location == old(location))
      ensures local == old(local) && selectedWeek == old(selectedWeek) && selectedPhase == old(selectedPhase)
    {
      var current := FindWeek(schedule, selectedWeek);
      if current.None? || current.value.topics == [] {
        return false;
      }
      var w := current.value;
      sessionTopics := Some(Summaries(w.topics));
      session := session["currentWeekNumber" := IntToString(w.week)]["currentWeekTitle" := w.title];
      savedPreselection := Some(FirstTopicPreselection(w));
      preselection := FirstTopicPreselection(w);
      activeWeek := Some(w.week);
      location := "/schedule";
      started := true;
    }
  }

  /**
   * As written: a week is started, and the page opened again afterwards reads
   * local storage, where the week number was never saved, so no week is
   * marked active any more.
   */
  method ActiveWeekLostOnReturn(page: StrategicState) returns (again: StrategicState)
    requires "currentWeekNumber" !in page.local
    requires FindWeek(page.schedule, page.selectedWeek).Some?
    requires FindWeek(page.schedule, page.selectedWeek).value.topics != []
    modifies page
    ensures page.activeWeek == Some(old(FindWeek(page.schedule, page.selectedWeek)).value.week)
    ensures again.activeWeek == None
  {
    var started := page.StartWeek();
    again := new StrategicState(page.schedule, page.local, page.preselection);
  }

  /** Corrected: with the week number saved to local storage, the page opened again marks the same week active. */
  method ActiveWeekKeptOnReturn(page: StrategicState) returns (again: StrategicState)
    requires FindWeek(page.schedule, page.selectedWeek).Some?
    requires FindWeek(page.schedule, page.selectedWeek).value.topics != []
    requires FindWeek(page.schedule, page.selectedWeek).value.week >= 0
    modifies page
    ensures page.activeWeek == Some(old(FindWeek(page.schedule, page.selectedWeek)).value.week)
    ensures again.activeWeek == page.activeWeek
  {
    var started := page.StartWeekRemembered();
    var week := page.activeWeek.value;
    WeekNumberRoundTrip(week);
    again := new StrategicState(page.schedule, page.local, page.preselection);
  }
}
