/**
 * The study guide (the `Guide` page): the curriculum volume by volume, one
 * expanded at a time, with a completion record per finished topic and the
 * progress percentages those records give.
 */
module GuidePage {
  import opened Wrappers
  import opened Text
  import opened Collections
  import opened Rounding
  import opened Curriculum

  datatype CompletedTopic = CompletedTopic(
    id: string, volumeId: string, topicId: string, topicName: string, completionDate: int)

  /** The (volume, topic) pair a record stands for. */
  function Key(r: CompletedTopic): (string, string) {
    (r.volumeId, r.topicId)
  }

  /** The invariant toggling keeps: at most one record per (volume, topic). */
  predicate AtMostOnce(records: seq<CompletedTopic>) {
    DistinctImages(records, Key)
  }

  /** `isTopicCompleted(volumeId, topicId)`: some record names both ids. */
  function IsTopicCompleted(records: seq<CompletedTopic>, volumeId: string, topicId: string): (r: bool)
    ensures r <==> exists i :: 0 <= i < |records| && records[i].volumeId == volumeId && records[i].topicId == topicId
  {
    if records == [] then false
    else if records[0].volumeId == volumeId && records[0].topicId == topicId then true
    else
      var r := IsTopicCompleted(records[1..], volumeId, topicId);
      assert r ==> exists i :: 0 <= i < |records| && records[i].volumeId == volumeId && records[i].topicId == topicId by {
        if r {
          var i :| 0 <= i < |records[1..]| && records[1..][i].volumeId == volumeId && records[1..][i].topicId == topicId;
          assert records[i + 1] == records[1..][i];
        }
      }
      r
  }

  /**
   * `toggleTopicComplete`: a completed topic loses every record naming it; an
   * open one gains one record stamped with the time of the click.
   */
  function ToggledTopics(records: seq<CompletedTopic>, volumeId: string, topicId: string, topicName: string, now: int)
    : seq<CompletedTopic>
  {
    if IsTopicCompleted(records, volumeId, topicId) then
      Filter(records, (r: CompletedTopic) => !(r.volumeId == volumeId && r.topicId == topicId))
    else
      records + [CompletedTopic("topic-" + volumeId + "-" + topicId + "-" + IntToString(now), volumeId, topicId, topicName, now)]
  }

  /**
   * Toggling flips the completion of exactly the given topic: every other
   * topic reads as before and every record of another topic stays; an open
   * topic gains exactly one record, appended at the end.
   */
  lemma ToggleFlips(records: seq<CompletedTopic>, volumeId: string, topicId: string, topicName: string, now: int)
    ensures IsTopicCompleted(ToggledTopics(records, volumeId, topicId, topicName, now), volumeId, topicId)
         == !IsTopicCompleted(records, volumeId, topicId)
    ensures forall v, t :: (v, t) != (volumeId, topicId) ==>
      IsTopicCompleted(ToggledTopics(records, volumeId, topicId, topicName, now), v, t) == IsTopicCompleted(records, v, t)
    ensures forall r :: Key(r) != (volumeId, topicId) ==>
      (r in ToggledTopics(records, volumeId, topicId, topicName, now) <==> r in records)
    ensures !IsTopicCompleted(records, volumeId, topicId) ==>
      var next := ToggledTopics(records, volumeId, topicId, topicName, now);
      && |next| == |records| + 1 && next[..|records|] == records
      && next[|records|].volumeId == volumeId && next[|records|].topicId == topicId
  {
    var p := (r: CompletedTopic) => !(r.volumeId == volumeId && r.topicId == topicId);
    var next := ToggledTopics(records, volumeId, topicId, topicName, now);
    if IsTopicCompleted(records, volumeId, topicId) {
      FilterMembers(records, p);
      assert forall i :: 0 <= i < |next| ==> p(next[i]);
      forall v, t | (v, t) != (volumeId, topicId)
        ensures IsTopicCompleted(next, v, t) == IsTopicCompleted(records, v, t)
      {
        if IsTopicCompleted(records, v, t) {
          var i :| 0 <= i < |records| && records[i].volumeId == v && records[i].topicId == t;
          assert records[i] in next;
          var j :| 0 <= j < |next| && next[j] == records[i];
        }
        if IsTopicCompleted(next, v, t) {
          var i :| 0 <= i < |next| && next[i].volumeId == v && next[i].topicId == t;
          assert next[i] in records;
          var j :| 0 <= j < |records| && records[j] == next[i];
        }
      }
    } else {
      assert next[|records|].volumeId == volumeId && next[|records|].topicId == topicId;
      forall v, t | (v, t) != (volumeId, topicId)
        ensures IsTopicCompleted(next, v, t) == IsTopicCompleted(records, v, t)
      {
        if IsTopicCompleted(records, v, t) {
          var i :| 0 <= i < |records| && records[i].volumeId == v && records[i].topicId == t;
          assert next[i] == records[i];
        }
      }
    }
  }

  /** Toggling keeps at most one record per topic. */
  lemma ToggleKeepsAtMostOnce(records: seq<CompletedTopic>, volumeId: string, topicId: string, topicName: string, now: int)
    requires AtMostOnce(records)
    ensures AtMostOnce(ToggledTopics(records, volumeId, topicId, topicName, now))
  {
    var next := ToggledTopics(records, volumeId, topicId, topicName, now);
    if IsTopicCompleted(records, volumeId, topicId) {
      FilterDistinct(records, (r: CompletedTopic) => !(r.volumeId == volumeId && r.topicId == topicId), Key);
    } else {
      forall i, j | 0 <= i < j < |next| ensures Key(next[i]) != Key(next[j]) {
        if j == |records| {
          assert next[i] == records[i];
        } else {
          assert next[i] == records[i] && next[j] == records[j];
        }
      }
    }
  }

  /** Marking an open topic done and then undoing it gives back the very same records. */
  lemma ToggleTwiceRestores(records: seq<CompletedTopic>, volumeId: string, topicId: string, topicName: string, now1: int, now2: int)
    requires !IsTopicCompleted(records, volumeId, topicId)
    ensures ToggledTopics(ToggledTopics(records, volumeId, topicId, topicName, now1), volumeId, topicId, topicName, now2) == records
  {
    var p := (r: CompletedTopic) => !(r.volumeId == volumeId && r.topicId == topicId);
    var added := ToggledTopics(records, volumeId, topicId, topicName, now1);
    ToggleFlips(records, volumeId, topicId, topicName, now1);
    var newRecord := [added[|records|]];
    assert added == records + newRecord;
    FilterConcat(records, newRecord, p);
    FilterAll(records, p);
    FilterNone(newRecord, p);
  }

  /** Toggling a topic twice leaves every topic's completion as it was. */
  lemma ToggleTwiceCompletion(records: seq<CompletedTopic>, volumeId: string, topicId: string, topicName: string,
                              now1: int, now2: int, v: string, t: string)
    ensures IsTopicCompleted(ToggledTopics(ToggledTopics(records, volumeId, topicId, topicName, now1), volumeId, topicId, topicName, now2), v, t)
         == IsTopicCompleted(records, v, t)
  {
    var once := ToggledTopics(records, volumeId, topicId, topicName, now1);
    ToggleFlips(records, volumeId, topicId, topicName, now1);
    ToggleFlips(once, volumeId, topicId, topicName, now2);
  }

  // ---------------------------------------------------------------------------
  // Progress

  function ChapterSize(c: Chapter): int { |c.topics| }

  /** `volume.chapters.reduce((sum, ch) => sum + ch.topics.length, 0)`. */
  function TopicCount(v: StudyVolume): int { SumBy(v.chapters, ChapterSize) }

  /** The sum of `TopicCount` over the curriculum. */
  function TotalTopics(volumes: seq<StudyVolume>): int { SumBy(volumes, TopicCount) }

  /** `fmeVolumes.find((v) => v.id === volumeId)` over the chaptered curriculum. */
  function FindVolume(volumes: seq<StudyVolume>, id: string): (r: Option<StudyVolume>)
    ensures r.None? <==> forall i :: 0 <= i < |volumes| ==> volumes[i].id != id
    ensures r.Some? ==> r.value in volumes && r.value.id == id
    ensures r.Some? ==> exists i :: (0 <= i < |volumes| && volumes[i] == r.value
      && forall j :: 0 <= j < i ==> volumes[j].id != id)
  {
    if volumes == [] then None
    else if volumes[0].id == id then Some(volumes[0])
    else FindVolume(volumes[1..], id)
  }

  /** The filter `(t) => t.volumeId === volumeId`. */
  function OfVolume(volumeId: string): CompletedTopic -> bool {
    (r: CompletedTopic) => r.volumeId == volumeId
  }

  /** `calculateVolumeProgress(volumeId)`. */
  function CalculateVolumeProgress(volumes: seq<StudyVolume>, records: seq<CompletedTopic>, volumeId: string): (r: int)
    ensures FindVolume(volumes, volumeId).None? ==> r == 0
    ensures FindVolume(volumes, volumeId).Some? && TopicCount(FindVolume(volumes, volumeId).value) == 0 ==> r == 0
    ensures FindVolume(volumes, volumeId).Some? && TopicCount(FindVolume(volumes, volumeId).value) > 0 ==>
      var n := TopicCount(FindVolume(volumes, volumeId).value);
      2 * r * n <= 200 * |Filter(records, OfVolume(volumeId))| + n < 2 * (r + 1) * n
    ensures r >= 0
  {
    match FindVolume(volumes, volumeId)
    case None => 0
    case Some(v) =>
      var total := TopicCount(v);
      if total == 0 then 0
      else Percentage(|Filter(records, OfVolume(volumeId))|, total)
  }

  /** `calculateOverallProgress()`. */
  function CalculateOverallProgress(volumes: seq<StudyVolume>, records: seq<CompletedTopic>): (r: int)
    ensures TotalTopics(volumes) == 0 ==> r == 0
    ensures TotalTopics(volumes) > 0 ==>
      2 * r * TotalTopics(volumes) <= 200 * |records| + TotalTopics(volumes) < 2 * (r + 1) * TotalTopics(volumes)
    ensures r >= 0
  {
    var total := TotalTopics(volumes);
    if total == 0 then 0 else Percentage(|records|, total)
  }

  /** The (volume, topic) pairs of the curriculum's chapters. */
  function ChapterPairs(volumeId: string, chapters: seq<Chapter>): set<(string, string)> {
    if chapters == [] then {}
    else ImageSet(chapters[0].topics, (t: StudyTopic) => (volumeId, t.id)) + ChapterPairs(volumeId, chapters[1..])
  }

  function VolumePairs(v: StudyVolume): set<(string, string)> { ChapterPairs(v.id, v.chapters) }

  function AllPairs(volumes: seq<StudyVolume>): set<(string, string)> {
    if volumes == [] then {} else VolumePairs(volumes[0]) + AllPairs(volumes[1..])
  }

  /** A record names a topic of the curriculum. */
  predicate NamesCurriculumTopic(volumes: seq<StudyVolume>, r: CompletedTopic) {
    Key(r) in AllPairs(volumes)
  }

  lemma {:induction false} ChapterPairsCard(volumeId: string, chapters: seq<Chapter>)
    ensures |ChapterPairs(volumeId, chapters)| <= SumBy(chapters, ChapterSize)
    ensures forall p :: p in ChapterPairs(volumeId, chapters) ==> p.0 == volumeId
  {
    if chapters != [] {
      ChapterPairsCard(volumeId, chapters[1..]);
      ImageSetCard(chapters[0].topics, (t: StudyTopic) => (volumeId, t.id));
    }
  }

  lemma {:induction false} AllPairsCard(volumes: seq<StudyVolume>)
    ensures |AllPairs(volumes)| <= TotalTopics(volumes)
  {
    if volumes != [] {
      AllPairsCard(volumes[1..]);
      ChapterPairsCard(volumes[0].id, volumes[0].chapters);
    }
  }

  /** A pair of the curriculum belongs to some volume with its id. */
  lemma {:induction false} AllPairsOwner(volumes: seq<StudyVolume>, p: (string, string))
    requires p in AllPairs(volumes)
    ensures exists i :: 0 <= i < |volumes| && volumes[i].id == p.0 && p in VolumePairs(volumes[i])
  {
    if p in VolumePairs(volumes[0]) {
      ChapterPairsCard(volumes[0].id, volumes[0].chapters);
    } else {
      AllPairsOwner(volumes[1..], p);
      var i :| 0 <= i < |volumes[1..]| && volumes[1..][i].id == p.0 && p in VolumePairs(volumes[1..][i]);
      assert volumes[i + 1] == volumes[1..][i];
    }
  }

  /**
   * With at most one record per topic and every record naming a topic of the
   * curriculum, the overall progress is a percentage: never above 100.
   */
  lemma OverallProgressBounded(volumes: seq<StudyVolume>, records: seq<CompletedTopic>)
    requires AtMostOnce(records)
    requires forall i :: 0 <= i < |records| ==> NamesCurriculumTopic(volumes, records[i])
    ensures 0 <= CalculateOverallProgress(volumes, records) <= 100
  {
    DistinctInto(records, Key, AllPairs(volumes));
    AllPairsCard(volumes);
  }

  /**
   * Under the same conditions, and with distinct volume ids, a volume's
   * progress never exceeds 100 either.
   */
  lemma VolumeProgressBounded(volumes: seq<StudyVolume>, records: seq<CompletedTopic>, volumeId: string)
    requires AtMostOnce(records)
    requires forall i :: 0 <= i < |records| ==> NamesCurriculumTopic(volumes, records[i])
    requires forall i, j :: 0 <= i < j < |volumes| ==> volumes[i].id != volumes[j].id
    ensures 0 <= CalculateVolumeProgress(volumes, records, volumeId) <= 100
  {
    var found := FindVolume(volumes, volumeId);
    if found.Some? {
      var v := found.value;
      var p := OfVolume(volumeId);
      var mine := Filter(records, p);
      FilterMembers(records, p);
      FilterDistinct(records, p, Key);
      forall i | 0 <= i < |mine| ensures Key(mine[i]) in VolumePairs(v) {
        assert mine[i] in records;
        var k :| 0 <= k < |records| && records[k] == mine[i];
        AllPairsOwner(volumes, Key(mine[i]));
        var j :| 0 <= j < |volumes| && volumes[j].id == volumeId && Key(mine[i]) in VolumePairs(volumes[j]);
        var m :| 0 <= m < |volumes| && volumes[m] == v;
      }
      DistinctInto(mine, Key, VolumePairs(v));
      ChapterPairsCard(v.id, v.chapters);
    }
  }

  // ---------------------------------------------------------------------------
  // The page state

  class GuideState {
    var expandedVolume: Option<string>
    var completedTopics: seq<CompletedTopic>

    /** The saved records, or none; no volume expanded. */
    constructor(saved: Option<seq<CompletedTopic>>)
      ensures completedTopics == (if saved.Some? then saved.value else [])
      ensures expandedVolume == None
    {
      completedTopics := if saved.Some? then saved.value else [];
      expandedVolume := None;
    }

    /** `toggleVolume`: expanding a volume collapses any other; clicking the expanded one collapses it. */
    method ToggleVolume(volumeId: string)
      modifies this
      ensures expandedVolume == if old(expandedVolume) == Some(volumeId) then None else Some(volumeId)
      ensures completedTopics == old(completedTopics)
    {
      expandedVolume := if expandedVolume == Some(volumeId) then None else Some(volumeId);
    }

    /** `toggleTopicComplete`. */
    method ToggleTopicComplete(volumeId: string, topicId: string, topicName: string, now: int)
      modifies this
      ensures completedTopics == ToggledTopics(old(completedTopics), volumeId, topicId, topicName, now)
      ensures IsTopicCompleted(completedTopics, volumeId, topicId) == !old(IsTopicCompleted(completedTopics, volumeId, topicId))
      ensures old(AtMostOnce(completedTopics)) ==> AtMostOnce(completedTopics)
      ensures expandedVolume == old(expandedVolume)
    {
      ToggleFlips(completedTopics, volumeId, topicId, topicName, now);
      if AtMostOnce(completedTopics) {
        ToggleKeepsAtMostOnce(completedTopics, volumeId, topicId, topicName, now);
      }
      completedTopics := ToggledTopics(completedTopics, volumeId, topicId, topicName, now);
    }
  }
}
