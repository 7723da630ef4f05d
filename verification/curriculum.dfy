/**
 * The shape of a curriculum: volumes with a study priority, and the chaptered
 * form in which the planner and the guide read one.
 */
module Curriculum {
  import opened Wrappers

  datatype Priority = Essential | Important | Complementary

  /** A topic with its estimated duration; `durationMinutes` may be absent. */
  datatype StudyTopic = StudyTopic(id: string, name: string, durationMinutes: Option<int>)

  datatype Chapter = Chapter(id: string, name: string, topics: seq<StudyTopic>)

  datatype StudyVolume = StudyVolume(id: string, number: int, title: string, priority: Priority, chapters: seq<Chapter>)
}
