/** The lesson store's record shapes: one lesson per key "DAY nnn". */
module Lessons {

  /** One dialogue entry: a speaker label, the English sentence and its
      Korean translation. */
  datatype DialogueLine = DialogueLine(speaker: string, en: string, ko: string)

  /** A lesson record: its title, dialogue, key patterns and practice items. */
  datatype Lesson = Lesson(
    title: string,
    dialogue: seq<DialogueLine>,
    patterns: seq<string>,
    practice: seq<string>)

  /** The record stored for a lesson whose section could not be found. */
  const EmptyLesson: Lesson := Lesson("", [], [], [])
}
