/** The dialogue content: choices, the two kinds of lesson, modules.

    A lesson is a disjoint union decided by whether `choices` is present: a
    user lesson has choices, speaker `"user"` and no `end`; a standard
    lesson has any speaker, no choices and an optional `end` flag.
 */
module LessonTypes {
  import opened JsValues

  /** One answer of a user lesson. `next` is added to the current lesson
      index when the answer is chosen: an offset, not an absolute index. */
  datatype Choice = Choice(message: string, next: int)

  datatype Lesson =
    | StandardLesson(speaker: string, message: string, end: Option<bool>)
    | UserLesson(message: string, choices: seq<Choice>)
  {
    /** A user lesson's speaker is always `"user"`. */
    function Speaker(): string {
      match this
      case StandardLesson(speaker, _, _) => speaker
      case UserLesson(_, _) => "user"
    }

    /** `question.end` is truthy. */
    predicate Ends() {
      StandardLesson? && end == Some(true)
    }
  }

  datatype Module = Module(name: string, description: string, lessons: seq<Lesson>)

  /** Module ids to modules. */
  type Modules = map<string, Module>

  /** A lesson as an untyped record: every field the two shapes may carry. */
  datatype LessonRecord = LessonRecord(
    speaker: string, message: string, choices: Option<seq<Choice>>, end: Option<bool>)

  /** The record a lesson is stored as. */
  function ToRecord(l: Lesson): (r: LessonRecord)
    ensures r.speaker == l.Speaker() && r.message == l.message
    ensures r.choices.Some? <==> l.UserLesson?
    ensures r.end.Some? ==> l.StandardLesson?
  {
    match l
    case StandardLesson(speaker, message, end) => LessonRecord(speaker, message, None, end)
    case UserLesson(message, choices) => LessonRecord("user", message, Some(choices), None)
  }

  /** Which lesson a record is, if it is one: with `choices` it must be a
      user lesson (speaker `"user"`, no `end`); without, a standard one. */
  function FromRecord(r: LessonRecord): Option<Lesson> {
    match r.choices
    case Some(cs) =>
      if r.speaker == "user" && r.end.None? then Some(UserLesson(r.message, cs)) else None
    case None => Some(StandardLesson(r.speaker, r.message, r.end))
  }

  /** Every lesson is stored as a record that reads back as itself, and a
      record that reads as a lesson is exactly that lesson's record: the
      union is disjoint and decided by the presence of `choices`. */
  lemma RecordRoundTrip(l: Lesson, r: LessonRecord)
    ensures FromRecord(ToRecord(l)) == Some(l)
    ensures FromRecord(r) == Some(l) ==> ToRecord(l) == r
  {
  }

  /** A record with choices but a speaker other than `"user"`, or with
      both choices and `end`, is not a lesson. */
  lemma MalformedRecords(speaker: string, message: string, cs: seq<Choice>, end: Option<bool>)
    requires speaker != "user" || end.Some?
    ensures FromRecord(LessonRecord(speaker, message, Some(cs), end)).None?
  {
  }
}
