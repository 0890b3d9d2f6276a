/** One lesson on screen: what it renders, chosen by speaker, and how a
    click or an answer moves the position `(cur, finished)`.
 */
module Lessons {
  import opened JsValues
  import opened LessonTypes

  /** The speakers shown as a clickable narration. */
  const Narrators: set<string> := {"bacche", "teacher", "girl", "boy"}

  /** What a lesson renders. */
  datatype View =
    | ChoiceForm(first: Choice, second: Choice) // speaker "user": two radio buttons and Submit
    | Narration(ends: bool)                     // a narrator: click to go on
    | Blank                                     // any other speaker: nothing, no handler
    | RenderError                               // speaker "user" without two choices to show

  /** Rendering reads `choices[0].message` and `choices[1].message` for
      speaker `"user"`, so fewer than two choices, or none at all, fail. */
  function ViewOf(l: Lesson): (v: View)
    ensures v.ChoiceForm? <==> l.UserLesson? && |l.choices| >= 2
    ensures v.ChoiceForm? ==> v.first == l.choices[0] && v.second == l.choices[1]
    ensures v.Narration? <==> l.Speaker() in Narrators
    ensures v.Narration? ==> v.ends == l.Ends()
    ensures v.Blank? <==> l.Speaker() != "user" && l.Speaker() !in Narrators
  {
    if l.Speaker() == "user" then
      if l.UserLesson? && |l.choices| >= 2 then ChoiceForm(l.choices[0], l.choices[1])
      else RenderError
    else if l.Speaker() in Narrators then Narration(l.Ends())
    else Blank
  }

  /** Where the dialogue stands: the lesson index and the end flag. */
  datatype Position = Position(cur: int, finished: bool)

  datatype LessonEvent =
    | Click                       // a click on a narration
    | Submit(answer: Option<string>) // the form's `ans` field; None when nothing is selected

  /** `handleClick`: finish on an ending lesson, otherwise go to the next. */
  function OnClick(ends: bool, p: Position): Position {
    if !ends then p.(cur := p.cur + 1) else p.(finished := true)
  }

  /** `handleSubmit`: both comparisons use the `cur` of before the submit,
      and the second `setCur` replaces the first. */
  function OnSubmit(first: Choice, second: Choice, answer: Option<string>, p: Position): Position {
    var afterFirst := if answer == Some(first.message) then p.(cur := p.cur + first.next) else p;
    if answer == Some(second.message) then afterFirst.(cur := p.cur + second.next) else afterFirst
  }

  /** The transition an event causes on a lesson, if that lesson offers a
      handler for it. */
  function Handle(l: Lesson, p: Position, e: LessonEvent): Option<Position> {
    match (ViewOf(l), e)
    case (Narration(ends), Click) => Some(OnClick(ends, p))
    case (ChoiceForm(c0, c1), Submit(answer)) => Some(OnSubmit(c0, c1, answer, p))
    case _ => None
  }

  /** Clicking a narration: without `end` the index moves on by one and
      `finished` is kept; with `end` the dialogue finishes where it is. */
  lemma ClickSpec(l: Lesson, p: Position)
    requires l.Speaker() in Narrators
    ensures !l.Ends() ==> Handle(l, p, Click) == Some(Position(p.cur + 1, p.finished))
    ensures l.Ends() ==> Handle(l, p, Click) == Some(Position(p.cur, true))
    ensures forall a :: Handle(l, p, Submit(a)).None?
  {
  }

  /** Submitting: the chosen answer's `next` is added to `cur` (an offset);
      if both answers read the same, the second one's `next` applies; an
      answer matching neither, or none, changes nothing; submitting never
      sets `finished`. */
  lemma SubmitSpec(l: Lesson, p: Position, a: Option<string>)
    requires l.UserLesson? && |l.choices| >= 2
    ensures Handle(l, p, Submit(a)).Some?
    ensures var q := Handle(l, p, Submit(a)).value;
            && q.finished == p.finished
            && (a == Some(l.choices[1].message) ==> q.cur == p.cur + l.choices[1].next)
            && (a == Some(l.choices[0].message) && a != Some(l.choices[1].message) ==>
                  q.cur == p.cur + l.choices[0].next)
            && (a != Some(l.choices[0].message) && a != Some(l.choices[1].message) ==> q == p)
    ensures a.None? ==> Handle(l, p, Submit(a)) == Some(p)
    ensures Handle(l, p, Click).None?
  {
  }

  /** Only speakers `user`, `bacche`, `teacher`, `girl` and `boy` have a
      handler; any other lesson renders nothing and cannot advance, and a
      user lesson with fewer than two choices cannot even be shown. */
  lemma NoHandlerWithoutView(l: Lesson, p: Position, e: LessonEvent)
    requires l.Speaker() !in Narrators && !(l.UserLesson? && |l.choices| >= 2)
    ensures Handle(l, p, e).None?
  {
  }
}
