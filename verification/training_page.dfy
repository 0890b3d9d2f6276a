/** The training page's screen state machine over `(module, cur, finished)`:
    module selection, the start screen, the lesson screen and the
    "finished" screen with its way back.
 */
module TrainingPage {
  import opened JsValues
  import opened LessonTypes
  import opened Lessons

  datatype NavState = NavState(selected: Option<Module>, cur: int, finished: bool)

  /** `useState(-1)`, `useState(false)`, no module chosen. */
  const Initial: NavState := NavState(None, -1, false)

  datatype Screen =
    | Selection            // one button per module
    | FinishedScreen       // "You Finished the ..." and the way back
    | StartScreen          // the module's name and Start
    | LessonScreen(lesson: Lesson)
    | Crashed              // `module.lessons[cur]` is undefined: rendering it fails

  /** The screen a state shows: no module first, then `finished`, then
      `cur == -1`, then `module.lessons[cur]` with no bounds check. */
  function ScreenOf(s: NavState): (sc: Screen)
    ensures s.selected.None? <==> sc.Selection?
    ensures sc.FinishedScreen? <==> s.selected.Some? && s.finished
    ensures sc.StartScreen? <==> s.selected.Some? && !s.finished && s.cur == -1
    ensures s.selected.Some? && !s.finished && s.cur != -1 ==>
      if 0 <= s.cur < |s.selected.value.lessons|
      then sc == LessonScreen(s.selected.value.lessons[s.cur])
      else sc.Crashed?
  {
    match s.selected
    case None => Selection
    case Some(m) =>
      if s.finished then FinishedScreen
      else if s.cur == -1 then StartScreen
      else if 0 <= s.cur < |m.lessons| then LessonScreen(m.lessons[s.cur])
      else Crashed
  }

  datatype NavEvent =
    | SelectModule(id: string)
    | Start
    | GoBack
    | OnLesson(e: LessonEvent)

  /** The state an event leads to, or None when the screen shown offers no
      handler for it. */
  function Next(modules: Modules, s: NavState, e: NavEvent): Option<NavState> {
    match (ScreenOf(s), e)
    case (Selection, SelectModule(id)) =>
      if id in modules then Some(s.(selected := Some(modules[id]))) else None
    case (StartScreen, Start) => Some(s.(cur := 0))
    case (FinishedScreen, GoBack) => Some(Initial)
    case (LessonScreen(l), OnLesson(le)) =>
      (match Handle(l, Position(s.cur, s.finished), le)
       case Some(p) => Some(s.(cur := p.cur, finished := p.finished))
       case None => None)
    case _ => None
  }

  /** The basic transitions: selecting sets the module and nothing else,
      Start moves from -1 to 0, going back restores exactly the initial
      state, and `finished` shadows the lesson view whatever `cur` is. */
  lemma ScreenTransitions(modules: Modules, s: NavState, id: string)
    ensures ScreenOf(Initial) == Selection
    ensures s.selected.None? && id in modules ==>
      Next(modules, s, SelectModule(id)) == Some(NavState(Some(modules[id]), s.cur, s.finished))
    ensures s.selected.Some? && s.finished ==>
      ScreenOf(s) == FinishedScreen && Next(modules, s, GoBack) == Some(Initial)
    ensures s.selected.Some? && !s.finished && s.cur == -1 ==>
      Next(modules, s, Start) == Some(s.(cur := 0))
    ensures s.selected.Some? ==> Next(modules, s, SelectModule(id)).None?
  {
  }

  /** A module whose every lesson can be shown and whose every transition
      lands on a lesson of the module. */
  predicate WellFormedModule(m: Module) {
    && |m.lessons| > 0
    && forall i :: 0 <= i < |m.lessons| ==> WellFormedAt(m.lessons, i)
  }

  predicate WellFormedAt(lessons: seq<Lesson>, i: int)
    requires 0 <= i < |lessons|
  {
    match ViewOf(lessons[i])
    case ChoiceForm(c0, c1) =>
      0 <= i + c0.next < |lessons| && 0 <= i + c1.next < |lessons|
    case Narration(ends) => ends || i + 1 < |lessons|
    case Blank => true
    case RenderError => false
  }

  predicate AllWellFormed(modules: Modules) {
    forall id :: id in modules ==> WellFormedModule(modules[id])
  }

  /** The page's invariant: no module means the initial `cur` and flag; a
      module means a well-formed one and `-1 <= cur < |lessons|`. */
  predicate Valid(s: NavState) {
    match s.selected
    case None => s.cur == -1 && !s.finished
    case Some(m) => WellFormedModule(m) && -1 <= s.cur < |m.lessons|
  }

  /** A valid state never shows an out-of-range lesson or one that cannot
      be rendered. */
  lemma ValidNeverCrashes(s: NavState)
    requires Valid(s)
    ensures !ScreenOf(s).Crashed?
    ensures ScreenOf(s).LessonScreen? ==> !ViewOf(ScreenOf(s).lesson).RenderError?
  {
    if ScreenOf(s).LessonScreen? {
      assert WellFormedAt(s.selected.value.lessons, s.cur);
    }
  }

  /** Every transition from a valid state over well-formed modules leads to
      a valid state: `cur` stays within the module's lessons. */
  lemma NextPreservesValid(modules: Modules, s: NavState, e: NavEvent)
    requires AllWellFormed(modules) && Valid(s)
    requires Next(modules, s, e).Some?
    ensures Valid(Next(modules, s, e).value)
  {
    if ScreenOf(s).LessonScreen? {
      assert WellFormedAt(s.selected.value.lessons, s.cur);
    }
  }

  /** The state after a sequence of events; an event the screen ignores
      changes nothing. */
  function RunEvents(modules: Modules, s: NavState, events: seq<NavEvent>): NavState
    decreases |events|
  {
    if |events| == 0 then s
    else
      var s' := match Next(modules, s, events[0]) case Some(n) => n case None => s;
      RunEvents(modules, s', events[1..])
  }

  /** From the initial state, no sequence of clicks, answers, selections
      and returns ever reaches an out-of-range lesson. */
  lemma {:induction false} ReachableNeverCrashes(modules: Modules, s: NavState, events: seq<NavEvent>)
    requires AllWellFormed(modules) && Valid(s)
    ensures Valid(RunEvents(modules, s, events))
    ensures !ScreenOf(RunEvents(modules, s, events)).Crashed?
    decreases |events|
  {
    if |events| > 0 {
      if Next(modules, s, events[0]).Some? {
        NextPreservesValid(modules, s, events[0]);
      }
      var s' := match Next(modules, s, events[0]) case Some(n) => n case None => s;
      ReachableNeverCrashes(modules, s', events[1..]);
    } else {
      ValidNeverCrashes(s);
    }
  }
}
