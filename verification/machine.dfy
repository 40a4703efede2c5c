/** The pet driven by a stream of events: every Qt callback (timer ticks,
    mouse events, the Return key, the worker's `finished` signal, a
    one-shot clear timer firing, the tray menu actions) is an `Event`, and
    all of them run one at a time on the GUI thread. */
module PetMachine {
  import opened Maybe
  import opened Motion
  import Chat
  import opened Pet

  datatype Event =
    | AnimationTimer(textHeight: int)
    | WanderTimer(coin: bool, pick: Point, screen: Size)
    | MousePress(button: Button, at: Point)
    | MouseMove(at: Point)
    | MouseRelease(button: Button, at: Point)
    | Typed(text: string)
    | ReturnPressed
    | WorkerFinished(outcome: Chat.Outcome)
    | ClearTimerFired
    | RenameChosen(ok: bool, name: string)
    | ConfigDialogClosed(accepted: bool, url: string, key: string, model: string, prompt: string)
    | ClearHistoryChosen

  /** The callback an event runs. Mouse events, typing and the clear timer
      only change the window's own state; a wander tick can at most end the
      process. */
  function Dispatch(s: PetState, e: Event): (r: Step)
    ensures e.MousePress? || e.MouseMove? || e.MouseRelease? || e.Typed? || e.ClearTimerFired? ==> r.effects == []
    ensures e.WanderTimer? ==> r.effects == [] || r.effects == [Crash]
  {
    match e
    case AnimationTimer(h) => AnimationTick(s, h)
    case WanderTimer(coin, pick, screen) => WanderTick(s, coin, pick, screen)
    case MousePress(b, at) => Step(Press(s, b, at), [])
    case MouseMove(at) => Step(DragMove(s, at), [])
    case MouseRelease(b, at) => Step(Release(s, b, at), [])
    case Typed(text) => Step(EditInput(s, text), [])
    case ReturnPressed => SendMessage(s)
    case WorkerFinished(outcome) => OnAiFinished(s, Chat.ReplyText(outcome))
    case ClearTimerFired => Step(ClearBubble(s), [])
    case RenameChosen(ok, name) => RenamePet(s, ok, name)
    case ConfigDialogClosed(accepted, url, key, model, prompt) =>
      ApplyConfigDialog(s, accepted, url, key, model, prompt)
    case ClearHistoryChosen => ClearHistory(s)
  }

  /** Events handled one after another by `handle`, the effects they set
      going kept in order. */
  function Fold(handle: (PetState, Event) -> Step, s: PetState, events: seq<Event>): Step
    decreases |events|
  {
    if events == [] then Step(s, [])
    else
      var first := handle(s, events[0]);
      var rest := Fold(handle, first.state, events[1..]);
      Step(rest.state, first.effects + rest.effects)
  }

  /** The pet's callbacks run on a stream of events. */
  function Run(s: PetState, events: seq<Event>): Step {
    Fold(Dispatch, s, events)
  }

  /** Handling a non-empty list is handling its first event, then the rest. */
  lemma {:induction false} FoldCons(handle: (PetState, Event) -> Step, s: PetState, e: Event, rest: seq<Event>)
    ensures var first := handle(s, e);
            Fold(handle, s, [e] + rest) ==
              Step(Fold(handle, first.state, rest).state, first.effects + Fold(handle, first.state, rest).effects)
  {
    assert ([e] + rest)[1..] == rest;
  }

  /** Handling two lists one after the other is handling their concatenation. */
  lemma {:induction false} FoldAppend(handle: (PetState, Event) -> Step, s: PetState, a: seq<Event>, b: seq<Event>)
    ensures Fold(handle, s, a + b).state == Fold(handle, Fold(handle, s, a).state, b).state
    ensures Fold(handle, s, a + b).effects ==
              Fold(handle, s, a).effects + Fold(handle, Fold(handle, s, a).state, b).effects
    decreases |a|
  {
    if a == [] {
      assert a + b == b;
    } else {
      assert (a + b)[0] == a[0];
      assert (a + b)[1..] == a[1..] + b;
      FoldAppend(handle, handle(s, a[0]).state, a[1..], b);
    }
  }

  /** The event loop runs the first event's callback to completion, then
      the rest from the state it left. */
  lemma RunCons(s: PetState, e: Event, rest: seq<Event>)
    ensures var first := Dispatch(s, e);
            Run(s, [e] + rest) == Step(Run(first.state, rest).state, first.effects + Run(first.state, rest).effects)
  {
    FoldCons(Dispatch, s, e, rest);
  }

  /** How many chat requests a list of effects starts. */
  function WorkersStarted(effects: seq<Effect>): nat {
    if effects == [] then 0
    else (if effects[0].StartWorker? then 1 else 0) + WorkersStarted(effects[1..])
  }

  /** How many clear timers a list of effects arms. */
  function TimersArmed(effects: seq<Effect>): nat {
    if effects == [] then 0
    else (if effects[0].ArmClearTimer? then 1 else 0) + TimersArmed(effects[1..])
  }

  /** How many worker results a list of events delivers. */
  function Replies(events: seq<Event>): nat {
    if events == [] then 0
    else (if events[0].WorkerFinished? then 1 else 0) + Replies(events[1..])
  }

  lemma {:induction false} WorkersStartedAppend(a: seq<Effect>, b: seq<Effect>)
    ensures WorkersStarted(a + b) == WorkersStarted(a) + WorkersStarted(b)
  {
    if a == [] {
      assert a + b == b;
    } else {
      assert (a + b)[1..] == a[1..] + b;
      WorkersStartedAppend(a[1..], b);
    }
  }

  lemma {:induction false} TimersArmedAppend(a: seq<Effect>, b: seq<Effect>)
    ensures TimersArmed(a + b) == TimersArmed(a) + TimersArmed(b)
  {
    if a == [] {
      assert a + b == b;
    } else {
      assert (a + b)[1..] == a[1..] + b;
      TimersArmedAppend(a[1..], b);
    }
  }
}
