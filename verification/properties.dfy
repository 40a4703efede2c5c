/** Properties of the pet over several callbacks: what a click, a drag, a
    chat round trip, a walk and a run of animation ticks do as a whole, and
    what every run of events preserves. */
module PetProperties {
  import opened Maybe
  import opened Text
  import opened Motion
  import Chat
  import Urls
  import opened Pet
  import opened PetMachine

  // ---------------------------------------------------------------------------
  // Runs of events
  // ---------------------------------------------------------------------------

  // Each callback as `Dispatch` runs it.

  lemma DispatchTick(s: PetState, h: int)
    ensures Dispatch(s, AnimationTimer(h)) == AnimationTick(s, h)
  {
  }

  lemma DispatchWander(s: PetState, coin: bool, pick: Point, screen: Size)
    ensures Dispatch(s, WanderTimer(coin, pick, screen)) == WanderTick(s, coin, pick, screen)
  {
  }

  lemma DispatchPress(s: PetState, b: Button, at: Point)
    ensures Dispatch(s, MousePress(b, at)) == Step(Press(s, b, at), [])
  {
  }

  lemma DispatchMove(s: PetState, at: Point)
    ensures Dispatch(s, MouseMove(at)) == Step(DragMove(s, at), [])
  {
  }

  lemma DispatchRelease(s: PetState, b: Button, at: Point)
    ensures Dispatch(s, MouseRelease(b, at)) == Step(Release(s, b, at), [])
  {
  }

  lemma DispatchTyped(s: PetState, text: string)
    ensures Dispatch(s, Typed(text)) == Step(EditInput(s, text), [])
  {
  }

  lemma DispatchReturn(s: PetState)
    ensures Dispatch(s, ReturnPressed) == SendMessage(s)
  {
  }

  lemma DispatchFinished(s: PetState, outcome: Chat.Outcome)
    ensures Dispatch(s, WorkerFinished(outcome)) == OnAiFinished(s, Chat.ReplyText(outcome))
  {
  }

  lemma DispatchClearTimer(s: PetState)
    ensures Dispatch(s, ClearTimerFired) == Step(ClearBubble(s), [])
  {
  }

  lemma DispatchRename(s: PetState, ok: bool, name: string)
    ensures Dispatch(s, RenameChosen(ok, name)) == RenamePet(s, ok, name)
  {
  }

  lemma DispatchConfig(s: PetState, accepted: bool, url: string, key: string, model: string, prompt: string)
    ensures Dispatch(s, ConfigDialogClosed(accepted, url, key, model, prompt)) ==
              ApplyConfigDialog(s, accepted, url, key, model, prompt)
  {
  }

  lemma DispatchClearHistory(s: PetState)
    ensures Dispatch(s, ClearHistoryChosen) == ClearHistory(s)
  {
  }

  /** A run is its first event, then the rest. */
  lemma RunFirst(s: PetState, events: seq<Event>)
    requires events != []
    ensures var first := Dispatch(s, events[0]);
            Run(s, events) == Step(Run(first.state, events[1..]).state, first.effects + Run(first.state, events[1..]).effects)
  {
    assert events == [events[0]] + events[1..];
    RunCons(s, events[0], events[1..]);
  }

  lemma RunAppend(s: PetState, a: seq<Event>, b: seq<Event>)
    ensures Run(s, a + b).state == Run(Run(s, a).state, b).state
  {
    FoldAppend(Dispatch, s, a, b);
  }

  /** Every callback keeps the sprite frame a column of the sheet. */
  lemma DispatchKeepsFrame(s: PetState, e: Event)
    requires s.animFrame <= 2
    ensures Dispatch(s, e).state.animFrame <= 2
  {
    match e
    case AnimationTimer(h) => DispatchTick(s, h);
    case WanderTimer(coin, pick, screen) => DispatchWander(s, coin, pick, screen);
    case MousePress(b, at) => DispatchPress(s, b, at);
    case MouseMove(at) => DispatchMove(s, at);
    case MouseRelease(b, at) => DispatchRelease(s, b, at);
    case Typed(text) => DispatchTyped(s, text);
    case ReturnPressed => DispatchReturn(s);
    case WorkerFinished(outcome) => DispatchFinished(s, outcome);
    case ClearTimerFired => DispatchClearTimer(s);
    case RenameChosen(ok, name) => DispatchRename(s, ok, name);
    case ConfigDialogClosed(accepted, url, key, model, prompt) => DispatchConfig(s, accepted, url, key, model, prompt);
    case ClearHistoryChosen => DispatchClearHistory(s);
  }

  /** Whatever happens, `anim_frame` stays in {0, 1, 2}. */
  lemma {:induction false} RunKeepsFrame(s: PetState, events: seq<Event>)
    requires s.animFrame <= 2
    ensures Run(s, events).state.animFrame <= 2
    decreases |events|
  {
    if events != [] {
      RunFirst(s, events);
      DispatchKeepsFrame(s, events[0]);
      RunKeepsFrame(Dispatch(s, events[0]).state, events[1..]);
    }
  }

  lemma {:induction false} NoWorkers(effects: seq<Effect>)
    requires forall i :: 0 <= i < |effects| ==> !effects[i].StartWorker?
    ensures WorkersStarted(effects) == 0
    decreases |effects|
  {
    if effects != [] {
      assert forall i :: 0 <= i < |effects| - 1 ==> effects[1..][i] == effects[i + 1];
      NoWorkers(effects[1..]);
    }
  }

  lemma {:induction false} OneWorker(effects: seq<Effect>)
    requires |effects| == 1 && effects[0].StartWorker?
    ensures WorkersStarted(effects) == 1
  {
    assert effects[1..] == [];
  }

  /** Only the Return key starts a chat request, and at most one. */
  lemma {:induction false} OnlyReturnStartsWorkers(s: PetState, e: Event)
    ensures WorkersStarted(Dispatch(s, e).effects) <= (if e.ReturnPressed? then 1 else 0)
  {
    match e
    case AnimationTimer(h) => TickKeepsHistory(s, h);
    case WanderTimer(coin, pick, screen) => WanderKeepsHistory(s, coin, pick, screen);
    case ReturnPressed => SendCountsWorker(s);
    case WorkerFinished(outcome) => ReplyAddsEntry(s, outcome);
    case RenameChosen(ok, name) => RenameKeepsHistory(s, ok, name);
    case ConfigDialogClosed(accepted, url, key, model, prompt) =>
      ConfigKeepsHistory(s, accepted, url, key, model, prompt);
    case ClearHistoryChosen => ClearStartsNothing(s);
    case _ => LocalEventKeepsHistory(s, e);
  }

  lemma {:induction false} ClearStartsNothing(s: PetState)
    ensures WorkersStarted(Dispatch(s, ClearHistoryChosen).effects) == 0
  {
    DispatchClearHistory(s);
    NoWorkers(ClearHistory(s).effects);
  }

  /** Callbacks that only handle the mouse, edit the input or clear the
      bubble neither touch the history nor set anything going. */
  lemma {:induction false} LocalEventKeepsHistory(s: PetState, e: Event)
    requires e.MousePress? || e.MouseMove? || e.MouseRelease? || e.Typed? || e.ClearTimerFired?
    ensures Dispatch(s, e).effects == [] && Dispatch(s, e).state.history == s.history
  {
    match e
    case MousePress(b, at) => DispatchPress(s, b, at);
    case MouseMove(at) => DispatchMove(s, at);
    case MouseRelease(b, at) => DispatchRelease(s, b, at);
    case Typed(text) => DispatchTyped(s, text);
    case ClearTimerFired => DispatchClearTimer(s);
  }

  lemma {:induction false} TickKeepsHistory(s: PetState, h: int)
    ensures var r := Dispatch(s, AnimationTimer(h));
            WorkersStarted(r.effects) == 0 && |r.state.history| == |s.history| + WorkersStarted(r.effects)
  {
    var r := AnimationTick(s, h);
    DispatchTick(s, h);
    NoWorkers(r.effects);
  }

  /** A wander tick keeps the history and starts no request; at most it
      ends the process. */
  lemma {:induction false} WanderKeepsHistory(s: PetState, coin: bool, pick: Point, screen: Size)
    ensures var r := Dispatch(s, WanderTimer(coin, pick, screen));
            && r.state.history == s.history
            && WorkersStarted(r.effects) == 0
  {
    var r := WanderTick(s, coin, pick, screen);
    DispatchWander(s, coin, pick, screen);
    NoWorkers(r.effects);
  }

  lemma {:induction false} SendCountsWorker(s: PetState)
    ensures var r := Dispatch(s, ReturnPressed);
            WorkersStarted(r.effects) <= 1 && |r.state.history| == |s.history| + WorkersStarted(r.effects)
  {
    var r := SendMessage(s);
    DispatchReturn(s);
    if r.effects != [] {
      OneWorker(r.effects);
    }
  }

  lemma {:induction false} ReplyAddsEntry(s: PetState, outcome: Chat.Outcome)
    ensures var r := Dispatch(s, WorkerFinished(outcome));
            WorkersStarted(r.effects) == 0 && |r.state.history| == |s.history| + WorkersStarted(r.effects) + 1
  {
    var r := OnAiFinished(s, Chat.ReplyText(outcome));
    DispatchFinished(s, outcome);
    NoWorkers(r.effects);
  }

  lemma {:induction false} RenameKeepsHistory(s: PetState, ok: bool, name: string)
    ensures var r := Dispatch(s, RenameChosen(ok, name));
            WorkersStarted(r.effects) == 0 && |r.state.history| == |s.history| + WorkersStarted(r.effects)
  {
    var r := RenamePet(s, ok, name);
    DispatchRename(s, ok, name);
    NoWorkers(r.effects);
  }

  lemma {:induction false} ConfigKeepsHistory(s: PetState, accepted: bool, url: string, key: string,
                                              model: string, prompt: string)
    ensures var r := Dispatch(s, ConfigDialogClosed(accepted, url, key, model, prompt));
            WorkersStarted(r.effects) == 0 && |r.state.history| == |s.history| + WorkersStarted(r.effects)
  {
    var r := ApplyConfigDialog(s, accepted, url, key, model, prompt);
    DispatchConfig(s, accepted, url, key, model, prompt);
    NoWorkers(r.effects);
  }

  /** One callback adds a history entry exactly for each request it starts
      and for each reply it takes in (clearing the history aside). */
  lemma {:induction false} DispatchHistoryCount(s: PetState, e: Event)
    requires !e.ClearHistoryChosen?
    ensures |Dispatch(s, e).state.history| ==
              |s.history| + WorkersStarted(Dispatch(s, e).effects) + (if e.WorkerFinished? then 1 else 0)
  {
    match e
    case AnimationTimer(h) => TickKeepsHistory(s, h);
    case WanderTimer(coin, pick, screen) => WanderKeepsHistory(s, coin, pick, screen);
    case ReturnPressed => SendCountsWorker(s);
    case WorkerFinished(outcome) => ReplyAddsEntry(s, outcome);
    case RenameChosen(ok, name) => RenameKeepsHistory(s, ok, name);
    case ConfigDialogClosed(accepted, url, key, model, prompt) =>
      ConfigKeepsHistory(s, accepted, url, key, model, prompt);
    case _ => LocalEventKeepsHistory(s, e);
  }

  predicate NoHistoryClearing(events: seq<Event>) {
    forall i :: 0 <= i < |events| ==> !events[i].ClearHistoryChosen?
  }

  /** Over any run that does not clear the history, the history grows by
      exactly one user entry per request started and one assistant entry
      per reply received. */
  lemma {:induction false} RunHistoryCount(s: PetState, events: seq<Event>)
    requires NoHistoryClearing(events)
    ensures |Run(s, events).state.history| ==
              |s.history| + WorkersStarted(Run(s, events).effects) + Replies(events)
    decreases |events|
  {
    if events != [] {
      var first := Dispatch(s, events[0]);
      RunFirst(s, events);
      DispatchHistoryCount(s, events[0]);
      assert NoHistoryClearing(events[1..]) by {
        assert forall i :: 0 <= i < |events| - 1 ==> events[1..][i] == events[i + 1];
      }
      RunHistoryCount(first.state, events[1..]);
      WorkersStartedAppend(first.effects, Run(first.state, events[1..]).effects);
    }
  }

  // ---------------------------------------------------------------------------
  // Mouse: click versus drag
  // ---------------------------------------------------------------------------

  lemma PressRecords(s: PetState, p: Point)
    ensures Press(s, LeftButton, p).dragStart == p
    ensures Press(s, LeftButton, p).inputVisible == s.inputVisible
  {
  }

  /** Pressing and releasing at the same spot toggles the input row and
      ends the drag. */
  lemma ClickTogglesInput(s: PetState, p: Point)
    ensures var pressed := Dispatch(s, MousePress(LeftButton, p));
            var released := Dispatch(pressed.state, MouseRelease(LeftButton, p));
            && released.state.inputVisible == !s.inputVisible
            && !released.state.dragging
            && released.state.bubbleText == []
            && pressed.effects == [] && released.effects == []
  {
    var pressed := Press(s, LeftButton, p);
    PressRecords(s, p);
    DispatchPress(s, LeftButton, p);
    DispatchRelease(pressed, LeftButton, p);
  }

  predicate OnlyMoves(events: seq<Event>) {
    forall i :: 0 <= i < |events| ==> events[i].MouseMove?
  }

  /** Pointer moves never touch the press point, the drag flag or the input row. */
  lemma {:induction false} MovesKeepPress(s: PetState, moves: seq<Event>)
    requires OnlyMoves(moves)
    ensures var r := Run(s, moves).state;
            && r.dragStart == s.dragStart && r.dragging == s.dragging
            && r.inputVisible == s.inputVisible
    decreases |moves|
  {
    if moves != [] {
      RunFirst(s, moves);
      var next := DragMove(s, moves[0].at);
      assert moves[0] == MouseMove(moves[0].at);
      DispatchMove(s, moves[0].at);
      assert OnlyMoves(moves[1..]) by {
        assert forall i :: 0 <= i < |moves| - 1 ==> moves[1..][i] == moves[i + 1];
      }
      MovesKeepPress(next, moves[1..]);
    }
  }

  /** A press, any pointer moves, and a release at Manhattan distance 5 or
      more from the press is a drag: the input row is left alone, the drag
      ends and the wander target is dropped. */
  lemma DragNeverToggles(s: PetState, p: Point, moves: seq<Event>, q: Point)
    requires OnlyMoves(moves) && Manhattan(Sub(q, p)) >= ClickThreshold
    ensures var r := Run(s, [MousePress(LeftButton, p)] + moves + [MouseRelease(LeftButton, q)]).state;
            && r.inputVisible == s.inputVisible
            && !r.dragging && r.target.None? && !r.walking
  {
    var press := MousePress(LeftButton, p);
    var release := MouseRelease(LeftButton, q);
    var pressed := Press(s, LeftButton, p);
    PressRecords(s, p);
    DispatchPress(s, LeftButton, p);
    RunCons(s, press, moves);
    MovesKeepPress(pressed, moves);
    var moved := Run(pressed, moves).state;
    DispatchRelease(moved, LeftButton, q);
    RunCons(moved, release, []);
    assert [release] + [] == [release];
    RunAppend(s, [press] + moves, [release]);
  }

  // ---------------------------------------------------------------------------
  // Chat round trip
  // ---------------------------------------------------------------------------

  /** Sending a message with the API configured and then receiving the
      worker's outcome: thinking is over, the bubble shows the reply text,
      the history has grown by exactly the user entry and the assistant
      entry, one request was started, and what is written to disk is at
      most fifty entries ending with the exchange. */
  lemma SendThenReply(s: PetState, outcome: Chat.Outcome)
    requires Strip(s.inputText) != []
    requires Present(s.config.apiKey) && Present(s.config.apiUrl)
    ensures var sent := Dispatch(s, ReturnPressed);
            var done := Dispatch(sent.state, WorkerFinished(outcome));
            var reply := Chat.ReplyText(outcome);
            var exchange := [Chat.Entry(Chat.User, Strip(s.inputText)), Chat.Entry(Chat.Assistant, reply)];
            && |sent.effects| == 1 && sent.effects[0].StartWorker?
            && !done.state.thinking
            && done.state.bubbleText == reply
            && (outcome.Ok? ==> done.state.bubbleText == outcome.content)
            && done.state.history == s.history + exchange
            && |done.effects| == 1 && done.effects[0].WriteHistory?
            && 2 <= |done.effects[0].entries| <= Chat.PersistedSize
            && done.effects[0].entries[|done.effects[0].entries| - 2..] == exchange
  {
    var sent := SendMessage(s);
    DispatchReturn(s);
    DispatchFinished(sent.state, outcome);
    ExchangeRecorded(s, Strip(s.inputText), Chat.ReplyText(outcome));
  }

  /** The state-level half of `SendThenReply`. */
  lemma ExchangeRecorded(s: PetState, text: string, reply: string)
    requires Present(s.config.apiKey) && Present(s.config.apiUrl)
    ensures var sent := StartChat(s, text);
            var done := OnAiFinished(sent.state, reply);
            var exchange := [Chat.Entry(Chat.User, text), Chat.Entry(Chat.Assistant, reply)];
            && done.state.history == s.history + exchange
            && |done.effects[0].entries| >= 2
            && done.effects[0].entries[|done.effects[0].entries| - 2..] == exchange
  {
    var sent := StartChat(s, text);
    var done := OnAiFinished(sent.state, reply);
    var exchange := [Chat.Entry(Chat.User, text), Chat.Entry(Chat.Assistant, reply)];
    assert done.state.history == s.history + exchange;
    LastTwoSaved(s.history, exchange, done.effects[0].entries);
  }

  /** A window of at least two entries at the end of `h + exchange` ends
      with the two-entry `exchange`. */
  lemma LastTwoSaved(h: seq<Chat.Entry>, exchange: seq<Chat.Entry>, saved: seq<Chat.Entry>)
    requires |exchange| == 2
    requires |saved| == (if |h + exchange| < Chat.PersistedSize then |h + exchange| else Chat.PersistedSize)
    requires saved == (h + exchange)[|h + exchange| - |saved|..]
    ensures |saved| >= 2 && saved[|saved| - 2..] == exchange
  {
    var all := h + exchange;
    assert saved[|saved| - 2..] == all[|all| - 2..];
    assert all[|all| - 2..] == exchange;
  }

  /** The payload the worker posts for a sent message: the persona prompt
      as the system message, then at most ten history messages, the last of
      which is the user's new message. */
  lemma PayloadEndsWithMessage(s: PetState, text: string)
    requires Present(s.config.apiKey) && Present(s.config.apiUrl)
    ensures var q := StartChat(s, text).effects[0].request;
            var ms := Chat.PayloadMessages(q.prompt, q.context);
            && 2 <= |ms| <= Chat.ContextSize + 1
            && ms[0] == Chat.Message("system", PersonaPrompt(s.config))
            && ms[|ms| - 1] == Chat.Message("user", text)
  {
    var q := StartChat(s, text).effects[0].request;
    var ms := Chat.PayloadMessages(q.prompt, q.context);
    assert ms[|q.context|] == Chat.AsMessage(q.context[|q.context| - 1]);
  }

  /** The configuration dialog forgets the pet's name: after saving it, the
      next request's persona prompt names the pet `桌宠`. */
  lemma ConfigDialogForgetsName(s: PetState, url: string, key: string, model: string, prompt: string)
    ensures var c := ApplyConfigDialog(s, true, url, key, model, prompt).state.config;
            && c.petName.None?
            && PersonaPrompt(c) == Join(Split(prompt, PetNamePlaceholder), FallbackPetName)
  {
    var c := ApplyConfigDialog(s, true, url, key, model, prompt).state.config;
    assert c.prompt == Some(prompt);
    ReplaceAllIsJoinSplit(prompt, PetNamePlaceholder, FallbackPetName);
  }

  /** Saving the dialog again with the URL it stored leaves the stored
      configuration as it is. */
  lemma ConfigDialogResaveStable(s: PetState, url: string, key: string, model: string, prompt: string)
    ensures var c := ApplyConfigDialog(s, true, url, key, model, prompt).state;
            ApplyConfigDialog(c, true, c.config.apiUrl.value, key, model, prompt).state == c
  {
    Urls.NormalizeChatUrlIdempotent(url);
  }

  /** The clear timer is harmless to fire twice, and does nothing while a
      request is pending. */
  lemma ClearBubbleIdempotent(s: PetState)
    ensures ClearBubble(ClearBubble(s)) == ClearBubble(s)
    ensures s.thinking ==> ClearBubble(s) == s
    ensures s.bubbleText == [] && s.scrollOffset == 0 && !s.bubbleTimerStarted ==> ClearBubble(s) == s
  {
  }

  /** A confirmed rename is what the pet is called from then on: the next
      request's persona prompt and the history viewer use the stripped name,
      and confirming the same name again changes nothing more. */
  lemma RenameNamesPet(s: PetState, name: string)
    requires Strip(name) != []
    ensures var r := Dispatch(s, RenameChosen(true, name)).state;
            && r.config.petName.GetOr(FallbackPetName) == Strip(name)
            && PersonaPrompt(r.config) ==
                 Join(Split(s.config.prompt.GetOr(FallbackPrompt), PetNamePlaceholder), Strip(name))
            && RenamePet(r, true, name).state == r
  {
    DispatchRename(s, true, name);
    ReplaceAllIsJoinSplit(s.config.prompt.GetOr(FallbackPrompt), PetNamePlaceholder, Strip(name));
  }

  /** After the history is cleared the viewer is empty, clearing again
      only repeats the same effects, and the next exchange is all that gets
      written to disk. */
  lemma ClearHistoryForgetsAll(s: PetState, text: string, reply: string)
    requires Present(s.config.apiKey) && Present(s.config.apiUrl)
    ensures Chat.Transcript(ClearHistory(s).state.history, s.config.petName.GetOr(FallbackPetName)) == ""
    ensures ClearHistory(ClearHistory(s).state) == ClearHistory(s)
    ensures var done := OnAiFinished(StartChat(ClearHistory(s).state, text).state, reply);
            |done.effects| == 1 &&
            done.effects[0] == WriteHistory([Chat.Entry(Chat.User, text), Chat.Entry(Chat.Assistant, reply)])
  {
    ClearHistoryIdempotent(s);
    FreshExchange(ClearHistory(s).state, text, reply);
  }

  lemma ClearHistoryIdempotent(s: PetState)
    ensures ClearHistory(ClearHistory(s).state) == ClearHistory(s)
    ensures ClearHistory(s).state.history == []
  {
  }

  /** From an empty history, one exchange is the whole of what is saved. */
  lemma FreshExchange(c: PetState, text: string, reply: string)
    requires Present(c.config.apiKey) && Present(c.config.apiUrl) && c.history == []
    ensures var done := OnAiFinished(StartChat(c, text).state, reply);
            |done.effects| == 1 && done.effects[0] == WriteHistory([Chat.Entry(Chat.User, text), Chat.Entry(Chat.Assistant, reply)])
  {
    var sent := StartChat(c, text).state;
    SavedAfterOne(sent, reply);
  }

  lemma SavedAfterOne(sent: PetState, reply: string)
    requires |sent.history| == 1
    ensures var done := OnAiFinished(sent, reply);
            |done.effects| == 1 && done.effects[0] == WriteHistory(sent.history + [Chat.Entry(Chat.Assistant, reply)])
  {
    var done := OnAiFinished(sent, reply);
    assert done.effects[0].entries == done.state.history[0..];
  }

  /** The first-run name prompt happens once: starting again from the
      configuration the first start saved asks nothing and writes nothing. */
  lemma InitAsksNameOnce(screen: Size, loaded: Option<Config>, history: seq<Chat.Entry>, ok: bool, input: string,
                         screen2: Size, history2: seq<Chat.Entry>, ok2: bool, input2: string)
    ensures var first := Init(screen, loaded, history, ok, input);
            var again := Init(screen2, Some(first.state.config), history2, ok2, input2);
            again.effects == [] && again.state.config == first.state.config
  {
  }

  // ---------------------------------------------------------------------------
  // The bubble under animation ticks
  // ---------------------------------------------------------------------------

  predicate OnlyAnimationTicks(events: seq<Event>) {
    forall i :: 0 <= i < |events| ==> events[i].AnimationTimer?
  }

  /** Animation ticks alone arm the clear timer at most once per bubble:
      never again once it is armed, and at most once from a fresh bubble. */
  lemma {:induction false} TicksArmAtMostOnce(s: PetState, events: seq<Event>)
    requires OnlyAnimationTicks(events)
    ensures TimersArmed(Run(s, events).effects) <= 1
    ensures s.bubbleTimerStarted ==> TimersArmed(Run(s, events).effects) == 0
    ensures s.bubbleTimerStarted ==> Run(s, events).state.bubbleTimerStarted
    ensures TimersArmed(Run(s, events).effects) == 1 ==> Run(s, events).state.bubbleTimerStarted
    decreases |events|
  {
    if events != [] {
      var first := AnimationTick(s, events[0].textHeight);
      RunFirst(s, events);
      assert events[0] == AnimationTimer(events[0].textHeight);
      DispatchTick(s, events[0].textHeight);
      assert OnlyAnimationTicks(events[1..]) by {
        assert forall i :: 0 <= i < |events| - 1 ==> events[1..][i] == events[i + 1];
      }
      TicksArmAtMostOnce(first.state, events[1..]);
      var rest := Run(first.state, events[1..]);
      TimersArmedAppend(first.effects, rest.effects);
      if first.effects != [] {
        assert first.effects[1..] == [];
      }
    }
  }

  function Repeat(e: Event, n: nat): (r: seq<Event>)
    ensures |r| == n && forall i :: 0 <= i < n ==> r[i] == e
  {
    if n == 0 then [] else [e] + Repeat(e, n - 1)
  }

  /** With the bubble showing and no request pending, ticks at one measured
      height scroll the text one pixel at a time until its end is in view,
      and the tick after that arms the clear timer, exactly once. */
  lemma {:induction false} TicksRevealThenArm(s: PetState, h: int)
    requires s.bubbleText != [] && !s.thinking && !s.bubbleTimerStarted
    requires s.scrollOffset <= MaxScroll(h)
    ensures var n := MaxScroll(h) - s.scrollOffset + 1;
            var r := Run(s, Repeat(AnimationTimer(h), n));
            && r.state.scrollOffset == MaxScroll(h)
            && r.state.bubbleTimerStarted
            && TimersArmed(r.effects) == 1
    ensures forall k :: 0 <= k <= MaxScroll(h) - s.scrollOffset ==>
              && Run(s, Repeat(AnimationTimer(h), k)).state.scrollOffset == s.scrollOffset + k
              && TimersArmed(Run(s, Repeat(AnimationTimer(h), k)).effects) == 0
    decreases MaxScroll(h) - s.scrollOffset
  {
    forall k | 0 <= k <= MaxScroll(h) - s.scrollOffset
      ensures && Run(s, Repeat(AnimationTimer(h), k)).state.scrollOffset == s.scrollOffset + k
              && TimersArmed(Run(s, Repeat(AnimationTimer(h), k)).effects) == 0
    {
      TicksScrollFirst(s, h, k);
    }
    var e := AnimationTimer(h);
    var n := MaxScroll(h) - s.scrollOffset + 1;
    var first := AnimationTick(s, h);
    assert Repeat(e, n) == [e] + Repeat(e, n - 1);
    RunCons(s, e, Repeat(e, n - 1));
    var rest := Run(first.state, Repeat(e, n - 1));
    TimersArmedAppend(first.effects, rest.effects);
    if s.scrollOffset == MaxScroll(h) {
      assert first.effects == [ArmClearTimer(BubbleClearDelay)];
      assert first.effects[1..] == [];
      assert rest == Step(first.state, []);
    } else {
      assert first.state.scrollOffset == s.scrollOffset + 1;
      assert first.effects == [];
      TicksRevealThenArm(first.state, h);
    }
  }

  /** Before the end of the text is in view, each tick scrolls the idle
      bubble by one pixel and arms nothing. */
  lemma {:induction false} TicksScrollFirst(s: PetState, h: int, k: nat)
    requires s.bubbleText != [] && !s.thinking && !s.bubbleTimerStarted
    requires s.scrollOffset + k <= MaxScroll(h)
    ensures var r := Run(s, Repeat(AnimationTimer(h), k));
            && r.state.scrollOffset == s.scrollOffset + k
            && r.state.bubbleText == s.bubbleText && !r.state.thinking && !r.state.bubbleTimerStarted
            && TimersArmed(r.effects) == 0
    decreases k
  {
    var e := AnimationTimer(h);
    if k > 0 {
      var first := AnimationTick(s, h);
      assert Repeat(e, k) == [e] + Repeat(e, k - 1);
      DispatchTick(s, h);
      RunCons(s, e, Repeat(e, k - 1));
      var rest := Run(first.state, Repeat(e, k - 1));
      TimersArmedAppend(first.effects, rest.effects);
      TicksScrollFirst(first.state, h, k - 1);
    } else {
      assert Repeat(e, k) == [];
    }
  }

  // ---------------------------------------------------------------------------
  // Walking
  // ---------------------------------------------------------------------------

  /** Nothing holds the pet back from walking. */
  predicate Free(s: PetState) {
    !s.dragging && !s.inputVisible && !s.thinking
  }

  /** The facing picked with a new target is the way the first step goes. */
  lemma FacingMatchesFirstStep(s: PetState, pick: Point, screen: Size)
    requires Free(s) && s.target.None? && Fits(screen) && OnScreen(pick, screen)
    requires Dist2(s.position, pick) >= MoveStep * MoveStep
    ensures var r := WanderTick(s, true, pick, screen).state;
            && r.target == Some(pick) && r.walking
            && (r.direction == Right ==> r.position.x > s.position.x)
            && (r.direction == Left ==> r.position.x < s.position.x)
            && (r.direction == Front ==> r.position.y > s.position.y)
            && (r.direction == Back ==> r.position.y < s.position.y)
  {
    var facing := Facing(pick.x - s.position.x, pick.y - s.position.y);
    var t := s.(target := Some(pick), walking := true, direction := facing);
    assert WanderTick(s, true, pick, screen).state == WalkStep(t);
    assert WalkStep(t) == t.(position := StepToward(s.position, pick));
    FacingMatchesStep(s.position, pick);
  }

  /** Once a target is set and nothing holds the pet back, enough wander
      ticks (with lost coin tosses after arrival) bring the window exactly
      onto the target, clear it and stop the walk; a walk between two
      on-screen points never leaves the screen. */
  lemma {:induction false} WalkReachesTarget(s: PetState, pick: Point, screen: Size, n: nat)
    requires Free(s) && s.target.Some?
    requires n > Dist2(s.position, s.target.value)
    ensures var r := Run(s, Repeat(WanderTimer(false, pick, screen), n)).state;
            && r.position == s.target.value && r.target.None? && !r.walking
            && (OnScreen(s.position, screen) && OnScreen(s.target.value, screen) ==> OnScreen(r.position, screen))
    ensures OnScreen(s.position, screen) && OnScreen(s.target.value, screen) ==>
              forall k :: 0 <= k <= n ==>
                OnScreen(Run(s, Repeat(WanderTimer(false, pick, screen), k)).state.position, screen)
    decreases n
  {
    if OnScreen(s.position, screen) && OnScreen(s.target.value, screen) {
      forall k | 0 <= k <= n
        ensures OnScreen(Run(s, Repeat(WanderTimer(false, pick, screen), k)).state.position, screen)
      {
        WalkStaysOnScreen(s, pick, screen, k);
      }
    }
    var e := WanderTimer(false, pick, screen);
    var t := s.target.value;
    var first := WalkStep(s);
    DispatchWander(s, false, pick, screen);
    assert WanderTick(s, false, pick, screen).state == first;
    assert Repeat(e, n) == [e] + Repeat(e, n - 1);
    RunCons(s, e, Repeat(e, n - 1));
    assert Run(s, Repeat(e, n)).state == Run(first, Repeat(e, n - 1)).state;
    if Dist2(s.position, t) < MoveStep * MoveStep {
      assert first == s.(position := t, target := None, walking := false);
      AtRestStays(first, pick, screen, n - 1);
    } else {
      assert first == s.(position := StepToward(s.position, t));
      if OnScreen(s.position, screen) && OnScreen(t, screen) {
        StepTowardStaysOnScreen(s.position, t, screen);
      }
      WalkReachesTarget(first, pick, screen, n - 1);
    }
  }

  /** Lost coin tosses keep the pet on screen while it walks to an
      on-screen target and after it arrives. */
  lemma {:induction false} WalkStaysOnScreen(s: PetState, pick: Point, screen: Size, k: nat)
    requires Free(s) && OnScreen(s.position, screen)
    requires s.target.Some? ==> OnScreen(s.target.value, screen)
    ensures OnScreen(Run(s, Repeat(WanderTimer(false, pick, screen), k)).state.position, screen)
    decreases k
  {
    if k > 0 {
      var e := WanderTimer(false, pick, screen);
      var first := WanderTick(s, false, pick, screen).state;
      DispatchWander(s, false, pick, screen);
      assert Repeat(e, k) == [e] + Repeat(e, k - 1);
      RunCons(s, e, Repeat(e, k - 1));
      if s.target.Some? {
        var t := s.target.value;
        if Dist2(s.position, t) >= MoveStep * MoveStep {
          assert first == s.(position := StepToward(s.position, t));
          StepTowardStaysOnScreen(s.position, t, screen);
        }
      }
      WalkStaysOnScreen(first, pick, screen, k - 1);
    }
  }

  /** With no target and lost coin tosses the pet stays where it is. */
  lemma {:induction false} AtRestStays(s: PetState, pick: Point, screen: Size, n: nat)
    requires Free(s) && s.target.None? && !s.walking
    ensures Run(s, Repeat(WanderTimer(false, pick, screen), n)).state == s
    decreases n
  {
    if n > 0 {
      var e := WanderTimer(false, pick, screen);
      DispatchWander(s, false, pick, screen);
      assert Repeat(e, n) == [e] + Repeat(e, n - 1);
      RunCons(s, e, Repeat(e, n - 1));
      AtRestStays(s, pick, screen, n - 1);
    }
  }
}
