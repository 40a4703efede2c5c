/** The `DesktopPet` widget as a state machine: one immutable `PetState`
    and one pure transition per Qt callback. What a callback does to the
    outside world (starting a one-shot timer, starting the chat worker,
    writing or deleting a file) is returned as a list of `Effect`s; a timer
    firing comes back as a `ClearTimerFired` event and the worker's result
    as a `WorkerFinished` event. */
module Pet {
  import opened Maybe
  import opened Text
  import opened Motion
  import Chat
  import Urls

  /** The configuration document; a `None` field is a key missing from it. */
  datatype Config = Config(
    apiUrl: Option<string>,
    apiKey: Option<string>,
    model: Option<string>,
    petName: Option<string>,
    prompt: Option<string>)

  /** Everything the widget's callbacks read and write. */
  datatype PetState = PetState(
    position: Point,              // the window's top-left corner on the desktop
    target: Option<Point>,        // `target_pos`
    walking: bool,                // `is_walking`
    direction: Direction,         // `current_direction`
    animFrame: nat,               // `anim_frame`, the sprite sheet column
    dragging: bool,               // `is_dragging`
    dragStart: Point,             // `drag_start_pos`, global press position
    dragOffset: Point,            // `drag_offset`, press position minus window position
    inputVisible: bool,           // the input row (`bottom_widget`) is shown
    inputText: string,            // the text in `input_box`
    thinking: bool,               // `is_thinking`, a request is in flight
    bubbleText: string,           // `bubble_text`
    scrollOffset: nat,            // `scroll_offset`
    bubbleTimerStarted: bool,     // `bubble_timer_started` (absent counts as false)
    history: seq<Chat.Entry>,     // `chat_history`
    config: Config)

  /** The request handed to the chat worker. */
  datatype Request = Request(url: string, key: string, model: string, prompt: string, context: seq<Chat.Entry>)

  datatype Effect =
    | ArmClearTimer(delayMs: nat)          // `QTimer.singleShot(delayMs, self.clear_bubble)`
    | StartWorker(request: Request)        // `AIWorker(...).start()`
    | WriteConfig(config: Config)          // `save_config`
    | WriteHistory(entries: seq<Chat.Entry>) // `save_history`
    | DeleteHistoryFile                    // `os.remove(HISTORY_FILE)` when it exists
    | Crash                                // an uncaught exception in a slot: PyQt ends the process

  /** The state after a callback and what the callback set going outside. */
  datatype Step = Step(state: PetState, effects: seq<Effect>)

  datatype Button = LeftButton | OtherButton

  const DefaultModel: string := "gpt-3.5-turbo"
  const DefaultPrompt: string := "你的名字是{char}，是一个文静害羞的史莱姆娘。请保证你的对话口语化简洁化。"
  /** Fallbacks of `config.get(...)` when the key is missing. */
  const FallbackPrompt: string := "你是一个可爱的桌宠。"
  const FallbackPetName: string := "桌宠"
  const RenameFallbackName: string := "萌萌"
  const PetNamePlaceholder: string := "{char}"
  const NoApiText: string := "请先在托盘设置 API！"
  const HistoryClearedText: string := "历史已清除"

  /** Height of the bubble's text area; taller text scrolls. */
  const BubbleViewHeight: int := 40
  /** Manhattan distance below which a press and release make a click. */
  const ClickThreshold: nat := 5
  const BubbleClearDelay: nat := 5000
  const RenameClearDelay: nat := 3000
  const HistoryClearDelay: nat := 2000

  /** The configuration written when no `config.json` exists. */
  const DefaultConfig: Config :=
    Config(Some(""), Some(""), Some(DefaultModel), Some(""), Some(DefaultPrompt))

  /** Python truthiness of a configuration string. */
  predicate Present(o: Option<string>) {
    o.Some? && o.value != []
  }

  function Max(a: int, b: int): int {
    if a < b then b else a
  }

  /** How far the bubble text can scroll for a measured text height. */
  function MaxScroll(textHeight: int): (m: nat)
    ensures m >= textHeight - BubbleViewHeight
    ensures m == 0 || m == textHeight - BubbleViewHeight
  {
    Max(0, textHeight - BubbleViewHeight)
  }

  /** The persona prompt sent with a request: every `{char}` of the
      template replaced by the pet's name. */
  function PersonaPrompt(c: Config): (r: string)
    ensures r == Join(Split(c.prompt.GetOr(FallbackPrompt), PetNamePlaceholder), c.petName.GetOr(FallbackPetName))
    ensures !Contains(c.prompt.GetOr(FallbackPrompt), PetNamePlaceholder) ==> r == c.prompt.GetOr(FallbackPrompt)
  {
    ReplaceAllIsJoinSplit(c.prompt.GetOr(FallbackPrompt), PetNamePlaceholder, c.petName.GetOr(FallbackPetName));
    ReplaceAll(c.prompt.GetOr(FallbackPrompt), PetNamePlaceholder, c.petName.GetOr(FallbackPetName))
  }

  // ---------------------------------------------------------------------------
  // Start-up
  // ---------------------------------------------------------------------------

  /** `__init__`: the window at the screen centre, walking, facing front,
      frame 1; the configuration as loaded (or the default); and when it
      has no pet name, the name asked for at first run (`萌萌` if the
      dialog is cancelled or left blank), saved at once. */
  function Init(screen: Size, loaded: Option<Config>, history: seq<Chat.Entry>,
                nameOk: bool, nameInput: string): (r: Step)
    ensures r.state.position == Point(screen.width / 2, screen.height / 2)
    ensures r.state.walking && r.state.direction == Front && r.state.animFrame == 1
    ensures r.state.target.None? && !r.state.dragging && !r.state.inputVisible && !r.state.thinking
    ensures r.state.inputText == [] && r.state.dragStart == Point(0, 0) && r.state.dragOffset == Point(0, 0)
    ensures r.state.bubbleText == [] && r.state.scrollOffset == 0 && !r.state.bubbleTimerStarted
    ensures r.state.history == history
    ensures Present(r.state.config.petName)
    ensures Present(loaded.GetOr(DefaultConfig).petName) ==>
              r.state.config == loaded.GetOr(DefaultConfig) && r.effects == []
    ensures !Present(loaded.GetOr(DefaultConfig).petName) ==>
              && r.state.config == loaded.GetOr(DefaultConfig).(petName := r.state.config.petName)
              && r.effects == [WriteConfig(r.state.config)]
              && (nameOk && Strip(nameInput) != [] ==> r.state.config.petName == Some(Strip(nameInput)))
              && (!(nameOk && Strip(nameInput) != []) ==> r.state.config.petName == Some(RenameFallbackName))
  {
    var base := loaded.GetOr(DefaultConfig);
    var state := PetState(
      Point(screen.width / 2, screen.height / 2), None, true, Front, 1,
      false, Point(0, 0), Point(0, 0), false, [], false, [], 0, false, history, base);
    if Present(base.petName) then Step(state, [])
    else
      var name := if nameOk && Strip(nameInput) != [] then Strip(nameInput) else RenameFallbackName;
      var config := base.(petName := Some(name));
      Step(state.(config := config), [WriteConfig(config)])
  }

  // ---------------------------------------------------------------------------
  // Timers
  // ---------------------------------------------------------------------------

  /** `update_animation` (every 200 ms), given the measured height of the
      wrapped bubble text. The frame cycles while walking and rests on 1
      otherwise; an idle bubble scrolls one pixel per tick until the end of
      the text is in view, and then arms the clear timer once. */
  function AnimationTick(s: PetState, textHeight: int): (r: Step)
    ensures r.state == s.(animFrame := r.state.animFrame, scrollOffset := r.state.scrollOffset,
                          bubbleTimerStarted := r.state.bubbleTimerStarted)
    ensures r.state.animFrame <= 2
    ensures s.walking ==> r.state.animFrame == (s.animFrame + 1) % 3
    ensures !s.walking ==> r.state.animFrame == 1
    ensures s.bubbleText == [] || s.thinking ==>
              r.state.scrollOffset == s.scrollOffset && r.state.bubbleTimerStarted == s.bubbleTimerStarted
    ensures r.state.scrollOffset == s.scrollOffset || r.state.scrollOffset == s.scrollOffset + 1
    ensures r.state.scrollOffset == s.scrollOffset + 1 ==> s.scrollOffset < MaxScroll(textHeight)
    ensures r.state.scrollOffset <= Max(s.scrollOffset, MaxScroll(textHeight))
    ensures s.bubbleTimerStarted ==> r.state.bubbleTimerStarted
    ensures r.effects == [ArmClearTimer(BubbleClearDelay)] <==> !s.bubbleTimerStarted && r.state.bubbleTimerStarted
    ensures r.effects == [] || r.effects == [ArmClearTimer(BubbleClearDelay)]
    ensures s.bubbleText != [] && !s.thinking && !s.bubbleTimerStarted && s.scrollOffset >= MaxScroll(textHeight) ==>
              r.effects == [ArmClearTimer(BubbleClearDelay)]
    ensures s.bubbleText != [] && !s.thinking && s.scrollOffset < MaxScroll(textHeight) ==>
              && r.state.scrollOffset == s.scrollOffset + 1
              && r.effects == []
              && r.state.bubbleTimerStarted == s.bubbleTimerStarted
  {
    var frame := if s.walking then (s.animFrame + 1) % 3 else 1;
    var t := s.(animFrame := frame);
    if s.bubbleText != [] && !s.thinking then
      var maxScroll := MaxScroll(textHeight);
      if maxScroll > 0 then
        if s.scrollOffset < maxScroll then Step(t.(scrollOffset := s.scrollOffset + 1), [])
        else if !s.bubbleTimerStarted then Step(t.(bubbleTimerStarted := true), [ArmClearTimer(BubbleClearDelay)])
        else Step(t, [])
      else if !s.bubbleTimerStarted then Step(t.(bubbleTimerStarted := true), [ArmClearTimer(BubbleClearDelay)])
      else Step(t, [])
    else Step(t, [])
  }

  /** `pick` is what the two `random.randint` calls return: inside the
      screen whenever the screen can hold the window. */
  predicate ValidPick(pick: Point, screen: Size) {
    Fits(screen) ==> OnScreen(pick, screen)
  }

  /** The motion half of `random_move_logic`: snap to the target when it is
      within `move_step`, otherwise take one step toward it. */
  function WalkStep(s: PetState): (r: PetState)
    requires s.target.Some?
    ensures Dist2(s.position, s.target.value) < MoveStep * MoveStep ==>
              r == s.(position := s.target.value, target := None, walking := false)
    ensures Dist2(s.position, s.target.value) >= MoveStep * MoveStep ==>
              && r == s.(position := r.position)
              && r.position == StepToward(s.position, s.target.value)
              && Dist2(r.position, s.target.value) < Dist2(s.position, s.target.value)
  {
    var t := s.target.value;
    if Dist2(s.position, t) < MoveStep * MoveStep then
      s.(position := t, target := None, walking := false)
    else
      StepTowardProgress(s.position, t);
      s.(position := StepToward(s.position, t))
  }

  /** `random_move_logic` (every 100 ms). `coin` is `random.random() < 0.05`
      and `pick` the target the two `random.randint` calls would draw. A
      drag, the open input row or a pending request only stop the walk
      (without dropping the target). Without a target, a lost coin toss
      stops the walk; a won one picks `pick`, faces toward it and takes the
      first step in the same tick. On a screen too small for the window the
      draw raises `ValueError`, which nothing catches: the tick changes no
      field and the process ends. A new target is on screen whenever `pick`
      is a draw `random.randint` can make. */
  function WanderTick(s: PetState, coin: bool, pick: Point, screen: Size): (r: Step)
    ensures s.dragging || s.inputVisible || s.thinking ==> r == Step(s.(walking := false), [])
    ensures !(s.dragging || s.inputVisible || s.thinking) && s.target.None? && !coin ==>
              r == Step(s.(walking := false), [])
    ensures !(s.dragging || s.inputVisible || s.thinking) && s.target.None? && coin && !Fits(screen) ==>
              r == Step(s, [Crash])
    ensures !(s.dragging || s.inputVisible || s.thinking) && s.target.None? && coin && Fits(screen) ==>
              && r.effects == []
              && r.state == WalkStep(s.(target := Some(pick), walking := true,
                                        direction := Facing(pick.x - s.position.x, pick.y - s.position.y)))
              && r.state.direction == Facing(pick.x - s.position.x, pick.y - s.position.y)
              && (r.state.target.None? ==> r.state.position == pick && !r.state.walking)
              && (r.state.target.Some? ==> r.state.target == Some(pick) && r.state.walking)
    ensures !(s.dragging || s.inputVisible || s.thinking) && s.target.Some? ==> r == Step(WalkStep(s), [])
    ensures r.effects == [] || r.effects == [Crash]
    ensures ValidPick(pick, screen) && r.state.target.Some? && r.state.target != s.target ==>
              OnScreen(r.state.target.value, screen)
    ensures r.state == s.(position := r.state.position, target := r.state.target,
                          walking := r.state.walking, direction := r.state.direction)
  {
    if s.dragging || s.inputVisible || s.thinking then Step(s.(walking := false), [])
    else if s.target.None? then
      if !coin then Step(s.(walking := false), [])
      else if !Fits(screen) then Step(s, [Crash])
      else
        var facing := Facing(pick.x - s.position.x, pick.y - s.position.y);
        Step(WalkStep(s.(target := Some(pick), walking := true, direction := facing)), [])
    else Step(WalkStep(s), [])
  }

  // ---------------------------------------------------------------------------
  // Mouse
  // ---------------------------------------------------------------------------

  /** `mousePressEvent`: a left press starts a drag at `at` (global
      position), remembering where the pointer sits on the window. There is
      no guard against a drag already in progress. */
  function Press(s: PetState, button: Button, at: Point): (r: PetState)
    ensures button == LeftButton ==>
              r == s.(dragging := true, dragStart := at, dragOffset := Sub(at, s.position))
    ensures button != LeftButton ==> r == s
  {
    if button == LeftButton then s.(dragging := true, dragStart := at, dragOffset := Sub(at, s.position))
    else s
  }

  /** `mouseMoveEvent`: while dragging, the window follows the pointer at
      the remembered offset and the wander target is dropped. The source's
      `Qt.MouseButton.LeftButton and ...` test is always true, so only
      `is_dragging` decides. */
  function DragMove(s: PetState, at: Point): (r: PetState)
    ensures s.dragging ==> Sub(at, r.position) == s.dragOffset
    ensures s.dragging ==> r == s.(position := r.position, target := None, walking := false)
    ensures !s.dragging ==> r == s
  {
    if s.dragging then s.(position := Sub(at, s.dragOffset), target := None, walking := false)
    else s
  }

  /** `toggle_input`: hide the input row, or show it and stand still facing
      the viewer; either way the bubble empties (its scroll offset and timer
      flag are left as they are). */
  function ToggleInput(s: PetState): (r: PetState)
    ensures r.inputVisible == !s.inputVisible
    ensures r.bubbleText == []
    ensures s.inputVisible ==> r == s.(inputVisible := false, bubbleText := [])
    ensures !s.inputVisible ==>
              r == s.(inputVisible := true, bubbleText := [], walking := false, direction := Front,
                      animFrame := 1, target := None)
  {
    if s.inputVisible then s.(inputVisible := false, bubbleText := [])
    else s.(bubbleText := [], inputVisible := true, walking := false, direction := Front,
            animFrame := 1, target := None)
  }

  /** `mouseReleaseEvent`: a left release always ends the drag; a release
      within 5 pixels (Manhattan) of the press is a click and toggles the
      input row, a longer one ends a drag and drops the wander target. */
  function Release(s: PetState, button: Button, at: Point): (r: PetState)
    ensures button != LeftButton ==> r == s
    ensures button == LeftButton ==> !r.dragging
    ensures button == LeftButton && Manhattan(Sub(at, s.dragStart)) < ClickThreshold ==>
              r == ToggleInput(s.(dragging := false))
    ensures button == LeftButton && Manhattan(Sub(at, s.dragStart)) >= ClickThreshold ==>
              r == s.(dragging := false, target := None, walking := false)
  {
    if button != LeftButton then s
    else
      var t := s.(dragging := false);
      if Manhattan(Sub(at, s.dragStart)) < ClickThreshold then ToggleInput(t)
      else t.(target := None, walking := false)
  }

  // ---------------------------------------------------------------------------
  // Chat
  // ---------------------------------------------------------------------------

  /** Typing in the input box. */
  function EditInput(s: PetState, text: string): (r: PetState)
    ensures r.inputText == text && r == s.(inputText := text)
  {
    s.(inputText := text)
  }

  /** `send_message` (Return in the input box). A blank message does
      nothing. Without an API key or URL only the "set up the API" bubble
      shows and the input row hides: history, thinking, the input text and
      the bubble's scroll offset and timer flag stay as they are. Otherwise
      the request goes out as `StartChat` describes. */
  function SendMessage(s: PetState): (r: Step)
    ensures Strip(s.inputText) == [] ==> r == Step(s, [])
    ensures Strip(s.inputText) != [] && !(Present(s.config.apiKey) && Present(s.config.apiUrl)) ==>
              r == Step(s.(bubbleText := NoApiText, inputVisible := false), [])
    ensures Strip(s.inputText) != [] && Present(s.config.apiKey) && Present(s.config.apiUrl) ==>
              r == StartChat(s, Strip(s.inputText))
  {
    var text := Strip(s.inputText);
    if text == [] then Step(s, [])
    else if !(Present(s.config.apiKey) && Present(s.config.apiUrl)) then
      Step(s.(bubbleText := NoApiText, inputVisible := false), [])
    else StartChat(s, text)
  }

  /** The sending half of `send_message`: the text joins the history as
      exactly one user entry, the input clears and hides, the bubble resets,
      thinking starts, and the worker is started with the configured
      endpoint, key and model, the persona prompt (every `{char}` replaced
      by the pet's name) and the last ten history entries, which end with
      the new message. */
  function StartChat(s: PetState, text: string): (r: Step)
    requires Present(s.config.apiKey) && Present(s.config.apiUrl)
    ensures r.state == s.(inputText := [], inputVisible := false, thinking := true, bubbleText := [],
                          scrollOffset := 0, bubbleTimerStarted := false, history := r.state.history)
    ensures r.state.history == s.history + [Chat.Entry(Chat.User, text)]
    ensures |r.effects| == 1 && r.effects[0].StartWorker?
    ensures r.effects[0].request.url == s.config.apiUrl.value
    ensures r.effects[0].request.key == s.config.apiKey.value
    ensures r.effects[0].request.model == s.config.model.GetOr(DefaultModel)
    ensures r.effects[0].request.prompt ==
              Join(Split(s.config.prompt.GetOr(FallbackPrompt), PetNamePlaceholder),
                   s.config.petName.GetOr(FallbackPetName))
    ensures var c := r.effects[0].request.context;
            var h := r.state.history;
            && |c| == (if |h| < Chat.ContextSize then |h| else Chat.ContextSize)
            && c == h[|h| - |c|..]
            && c[|c| - 1] == Chat.Entry(Chat.User, text)
  {
    var history := s.history + [Chat.Entry(Chat.User, text)];
    var request := Request(s.config.apiUrl.value, s.config.apiKey.value,
                           s.config.model.GetOr(DefaultModel), PersonaPrompt(s.config),
                           Chat.Context(history));
    Step(s.(inputText := [], inputVisible := false, thinking := true, bubbleText := [],
            scrollOffset := 0, bubbleTimerStarted := false, history := history),
         [StartWorker(request)])
  }

  /** `on_ai_finished`: thinking ends, the reply becomes the bubble (scroll
      and timer flag reset), joins the history as an assistant entry, and the
      last fifty entries are written to disk. */
  function OnAiFinished(s: PetState, reply: string): (r: Step)
    ensures r.state == s.(thinking := false, bubbleText := reply, scrollOffset := 0,
                          bubbleTimerStarted := false, history := r.state.history)
    ensures r.state.history == s.history + [Chat.Entry(Chat.Assistant, reply)]
    ensures |r.effects| == 1 && r.effects[0].WriteHistory?
    ensures |r.effects[0].entries| <= Chat.PersistedSize
    ensures |r.effects[0].entries| == (if |r.state.history| < Chat.PersistedSize then |r.state.history| else Chat.PersistedSize)
    ensures r.effects[0].entries == r.state.history[|r.state.history| - |r.effects[0].entries|..]
  {
    var history := s.history + [Chat.Entry(Chat.Assistant, reply)];
    Step(s.(thinking := false, bubbleText := reply, scrollOffset := 0, bubbleTimerStarted := false,
            history := history),
         [WriteHistory(Chat.Persisted(history))])
  }

  /** `clear_bubble` (a one-shot timer firing): empties the bubble unless a
      request is pending. */
  function ClearBubble(s: PetState): (r: PetState)
    ensures s.thinking ==> r == s
    ensures !s.thinking ==> r == s.(bubbleText := [], scrollOffset := 0, bubbleTimerStarted := false)
  {
    if s.thinking then s
    else s.(bubbleText := [], scrollOffset := 0, bubbleTimerStarted := false)
  }

  // ---------------------------------------------------------------------------
  // Tray menu and configuration
  // ---------------------------------------------------------------------------

  /** `rename_pet`: a confirmed, non-blank name (stripped) is stored and
      saved, announced in the bubble, and a clear is scheduled in 3 s. The
      bubble's scroll offset and timer flag are left as they are. */
  function RenamePet(s: PetState, ok: bool, name: string): (r: Step)
    ensures !(ok && Strip(name) != []) ==> r == Step(s, [])
    ensures ok && Strip(name) != [] ==>
              && r.state == s.(config := s.config.(petName := Some(Strip(name))),
                               bubbleText := "以后我就叫 " + Strip(name) + " 啦！")
              && r.effects == [WriteConfig(r.state.config), ArmClearTimer(RenameClearDelay)]
  {
    var n := Strip(name);
    if ok && n != [] then
      var config := s.config.(petName := Some(n));
      Step(s.(config := config, bubbleText := "以后我就叫 " + n + " 啦！"),
           [WriteConfig(config), ArmClearTimer(RenameClearDelay)])
    else Step(s, [])
  }

  /** `clear_history`: the history empties, the file is deleted, and a
      notice shows in the bubble for 2 s. The bubble's scroll offset and
      timer flag are left as they are. */
  function ClearHistory(s: PetState): (r: Step)
    ensures r.state == s.(history := [], bubbleText := HistoryClearedText)
    ensures r.effects == [DeleteHistoryFile, ArmClearTimer(HistoryClearDelay)]
  {
    Step(s.(history := [], bubbleText := HistoryClearedText),
         [DeleteHistoryFile, ArmClearTimer(HistoryClearDelay)])
  }

  /** `show_config_dialog` after the user closes the dialog. On Save the
      configuration becomes exactly what `get_config` returns (the chat URL
      corrected, the key stripped, the model and prompt as typed) and is
      saved; `get_config` has no `pet_name`, so the name is dropped. */
  function ApplyConfigDialog(s: PetState, accepted: bool, urlField: string, keyField: string,
                             modelField: string, promptField: string): (r: Step)
    ensures !accepted ==> r == Step(s, [])
    ensures accepted ==>
              && r.state == s.(config := r.state.config)
              && r.state.config.petName.None?
              && r.state.config.apiUrl == Some(Urls.NormalizeChatUrl(urlField))
              && r.state.config.apiKey == Some(Strip(keyField))
              && r.state.config.model == Some(modelField)
              && r.state.config.prompt == Some(promptField)
              && r.effects == [WriteConfig(r.state.config)]
  {
    if !accepted then Step(s, [])
    else
      var config := Config(Some(Urls.NormalizeChatUrl(urlField)), Some(Strip(keyField)),
                           Some(modelField), None, Some(promptField));
      Step(s.(config := config), [WriteConfig(config)])
  }

  /** `show_history_dialog`: the text of the viewer for the current history,
      naming the pet as the configuration does (`桌宠` when it has no name). */
  method HistoryDialogText(s: PetState) returns (content: string)
    ensures content == Chat.Transcript(s.history, s.config.petName.GetOr(FallbackPetName))
  {
    content := Chat.HistoryText(s.history, s.config.petName.GetOr(FallbackPetName));
  }
}
