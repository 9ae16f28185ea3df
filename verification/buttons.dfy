/** The enabled states of the controls, stored and updated the way the
    application updates them, and the proof that they always agree with
    the gating `Session.Offered` reads off the configuration. */
module Buttons {
  import opened Engine
  import opened Runs
  import opened Session

  /** Which controls are enabled. "Continue Pushing" and "Select Center"
      are always switched together, so one flag stands for both; "Reset"
      is never disabled. */
  datatype Enabled = Enabled(start: bool, choices: bool, step: bool)

  /** The configuration together with the enabled states. */
  datatype Ui = Ui(config: Config, buttons: Enabled)

  /** The controls as created: only "Start Processing" (and "Reset") enabled. */
  function InitialUi(): Ui {
    Ui(Initial(), Enabled(true, false, false))
  }

  /** What `Session` derives from the configuration alone. */
  function Shown(c: Config): Enabled {
    Enabled(StartOffered(c), ChoiceOffered(c), StepOffered(c))
  }

  /** The button updates the transition function makes from `c`: after a
      push the choice buttons return while input is left, and the step
      button takes over once q1 is entered; every end of a run disables
      the step button; a successful match and q2 change nothing. */
  function AfterTransition(e: Enabled, c: Config): (r: Enabled)
    ensures r.start == e.start
    ensures c.state == Q2 || (c.state == Q1 && ProcessStep(c).result == Continue) ==> r == e
    ensures c.state == Q1 && ProcessStep(c).result != Continue ==> !r.step && r.choices == e.choices
    ensures c.state == Q0 ==> (r.step <==> ProcessStep(c).next.state == Q1) && r.choices != r.step
  {
    match c.state
    case Q0 =>
      if c.pos < |c.input| && c.pos + 1 < |c.input| then e.(choices := true, step := false)
      else e.(choices := false, step := true)
    case Q1 =>
      if c.pos < |c.input| && |c.stack| > 0 && c.stack[|c.stack| - 1] == c.input[c.pos] then e
      else e.(step := false)
    case Q2 => e
  }

  /** The control a press goes to is enabled. */
  predicate Clickable(e: Enabled, a: Action) {
    match a
    case PressStart(_) => e.start
    case PressReset => true
    case PressChoice(_) => e.choices
    case PressStep => e.step
  }

  /** One press, with the enabled states kept as the application keeps them. */
  function Press(u: Ui, a: Action): (r: Ui)
    ensures !Clickable(u.buttons, a) ==> r == u
    ensures a == PressReset ==> r == Ui(Reset(u.config), Enabled(true, false, false))
    ensures a.PressStart? && Clickable(u.buttons, a) ==>
      r.config == StartProcessing(u.config, a.entry).0
      && r.buttons == (if StartProcessing(u.config, a.entry).1 == Started then Enabled(false, true, false)
                       else u.buttons)
  {
    var c, e := u.config, u.buttons;
    if !Clickable(e, a) then u
    else match a
      case PressStart(entry) =>
        var (c', outcome) := StartProcessing(c, entry);
        if outcome == Started then Ui(c', Enabled(false, true, false)) else Ui(c', e)
      case PressReset =>
        Ui(Reset(c), Enabled(true, false, false))
      case PressChoice(startMatching) =>
        if startMatching then Ui(MakeChoice(c, true), e.(choices := false, step := true))
        else Ui(MakeChoice(c, false), AfterTransition(e, c.(choiceMade := true)))
      case PressStep =>
        if c.processing && StepGuard(c) then Ui(StepForward(c), AfterTransition(e, c))
        else u
  }

  /** A session pressed on the controls. */
  function PressAll(u: Ui, actions: seq<Action>): Ui
    decreases |actions|
  {
    if |actions| == 0 then u else PressAll(Press(u, actions[0]), actions[1..])
  }

  /** A push chosen in q0 updates the stored states to the derived ones. */
  lemma PushAgrees(c: Config)
    requires ChoiceOffered(c) && c.pos < |c.input|
    ensures Press(Ui(c, Shown(c)), PressChoice(false)) == Ui(MakeChoice(c, false), Shown(MakeChoice(c, false)))
  {
  }

  /** A step in q1 updates the stored states to the derived ones. */
  lemma StepAgrees(c: Config)
    requires StepOffered(c)
    ensures Press(Ui(c, Shown(c)), PressStep) == Ui(StepForward(c), Shown(StepForward(c)))
  {
  }

  /** On a reachable configuration whose stored states are the derived
      ones, a press does what `Session.Apply` does and leaves the stored
      states derived again. */
  lemma PressAgrees(c: Config, a: Action)
    requires Inv(c)
    ensures Press(Ui(c, Shown(c)), a) == Ui(Apply(c, a), Shown(Apply(c, a)))
  {
    match a
    case PressStart(entry) =>
    case PressReset =>
    case PressChoice(startMatching) =>
      if ChoiceOffered(c) && !startMatching {
        PushAgrees(c);
      }
    case PressStep =>
      if StepOffered(c) {
        StepAgrees(c);
      }
  }

  /** Every session, pressed on the real controls, keeps the enabled states
      equal to the derived ones and reaches the configuration `Session.Run`
      reaches. */
  lemma {:induction false} PressAllAgrees(c: Config, actions: seq<Action>)
    requires Inv(c)
    ensures PressAll(Ui(c, Shown(c)), actions) == Ui(Run(c, actions), Shown(Run(c, actions)))
    decreases |actions|
  {
    if |actions| > 0 {
      PressAgrees(c, actions[0]);
      InvApply(c, actions[0]);
      PressAllAgrees(Apply(c, actions[0]), actions[1..]);
    }
  }

  /** From the application as created, the stored enabled states are at
      every moment the ones `Session.Offered` derives. */
  lemma SessionGatingFaithful(actions: seq<Action>)
    ensures PressAll(InitialUi(), actions).config == Run(Initial(), actions)
    ensures PressAll(InitialUi(), actions).buttons == Shown(Run(Initial(), actions))
  {
    assert Inv(Initial());
    assert InitialUi() == Ui(Initial(), Shown(Initial()));
    PressAllAgrees(Initial(), actions);
  }
}
