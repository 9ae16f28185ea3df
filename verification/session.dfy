/** The application as its user drives it: presses of the four kinds of
    control, each of which does something only while the interface offers
    it. Which controls are offered is read off the configuration. */
module Session {
  import opened Engine
  import opened Palindromes
  import opened Runs

  datatype Action =
    | PressStart(entry: string)
    | PressReset
    | PressChoice(startMatching: bool)
    | PressStep

  /** The configuration right after the application is created. */
  function Initial(): Config {
    Config("", [], Q0, 0, false, false)
  }

  /** "Start Processing" is available between runs, i.e. after creation or
      a reset, until a run is started. */
  predicate StartOffered(c: Config) {
    !c.processing && c.state == Q0
  }

  /** "Continue Pushing" and "Select Center" are available in q0 during a run. */
  predicate ChoiceOffered(c: Config) {
    c.processing && c.state == Q0
  }

  /** "Continue Popping" is available in q1 during a run. */
  predicate StepOffered(c: Config) {
    c.processing && c.state == Q1
  }

  predicate Offered(c: Config, a: Action) {
    match a
    case PressStart(_) => StartOffered(c)
    case PressReset => true
    case PressChoice(_) => ChoiceOffered(c)
    case PressStep => StepOffered(c)
  }

  /** One press of a control; a control that is not offered does nothing. */
  function Apply(c: Config, a: Action): (r: Config)
    ensures !Offered(c, a) ==> r == c
    ensures !a.PressStart? ==> r.input == c.input
    ensures a.PressStart? && Offered(c, a) ==> r.input == Strip(a.entry)
    ensures a == PressReset ==> StartOffered(r)
  {
    if !Offered(c, a) then c
    else match a
      case PressStart(entry) => StartProcessing(c, entry).0
      case PressReset => Reset(c)
      case PressChoice(startMatching) => MakeChoice(c, startMatching)
      case PressStep => StepForward(c)
  }

  /** A session: the presses in order. */
  function Run(c: Config, actions: seq<Action>): (r: Config)
    ensures (forall i :: 0 <= i < |actions| ==> !actions[i].PressStart?) ==> r.input == c.input
    decreases |actions|
  {
    if |actions| == 0 then c else Run(Apply(c, actions[0]), actions[1..])
  }

  lemma InvApply(c: Config, a: Action)
    requires Inv(c)
    ensures Inv(Apply(c, a))
  {
    if Offered(c, a) {
      match a
      case PressStart(entry) =>
        if ValidInput(Strip(entry)) {
          InvRunStart(Strip(entry));
        }
      case PressReset =>
        InvReset(c);
      case PressChoice(startMatching) =>
        InvMakeChoice(c, startMatching);
      case PressStep =>
        InvStepForward(c);
    }
  }

  lemma {:induction false} InvRun(c: Config, actions: seq<Action>)
    requires Inv(c)
    ensures Inv(Run(c, actions))
    decreases |actions|
  {
    if |actions| > 0 {
      InvApply(c, actions[0]);
      InvRun(Apply(c, actions[0]), actions[1..]);
    }
  }

  /** Whatever the user presses, in whatever order, an accepted input is a
      non-empty even-length palindrome over {a, b}. */
  lemma SessionAcceptsOnlyLanguage(actions: seq<Action>)
    ensures Accepts(Run(Initial(), actions)) ==>
      ValidInput(Run(Initial(), actions).input) && InLanguage(Run(Initial(), actions).input)
  {
    assert Inv(Initial());
    InvRun(Initial(), actions);
    if Accepts(Run(Initial(), actions)) {
      AcceptedInLanguage(Run(Initial(), actions));
    }
  }

  /** The presses a run driven by `choices` consists of. */
  function DriveActions(c: Config, choices: seq<bool>): (actions: seq<Action>)
    ensures forall i :: 0 <= i < |actions| ==> actions[i].PressChoice? || actions[i].PressStep?
    decreases |choices|, Fuel(c)
  {
    if !c.processing then []
    else match c.state
      case Q0 =>
        if |choices| == 0 then []
        else [PressChoice(choices[0])] + DriveActions(MakeChoice(c, choices[0]), choices[1..])
      case Q1 => [PressStep] + DriveActions(StepForward(c), choices)
      case Q2 => []
  }

  /** Running a prefix of a ++ rest applies a first. */
  lemma RunPrefix(c: Config, a: Action, rest: seq<Action>, i: nat)
    requires 0 < i <= |rest| + 1
    ensures Run(c, ([a] + rest)[..i]) == Run(Apply(c, a), rest[..i - 1])
  {
    assert ([a] + rest)[..i][1..] == rest[..i - 1];
  }

  /** A driven run is a session in which every press is of an offered control. */
  lemma {:induction false} DriveIsSession(c: Config, choices: seq<bool>)
    ensures Run(c, DriveActions(c, choices)) == Drive(c, choices)
    ensures forall i {:trigger DriveActions(c, choices)[i]} :: 0 <= i < |DriveActions(c, choices)| ==>
      Offered(Run(c, DriveActions(c, choices)[..i]), DriveActions(c, choices)[i])
    decreases |choices|, Fuel(c)
  {
    var acts := DriveActions(c, choices);
    if c.processing && c.state != Q2 && !(c.state == Q0 && |choices| == 0) {
      var a := acts[0];
      var c', choices' := Apply(c, a), if c.state == Q0 then choices[1..] else choices;
      var rest := DriveActions(c', choices');
      assert acts == [a] + rest;
      assert Offered(c, a);
      DriveIsSession(c', choices');
      forall i | 0 < i < |acts|
        ensures Offered(Run(c, acts[..i]), acts[i])
      {
        RunPrefix(c, a, rest, i);
        assert acts[i] == rest[i - 1];
      }
      assert acts[..0] == [];
    }
  }

  /** Every word of the language can be accepted: start it, push half of it,
      select the center, and pop until the run ends. */
  lemma SessionAcceptsLanguage(w: string)
    requires ValidInput(w) && InLanguage(w)
    ensures var actions := [PressStart(w)] + DriveActions(RunStart(w), CenterChoices(|w| / 2));
      Accepts(Run(Initial(), actions)) && Run(Initial(), actions).input == w
  {
    StripWithoutSpace(w);
    var drive := DriveActions(RunStart(w), CenterChoices(|w| / 2));
    assert Apply(Initial(), PressStart(w)) == RunStart(w);
    assert ([PressStart(w)] + drive)[1..] == drive;
    DriveIsSession(RunStart(w), CenterChoices(|w| / 2));
    var u :| |u| >= 1 && w == u + Reverse(u);
    assert |w| / 2 == |u| && w[..|u|] == u && w[|u|..] == Reverse(u);
    CenterRun(w, |w| / 2);
  }
}
