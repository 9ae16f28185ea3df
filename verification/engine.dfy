/** The pushdown-automaton engine of the palindrome visualizer: one mutable
    record of the application (input, read position, stack, control state,
    processing flag, choice flag) modelled as an immutable configuration,
    and its operations as pure functions from configuration to configuration. */
module Engine {

  /** Control states: q0 pushes, q1 matches, q2 accepts. Rejection is not a
      state of its own: a rejected run stays in q1 with `processing` cleared. */
  datatype State = Q0 | Q1 | Q2

  /** The stack's top is its last element. */
  datatype Config = Config(
    input: string,
    stack: seq<char>,
    state: State,
    pos: nat,
    processing: bool,
    choiceMade: bool)

  /** Why a run was rejected; `Mismatch` carries the position, the stack top
      that was expected there and the input symbol that was read. */
  datatype Reason =
    | StackEmptyBeforeEnd
    | Mismatch(at: nat, expected: char, got: char)
    | StackNotEmptyAtEnd

  /** What one transition reports; `NoOutcome` is the fall-through in q2,
      where the transition function returns nothing. */
  datatype StepResult = Continue | Accepted | Rejected(reason: Reason) | NoOutcome

  datatype Transition = Transition(next: Config, result: StepResult)

  datatype InputError = EmptyInput | InvalidAlphabet

  datatype StartOutcome = Started | Refused(error: InputError)

  /** The configuration a successful start produces for the word `w`. */
  function RunStart(w: string): Config {
    Config(w, [], Q0, 0, true, false)
  }

  // ---------------------------------------------------------------------
  // Input validation

  /** The characters Python's `str.isspace` accepts. */
  predicate IsSpace(ch: char) {
    var n := ch as int;
    n in {9, 10, 11, 12, 13, 28, 29, 30, 31, 32, 0x85, 0xA0, 0x1680,
          0x2028, 0x2029, 0x202F, 0x205F, 0x3000}
    || 0x2000 <= n <= 0x200A
  }

  /** `s` without its leading whitespace. */
  function TrimStart(s: string): (r: string)
    ensures |r| <= |s| && r == s[|s| - |r|..]
    ensures forall i :: 0 <= i < |s| - |r| ==> IsSpace(s[i])
    ensures |r| > 0 ==> !IsSpace(r[0])
    decreases |s|
  {
    if |s| > 0 && IsSpace(s[0]) then TrimStart(s[1..]) else s
  }

  /** `s` without its trailing whitespace. */
  function TrimEnd(s: string): (r: string)
    ensures |r| <= |s| && r == s[..|r|]
    ensures forall i :: |r| <= i < |s| ==> IsSpace(s[i])
    ensures |r| > 0 ==> !IsSpace(r[|r| - 1])
    decreases |s|
  {
    if |s| > 0 && IsSpace(s[|s| - 1]) then TrimEnd(s[..|s| - 1]) else s
  }

  /** `r` is the slice of `s` starting at `i`, and everything of `s` outside
      that slice is whitespace. */
  ghost predicate StrippedAt(s: string, r: string, i: int) {
    && 0 <= i && i + |r| <= |s|
    && r == s[i..i + |r|]
    && (forall j :: 0 <= j < i ==> IsSpace(s[j]))
    && (forall j :: i + |r| <= j < |s| ==> IsSpace(s[j]))
  }

  /** Python's `str.strip()` without arguments. */
  function Strip(s: string): (r: string)
    ensures exists i :: StrippedAt(s, r, i)
    ensures |r| > 0 ==> !IsSpace(r[0]) && !IsSpace(r[|r| - 1])
  {
    var t := TrimStart(s);
    var r := TrimEnd(t);
    assert StrippedAt(s, r, |s| - |t|);
    r
  }

  /** A word without whitespace is its own stripped form. */
  lemma StripWithoutSpace(s: string)
    requires forall i :: 0 <= i < |s| ==> !IsSpace(s[i])
    ensures Strip(s) == s
  {
  }

  predicate InAlphabet(ch: char) {
    ch == 'a' || ch == 'b'
  }

  /** Every character of `s` is 'a' or 'b'. */
  function AllInAlphabet(s: string): (b: bool)
    ensures b <==> forall i :: 0 <= i < |s| ==> InAlphabet(s[i])
    decreases |s|
  {
    if |s| == 0 then true
    else InAlphabet(s[0]) && AllInAlphabet(s[1..])
  }

  /** The inputs a run may be started on. */
  predicate ValidInput(w: string) {
    |w| > 0 && forall i :: 0 <= i < |w| ==> InAlphabet(w[i])
  }

  /** Pressing "Start Processing" with `entry` in the text field. The
      stripped entry is stored as the input even when it is then refused;
      a refused start touches nothing else. A valid entry resets the engine
      and starts a run. */
  function StartProcessing(c: Config, entry: string): (r: (Config, StartOutcome))
    ensures r.0.input == Strip(entry)
    ensures r.1 == Started <==> ValidInput(Strip(entry))
    ensures r.1 == Refused(EmptyInput) <==> |Strip(entry)| == 0
    ensures r.1 == Started ==> r.0 == RunStart(Strip(entry))
    ensures r.1.Refused? ==> r.0 == c.(input := Strip(entry))
  {
    var w := Strip(entry);
    var c1 := c.(input := w);
    if |w| == 0 then (c1, Refused(EmptyInput))
    else if !AllInAlphabet(w) then (c1, Refused(InvalidAlphabet))
    else (Reset(c1).(processing := true), Started)
  }

  // ---------------------------------------------------------------------
  // The engine proper

  /** Back to the idle configuration; the input is kept. */
  function Reset(c: Config): (r: Config)
    ensures r.input == c.input
    ensures r.stack == [] && r.pos == 0 && r.state == Q0
    ensures !r.processing && !r.choiceMade
  {
    Config(c.input, [], Q0, 0, false, false)
  }

  /** The user's non-deterministic choice at q0: "Select Center" moves to q1
      at the current read position (the position is not reset), and
      "Continue Pushing" runs the transition function at once. The
      operation sets the choice flag first and is not guarded by the
      processing flag; the interface only offers it in q0. */
  function MakeChoice(c: Config, startMatching: bool): (r: Config)
    ensures r.input == c.input
    ensures startMatching ==> r == c.(state := Q1, choiceMade := true)
    ensures !startMatching && c.state == Q0 && c.pos < |c.input| ==>
      && r.stack == c.stack + [c.input[c.pos]]
      && r.pos == c.pos + 1
      && !r.choiceMade
      && r.processing == c.processing
      && (r.state == Q1 <==> r.pos == |c.input|)
    ensures !startMatching ==> r == ProcessStep(c.(choiceMade := true)).next
  {
    var c1 := c.(choiceMade := true);
    if startMatching then c1.(state := Q1)
    else ProcessStep(c1).next
  }

  /** The condition under which a step is taken rather than waiting for the
      user's choice. */
  predicate StepGuard(c: Config) {
    c.state != Q0 || c.choiceMade
  }

  /** The "Continue Popping" button: one transition when a run is active
      and no choice is pending, nothing otherwise. */
  function StepForward(c: Config): (r: Config)
    ensures !c.processing ==> r == c
    ensures c.state == Q0 && !c.choiceMade ==> r == c
    ensures c.processing && StepGuard(c) ==> r == ProcessStep(c).next
  {
    if !c.processing then c
    else if StepGuard(c) then ProcessStep(c).next
    else c
  }

  /** The transition function. */
  function ProcessStep(c: Config): (t: Transition)
    ensures t.next.input == c.input
    // q0, input remaining: push the symbol under the read head
    ensures c.state == Q0 && c.pos < |c.input| ==>
      && t.result == Continue
      && |t.next.stack| == |c.stack| + 1
      && t.next.stack[..|c.stack|] == c.stack
      && t.next.stack[|c.stack|] == c.input[c.pos]
      && t.next.pos == c.pos + 1
      && !t.next.choiceMade
      && t.next.processing == c.processing
      && t.next.state in {Q0, Q1}
      && (t.next.state == Q1 <==> t.next.pos == |c.input|)
    // q0, input exhausted: move to q1, nothing else changes
    ensures c.state == Q0 && c.pos >= |c.input| ==> t == Transition(c.(state := Q1), Continue)
    // q1, input remaining: a successful match consumes the top and the symbol
    ensures c.state == Q1 && c.pos < |c.input| ==>
      (t.result == Continue <==> |c.stack| > 0 && c.stack[|c.stack| - 1] == c.input[c.pos])
    ensures c.state == Q1 && t.result == Continue ==>
      && c.pos < |c.input|
      && t.next.stack + [c.input[c.pos]] == c.stack
      && t.next.pos == c.pos + 1
      && t.next == c.(stack := t.next.stack, pos := t.next.pos)
    // q1, input exhausted: accept exactly on an empty stack
    ensures c.state == Q1 && c.pos >= |c.input| ==> (t.result == Accepted <==> |c.stack| == 0)
    ensures c.state == Q1 && c.pos >= |c.input| ==> t.result in {Accepted, Rejected(StackNotEmptyAtEnd)}
    ensures t.result == Accepted ==> c.state == Q1 && t.next == c.(state := Q2, processing := false)
    // rejections: the configuration is kept, only the run ends
    ensures t.result.Rejected? ==> c.state == Q1 && t.next == c.(processing := false)
    ensures t.result == Rejected(StackEmptyBeforeEnd) <==>
      c.state == Q1 && c.pos < |c.input| && |c.stack| == 0
    ensures t.result.Rejected? && t.result.reason.Mismatch? ==>
      && c.state == Q1 && c.pos < |c.input| && |c.stack| > 0
      && t.result.reason == Mismatch(c.pos, c.stack[|c.stack| - 1], c.input[c.pos])
      && t.result.reason.expected != t.result.reason.got
    ensures c.state == Q1 && c.pos < |c.input| && |c.stack| > 0 && c.stack[|c.stack| - 1] != c.input[c.pos] ==>
      t == Transition(c.(processing := false), Rejected(Mismatch(c.pos, c.stack[|c.stack| - 1], c.input[c.pos])))
    ensures c.state == Q1 && c.pos >= |c.input| && |c.stack| > 0 ==>
      t == Transition(c.(processing := false), Rejected(StackNotEmptyAtEnd))
    // q2: nothing happens
    ensures c.state == Q2 ==> t == Transition(c, NoOutcome)
  {
    match c.state
    case Q0 =>
      if c.pos < |c.input| then
        var pushed := c.(stack := c.stack + [c.input[c.pos]], pos := c.pos + 1, choiceMade := false);
        if pushed.pos < |c.input| then Transition(pushed, Continue)
        else Transition(pushed.(state := Q1), Continue)
      else
        Transition(c.(state := Q1), Continue)
    case Q1 =>
      if c.pos < |c.input| then
        if |c.stack| == 0 then
          Transition(c.(processing := false), Rejected(StackEmptyBeforeEnd))
        else
          var current := c.input[c.pos];
          var top := c.stack[|c.stack| - 1];
          var popped := c.stack[..|c.stack| - 1];
          if current != top then
            // the popped symbol goes back before the run is rejected
            Transition(c.(stack := popped + [top], processing := false),
                       Rejected(Mismatch(c.pos, top, current)))
          else
            Transition(c.(stack := popped, pos := c.pos + 1), Continue)
      else if |c.stack| == 0 then
        Transition(c.(state := Q2, processing := false), Accepted)
      else
        Transition(c.(processing := false), Rejected(StackNotEmptyAtEnd))
    case Q2 =>
      Transition(c, NoOutcome)
  }
}
