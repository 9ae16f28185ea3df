# NPDA palindrome visualizer — engine model

This project models the pushdown-automaton engine of the "NPDA Palindrome
Visualizer" (`PDAVisualizerApp` in `visualizer.py`) and proves what it
accepts. The application keeps one mutable record:

- the input string;
- the read position `input_position`;
- the stack, a list whose top is its end;
- the control state `q0` (push), `q1` (match) or `q2` (accept);
- the `processing` flag;
- the flag `nondeterministic_choice_made`.

The user presses "Start Processing", then in `q0` one of "Continue Pushing"
or "Select Center" before every push (the first one included), then
"Continue Popping" in `q1` until the run ends.

The model is functional. `Engine.Config` is an immutable record of the
six engine fields. Each operation is a pure function from configuration to
configuration:

- `StartProcessing` (with `Strip` and `AllInAlphabet` for the validation);
- `Reset`;
- `MakeChoice`;
- `StepForward`;
- `ProcessStep`, which returns the next configuration and a `StepResult`.
  Its rejection reason is a small datatype, not a message string.

`Runs.Drive` is a run driven by a sequence of boolean choices.
`Session.Run` is an arbitrary sequence of control presses, where a control
the interface does not currently offer does nothing. `Buttons.PressAll` is
the same session with the enabled states of the controls stored and
updated as the code updates them.

Behaviour of the code that the model keeps, and that the proofs rely on:

- Neither "Select Center" nor the automatic switch after the last push
  resets the position. Matching therefore continues from the center, and
  with center `k` a run accepts exactly when `input[k..] == reverse(input[..k])`.
- Some choice sequence accepts a valid input exactly when it is `u ++ reverse(u)`
  with `u` non-empty. Odd-length palindromes such as "a" and "aba" are
  accepted by no choice sequence: no transition skips a middle symbol.
- Rejection is not a control state. A rejected run stays in `q1` with
  `processing` cleared. On a mismatch the popped symbol goes back on the
  stack, so the stack is left as it was before the step.
- A refused start (empty or non-{a,b} input) changes nothing except the
  stored input string. The code assigns the stripped entry before it
  validates it.
- A single symbol is never accepted.
- `visualizer.py` has only the non-deterministic engine.
- The choice is offered before every push, including the first.
- `make_choice` itself is not guarded by `processing`, and it raises no
  error. Only the enabled state of the buttons keeps it from being called
  outside `q0`. `Session.Offered` reads that gating off the configuration,
  and `Buttons` stores the enabled states the way the code sets them and
  proves that the two agree in every session.

## Model

| member | source | states |
|---|---|---|
| `Engine.IsSpace` | visualizer.py:351 | the whitespace characters `str.strip()` removes: those for which Python's `str.isspace` holds |
| `Engine.TrimStart` | visualizer.py:351 | the result is a suffix of the entry, everything dropped is whitespace, and it does not start with whitespace |
| `Engine.TrimEnd` | visualizer.py:351 | the result is a prefix of the entry, everything dropped is whitespace, and it does not end with whitespace |
| `Engine.Strip` | visualizer.py:351 | `str.strip()`: the result is a contiguous slice of the entry with only whitespace outside it, and it neither starts nor ends with whitespace |
| `Engine.StripWithoutSpace` | visualizer.py:351 | an entry without whitespace is stored unchanged |
| `Engine.AllInAlphabet` | visualizer.py:358 | true exactly when every character is 'a' or 'b' |
| `Engine.ValidInput` | visualizer.py:354-360 | the inputs a run can be started on: non-empty and over {a, b} |
| `Engine.RunStart` | visualizer.py:369-371 | the configuration after a successful start: the reset configuration for the word, with `processing` set |
| `Engine.StartProcessing` | visualizer.py:350-371 | the stripped entry becomes the input in every case. The start succeeds exactly when that input is non-empty over {a, b}, and it then yields the reset configuration with `processing` set. An empty input is refused as empty. A refused start changes nothing but the input |
| `Engine.Reset` | visualizer.py:386-392 | empty stack, position 0, state q0, both flags cleared, input kept |
| `Engine.MakeChoice` | visualizer.py:409-428 | "Select Center" sets q1 and the choice flag and changes neither stack nor position. "Continue Pushing" in q0 with input left pushes the current symbol, advances by one, clears the choice flag, and moves to q1 exactly when the input is used up |
| `Engine.StepGuard` | visualizer.py:445-448 | a step is taken outside q0, or in q0 once a choice has been made; `process_automatically` uses the same guard at line 435 |
| `Engine.StepForward` | visualizer.py:442-448 | no change when the run is over or when a choice is pending in q0; otherwise exactly one transition |
| `Engine.ProcessStep` | visualizer.py:450-557 | push: the old stack entries stay, `input[pos]` goes on top, pos +1, choice flag cleared, q1 exactly at end of input. q0 at end of input goes to q1 with nothing else changed. Match: continues exactly when the top equals `input[pos]`, then pops it and advances by one. When the top differs from `input[pos]` the result is exactly a `Mismatch` rejection naming the position, the top and the symbol read, with the configuration kept and only `processing` cleared. An empty stack before the end is rejected as such, and so is a non-empty stack at the end; every rejection keeps the configuration and clears only `processing`. At end of input it accepts (q2) exactly on an empty stack. q2 does nothing |
| `Runs.InvPush` | visualizer.py:456-482 | a push keeps the stack equal to the input read so far (so its length equals the position); the last push enters matching with the center at the end |
| `Runs.MatchInvStep` | visualizer.py:515-535 | a successful match keeps `len(stack) + pos == 2k` for the chosen center k, keeps the stack a prefix of the input, and extends the mirrored stretch `input[k..pos] == reverse(input[2k-pos..k])` |
| `Runs.InvMatch` | visualizer.py:493-535 | a successful match step keeps the reachability invariant |
| `Runs.InvProcessStep` | visualizer.py:450-557 | every transition of an active run keeps the reachability invariant |
| `Runs.InvMakeChoice` | visualizer.py:409-428 | either choice, made in q0 during a run, keeps the reachability invariant |
| `Runs.InvStepForward` | visualizer.py:442-448 | a step-button press keeps the reachability invariant in every state |
| `Runs.AcceptedInLanguage` | visualizer.py:536-547 | a reachable accepted configuration's input is `u ++ reverse(u)` with `u` non-empty |
| `Runs.Accepts` | visualizer.py:536-547 | a run has accepted exactly when it is in q2, the state only the accepting branch enters |
| `Runs.Drive` | visualizer.py:409-448 | a run driven by choices never changes the input, leaves a finished run alone, and never stops in q1 while the run is active |
| `Runs.InvDrive` | visualizer.py:409-557 | a driven run keeps the reachability invariant |
| `Runs.MatchPhase` | visualizer.py:493-557 | from q1 the run accepts exactly when the rest of the input equals the stack read from top to bottom |
| `Runs.PushPhase` | visualizer.py:456-482 | from the push phase at position j, choosing the center at k ≥ j accepts exactly when `input[k..] == reverse(input[..k])` |
| `Runs.CenterRun` | visualizer.py:409-557 | with the center chosen at position k (k = length meaning "push everything"), the run accepts exactly when `input[k..] == reverse(input[..k])` |
| `Runs.AcceptedRunInLanguage` | visualizer.py:409-557 | any choice sequence that accepts a valid input shows it is `u ++ reverse(u)` with `u` non-empty |
| `Runs.LanguageAccepted` | visualizer.py:409-557 | every valid `u ++ reverse(u)` is accepted when the center is selected after pushing `u` |
| `Runs.Language` | visualizer.py:409-557 | some choice sequence accepts a valid input exactly when it is `u ++ reverse(u)` with `u` non-empty |
| `Runs.LanguageEvenPalindromes` | visualizer.py:409-557 | some choice sequence accepts a valid input exactly when it is a palindrome of even length |
| `Runs.OddNeverAccepted` | visualizer.py:456-557 | no choice sequence accepts an odd-length input |
| `Runs.OddPalindromesRejected` | visualizer.py:122-131 | no choice sequence accepts the palindromes "a" or "aba", although the on-screen description presents the automaton as one for palindromes |
| `Runs.DoubleA` | visualizer.py:409-557 | "aa" is accepted with the center after one push and rejected when both symbols are pushed |
| `Session.Initial` | visualizer.py:27-35 | the configuration as created: empty input and stack, q0, position 0, both flags cleared |
| `Session.StartOffered` | visualizer.py:369-372 | "Start Processing" is enabled while no run is active in q0: enabled at creation (line 69) and by a reset (line 401), disabled by a successful start |
| `Session.ChoiceOffered` | visualizer.py:377-381 | the two choice buttons are enabled while a run is active in q0: disabled at creation (lines 80-86) and by a reset (lines 403-404), enabled by a start and by a push that stays in q0 (lines 470-471), disabled on entering q1 (lines 419-420, 478-479, 487-488) |
| `Session.StepOffered` | visualizer.py:417-421 | "Continue Popping" is enabled while a run is active in q1: disabled at creation (lines 91-92), by a start (line 381), by a reset (line 402) and at the end of every run (lines 499, 525, 543, 553), enabled on entering q1 (lines 421, 480, 489) |
| `Session.Offered` | visualizer.py:69-92 | which control is enabled in a configuration; "Reset" always is |
| `Session.Apply` | visualizer.py:69-92 | a control that is not offered does nothing; only "Start Processing" changes the input, storing the stripped entry; after "Reset" a new run can be started |
| `Session.Run` | visualizer.py:69-92 | a session whose presses include no start keeps the input it began with |
| `Session.InvApply` | visualizer.py:350-448 | every press of a control keeps the reachability invariant |
| `Session.InvRun` | visualizer.py:350-448 | every session keeps the reachability invariant |
| `Session.SessionAcceptsOnlyLanguage` | visualizer.py:27-35 | from the initial configuration, whatever is pressed in whatever order, an accepted input is non-empty over {a, b} and of the form `u ++ reverse(u)` |
| `Session.DriveActions` | visualizer.py:378-381 | a driven run presses only the choice and step buttons |
| `Session.DriveIsSession` | visualizer.py:409-448 | a driven run is a session in which every press is of a control the interface offers at that moment |
| `Session.SessionAcceptsLanguage` | visualizer.py:350-557 | every valid word of the form `u ++ reverse(u)` is accepted by the session that starts it, pushes half of it, selects the center and pops to the end |
| `Buttons.InitialUi` | visualizer.py:69-92 | the enabled states as created: "Start Processing" on, the choice and step buttons off, with the initial configuration |
| `Buttons.PressAll` | visualizer.py:69-92 | a session pressed on the controls themselves, each press going to `Buttons.Press`, the counterpart of `Session.Run` with stored enabled states |
| `Buttons.AfterTransition` | visualizer.py:466-553 | the transition function's button updates: after a push the step button is enabled exactly when q1 is entered and the choice buttons exactly otherwise; a rejection or acceptance disables the step button; a successful match and q2 change nothing; the start button is never touched |
| `Buttons.Press` | visualizer.py:350-448 | a press of a disabled control does nothing; "Reset" enables only "Start Processing"; a successful start enables only the choice buttons, and a refused one changes no enabled state |
| `Buttons.PushAgrees` | visualizer.py:409-482 | a push chosen during a run leaves the stored enabled states equal to the ones derived from the new configuration |
| `Buttons.StepAgrees` | visualizer.py:442-557 | a step in q1 leaves the stored enabled states equal to the derived ones, whether it matches, rejects or accepts |
| `Buttons.PressAgrees` | visualizer.py:350-448 | on a reachable configuration, any press on the stored controls does what `Session.Apply` does and keeps the stored states derived |
| `Buttons.PressAllAgrees` | visualizer.py:350-448 | the same for every sequence of presses |
| `Buttons.SessionGatingFaithful` | visualizer.py:27-92 | from the application as created, every session reaches the configuration `Session.Run` reaches, with the enabled states `Session.Offered` derives |

## Left out

- Window, style and widget setup (`__init__` lines 7-24, `create_ui`), label texts and `messagebox` popups. These are presentation; the rejection reason is a datatype, not a message.
- `draw_pda` and `draw_self_loop`: canvas geometry in floating point and trigonometry.
- `update_speed` and the `root.after` timer of `process_automatically`. They are floating-point speeds and scheduling. Nothing outside `process_automatically` calls it; its only reference is its own re-scheduling at line 440, and its step guard is the same as `step_forward`'s and is `Engine.StepGuard`.
- "Continue Pushing" and "Select Center" are always enabled and disabled together, so `Buttons.Enabled` has one flag for both.
- The fields `non_deterministic_paths`, `current_path_index` and `chosen_path`, which nothing reads.
- Dead code: the empty-string branch at visualizer.py:363-367 follows a check that already returns on an empty input, and the second empty-stack check at visualizer.py:508-513 follows one that already returns. Neither is reachable, so neither is modelled.
- The `__main__` block and its resize binding, which only redraws.
- Reading the text field: its contents are the `entry` parameter of `StartProcessing`. Python strings may hold lone surrogate code points, and Dafny characters cannot.
