/** Runs of the engine driven by the user's choices, the invariant every
    reachable configuration keeps, and which words some choice sequence
    accepts. */
module Runs {
  import opened Engine
  import opened Palindromes

  /** The symbols read since the center `k` are the ones before it, read
      backwards: w[k..p] mirrors w[2k-p..k]. */
  ghost predicate MirroredUpTo(w: string, k: int, p: int) {
    && 0 <= k <= p <= |w| && p <= 2 * k
    && w[k..p] == Reverse(w[2 * k - p..k])
  }

  /** One more matched symbol extends the mirrored stretch by one. */
  lemma MirroredExtend(w: string, k: int, p: int)
    requires MirroredUpTo(w, k, p) && p < |w| && p < 2 * k
    requires w[p] == w[2 * k - 1 - p]
    ensures MirroredUpTo(w, k, p + 1)
  {
    assert w[k..p + 1] == w[k..p] + [w[p]];
    assert w[2 * k - p - 1..k] == [w[2 * k - 1 - p]] + w[2 * k - p..k];
    ReversePrepend(w[2 * k - 1 - p], w[2 * k - p..k]);
  }

  /** The matching phase with center k = (|stack| + pos) / 2: the stack is
      still the first 2k - pos input symbols, and every symbol read since the
      center mirrors one that was popped. */
  ghost predicate MatchInv(w: string, stack: seq<char>, pos: nat) {
    && |stack| <= pos <= |w|
    && (|stack| + pos) % 2 == 0
    && stack == w[..|stack|]
    && MirroredUpTo(w, (|stack| + pos) / 2, pos)
  }

  /** What holds of every configuration the interface can reach. In q0 the
      stack is the prefix read so far, so its length equals the position. */
  ghost predicate Inv(c: Config) {
    match c.state
    case Q0 =>
      && c.pos <= |c.input|
      && c.stack == c.input[..c.pos]
      && !c.choiceMade
      && (if c.processing then c.pos < |c.input| && ValidInput(c.input) else c.pos == 0)
    case Q1 =>
      ValidInput(c.input) && MatchInv(c.input, c.stack, c.pos)
    case Q2 =>
      && ValidInput(c.input)
      && !c.processing
      && c.stack == []
      && c.pos == |c.input|
      && c.pos % 2 == 0
      && MirroredUpTo(c.input, c.pos / 2, c.pos)
  }

  predicate Accepts(c: Config) {
    c.state == Q2
  }

  lemma InvRunStart(w: string)
    requires ValidInput(w)
    ensures Inv(RunStart(w))
  {
  }

  lemma InvReset(c: Config)
    ensures Inv(Reset(c))
  {
  }

  /** A push keeps the invariant; the last push starts matching with the
      center at the end of the input. */
  lemma InvPush(c: Config)
    requires Inv(c) && c.processing && c.state == Q0
    ensures Inv(ProcessStep(c).next)
  {
    var t := ProcessStep(c);
    var w, p := c.input, c.pos;
    assert t.next.stack == w[..p + 1];
    if t.next.state == Q1 {
      assert w[p + 1..p + 1] == [] == Reverse(w[p + 1..p + 1]);
    }
  }

  /** A successful match keeps the center: the stack shrinks by one as the
      position grows by one, and the symbol read mirrors the one popped. */
  lemma MatchInvStep(w: string, s: seq<char>, p: nat)
    requires MatchInv(w, s, p) && p < |w| && |s| > 0 && s[|s| - 1] == w[p]
    ensures MatchInv(w, s[..|s| - 1], p + 1)
  {
    var k := (|s| + p) / 2;
    var s' := s[..|s| - 1];
    assert s' == w[..|s'|];
    assert (|s'| + p + 1) / 2 == k;
    assert w[p] == w[2 * k - 1 - p];
    MirroredExtend(w, k, p);
  }

  lemma InvMatch(c: Config)
    requires Inv(c) && c.processing && c.state == Q1
    requires ProcessStep(c).result == Continue
    ensures Inv(ProcessStep(c).next)
  {
    var s := c.stack;
    assert ProcessStep(c).next == c.(stack := s[..|s| - 1], pos := c.pos + 1);
    MatchInvStep(c.input, s, c.pos);
  }

  /** A transition keeps the invariant. */
  lemma InvProcessStep(c: Config)
    requires Inv(c) && c.processing && c.state != Q2
    ensures Inv(ProcessStep(c).next)
  {
    if c.state == Q0 {
      InvPush(c);
    } else if c.pos < |c.input| && |c.stack| > 0 && c.stack[|c.stack| - 1] == c.input[c.pos] {
      InvMatch(c);
    } else if c.pos >= |c.input| && |c.stack| == 0 {
      assert ProcessStep(c).next == c.(state := Q2, processing := false);
      assert (|c.stack| + c.pos) / 2 == c.pos / 2;
    } else {
      assert ProcessStep(c).next == c.(processing := false);
    }
  }

  /** A choice, offered in q0 while a run is active, keeps the invariant. */
  lemma InvMakeChoice(c: Config, startMatching: bool)
    requires Inv(c) && c.processing && c.state == Q0
    ensures Inv(MakeChoice(c, startMatching))
  {
    if startMatching {
      assert c.input[c.pos..c.pos] == Reverse(c.input[c.pos..c.pos]);
    } else {
      assert MakeChoice(c, false) == ProcessStep(c).next;
      InvProcessStep(c);
    }
  }

  /** A press of the step button keeps the invariant, whatever the state. */
  lemma InvStepForward(c: Config)
    requires Inv(c)
    ensures Inv(StepForward(c))
  {
    if c.processing && StepGuard(c) {
      InvProcessStep(c);
    }
  }

  /** An accepted configuration's input is u ++ reverse(u) with u non-empty. */
  lemma AcceptedInLanguage(c: Config)
    requires Inv(c) && Accepts(c)
    ensures InLanguage(c.input)
  {
    var w := c.input;
    var k := |w| / 2;
    assert w[k..] == w[k..|w|] && w[..k] == w[2 * k - |w|..k];
    MirroredAtIff(w, k);
    assert |w[..k]| >= 1;
    DoubledInLanguage(w[..k]);
  }

  /** Bounds the number of steps left in the matching phase. */
  function Fuel(c: Config): nat {
    if !c.processing then 0
    else if c.pos <= |c.input| then |c.input| - c.pos + 2
    else 1
  }

  /** A user who presses the only buttons the interface offers: in q0 one of
      the two choice buttons, taken from `choices` in order, and in q1 the
      step button until the run ends. The run stops early in q0 when the
      choices run out. */
  function Drive(c: Config, choices: seq<bool>): (r: Config)
    ensures r.input == c.input
    ensures !c.processing ==> r == c
    ensures r.processing ==> r.state != Q1
    decreases |choices|, Fuel(c)
  {
    if !c.processing then c
    else match c.state
      case Q0 =>
        if |choices| == 0 then c
        else Drive(MakeChoice(c, choices[0]), choices[1..])
      case Q1 => Drive(StepForward(c), choices)
      case Q2 => c
  }

  lemma {:induction false} InvDrive(c: Config, choices: seq<bool>)
    requires Inv(c)
    ensures Inv(Drive(c, choices))
    decreases |choices|, Fuel(c)
  {
    if c.processing {
      match c.state
      case Q0 =>
        if |choices| > 0 {
          InvMakeChoice(c, choices[0]);
          InvDrive(MakeChoice(c, choices[0]), choices[1..]);
        }
      case Q1 =>
        InvStepForward(c);
        InvDrive(StepForward(c), choices);
      case Q2 =>
    }
  }

  /** Comparing the rest of the input with the stack read top-down, one
      symbol at a time. */
  lemma ReverseStep(w: string, s: seq<char>, p: nat)
    requires p < |w| && |s| > 0
    ensures w[p..] == Reverse(s) <==> w[p] == s[|s| - 1] && w[p + 1..] == Reverse(s[..|s| - 1])
  {
    var rest := w[p..];
    assert rest[0] == w[p] && rest[1..] == w[p + 1..];
    ReverseSplit(s);
    ConsEq(rest[0], rest[1..], s[|s| - 1], Reverse(s[..|s| - 1]));
    assert rest == [rest[0]] + rest[1..];
  }

  lemma ConsEq<T>(x: T, xs: seq<T>, y: T, ys: seq<T>)
    ensures [x] + xs == [y] + ys <==> x == y && xs == ys
  {
    if [x] + xs == [y] + ys {
      assert ([x] + xs)[1..] == xs;
      assert ([y] + ys)[1..] == ys;
    }
  }

  /** The matching phase accepts exactly when the rest of the input is the
      stack read from top to bottom. */
  lemma {:induction false} MatchPhase(c: Config, choices: seq<bool>)
    requires c.state == Q1 && c.processing && c.pos <= |c.input|
    ensures Accepts(Drive(c, choices)) <==> c.input[c.pos..] == Reverse(c.stack)
    decreases |c.input| - c.pos
  {
    var w, s, p := c.input, c.stack, c.pos;
    var t := ProcessStep(c);
    assert Drive(c, choices) == Drive(t.next, choices);
    if p == |w| {
      assert w[p..] == [];
    } else if |s| == 0 {
      assert !Accepts(Drive(t.next, choices));
    } else {
      ReverseStep(w, s, p);
      if w[p] == s[|s| - 1] {
        assert t.next == c.(stack := s[..|s| - 1], pos := p + 1);
        MatchPhase(t.next, choices);
      } else {
        assert !Accepts(Drive(t.next, choices));
      }
    }
  }

  /** Choose "Continue Pushing" `k` times, then "Select Center". */
  function CenterChoices(k: nat): (xs: seq<bool>)
    ensures |xs| == k + 1
    ensures forall i :: 0 <= i < k ==> !xs[i]
    ensures xs[k]
  {
    seq(k, _ => false) + [true]
  }

  /** From the push phase at position j, choosing the center at k. */
  lemma {:induction false} PushPhase(w: string, j: nat, k: nat)
    requires j <= k <= |w| && j < |w|
    ensures Accepts(Drive(Config(w, w[..j], Q0, j, true, false), CenterChoices(k - j)))
            <==> w[k..] == Reverse(w[..k])
    decreases k - j
  {
    var c := Config(w, w[..j], Q0, j, true, false);
    var xs := CenterChoices(k - j);
    if j == k {
      MatchPhase(MakeChoice(c, true), xs[1..]);
    } else {
      var c' := MakeChoice(c, false);
      assert c'.stack == w[..j + 1];
      assert xs[1..] == CenterChoices(k - (j + 1));
      if j + 1 < |w| {
        assert c' == Config(w, w[..j + 1], Q0, j + 1, true, false);
        PushPhase(w, j + 1, k);
      } else {
        assert w[..k] == w;
        MatchPhase(c', xs[1..]);
      }
    }
  }

  /** With the center chosen at position k, the run accepts exactly when the
      input from k on is the input before k reversed. Choosing k = |w| means
      pushing everything; the engine then moves to q1 on its own. */
  lemma CenterRun(w: string, k: nat)
    requires ValidInput(w) && k <= |w|
    ensures Accepts(Drive(RunStart(w), CenterChoices(k))) <==> w[k..] == Reverse(w[..k])
  {
    assert w[..0] == [];
    PushPhase(w, 0, k);
  }

  /** Any choice sequence that accepts a valid input proves it is
      u ++ reverse(u) with u non-empty. */
  lemma AcceptedRunInLanguage(w: string, choices: seq<bool>)
    requires ValidInput(w) && Accepts(Drive(RunStart(w), choices))
    ensures InLanguage(w)
  {
    InvRunStart(w);
    InvDrive(RunStart(w), choices);
    AcceptedInLanguage(Drive(RunStart(w), choices));
  }

  /** Every u ++ reverse(u) is accepted with the center chosen after u. */
  lemma LanguageAccepted(w: string)
    requires ValidInput(w) && InLanguage(w)
    ensures Accepts(Drive(RunStart(w), CenterChoices(|w| / 2)))
  {
    var u :| |u| >= 1 && w == u + Reverse(u);
    assert |w| / 2 == |u| && w[..|u|] == u && w[|u|..] == Reverse(u);
    CenterRun(w, |u|);
  }

  /** Some sequence of choices accepts a valid input exactly when it is
      u ++ reverse(u) with u non-empty, i.e. a non-empty even-length
      palindrome. */
  lemma Language(w: string)
    requires ValidInput(w)
    ensures (exists choices :: Accepts(Drive(RunStart(w), choices))) ==> InLanguage(w)
    ensures InLanguage(w) ==> exists choices :: Accepts(Drive(RunStart(w), choices))
  {
    if exists choices :: Accepts(Drive(RunStart(w), choices)) {
      var choices :| Accepts(Drive(RunStart(w), choices));
      AcceptedRunInLanguage(w, choices);
    }
    if InLanguage(w) {
      var choices := CenterChoices(|w| / 2);
      LanguageAccepted(w);
      assert Accepts(Drive(RunStart(w), choices));
    }
  }

  /** Some sequence of choices accepts a valid input exactly when it is a
      palindrome of even length. */
  lemma LanguageEvenPalindromes(w: string)
    requires ValidInput(w)
    ensures (exists choices :: Accepts(Drive(RunStart(w), choices))) <==> |w| % 2 == 0 && IsPalindrome(w)
  {
    Language(w);
    if InLanguage(w) {
      LanguageIsEvenPalindromes(w);
    }
    if |w| % 2 == 0 && IsPalindrome(w) {
      EvenPalindromesInLanguage(w);
    }
  }

  /** No odd-length input is accepted on any branch. */
  lemma OddNeverAccepted(w: string, choices: seq<bool>)
    requires ValidInput(w) && |w| % 2 == 1
    ensures !Accepts(Drive(RunStart(w), choices))
  {
    Language(w);
    if InLanguage(w) {
      LanguageIsEvenPalindromes(w);
    }
  }

  /** "a" and "aba" are palindromes, yet no choice sequence accepts them. */
  lemma OddPalindromesRejected(choices: seq<bool>)
    ensures !Accepts(Drive(RunStart("a"), choices))
    ensures !Accepts(Drive(RunStart("aba"), choices))
  {
    OddNeverAccepted("a", choices);
    OddNeverAccepted("aba", choices);
  }

  /** "aa": the center after one push accepts, pushing both symbols rejects. */
  lemma DoubleA()
    ensures Accepts(Drive(RunStart("aa"), [false, true]))
    ensures !Accepts(Drive(RunStart("aa"), [false, false, true]))
  {
    CenterRun("aa", 1);
    assert CenterChoices(1) == [false, true];
    CenterRun("aa", 2);
    assert CenterChoices(2) == [false, false, true];
    assert "aa"[2..] == [];
  }
}
