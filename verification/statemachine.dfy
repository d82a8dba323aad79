/**
 * The streaming state machine of core/statemachine.h.
 *
 * States live in one sequence and are named by their index: 0 is the
 * machine's initial state, 1 its error state, later ones are the states
 * an owner declares. A transition names its matcher, the reaction to run
 * on a full match, and the index of its target state. Reactions are
 * recorded in a trace of events, in the order they ran, each with the
 * capture vector it was handed.
 */
module StateMachine {
  import opened Parser
  import opened ParserImpl

  /** The reaction attached to a transition; NoAction is the default. */
  datatype Action = NoAction | Act(id: nat)

  datatype Transition = Transition(matcher: Matcher, action: Action, target: nat)

  datatype State = State(name: string, rules: seq<Transition>)

  /** A reaction that ran, with the capture vector it received. */
  datatype Event = Fired(action: Action, caps: seq<Cap>)

  const InitState: nat := 0
  const ErrorState: nat := 1

  /** State::isError: a state without transitions. */
  predicate IsError(s: State)
  {
    s.rules == []
  }

  /**
   * A rule the machine can run: its target exists, its matcher holds no
   * Kleene star (a star declares no capture count, and a transition sizes
   * its capture list by that count, so a rule with a star does not
   * compile), and its matcher halts and consumes input on every full
   * match (without that the source's loops never end).
   */
  predicate ValidRule(t: Transition, count: nat)
  {
    t.target < count && Compiles(t.matcher) && !HasKleene(t.matcher) && Halts(t.matcher) && Advances(t.matcher)
  }

  predicate WellFormed(states: seq<State>)
  {
    && |states| >= 2
    && IsError(states[ErrorState])
    && forall i, j :: 0 <= i < |states| && 0 <= j < |states[i].rules| ==> ValidRule(states[i].rules[j], |states|)
  }

  /** Trying a transition at pos (Transition::matches works on a copy of pos). */
  function Attempt(t: Transition, input: string, pos: nat): (o: Outcome)
    requires pos <= |input| && Halts(t.matcher)
    ensures o.Outcome? && pos <= o.pos <= |input|
    ensures Advances(t.matcher) && o.result == FullMatch ==> pos < o.pos
  {
    HaltsSound(t.matcher, input, pos);
    Run(t.matcher, input, pos)
  }

  predicate RulesHalt(rules: seq<Transition>)
  {
    forall k :: 0 <= k < |rules| ==> Halts(rules[k].matcher)
  }

  /** What one scan over a state's transitions found. */
  datatype Scan = Taken(rule: nat, pos: nat, caps: seq<Cap>) | NeedMore | NoRule

  /**
   * The inner loop of parse: tries the rules from index `from` on, in
   * order; the first full match is taken; `partial` remembers whether an
   * earlier rule matched partially.
   */
  function ScanRules(rules: seq<Transition>, input: string, pos: nat, from: nat, partial: bool): (s: Scan)
    requires pos <= |input| && from <= |rules| && RulesHalt(rules)
    ensures s.Taken? ==> from <= s.rule < |rules| && Attempt(rules[s.rule], input, pos) == Outcome(FullMatch, s.pos, s.caps)
    decreases |rules| - from
  {
    if from == |rules| then (if partial then NeedMore else NoRule)
    else
      var o := Attempt(rules[from], input, pos);
      if o.result == FullMatch then Taken(from, o.pos, o.caps)
      else ScanRules(rules, input, pos, from + 1, partial || o.result == PartialMatch)
  }

  /** The outcome of a call to parse: its answer, the new current state, the buffer left, the reactions run. */
  datatype ParseRun = ParseRun(ok: bool, state: nat, rest: string, events: seq<Event>)

  function Then(evs: seq<Event>, r: ParseRun): ParseRun
  {
    r.(events := evs + r.events)
  }

  /** The outer loop of parse, from position pos in state cur. */
  function Loop(states: seq<State>, cur: nat, input: string, pos: nat): (r: ParseRun)
    requires WellFormed(states) && cur < |states| && pos <= |input|
    ensures r.state < |states|
    decreases |input| - pos
  {
    if pos == |input| then ParseRun(true, cur, input[pos..], [])
    else
      match ScanRules(states[cur].rules, input, pos, 0, false)
      case Taken(i, p, caps) =>
        var t := states[cur].rules[i];
        Then([Fired(t.action, caps)], Loop(states, t.target, input, p))
      case NeedMore => ParseRun(true, cur, input[pos..], [])
      case NoRule => ParseRun(false, ErrorState, input, [])
  }

  /** StateMachine::parse. */
  function ParseInput(states: seq<State>, cur: nat, input: string): (r: ParseRun)
    requires WellFormed(states) && cur < |states|
    ensures r.state < |states|
  {
    if IsError(states[cur]) then ParseRun(false, cur, input, []) else Loop(states, cur, input, 0)
  }

  // ---- properties of one scan

  /** A taken rule is preceded by no full match. */
  lemma {:induction false} ScanTakenFirst(rules: seq<Transition>, input: string, pos: nat, from: nat, partial: bool)
    requires pos <= |input| && from <= |rules| && RulesHalt(rules)
    ensures var s := ScanRules(rules, input, pos, from, partial);
      s.Taken? ==> forall k :: from <= k < s.rule ==> Attempt(rules[k], input, pos).result != FullMatch
    decreases |rules| - from
  {
    if from < |rules| {
      var o := Attempt(rules[from], input, pos);
      if o.result != FullMatch {
        ScanTakenFirst(rules, input, pos, from + 1, partial || o.result == PartialMatch);
      }
    }
  }

  /** A rule is taken exactly when some rule fully matches. */
  lemma {:induction false} ScanTakenIff(rules: seq<Transition>, input: string, pos: nat, from: nat, partial: bool)
    requires pos <= |input| && from <= |rules| && RulesHalt(rules)
    ensures ScanRules(rules, input, pos, from, partial).Taken?
        <==> exists k :: from <= k < |rules| && Attempt(rules[k], input, pos).result == FullMatch
    decreases |rules| - from
  {
    if from < |rules| {
      var o := Attempt(rules[from], input, pos);
      if o.result != FullMatch {
        ScanTakenIff(rules, input, pos, from + 1, partial || o.result == PartialMatch);
      }
    }
  }

  /** The scan waits for more input exactly when no rule fully matches and one matched partially. */
  lemma {:induction false} ScanNeedMoreIff(rules: seq<Transition>, input: string, pos: nat, from: nat, partial: bool)
    requires pos <= |input| && from <= |rules| && RulesHalt(rules)
    ensures ScanRules(rules, input, pos, from, partial).NeedMore? <==>
      && (forall k :: from <= k < |rules| ==> Attempt(rules[k], input, pos).result != FullMatch)
      && (partial || exists k :: from <= k < |rules| && Attempt(rules[k], input, pos).result == PartialMatch)
    decreases |rules| - from
  {
    if from < |rules| {
      var o := Attempt(rules[from], input, pos);
      if o.result != FullMatch {
        ScanNeedMoreIff(rules, input, pos, from + 1, partial || o.result == PartialMatch);
      }
    }
  }

  /** The scan fails exactly when every rule answers no match. */
  lemma {:induction false} ScanNoRuleIff(rules: seq<Transition>, input: string, pos: nat, from: nat, partial: bool)
    requires pos <= |input| && from <= |rules| && RulesHalt(rules)
    ensures ScanRules(rules, input, pos, from, partial).NoRule? <==>
      && !partial
      && forall k :: from <= k < |rules| ==> Attempt(rules[k], input, pos).result == NoMatch
    decreases |rules| - from
  {
    if from < |rules| {
      var o := Attempt(rules[from], input, pos);
      if o.result != FullMatch {
        ScanNoRuleIff(rules, input, pos, from + 1, partial || o.result == PartialMatch);
      }
    }
  }

  /**
   * Rules are tried in order and the first full match wins: a rule is
   * taken exactly when it fully matches and no earlier one does; a
   * partial match of an earlier rule does not block a later full match.
   * The scan waits for more input exactly when no rule fully matches and
   * one matches partially, and fails exactly when every rule says NoMatch.
   */
  lemma ScanSpec(rules: seq<Transition>, input: string, pos: nat, from: nat, partial: bool)
    requires pos <= |input| && from <= |rules| && RulesHalt(rules)
    ensures var s := ScanRules(rules, input, pos, from, partial);
      && (s.Taken? ==> forall k :: from <= k < s.rule ==> Attempt(rules[k], input, pos).result != FullMatch)
      && (s.Taken? <==> exists k :: from <= k < |rules| && Attempt(rules[k], input, pos).result == FullMatch)
      && (s.NeedMore? <==>
            && (forall k :: from <= k < |rules| ==> Attempt(rules[k], input, pos).result != FullMatch)
            && (partial || exists k :: from <= k < |rules| && Attempt(rules[k], input, pos).result == PartialMatch))
      && (s.NoRule? <==>
            && !partial
            && forall k :: from <= k < |rules| ==> Attempt(rules[k], input, pos).result == NoMatch)
  {
    ScanTakenFirst(rules, input, pos, from, partial);
    ScanTakenIff(rules, input, pos, from, partial);
    ScanNeedMoreIff(rules, input, pos, from, partial);
    ScanNoRuleIff(rules, input, pos, from, partial);
  }

  /** When rule i fully matches and no earlier one does, the scan takes rule i. */
  lemma {:induction false} ScanTakesFirst(rules: seq<Transition>, input: string, pos: nat, from: nat, partial: bool, i: nat)
    requires pos <= |input| && RulesHalt(rules) && from <= i < |rules|
    requires Attempt(rules[i], input, pos).result == FullMatch
    requires forall k :: from <= k < i ==> Attempt(rules[k], input, pos).result != FullMatch
    ensures ScanRules(rules, input, pos, from, partial)
         == Taken(i, Attempt(rules[i], input, pos).pos, Attempt(rules[i], input, pos).caps)
    decreases i - from
  {
    if from < i {
      var o := Attempt(rules[from], input, pos);
      ScanTakesFirst(rules, input, pos, from + 1, partial || o.result == PartialMatch, i);
    }
  }

  // ---- properties of parse

  /** In an error state parse answers false at once and leaves everything as it was. */
  lemma ErrorStateRejects(states: seq<State>, cur: nat, input: string)
    requires WellFormed(states) && cur < |states| && IsError(states[cur])
    ensures ParseInput(states, cur, input) == ParseRun(false, cur, input, [])
  {
  }

  /** A machine whose initial state has no rules (fresh, or reset with none added) fails at once. */
  lemma FreshMachineFails(input: string)
    ensures WellFormed([State("", []), State("", [])])
    ensures ParseInput([State("", []), State("", [])], InitState, input) == ParseRun(false, InitState, input, [])
  {
  }

  lemma {:induction false} LoopShape(states: seq<State>, cur: nat, input: string, pos: nat)
    requires WellFormed(states) && cur < |states| && pos <= |input|
    ensures var r := Loop(states, cur, input, pos);
      && (!r.ok ==> r.state == ErrorState && r.rest == input)
      && (r.ok ==> |r.rest| <= |input| - pos && r.rest == input[|input| - |r.rest|..])
      && (r.ok ==> |r.events| <= |input| - pos - |r.rest|)
      && |r.events| <= |input| - pos
    decreases |input| - pos
  {
    if pos < |input| {
      var s := ScanRules(states[cur].rules, input, pos, 0, false);
      if s.Taken? {
        LoopShape(states, states[cur].rules[s.rule].target, input, s.pos);
      }
    }
  }

  /**
   * A failed parse leaves the buffer untouched and the machine in a state
   * without rules, so every later call fails too (the error is sticky).
   */
  lemma {:induction false} FailureIsSticky(states: seq<State>, cur: nat, input: string, later: string)
    requires WellFormed(states) && cur < |states|
    requires !ParseInput(states, cur, input).ok
    ensures var r := ParseInput(states, cur, input);
      && r.rest == input
      && IsError(states[r.state])
      && ParseInput(states, r.state, later) == ParseRun(false, r.state, later, [])
  {
    if !IsError(states[cur]) {
      LoopShape(states, cur, input, 0);
    }
  }

  /**
   * A successful parse leaves exactly an unconsumed suffix of the input in
   * the buffer, and every reaction that ran consumed at least one
   * character of the removed prefix.
   */
  lemma {:induction false} SuccessTrimsPrefix(states: seq<State>, cur: nat, input: string)
    requires WellFormed(states) && cur < |states|
    requires ParseInput(states, cur, input).ok
    ensures var r := ParseInput(states, cur, input);
      && |r.rest| <= |input| && r.rest == input[|input| - |r.rest|..]
      && |r.events| <= |input| - |r.rest|
  {
    LoopShape(states, cur, input, 0);
  }

  /**
   * One step of parse: when the current state's scan takes a rule, that
   * rule's reaction runs first, exactly once, with the values its matcher
   * captured, and parsing continues in the rule's target state right
   * after the match.
   */
  lemma {:induction false} StepTakesFirstFullMatch(states: seq<State>, cur: nat, input: string, pos: nat, i: nat)
    requires WellFormed(states) && cur < |states| && pos < |input|
    requires i < |states[cur].rules|
    requires Attempt(states[cur].rules[i], input, pos).result == FullMatch
    requires forall k :: 0 <= k < i ==> Attempt(states[cur].rules[k], input, pos).result != FullMatch
    ensures var t := states[cur].rules[i]; var o := Attempt(t, input, pos);
      Loop(states, cur, input, pos) == Then([Fired(t.action, o.caps)], Loop(states, t.target, input, o.pos))
  {
    ScanTakesFirst(states[cur].rules, input, pos, 0, false, i);
  }

  /** A rule the scan takes from rule i on adds its reaction to those already run and moves parsing on. */
  lemma TakenStep(states: seq<State>, cur: nat, input: string, pos: nat, i: nat, fired: seq<Event>, partial: bool)
    requires WellFormed(states) && cur < |states| && pos < |input| && i < |states[cur].rules|
    requires ScanRules(states[cur].rules, input, pos, 0, false) == ScanRules(states[cur].rules, input, pos, i, partial)
    requires Attempt(states[cur].rules[i], input, pos).result == FullMatch
    ensures var t := states[cur].rules[i]; var o := Attempt(t, input, pos);
      Then(fired, Loop(states, cur, input, pos)) == Then(fired + [Fired(t.action, o.caps)], Loop(states, t.target, input, o.pos))
  {
    var t := states[cur].rules[i];
    var o := Attempt(t, input, pos);
    var r := Loop(states, t.target, input, o.pos);
    assert Loop(states, cur, input, pos) == Then([Fired(t.action, o.caps)], r);
    assert fired + ([Fired(t.action, o.caps)] + r.events) == (fired + [Fired(t.action, o.caps)]) + r.events;
  }

  /** A scan that took no rule stops parsing: it waits for more input after a partial match and fails otherwise. */
  lemma StopStep(states: seq<State>, cur: nat, input: string, pos: nat, fired: seq<Event>, partial: bool)
    requires WellFormed(states) && cur < |states| && pos < |input|
    requires ScanRules(states[cur].rules, input, pos, 0, false) == ScanRules(states[cur].rules, input, pos, |states[cur].rules|, partial)
    ensures partial ==> Then(fired, Loop(states, cur, input, pos)) == ParseRun(true, cur, input[pos..], fired)
    ensures !partial ==> Then(fired, Loop(states, cur, input, pos)) == ParseRun(false, ErrorState, input, fired)
  {
    assert fired + [] == fired;
  }

  /** The machine: its states, the current one, and the reactions run so far. */
  class Machine {
    var states: seq<State>
    var cur: nat
    var trace: seq<Event>

    predicate Valid()
      reads this
    {
      WellFormed(states) && cur < |states|
    }

    /** A new machine has only its (empty) initial and error states and starts in the initial one. */
    constructor ()
      ensures Valid() && states == [State("init", []), State("error", [])]
      ensures cur == InitState && trace == []
    {
      states := [State("init", []), State("error", [])];
      cur := InitState;
      trace := [];
    }

    /** Declares one more state of the owner's (a State member); it starts without rules. */
    method AddState(name: string) returns (id: nat)
      requires Valid()
      modifies this
      ensures Valid() && id == |old(states)| && states == old(states) + [State(name, [])]
      ensures cur == old(cur) && trace == old(trace)
    {
      id := |states|;
      states := states + [State(name, [])];
    }

    /** addRule: appends the transition at the end of the source state's list. */
    method AddRule(from: nat, m: Matcher, to: nat, action: Action)
      requires Valid() && from < |states| && from != ErrorState
      requires ValidRule(Transition(m, action, to), |states|)
      modifies this
      ensures Valid()
      ensures states == old(states)[from := State(old(states)[from].name, old(states)[from].rules + [Transition(m, action, to)])]
      ensures cur == old(cur) && trace == old(trace)
    {
      var s := states[from];
      states := states[from := State(s.name, s.rules + [Transition(m, action, to)])];
    }

    /** setState: only the current state changes. */
    method SetState(s: nat)
      requires Valid() && s < |states|
      modifies this
      ensures Valid() && cur == s && states == old(states) && trace == old(trace)
    {
      cur := s;
    }

    /** reset: back to the initial state; nothing else changes. */
    method Reset()
      requires Valid()
      modifies this
      ensures Valid() && cur == InitState && states == old(states) && trace == old(trace)
    {
      cur := InitState;
    }

    /**
     * Transition::matches: -2 for NoMatch, -1 for PartialMatch, the new
     * position for FullMatch; only a full match runs the reaction, once.
     * The capture list is sized by the matcher's capture count.
     */
    method Matches(t: Transition, input: string, pos: nat) returns (code: int)
      requires pos <= |input| && Compiles(t.matcher) && !HasKleene(t.matcher) && Halts(t.matcher)
      modifies this
      ensures states == old(states) && cur == old(cur)
      ensures var o := Attempt(t, input, pos);
        && (o.result == NoMatch ==> code == -2 && trace == old(trace))
        && (o.result == PartialMatch ==> code == -1 && trace == old(trace))
        && (o.result == FullMatch ==> code == o.pos && trace == old(trace) + [Fired(t.action, o.caps)])
    {
      HaltsSound(t.matcher, input, pos);
      var caps := new CapList.Sized(CapCount(t.matcher));
      var r, p := MatchAt(t.matcher, input, pos, caps);
      if r == NoMatch {
        code := -2;
      } else if r == PartialMatch {
        code := -1;
      } else {
        FullMatchVector(t.matcher, input, pos);
        trace := trace + [Fired(t.action, caps.caps)];
        code := p;
      }
    }

    /**
     * parse: consumes complete matches from the buffer, then answers true
     * with the unconsumed suffix, or false (buffer untouched, error state)
     * when no rule of the current state can match.
     */
    method Parse(input: string) returns (ok: bool, rest: string)
      requires Valid()
      modifies this
      ensures Valid() && states == old(states)
      ensures var run := ParseInput(old(states), old(cur), input);
        ok == run.ok && rest == run.rest && cur == run.state && trace == old(trace) + run.events
    {
      if IsError(states[cur]) {
        return false, input;
      }
      var pos: nat := 0;
      ghost var fired: seq<Event> := [];
      ghost var cur0 := cur;
      assert Then([], Loop(states, cur, input, 0)) == Loop(states, cur, input, 0);
      while pos < |input|
        invariant Valid() && states == old(states) && pos <= |input|
        invariant trace == old(trace) + fired
        invariant Loop(states, cur0, input, 0) == Then(fired, Loop(states, cur, input, pos))
        decreases |input| - pos
      {
        var rules := states[cur].rules;
        var result := NoMatch;
        var i := 0;
        ghost var curAt := cur;
        ghost var posAt := pos;
        ghost var scan := ScanRules(rules, input, pos, 0, false);
        while i < |rules|
          invariant 0 <= i <= |rules| && result != FullMatch
          invariant scan == ScanRules(rules, input, pos, i, result == PartialMatch)
          invariant trace == old(trace) + fired && states == old(states) && cur == curAt && pos == posAt
        {
          var newPos := Matches(rules[i], input, pos);
          if newPos >= 0 {
            var o := Attempt(rules[i], input, pos);
            TakenStep(states, cur, input, pos, i, fired, result == PartialMatch);
            fired := fired + [Fired(rules[i].action, o.caps)];
            pos := newPos;
            cur := rules[i].target;
            result := FullMatch;
            break;
          } else if newPos == -1 {
            result := PartialMatch;
          }
          i := i + 1;
        }
        if result != FullMatch {
          StopStep(states, cur, input, pos, fired, result == PartialMatch);
        }
        if result == NoMatch {
          cur := ErrorState;
          return false, input;
        }
        if result == PartialMatch {
          break;
        }
      }
      rest := input[pos..];
      ok := true;
    }
  }
}
