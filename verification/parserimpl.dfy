/**
 * The imperative side of core/parser.h: the capture list a match appends
 * to (CapList, SizedCapList) and the match() members of the matchers,
 * proved to compute Parser.Run.
 */
module ParserImpl {
  import opened Globals
  import opened Parser

  /** The state of a CapList: its vector and the number of slots in use. */
  datatype CapVec = CapVec(caps: seq<Cap>, used: nat)

  function Nulls(n: nat): (s: seq<Cap>)
    ensures |s| == n && forall i :: 0 <= i < n ==> s[i] == NullCap
  {
    seq(n, _ => NullCap)
  }

  /**
   * SizedCapList<S>: S empty slots for a known count, an empty vector
   * (the CapList default constructor) for the unknown count -1.
   */
  function FreshList(count: int): (v: CapVec)
    ensures v.used == 0
  {
    if count >= 0 then CapVec(Nulls(count), 0) else CapVec([], 0)
  }

  // ---- operator<< as written

  /**
   * CapList::operator<< as written: a free slot is overwritten and counted;
   * when there is none the vector grows, but the new slot is not counted
   * as used.
   */
  function AppendAsWritten(v: CapVec, x: Cap): CapVec
  {
    if v.used < |v.caps| then CapVec(v.caps[v.used := x], v.used + 1) else CapVec(v.caps + [x], v.used)
  }

  function AppendAllAsWritten(v: CapVec, xs: seq<Cap>): CapVec
    decreases |xs|
  {
    if xs == [] then v else AppendAllAsWritten(AppendAsWritten(v, xs[0]), xs[1..])
  }

  /** The values at odd positions: x1, x3, x5, ... */
  function Odds(xs: seq<Cap>): (r: seq<Cap>)
    ensures |r| == |xs| / 2
    decreases |xs|
  {
    if |xs| < 2 then [] else [xs[1]] + Odds(xs[2..])
  }

  /**
   * Appending two values to a default-constructed CapList keeps only the
   * second one: the first is overwritten.
   */
  lemma UnsizedAppendOverwrites(a: Cap, b: Cap)
    ensures AppendAllAsWritten(CapVec([], 0), [a, b]) == CapVec([b], 1)
  {
    assert [a, b][1..] == [b];
    assert [b][1..] == [];
    var v1 := AppendAsWritten(CapVec([], 0), a);
    assert v1 == CapVec([a], 0);
    assert [a][0 := b] == [b];
    var v2 := AppendAsWritten(v1, b);
    assert v2 == CapVec([b], 1);
    assert AppendAllAsWritten(v1, [b]) == AppendAllAsWritten(v2, []);
  }

  /**
   * In general a default-constructed CapList that is appended an even
   * number of values holds only the odd-numbered ones: half the captures
   * are lost, and size() is half the number of appends.
   */
  lemma {:induction false} UnsizedAsWrittenKeepsOdds(xs: seq<Cap>)
    requires |xs| % 2 == 0
    ensures AppendAllAsWritten(CapVec([], 0), xs) == CapVec(Odds(xs), |xs| / 2)
  {
    AsWrittenPairs(CapVec([], 0), xs);
  }

  lemma {:induction false} AsWrittenPairs(v: CapVec, xs: seq<Cap>)
    requires v.used == |v.caps| && |xs| % 2 == 0
    ensures AppendAllAsWritten(v, xs) == CapVec(v.caps + Odds(xs), v.used + |xs| / 2)
    decreases |xs|
  {
    if xs != [] {
      var w := AppendAsWritten(AppendAsWritten(v, xs[0]), xs[1]);
      assert w == CapVec(v.caps + [xs[1]], v.used + 1);
      assert xs[1..][1..] == xs[2..];
      assert AppendAllAsWritten(v, xs) == AppendAllAsWritten(w, xs[2..]);
      AsWrittenPairs(w, xs[2..]);
      assert v.caps + [xs[1]] + Odds(xs[2..]) == v.caps + Odds(xs);
    }
  }

  /**
   * A pre-sized list appended no more values than it has slots behaves
   * like the corrected one: the values in order, then the unused slots.
   */
  lemma {:induction false} SizedAsWrittenAgrees(v: CapVec, xs: seq<Cap>)
    requires Tidy(v) && v.used + |xs| <= |v.caps|
    ensures AppendAllAsWritten(v, xs) == PushAll(v, xs)
    decreases |xs|
  {
    if xs != [] {
      PushedTidy(v, xs[0]);
      SizedAsWrittenAgrees(Pushed(v, xs[0]), xs[1..]);
    }
  }

  // ---- the corrected operator<<

  /** The slots past the used ones are still empty. */
  predicate Tidy(v: CapVec)
  {
    v.used <= |v.caps| && forall i :: v.used <= i < |v.caps| ==> v.caps[i] == NullCap
  }

  /** The corrected operator<<: the value always takes the next slot, which then counts as used. */
  function Pushed(v: CapVec, x: Cap): (w: CapVec)
    requires v.used <= |v.caps|
    ensures w.used == v.used + 1 <= |w.caps| && w.caps[v.used] == x
    ensures w.caps[..v.used] == v.caps[..v.used]
  {
    if v.used < |v.caps| then CapVec(v.caps[v.used := x], v.used + 1) else CapVec(v.caps + [x], v.used + 1)
  }

  function PushAll(v: CapVec, xs: seq<Cap>): (w: CapVec)
    requires v.used <= |v.caps|
    ensures w.used == v.used + |xs| <= |w.caps|
    decreases |xs|
  {
    if xs == [] then v else PushAll(Pushed(v, xs[0]), xs[1..])
  }

  lemma PushedTidy(v: CapVec, x: Cap)
    requires Tidy(v)
    ensures Tidy(Pushed(v, x))
    ensures |Pushed(v, x).caps| == if v.used < |v.caps| then |v.caps| else v.used + 1
  {
  }

  /**
   * Appending values one by one with the corrected operator<< keeps every
   * one of them, in order, after the values already held; the vector
   * grows only when the slots run out.
   */
  lemma {:induction false} PushAllSpec(v: CapVec, xs: seq<Cap>)
    requires Tidy(v)
    ensures var w := PushAll(v, xs);
      && Tidy(w) && w.used == v.used + |xs|
      && w.caps[..w.used] == v.caps[..v.used] + xs
      && |w.caps| == (if v.used + |xs| <= |v.caps| then |v.caps| else v.used + |xs|)
    decreases |xs|
  {
    if xs != [] {
      var u := Pushed(v, xs[0]);
      PushedTidy(v, xs[0]);
      PushAllSpec(u, xs[1..]);
      var w := PushAll(u, xs[1..]);
      assert u.caps[..u.used] == v.caps[..v.used] + [xs[0]];
      assert w.caps[..w.used] == v.caps[..v.used] + [xs[0]] + xs[1..];
      assert [xs[0]] + xs[1..] == xs;
    }
  }

  lemma {:induction false} PushAllAppend(v: CapVec, xs: seq<Cap>, ys: seq<Cap>)
    requires v.used <= |v.caps|
    ensures PushAll(v, xs + ys) == PushAll(PushAll(v, xs), ys)
    decreases |xs|
  {
    if xs != [] {
      assert (xs + ys)[1..] == xs[1..] + ys;
      PushAllAppend(Pushed(v, xs[0]), xs[1..], ys);
    } else {
      assert xs + ys == ys;
    }
  }

  /**
   * The vector a transition hands to its reaction after a full match is
   * exactly the list of captured values: with a known count every slot
   * is filled, with an unknown count the list grows to fit.
   */
  lemma FullMatchVector(m: Matcher, input: string, pos: nat)
    requires pos <= |input| && Compiles(m)
    requires Run(m, input, pos).Outcome? && Run(m, input, pos).result == FullMatch
    ensures PushAll(FreshList(CapCount(m)), Run(m, input, pos).caps).caps == Run(m, input, pos).caps
  {
    var xs := Run(m, input, pos).caps;
    var v := FreshList(CapCount(m));
    if !HasKleene(m) {
      CapturesBoundedByCount(m, input, pos);
    }
    PushAllSpec(v, xs);
    var w := PushAll(v, xs);
    assert w.caps[..w.used] == w.caps;
  }

  /** CapList: the capture vector a match appends to. */
  class CapList {
    var caps: seq<Cap>
    var used: nat

    function Vec(): CapVec
      reads this
    {
      CapVec(caps, used)
    }

    predicate Valid()
      reads this
    {
      Tidy(Vec())
    }

    /** CapList(): no slots; values are appended by growing the vector. */
    constructor Unsized()
      ensures Valid() && Vec() == FreshList(-1)
    {
      caps := [];
      used := 0;
    }

    /** CapList(size): size empty slots, filled in order by the appends. */
    constructor Sized(size: nat)
      ensures Valid() && Vec() == FreshList(size)
    {
      caps := Nulls(size);
      used := 0;
    }

    /** operator<< as written (see AppendAsWritten). */
    method Append(x: Cap)
      modifies this
      ensures Vec() == AppendAsWritten(old(Vec()), x)
    {
      if used < |caps| {
        caps := caps[used := x];
        used := used + 1;
      } else {
        caps := caps + [x];
      }
    }

    /** operator<< corrected: the appended value always counts as used. */
    method Push(x: Cap)
      requires Valid()
      modifies this
      ensures Valid() && Vec() == Pushed(old(Vec()), x)
    {
      PushedTidy(Vec(), x);
      if used < |caps| {
        caps := caps[used := x];
      } else {
        caps := caps + [x];
      }
      used := used + 1;
    }
  }

  /** Pairs a capture sequence with the outcome of the rest of a match. */
  function Join(acc: seq<Cap>, o: Outcome): Outcome
    requires o.Outcome?
  {
    Outcome(o.result, o.pos, acc + o.caps)
  }

  /**
   * The match() members: apply m to input at pos0, appending the captured
   * values to caps. The answer, the new position and the appended values
   * are those of Run. The source never returns for a diverging matcher,
   * so Run must not diverge here.
   */
  method MatchAt(m: Matcher, input: string, pos0: nat, caps: CapList) returns (r: ParseResult, pos: nat)
    requires pos0 <= |input| && Run(m, input, pos0).Outcome? && caps.Valid()
    modifies caps
    ensures caps.Valid()
    ensures r == Run(m, input, pos0).result && pos == Run(m, input, pos0).pos
    ensures caps.Vec() == PushAll(old(caps.Vec()), Run(m, input, pos0).caps)
    decreases m, 1
  {
    match m
    case Literal(text) =>
      r, pos := MatchLiteralAt(text, input, pos0);
    case Number =>
      r, pos := MatchNumberAt(input, pos0, caps);
    case Delimited(delim, allowEmpty) =>
      r, pos := MatchDelimitedAt(delim, allowEmpty, input, pos0, caps);
    case Whitespace =>
      pos := SkipWhitespace(input, pos0);
      r := FullMatch;
    case Concat(a, b) =>
      ghost var start := caps.Vec();
      r, pos := MatchAt(a, input, pos0, caps);
      if r == FullMatch {
        r, pos := MatchAt(b, input, pos, caps);
        PushAllAppend(start, Run(a, input, pos0).caps, Run(b, input, Run(a, input, pos0).pos).caps);
      }
    case Kleene(body) =>
      r, pos := MatchKleeneAt(body, input, pos0, caps);
  }

  /** Literal::match. */
  method MatchLiteralAt(text: string, input: string, pos0: nat) returns (r: ParseResult, pos: nat)
    requires pos0 <= |input|
    ensures Outcome(r, pos, []) == MatchLiteral(text, input, pos0)
  {
    pos := pos0;
    if |input| < |text| {
      r := if input <= text then PartialMatch else NoMatch;
    } else if Mid(input, pos, |text|) == text {
      pos := pos + |text|;
      r := FullMatch;
    } else {
      r := NoMatch;
    }
  }

  /** Number::match: reads digits while they last. */
  method MatchNumberAt(input: string, pos0: nat, caps: CapList) returns (r: ParseResult, pos: nat)
    requires pos0 <= |input| && caps.Valid()
    modifies caps
    ensures caps.Valid()
    ensures var o := MatchNumber(input, pos0, 0, false);
      r == o.result && pos == o.pos && caps.Vec() == PushAll(old(caps.Vec()), o.caps)
  {
    pos := pos0;
    var number: nat := 0;
    var found := false;
    while pos < |input|
      invariant pos0 <= pos <= |input|
      invariant MatchNumber(input, pos, number, found) == MatchNumber(input, pos0, 0, false)
      invariant caps.Vec() == old(caps.Vec()) && caps.Valid()
    {
      if !IsDigit(input[pos]) {
        if !found {
          return NoMatch, pos;
        }
        caps.Push(NumCap(number));
        return FullMatch, pos;
      }
      number := number * 10 + DigitValue(input[pos]);
      pos := pos + 1;
      found := true;
    }
    r := PartialMatch;
  }

  /** String<Delim, AllowEmpty>::match. */
  method MatchDelimitedAt(delim: char, allowEmpty: bool, input: string, pos0: nat, caps: CapList)
    returns (r: ParseResult, pos: nat)
    requires pos0 <= |input| && caps.Valid()
    modifies caps
    ensures caps.Valid()
    ensures var o := MatchDelimited(delim, allowEmpty, input, pos0);
      o.Outcome? && r == o.result && pos == o.pos && caps.Vec() == PushAll(old(caps.Vec()), o.caps)
  {
    pos := pos0;
    if |input| == 0 {
      return PartialMatch, pos;
    }
    var d := IndexOf(input, delim, pos);
    if d == -1 {
      return PartialMatch, pos;
    }
    if !allowEmpty && d == pos {
      return NoMatch, pos;
    }
    caps.Push(TextCap(input[pos..d]));
    pos := d;
    r := FullMatch;
  }

  /** Whitespace::match: skips spaces, always a full match. */
  method SkipWhitespace(input: string, pos0: nat) returns (pos: nat)
    requires pos0 <= |input|
    ensures pos == SkipSpaces(input, pos0)
  {
    pos := pos0;
    while pos < |input| && IsSpace(input[pos])
      invariant pos0 <= pos <= |input|
      invariant SkipSpaces(input, pos) == SkipSpaces(input, pos0)
    {
      pos := pos + 1;
    }
  }

  /** One full repetition of a Kleene body, seen from the star's outcome. */
  lemma KleeneStep(body: Matcher, input: string, p: nat)
    requires p <= |input| && RunKleene(body, input, p).Outcome?
    ensures Run(body, input, p).Outcome?
    ensures var ob := Run(body, input, p);
      ob.result == FullMatch ==>
        && p < ob.pos
        && RunKleene(body, input, ob.pos).Outcome?
        && RunKleene(body, input, p) == Join(ob.caps, RunKleene(body, input, ob.pos))
    ensures var ob := Run(body, input, p);
      ob.result != FullMatch ==>
        RunKleene(body, input, p) == Outcome(if ob.result == PartialMatch then PartialMatch else FullMatch, ob.pos, ob.caps)
  {
  }

  lemma JoinJoin(xs: seq<Cap>, ys: seq<Cap>, o: Outcome)
    requires o.Outcome?
    ensures Join(xs, Join(ys, o)) == Join(xs + ys, o)
  {
    assert xs + (ys + o.caps) == (xs + ys) + o.caps;
  }

  /** Kleene::match: repeats the body while it fully matches. */
  method MatchKleeneAt(body: Matcher, input: string, pos0: nat, caps: CapList) returns (r: ParseResult, pos: nat)
    requires pos0 <= |input| && RunKleene(body, input, pos0).Outcome? && caps.Valid()
    modifies caps
    ensures caps.Valid()
    ensures var o := RunKleene(body, input, pos0);
      r == o.result && pos == o.pos && caps.Vec() == PushAll(old(caps.Vec()), o.caps)
    decreases Kleene(body), 0
  {
    ghost var start := caps.Vec();
    ghost var acc: seq<Cap> := [];
    pos := pos0;
    assert acc + RunKleene(body, input, pos).caps == RunKleene(body, input, pos).caps;
    while true
      invariant pos0 <= pos <= |input| && caps.Valid()
      invariant RunKleene(body, input, pos).Outcome?
      invariant RunKleene(body, input, pos0) == Join(acc, RunKleene(body, input, pos))
      invariant caps.Vec() == PushAll(start, acc)
      decreases |input| - pos
    {
      ghost var p := pos;
      KleeneStep(body, input, p);
      ghost var ob := Run(body, input, p);
      r, pos := MatchAt(body, input, pos, caps);
      PushAllAppend(start, acc, ob.caps);
      if r != FullMatch {
        acc := acc + ob.caps;
        break;
      }
      JoinJoin(acc, ob.caps, RunKleene(body, input, pos));
      acc := acc + ob.caps;
    }
    if r != PartialMatch {
      r := FullMatch;
    }
  }
}
