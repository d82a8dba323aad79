/**
 * The matcher algebra of the incremental parser (core/parser.h).
 *
 * A matcher is applied to an input text at a position and answers with a
 * tri-state ParseResult, the position it reached and the values it
 * captured. Run is the meaning of every matcher; ParserImpl.MatchAt is
 * the imperative code, proved equal to it.
 */
module Parser {
  import opened Globals

  datatype ParseResult = NoMatch | PartialMatch | FullMatch

  /**
   * A captured value (a QVariant): a number, a string, or the empty
   * value a pre-sized capture list is filled with.
   */
  datatype Cap = NumCap(n: nat) | TextCap(s: string) | NullCap

  /** QVariant::toUInt: a number as is, a digit string by its value, anything else 0. */
  function CapUInt(c: Cap): nat
  {
    match c
    case NumCap(n) => n
    case TextCap(s) => ParseUInt(s).1
    case NullCap => 0
  }

  /** QVariant::toString: a number in decimal, a string as is, the empty value as "". */
  function CapText(c: Cap): string
  {
    match c
    case NumCap(n) => DecimalText(n)
    case TextCap(s) => s
    case NullCap => ""
  }

  /** Converting a captured number to text and back gives the number when it fits in 32 bits, and fails otherwise. */
  lemma CapTextUInt(c: Cap)
    requires c.NumCap?
    ensures ParseUInt(CapText(c)) == if c.n < 0x1_0000_0000 then (true, CapUInt(c)) else (false, 0)
  {
    ParseUIntOfDecimalText(c.n);
  }

  /**
   * Literal, Number, String<Delim, AllowEmpty>, Whitespace, and the two
   * operators: `a << b` (Concat) and `*a` (Kleene).
   */
  datatype Matcher =
    | Literal(text: string)
    | Number
    | Delimited(delim: char, allowEmpty: bool)
    | Whitespace
    | Concat(first: Matcher, second: Matcher)
    | Kleene(body: Matcher)

  /**
   * The result of applying a matcher: the tri-state answer, the position
   * the matcher left behind and the values it appended to the capture
   * list. Diverges stands for the source never returning: a Kleene body
   * that fully matches without advancing makes its loop spin forever.
   */
  datatype Outcome = Outcome(result: ParseResult, pos: nat, caps: seq<Cap>) | Diverges

  // ---- Literal

  /** QString::mid(pos, n): at most n characters from pos. */
  function Mid(s: string, pos: nat, n: nat): (r: string)
    requires pos <= |s|
    ensures |r| <= n && r <= s[pos..]
    ensures pos + n <= |s| ==> |r| == n
  {
    s[pos..if pos + n <= |s| then pos + n else |s|]
  }

  /**
   * Literal::match. The partial-match test compares the literal with the
   * WHOLE input, not with the text from pos on.
   */
  function MatchLiteral(text: string, input: string, pos: nat): (o: Outcome)
    requires pos <= |input|
  {
    if |input| < |text| then
      Outcome(if input <= text then PartialMatch else NoMatch, pos, [])
    else if Mid(input, pos, |text|) == text then
      Outcome(FullMatch, pos + |text|, [])
    else
      Outcome(NoMatch, pos, [])
  }

  // ---- Number

  /**
   * Number::match, one loop iteration per call: value is the number read
   * so far and found says whether a digit was seen.
   */
  function MatchNumber(input: string, pos: nat, value: nat, found: bool): (o: Outcome)
    requires pos <= |input|
    ensures o.Outcome? && pos <= o.pos <= |input|
    decreases |input| - pos
  {
    if pos == |input| then Outcome(PartialMatch, pos, [])
    else if !IsDigit(input[pos]) then
      if found then Outcome(FullMatch, pos, [NumCap(value)]) else Outcome(NoMatch, pos, [])
    else MatchNumber(input, pos + 1, value * 10 + DigitValue(input[pos]), true)
  }

  /** The number of consecutive digits of input starting at pos. */
  function DigitRun(input: string, pos: nat): (k: nat)
    requires pos <= |input|
    ensures pos + k <= |input| && AllDigits(input[pos..pos + k])
    ensures pos + k < |input| ==> !IsDigit(input[pos + k])
    decreases |input| - pos
  {
    if pos == |input| || !IsDigit(input[pos]) then 0
    else
      var k := DigitRun(input, pos + 1);
      assert input[pos..pos + 1 + k] == [input[pos]] + input[pos + 1..pos + 1 + k];
      1 + k
  }

  // ---- String<Delim, AllowEmpty>

  /** QString::indexOf(c, from): the first occurrence of c at or after from, or -1. */
  function IndexOf(s: string, c: char, from: nat): (k: int)
    requires from <= |s|
    ensures k == -1 || (from <= k < |s| && s[k] == c)
    ensures forall j :: from <= j < (if k == -1 then |s| else k) ==> s[j] != c
    decreases |s| - from
  {
    if from == |s| then -1 else if s[from] == c then from else IndexOf(s, c, from + 1)
  }

  /** String<Delim, AllowEmpty>::match: captures the text up to (not including) the delimiter. */
  function MatchDelimited(delim: char, allowEmpty: bool, input: string, pos: nat): (o: Outcome)
    requires pos <= |input|
  {
    if |input| == 0 then Outcome(PartialMatch, pos, [])
    else
      var d := IndexOf(input, delim, pos);
      if d == -1 then Outcome(PartialMatch, pos, [])
      else if !allowEmpty && d == pos then Outcome(NoMatch, pos, [])
      else Outcome(FullMatch, d, [TextCap(input[pos..d])])
  }

  // ---- Whitespace

  /** QChar::isSpace restricted to ASCII: space, tab, line feed, vertical tab, form feed, return. */
  predicate IsSpace(c: char)
  {
    c == ' ' || 9 <= c as int <= 13
  }

  function SkipSpaces(input: string, pos: nat): (p: nat)
    requires pos <= |input|
    ensures pos <= p <= |input|
    ensures forall j :: pos <= j < p ==> IsSpace(input[j])
    ensures p < |input| ==> !IsSpace(input[p])
    decreases |input| - pos
  {
    if pos < |input| && IsSpace(input[pos]) then SkipSpaces(input, pos + 1) else pos
  }

  // ---- the meaning of every matcher

  /**
   * Applies a matcher. Concat runs its second part only after a full
   * match of the first and otherwise answers with the first's result;
   * values a failed part captured stay captured, and a partial match
   * keeps the position it reached.
   */
  function Run(m: Matcher, input: string, pos: nat): (o: Outcome)
    requires pos <= |input|
    ensures o.Outcome? ==> pos <= o.pos <= |input|
    decreases m, |input| - pos + 1
  {
    match m
    case Literal(t) => MatchLiteral(t, input, pos)
    case Number => MatchNumber(input, pos, 0, false)
    case Delimited(d, e) => MatchDelimited(d, e, input, pos)
    case Whitespace => Outcome(FullMatch, SkipSpaces(input, pos), [])
    case Concat(a, b) =>
      var oa := Run(a, input, pos);
      if oa.Diverges? then Diverges
      else if oa.result != FullMatch then oa
      else
        var ob := Run(b, input, oa.pos);
        if ob.Diverges? then Diverges else Outcome(ob.result, ob.pos, oa.caps + ob.caps)
    case Kleene(b) => RunKleene(b, input, pos)
  }

  /**
   * Kleene::match: repeats the body while it fully matches; the answer
   * is PartialMatch if the last attempt was partial and FullMatch
   * otherwise (zero repetitions included).
   */
  function RunKleene(body: Matcher, input: string, pos: nat): (o: Outcome)
    requires pos <= |input|
    ensures o.Outcome? ==> pos <= o.pos <= |input| && o.result != NoMatch
    decreases Kleene(body), |input| - pos
  {
    var o := Run(body, input, pos);
    if o.Diverges? then Diverges
    else if o.result == FullMatch then
      if o.pos == pos then Diverges
      else
        var rest := RunKleene(body, input, o.pos);
        if rest.Diverges? then Diverges else Outcome(rest.result, rest.pos, o.caps + rest.caps)
    else Outcome(if o.result == PartialMatch then PartialMatch else FullMatch, o.pos, o.caps)
  }

  // ---- capture counts

  /**
   * AddCapCount<A, B>: the sum of two known counts, -1 (unknown) when one
   * of them is unknown. Both unknown matches two partial specialisations
   * at once, which the compiler rejects as ambiguous.
   */
  function AddCapCount(a: int, b: int): (c: int)
    requires a >= -1 && b >= -1 && !(a == -1 && b == -1)
    ensures c >= -1
    ensures c == -1 <==> (a == -1 || b == -1)
    ensures c >= 0 ==> c == a + b
  {
    if a == -1 || b == -1 then -1 else a + b
  }

  /** A matcher whose capture count the compiler can compute. */
  predicate Compiles(m: Matcher)
  {
    match m
    case Concat(a, b) => Compiles(a) && Compiles(b) && !(HasKleene(a) && HasKleene(b))
    case Kleene(b) => Compiles(b)
    case _ => true
  }

  predicate HasKleene(m: Matcher)
  {
    match m
    case Concat(a, b) => HasKleene(a) || HasKleene(b)
    case Kleene(_) => true
    case _ => false
  }

  /**
   * capCount_: how many values a full match captures, or -1 when that is
   * not known statically (an expression with a Kleene star).
   */
  function CapCount(m: Matcher): (c: int)
    requires Compiles(m)
    ensures c >= -1
    ensures c == -1 <==> HasKleene(m)
  {
    match m
    case Literal(_) => 0
    case Number => 1
    case Delimited(_, _) => 1
    case Whitespace => 0
    case Concat(a, b) => AddCapCount(CapCount(a), CapCount(b))
    case Kleene(_) => -1
  }

  /**
   * A full match of an expression without a Kleene star captures exactly
   * capCount_ values; any other answer captures at most that many.
   */
  lemma {:induction false} CapturesBoundedByCount(m: Matcher, input: string, pos: nat)
    requires pos <= |input| && Compiles(m) && !HasKleene(m)
    ensures Run(m, input, pos).Outcome?
    ensures |Run(m, input, pos).caps| <= CapCount(m)
    ensures Run(m, input, pos).result == FullMatch ==> |Run(m, input, pos).caps| == CapCount(m)
  {
    match m
    case Literal(_) =>
    case Number => NumberCaptures(input, pos, 0, false);
    case Delimited(_, _) =>
    case Whitespace =>
    case Concat(a, b) =>
      CapturesBoundedByCount(a, input, pos);
      var oa := Run(a, input, pos);
      if oa.result == FullMatch {
        CapturesBoundedByCount(b, input, oa.pos);
      }
  }

  lemma {:induction false} NumberCaptures(input: string, pos: nat, value: nat, found: bool)
    requires pos <= |input|
    ensures var o := MatchNumber(input, pos, value, found);
      o.Outcome? && (if o.result == FullMatch then |o.caps| == 1 else o.caps == [])
    decreases |input| - pos
  {
    if pos < |input| && IsDigit(input[pos]) {
      NumberCaptures(input, pos + 1, value * 10 + DigitValue(input[pos]), true);
    }
  }

  // ---- termination and progress

  /** No Kleene star in m has a body that can fully match without advancing. */
  predicate Halts(m: Matcher)
  {
    match m
    case Concat(a, b) => Halts(a) && Halts(b)
    case Kleene(b) => Halts(b) && Advances(b)
    case _ => true
  }

  /** A full match of m always consumes at least one character. */
  predicate Advances(m: Matcher)
  {
    match m
    case Literal(t) => |t| > 0
    case Number => true
    case Delimited(_, allowEmpty) => !allowEmpty
    case Whitespace => false
    case Concat(a, b) => Advances(a) || Advances(b)
    case Kleene(_) => false
  }

  lemma {:induction false} NumberAdvances(input: string, pos: nat, value: nat, found: bool)
    requires pos <= |input|
    ensures var o := MatchNumber(input, pos, value, found);
      o.Outcome? && pos <= o.pos && (o.result == FullMatch && !found ==> o.pos > pos)
    decreases |input| - pos
  {
    if pos < |input| && IsDigit(input[pos]) {
      NumberAdvances(input, pos + 1, value * 10 + DigitValue(input[pos]), true);
    }
  }

  /**
   * A matcher that Halts never diverges, and one that also Advances
   * consumes input whenever it fully matches.
   */
  lemma {:induction false} HaltsSound(m: Matcher, input: string, pos: nat)
    requires pos <= |input| && Halts(m)
    ensures Run(m, input, pos).Outcome?
    ensures Advances(m) && Run(m, input, pos).result == FullMatch ==> Run(m, input, pos).pos > pos
    decreases m, |input| - pos + 1
  {
    match m
    case Literal(_) =>
    case Number => NumberAdvances(input, pos, 0, false);
    case Delimited(_, _) =>
    case Whitespace =>
    case Concat(a, b) =>
      HaltsSound(a, input, pos);
      var oa := Run(a, input, pos);
      if oa.result == FullMatch {
        HaltsSound(b, input, oa.pos);
      }
    case Kleene(b) => KleeneHalts(b, input, pos);
  }

  lemma {:induction false} KleeneHalts(body: Matcher, input: string, pos: nat)
    requires pos <= |input| && Halts(body) && Advances(body)
    ensures RunKleene(body, input, pos).Outcome?
    decreases Kleene(body), |input| - pos
  {
    HaltsSound(body, input, pos);
    var o := Run(body, input, pos);
    if o.result == FullMatch {
      KleeneHalts(body, input, o.pos);
    }
  }

  /** A Kleene star whose body fully matches without advancing never returns. */
  lemma KleeneOfEmptyMatchDiverges(input: string, pos: nat)
    requires pos <= |input|
    ensures Run(Kleene(Whitespace), input, pos).Diverges?
    ensures Run(Kleene(Literal("")), input, pos).Diverges?
  {
    var p := SkipSpaces(input, pos);
    assert Run(Whitespace, input, pos) == Outcome(FullMatch, p, []);
    if p != pos {
      assert SkipSpaces(input, p) == p;
      assert Run(Whitespace, input, p) == Outcome(FullMatch, p, []);
      assert RunKleene(Whitespace, input, p) == Diverges;
    }
    assert Run(Kleene(Whitespace), input, pos) == RunKleene(Whitespace, input, pos);
    assert Mid(input, pos, 0) == "";
    assert Run(Literal(""), input, pos) == Outcome(FullMatch, pos, []);
    assert Run(Kleene(Literal("")), input, pos) == RunKleene(Literal(""), input, pos);
  }

  // ---- properties of the elementary matchers

  /**
   * Literal: a full match exactly when the literal occurs at pos (the
   * position then moves past it); a partial match only when the whole
   * input is shorter than the literal and a prefix of it.
   */
  lemma LiteralSpec(text: string, input: string, pos: nat)
    requires pos <= |input|
    ensures var o := MatchLiteral(text, input, pos);
      && o.Outcome? && o.caps == []
      && (o.result == FullMatch <==> |text| <= |input| && pos + |text| <= |input| && input[pos..pos + |text|] == text)
      && (o.result == FullMatch ==> o.pos == pos + |text|)
      && (o.result != FullMatch ==> o.pos == pos)
      && (o.result == PartialMatch <==> |input| < |text| && input <= text)
  {
    var o := MatchLiteral(text, input, pos);
    if |text| <= |input| && pos + |text| <= |input| && input[pos..pos + |text|] == text {
      assert Mid(input, pos, |text|) == input[pos..pos + |text|];
    }
  }

  /**
   * The partial test does not look at pos: once earlier text sits in the
   * same buffer, a strict prefix of the literal at pos is rejected
   * instead of waiting for more input.
   */
  lemma LiteralPrefixAfterConsumedText()
    ensures MatchLiteral("abc", "xab", 1) == Outcome(NoMatch, 1, [])
    ensures MatchLiteral("abc", "ab", 0) == Outcome(PartialMatch, 0, [])
  {
    assert Mid("xab", 1, 3) == "ab";
    assert "ab" <= "abc";
  }

  /**
   * Number: the maximal run of digits at pos. No digit at all is
   * NoMatch; digits running into the end of the input are PartialMatch
   * (more digits may follow); otherwise FullMatch capturing their value.
   */
  lemma NumberSpec(input: string, pos: nat)
    requires pos <= |input|
    ensures var o := Run(Number, input, pos); var k := DigitRun(input, pos);
      && o.Outcome?
      && (pos + k == |input| ==> o == Outcome(PartialMatch, |input|, []))
      && (pos + k < |input| && k == 0 ==> o == Outcome(NoMatch, pos, []))
      && (pos + k < |input| && k > 0 ==> o == Outcome(FullMatch, pos + k, [NumCap(Decimal(input[pos..pos + k]))]))
  {
    NumberLoop(input, pos, pos, pos + DigitRun(input, pos));
    assert input[pos..pos] == [];
  }

  /** One more digit read: the value so far times ten plus the digit. */
  lemma {:induction false} DecimalSnoc(input: string, start: nat, pos: nat)
    requires start <= pos < |input| && IsDigit(input[pos])
    requires AllDigits(input[start..pos])
    ensures AllDigits(input[start..pos + 1])
    ensures Decimal(input[start..pos + 1]) == Decimal(input[start..pos]) * 10 + DigitValue(input[pos])
  {
    var s := input[start..pos + 1];
    assert s[..|s| - 1] == input[start..pos];
    assert AllDigits(s) by {
      forall j | 0 <= j < |s| ensures IsDigit(s[j]) {
        if j < |s| - 1 { assert s[j] == input[start..pos][j]; }
      }
    }
  }

  /** What Number answers once the digit run from start has ended at end. */
  function NumberAt(input: string, start: nat, end: nat): (o: Outcome)
    requires start <= end <= |input| && AllDigits(input[start..end])
    ensures o.Outcome? && (o.result == FullMatch <==> start < end < |input|)
  {
    if end == |input| then Outcome(PartialMatch, |input|, [])
    else if end == start then Outcome(NoMatch, start, [])
    else Outcome(FullMatch, end, [NumCap(Decimal(input[start..end]))])
  }

  /**
   * Each pass of Number's loop keeps the number equal to the value of the
   * digits read since start; the loop ends at the end of the digit run.
   */
  lemma {:induction false} NumberLoop(input: string, start: nat, pos: nat, end: nat)
    requires start <= pos <= |input|
    requires AllDigits(input[start..pos])
    requires end == pos + DigitRun(input, pos)
    ensures AllDigits(input[start..end])
    ensures MatchNumber(input, pos, Decimal(input[start..pos]), pos > start) == NumberAt(input, start, end)
    decreases |input| - pos
  {
    if pos < |input| && IsDigit(input[pos]) {
      DecimalSnoc(input, start, pos);
      assert end == pos + 1 + DigitRun(input, pos + 1);
      NumberLoop(input, start, pos + 1, end);
    } else {
      assert end == pos;
    }
  }

  /**
   * String: a full match captures the (non-empty unless allowed) text up
   * to the first delimiter at or after pos and stops ON the delimiter;
   * without a delimiter in the rest of the input it waits for more.
   */
  lemma DelimitedSpec(delim: char, allowEmpty: bool, input: string, pos: nat)
    requires pos <= |input|
    ensures var o := Run(Delimited(delim, allowEmpty), input, pos);
      && o.Outcome?
      && (o.result == FullMatch ==>
            && o.pos < |input| && input[o.pos] == delim
            && o.caps == [TextCap(input[pos..o.pos])]
            && delim !in input[pos..o.pos]
            && (allowEmpty || o.pos > pos))
      && (o.result == PartialMatch <==> delim !in input[pos..])
      && (o.result == NoMatch <==> !allowEmpty && pos < |input| && input[pos] == delim)
  {
    var d := IndexOf(input, delim, pos);
    if d == -1 {
      assert forall j :: 0 <= j < |input[pos..]| ==> input[pos..][j] == input[pos + j];
    } else {
      assert input[pos..][d - pos] == delim;
    }
  }

  /** Whitespace always matches fully and stops on the first non-space. */
  lemma WhitespaceSpec(input: string, pos: nat)
    requires pos <= |input|
    ensures var o := Run(Whitespace, input, pos);
      && o.Outcome? && o.result == FullMatch && o.caps == []
      && (forall j :: pos <= j < o.pos ==> IsSpace(input[j]))
      && (o.pos < |input| ==> !IsSpace(input[o.pos]))
  {
  }

  /**
   * Concat: a full match exactly when both parts fully match in sequence,
   * the captures of the two parts in order; otherwise the first failing
   * part's answer.
   */
  lemma {:induction false} ConcatSpec(a: Matcher, b: Matcher, input: string, pos: nat)
    requires pos <= |input| && Halts(a) && Halts(b)
    ensures var o := Run(Concat(a, b), input, pos); var oa := Run(a, input, pos);
      && o.Outcome? && oa.Outcome?
      && (oa.result != FullMatch ==> o == oa)
      && (oa.result == FullMatch ==>
            var ob := Run(b, input, oa.pos);
            ob.Outcome? && o == Outcome(ob.result, ob.pos, oa.caps + ob.caps))
  {
    HaltsSound(a, input, pos);
    var oa := Run(a, input, pos);
    if oa.result == FullMatch {
      HaltsSound(b, input, oa.pos);
    }
  }

  /** A Kleene star never answers NoMatch, and zero repetitions is a full match. */
  lemma {:induction false} KleeneSpec(body: Matcher, input: string, pos: nat)
    requires pos <= |input| && Halts(body) && Advances(body)
    ensures var o := Run(Kleene(body), input, pos);
      var ob := Run(body, input, pos);
      && o.Outcome? && o.result != NoMatch && ob.Outcome?
      && (ob.result == NoMatch ==> o == Outcome(FullMatch, ob.pos, ob.caps))
  {
    KleeneHalts(body, input, pos);
    HaltsSound(body, input, pos);
  }
}
