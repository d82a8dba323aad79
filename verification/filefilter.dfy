/**
 * File filters (core/filefilter.h): an ordered list of include and
 * exclude rules, where the first rule whose pattern matches a path
 * decides, and a semicolon-separated text form used to save and load
 * filters.
 */
module FileFilter {
  import Globals

  datatype Kind = Include | Exclude

  /** Rule: a wildcard pattern and whether a match accepts or rejects the path. */
  datatype Rule = Rule(pattern: string, kind: Kind)

  /**
   * Rule::Rule: a leading minus makes an exclusion rule of the rest of
   * the text; any other text is an inclusion rule as it stands.
   */
  function MakeRule(text: string): (r: Rule)
    ensures Globals.StartsWith(text, "-") ==> r == Rule(text[1..], Exclude)
    ensures !Globals.StartsWith(text, "-") ==> r == Rule(text, Include)
  {
    if Globals.StartsWith(text, "-") then Rule(text[1..], Exclude) else Rule(text, Include)
  }

  /**
   * FileFilter::match. Whether a wildcard pattern matches a whole path is
   * decided by `exactMatch`, which stands for the regular-expression
   * library.
   */
  function Match(rules: seq<Rule>, path: string, noMatchResult: bool, exactMatch: (string, string) -> bool): bool
  {
    if rules == [] then noMatchResult
    else if exactMatch(rules[0].pattern, path) then rules[0].kind == Include
    else Match(rules[1..], path, noMatchResult, exactMatch)
  }

  /** The first rule whose pattern matches the path decides: inclusion accepts, exclusion rejects. */
  lemma {:induction false} MatchIsFirstMatchingRule(rules: seq<Rule>, path: string, noMatchResult: bool,
                                                    exactMatch: (string, string) -> bool, i: nat)
    requires i < |rules| && exactMatch(rules[i].pattern, path)
    requires forall j :: 0 <= j < i ==> !exactMatch(rules[j].pattern, path)
    ensures Match(rules, path, noMatchResult, exactMatch) == (rules[i].kind == Include)
    decreases i
  {
    if i > 0 {
      assert !exactMatch(rules[0].pattern, path);
      MatchIsFirstMatchingRule(rules[1..], path, noMatchResult, exactMatch, i - 1);
    }
  }

  /** When no rule matches, the caller's default decides. */
  lemma {:induction false} MatchWithoutMatchingRule(rules: seq<Rule>, path: string, noMatchResult: bool,
                                                    exactMatch: (string, string) -> bool)
    requires forall j :: 0 <= j < |rules| ==> !exactMatch(rules[j].pattern, path)
    ensures Match(rules, path, noMatchResult, exactMatch) == noMatchResult
    decreases |rules|
  {
    if rules != [] {
      assert !exactMatch(rules[0].pattern, path);
      MatchWithoutMatchingRule(rules[1..], path, noMatchResult, exactMatch);
    }
  }

  /** The text of one rule: a minus for exclusion, then the pattern. */
  function RuleText(r: Rule): string
  {
    (if r.kind == Exclude then "-" else "") + r.pattern
  }

  /** The parts followed by one semicolon each. */
  function Join(parts: seq<string>): (s: string)
    ensures |s| >= |parts|
  {
    if parts == [] then [] else parts[0] + ";" + Join(parts[1..])
  }

  function Texts(rules: seq<Rule>): (ts: seq<string>)
    ensures |ts| == |rules| && forall i :: 0 <= i < |rules| ==> ts[i] == RuleText(rules[i])
  {
    if rules == [] then [] else [RuleText(rules[0])] + Texts(rules[1..])
  }

  /** FileFilter::toString: each rule's text followed by a semicolon, in rule order. */
  function ToString(rules: seq<Rule>): string
  {
    Join(Texts(rules))
  }

  /** The pieces of a filter string: split on semicolons, empty pieces skipped. */
  function Split(s: string): (parts: seq<string>)
    ensures forall i :: 0 <= i < |parts| ==> parts[i] != [] && ';' !in parts[i]
  {
    Globals.Split(s, ';')
  }

  /** The rules parse makes of a filter string: one per non-empty piece, in order. */
  function ParsedRules(filter: string): (rules: seq<Rule>)
  {
    var parts := Split(filter);
    seq(|parts|, i requires 0 <= i < |parts| => MakeRule(parts[i]))
  }

  /** A rule parse can produce: no semicolon in it, and an inclusion pattern that cannot be read as an exclusion. */
  predicate Storable(r: Rule)
  {
    ';' !in r.pattern && (r.kind == Include ==> r.pattern != [] && r.pattern[0] != '-')
  }

  /** Every rule parse makes is storable. */
  lemma ParsedRulesStorable(filter: string)
    ensures forall i :: 0 <= i < |ParsedRules(filter)| ==> Storable(ParsedRules(filter)[i])
  {
    var parts := Split(filter);
    forall i | 0 <= i < |parts|
      ensures Storable(MakeRule(parts[i]))
    {
      var p := parts[i];
      if Globals.StartsWith(p, "-") {
        assert forall c :: c in p[1..] ==> c in p;
      }
    }
  }

  /** Splitting the joined pieces gives the pieces back, when none is empty or holds a semicolon. */
  lemma {:induction false} SplitJoin(parts: seq<string>)
    requires forall i :: 0 <= i < |parts| ==> parts[i] != [] && ';' !in parts[i]
    ensures Split(Join(parts)) == parts
    decreases |parts|
  {
    if parts != [] {
      var p := parts[0];
      assert Join(parts) == p + [';'] + Join(parts[1..]);
      Globals.SplitAround(p, ';', Join(parts[1..]));
      Globals.SplitPiece(p, ';');
      SplitJoin(parts[1..]);
    }
  }

  /** The text of a storable rule reads back as the same rule. */
  lemma RuleTextRoundTrip(r: Rule)
    requires Storable(r)
    ensures RuleText(r) != [] && ';' !in RuleText(r)
    ensures MakeRule(RuleText(r)) == r
  {
    if r.kind == Exclude {
      assert RuleText(r)[1..] == r.pattern;
    } else {
      assert RuleText(r) == r.pattern;
      assert r.pattern[..1][0] == r.pattern[0];
    }
  }

  /** Saving storable rules and loading the text gives the same rules back. */
  lemma ToStringRoundTrip(rules: seq<Rule>)
    requires forall i :: 0 <= i < |rules| ==> Storable(rules[i])
    ensures ParsedRules(ToString(rules)) == rules
  {
    var ts := Texts(rules);
    forall i | 0 <= i < |ts|
      ensures ts[i] != [] && ';' !in ts[i] && MakeRule(ts[i]) == rules[i]
    {
      RuleTextRoundTrip(rules[i]);
    }
    SplitJoin(ts);
  }

  /** For a filter made by parse, the save/load round trip keeps the rule list. */
  lemma ParseToStringParse(filter: string)
    ensures ParsedRules(ToString(ParsedRules(filter))) == ParsedRules(filter)
  {
    ParsedRulesStorable(filter);
    ToStringRoundTrip(ParsedRules(filter));
  }

  /** The filter object: its ordered rule list. */
  class Filter {
    var rules: seq<Rule>

    /** FileFilter(filter): the rules the filter string describes. */
    constructor (filter: string)
      ensures rules == ParsedRules(filter)
    {
      rules := [];
      new;
      Parse(filter);
    }

    /** parse: appends one rule per non-empty piece of the filter string, in order. */
    method Parse(filter: string)
      modifies this
      ensures rules == old(rules) + ParsedRules(filter)
    {
      var patterns := Split(filter);
      var i := 0;
      while i < |patterns|
        invariant 0 <= i <= |patterns|
        invariant rules == old(rules) + ParsedRules(filter)[..i]
      {
        rules := rules + [MakeRule(patterns[i])];
        i := i + 1;
      }
    }

    /** match: walks the rules in order and returns at the first whose pattern matches. */
    method MatchPath(path: string, noMatchResult: bool, exactMatch: (string, string) -> bool) returns (r: bool)
      ensures r == Match(rules, path, noMatchResult, exactMatch)
    {
      var i := 0;
      while i < |rules|
        invariant 0 <= i <= |rules|
        invariant Match(rules, path, noMatchResult, exactMatch) == Match(rules[i..], path, noMatchResult, exactMatch)
      {
        if exactMatch(rules[i].pattern, path) {
          return rules[i].kind == Include;
        }
        assert rules[i..][1..] == rules[i + 1..];
        i := i + 1;
      }
      return noMatchResult;
    }

    /** toString: appends each rule's text and a semicolon, in rule order. */
    method ToText() returns (s: string)
      ensures s == ToString(rules)
    {
      s := [];
      var i := 0;
      while i < |rules|
        invariant 0 <= i <= |rules|
        invariant s == ToString(rules[..i])
      {
        if rules[i].kind == Exclude {
          s := s + "-";
        }
        s := s + rules[i].pattern + ";";
        ToStringSnoc(rules[..i], rules[i]);
        assert rules[..i] + [rules[i]] == rules[..i + 1];
        i := i + 1;
      }
      assert rules[..i] == rules;
    }
  }

  /** Saving one more rule appends its text and a semicolon. */
  lemma {:induction false} ToStringSnoc(rules: seq<Rule>, r: Rule)
    ensures ToString(rules + [r]) == ToString(rules) + RuleText(r) + ";"
    decreases |rules|
  {
    if rules == [] {
      assert Texts([r]) == [RuleText(r)];
    } else {
      assert (rules + [r])[1..] == rules[1..] + [r];
      ToStringSnoc(rules[1..], r);
    }
  }
}
