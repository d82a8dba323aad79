/**
 * The ctags reactions (cscope/ctags.h): the local-tags back end turns each
 * ctags result line into a location, and the attribute list that may
 * follow it into the scope of that location.
 */
module Ctags {
  import opened Globals
  import opened Parser

  /** The ctags kind letters the reaction knows, and the tag type of each. */
  function TypeOfLetter(c: char): (t: TagType)
    ensures t != UnknownTag <==> c in "vfsumgedt"
    ensures t != Label && t != Include
  {
    match c
    case 'v' => Variable
    case 'f' => Function
    case 's' => Struct
    case 'u' => Union
    case 'm' => Member
    case 'g' => Enum
    case 'e' => Enumerator
    case 'd' => Define
    case 't' => Typedef
    case _ => UnknownTag
  }

  /** Distinct known letters give distinct tag types. */
  lemma TypeOfLetterInjective(a: char, b: char)
    requires TypeOfLetter(a) == TypeOfLetter(b) != UnknownTag
    ensures a == b
  {
  }

  /**
   * The location a ctags result line describes: name, file, line and kind
   * letter, in that capture order; column 0, no scope and no text.
   * The kind letter is the first character of the fourth capture, so that
   * capture must not be empty.
   */
  function ParsedLocation(caps: seq<Cap>): (loc: Location)
    requires |caps| >= 4 && CapText(caps[3]) != []
    ensures loc.tag.name == CapText(caps[0]) && loc.file == CapText(caps[1])
    ensures loc.line == CapUInt(caps[2]) && loc.column == 0
    ensures loc.tag.kind == TypeOfLetter(CapText(caps[3])[0])
    ensures loc.tag.scope == [] && loc.text == []
  {
    Location(CapText(caps[1]), CapUInt(caps[2]), 0, Tag(CapText(caps[0]), TypeOfLetter(CapText(caps[3])[0]), []), [])
  }

  /** The attribute names that name an enclosing scope. */
  predicate IsScopeAttr(attr: string)
  {
    attr == "struct" || attr == "union" || attr == "enum"
  }

  /**
   * The scope left by the (name, value) pairs that start at index i and
   * every second index after it, starting from `scope`: a scope attribute
   * replaces the scope with its value; a name without a value is ignored.
   */
  function AttrScope(caps: seq<Cap>, i: nat, scope: string): string
    decreases |caps| - i
  {
    if i + 1 >= |caps| then scope
    else AttrScope(caps, i + 2, if IsScopeAttr(CapText(caps[i])) then CapText(caps[i + 1]) else scope)
  }

  /** Pairs before i have no bearing on what the pairs from i on leave. */
  lemma {:induction false} AttrScopeAppend(caps: seq<Cap>, more: seq<Cap>, i: nat, scope: string)
    requires i <= |caps| && (|caps| - i) % 2 == 0
    ensures AttrScope(caps + more, i, scope) == AttrScope(more, 0, AttrScope(caps, i, scope))
    decreases |caps| - i
  {
    if i + 1 >= |caps| {
      assert i == |caps|;
      AttrScopeShift(caps, more, 0, scope);
    } else {
      var next := if IsScopeAttr(CapText(caps[i])) then CapText(caps[i + 1]) else scope;
      assert (caps + more)[i] == caps[i] && (caps + more)[i + 1] == caps[i + 1];
      AttrScopeAppend(caps, more, i + 2, next);
    }
  }

  /** Reading `more` after a prefix of the given length is reading `more` itself. */
  lemma {:induction false} AttrScopeShift(caps: seq<Cap>, more: seq<Cap>, j: nat, scope: string)
    requires j <= |more|
    ensures AttrScope(caps + more, |caps| + j, scope) == AttrScope(more, j, scope)
    decreases |more| - j
  {
    if j + 1 < |more| {
      assert (caps + more)[|caps| + j] == more[j] && (caps + more)[|caps| + j + 1] == more[j + 1];
      var next := if IsScopeAttr(CapText(more[j])) then CapText(more[j + 1]) else scope;
      AttrScopeShift(caps, more, j + 2, next);
    }
  }

  /** A trailing attribute name without a value changes nothing. */
  lemma TrailingNameIgnored(caps: seq<Cap>, name: Cap, scope: string)
    requires |caps| % 2 == 0
    ensures AttrScope(caps + [name], 0, scope) == AttrScope(caps, 0, scope)
  {
    AttrScopeAppend(caps, [name], 0, scope);
  }

  /** The last scope attribute wins: a struct/union/enum pair overrides every earlier pair. */
  lemma LaterPairOverrides(caps: seq<Cap>, attr: Cap, value: Cap, scope: string)
    requires |caps| % 2 == 0 && IsScopeAttr(CapText(attr))
    ensures AttrScope(caps + [attr, value], 0, scope) == CapText(value)
  {
    AttrScopeAppend(caps, [attr, value], 0, scope);
  }

  /** A pair whose name is not a scope attribute leaves the scope as it was. */
  lemma OtherPairKeeps(caps: seq<Cap>, attr: Cap, value: Cap, scope: string)
    requires |caps| % 2 == 0 && !IsScopeAttr(CapText(attr))
    ensures AttrScope(caps + [attr, value], 0, scope) == AttrScope(caps, 0, scope)
  {
    AttrScopeAppend(caps, [attr, value], 0, scope);
  }

  /** The Ctags process object: the locations parsed so far. */
  class CtagsProcess {
    var locList: seq<Location>

    constructor ()
      ensures locList == []
    {
      locList := [];
    }

    /** ParseAction: appends exactly one location, built from the four captures. */
    method ParseAction(caps: seq<Cap>)
      requires |caps| >= 4 && CapText(caps[3]) != []
      modifies this
      ensures locList == old(locList) + [ParsedLocation(caps)]
    {
      var kind := TypeOfLetter(CapText(caps[3])[0]);
      var loc := Location(CapText(caps[1]), CapUInt(caps[2]), 0, Tag(CapText(caps[0]), kind, []), []);
      locList := locList + [loc];
    }

    /**
     * ParseAttributeAction: walks the captures two at a time (the loop
     * index is bumped once inside the body and once by the loop) and sets
     * the scope of the last location; only that location changes.
     */
    method ParseAttributeAction(caps: seq<Cap>)
      requires locList != []
      modifies this
      ensures |locList| == |old(locList)| && locList[..|locList| - 1] == old(locList)[..|locList| - 1]
      ensures var last := old(locList)[|locList| - 1];
        locList[|locList| - 1] == last.(tag := last.tag.(scope := AttrScope(caps, 0, last.tag.scope)))
    {
      var n := |locList| - 1;
      var loc := locList[n];
      var i := 0;
      while i < |caps|
        invariant 0 <= i && i % 2 == 0
        invariant loc == locList[n].(tag := locList[n].tag.(scope := loc.tag.scope))
        invariant AttrScope(caps, i, loc.tag.scope) == AttrScope(caps, 0, locList[n].tag.scope)
        decreases |caps| - i
      {
        var attr := CapText(caps[i]);
        i := i + 1;
        if |caps| == i {
          break;
        }
        var val := CapText(caps[i]);
        if IsScopeAttr(attr) {
          loc := loc.(tag := loc.tag.(scope := val));
        }
        i := i + 1;
      }
      locList := locList[n := loc];
    }
  }
}
