/**
 * Shared value types of the code browser: tags, source locations and
 * queries (core/globals.h), plus the user-visible tag-type names
 * (core/strings.h).
 */
module Globals {

  /** Tag::Type: the kind of symbol a location refers to. */
  datatype TagType =
    | UnknownTag | Variable | Function | Struct | Union | Member
    | Enum | Enumerator | Typedef | Define | Include | Label

  /** Tag: symbol name, kind and enclosing scope. */
  datatype Tag = Tag(name: string, kind: TagType, scope: string)

  /**
   * Location: a file, a line and a column, the tag found there and the
   * text of the line. Lines and columns are unsigned in the source.
   */
  datatype Location = Location(file: string, line: nat, column: nat, tag: Tag, text: string)

  /** Location::Fields: the columns a location can be shown in. */
  datatype Field =
    | FileField | LineField | ColumnField | TagNameField
    | TagTypeField | ScopeField | TextField

  /** Query::Type. */
  datatype QueryType =
    | InvalidQuery | TextQuery | DefinitionQuery | ReferencesQuery
    | CalledFunctionsQuery | CallingFunctionsQuery | FindFileQuery
    | IncludingFilesQuery | LocalTagsQuery

  /** Query flags. */
  const IgnoreCase: bv32 := 0x1
  const RegExp: bv32 := 0x2

  datatype Query = Query(kind: QueryType, pattern: string, flags: bv32)

  /** A value that may be missing: a null object, an invalid index or a failed lookup. */
  datatype Option<T> = None | Some(value: T)

  /** A default-constructed tag: empty name and scope, unknown kind. */
  function EmptyTag(): (t: Tag)
    ensures t.kind == UnknownTag && t.name == [] && t.scope == []
  {
    Tag([], UnknownTag, [])
  }

  /** A default-constructed location: no file, line and column 0. */
  function EmptyLocation(): (l: Location)
    ensures !IsValid(l)
    ensures l.line == 0 && l.column == 0 && l.tag == EmptyTag()
  {
    Location([], 0, 0, EmptyTag(), [])
  }

  /** A location is valid exactly when it names a file. */
  predicate IsValid(l: Location)
  {
    l.file != []
  }

  /**
   * Location equality compares file, line and column only: two results
   * at the same place with different tags or text are the same location.
   */
  predicate SameLocation(a: Location, b: Location)
  {
    a.file == b.file && a.line == b.line && a.column == b.column
  }

  lemma SameLocationIsEquivalence(a: Location, b: Location, c: Location)
    ensures SameLocation(a, a)
    ensures SameLocation(a, b) ==> SameLocation(b, a)
    ensures SameLocation(a, b) && SameLocation(b, c) ==> SameLocation(a, c)
  {
  }

  /** Changing the tag or the text of a location never changes its identity. */
  lemma SameLocationIgnoresTagAndText(l: Location, tag: Tag, text: string)
    ensures SameLocation(l, l.(tag := tag, text := text))
    ensures IsValid(l) == IsValid(l.(tag := tag, text := text))
  {
  }

  /**
   * A default-constructed query is invalid, with no pattern; its flags
   * are not initialised, so whatever they hold is a parameter.
   */
  function DefaultQuery(garbage: bv32): (q: Query)
    ensures q.kind == InvalidQuery && q.pattern == []
  {
    Query(InvalidQuery, [], garbage)
  }

  /** Strings::tagName: the display name of each tag type (spelling as in the source). */
  function TagName(t: TagType): (s: string)
    ensures (s == []) <==> t == UnknownTag
  {
    match t
    case UnknownTag => ""
    case Variable => "Variable"
    case Function => "Function"
    case Struct => "Struct"
    case Union => "Union"
    case Member => "Struct/Union Member"
    case Enum => "Enumeration"
    case Enumerator => "Enumeration Value"
    case Typedef => "Type Definition"
    case Define => "Preprorcessor Definition"
    case Include => "#include Directive"
    case Label => "Go-to Label"
  }

  /** Every known tag type has its own display name. */
  lemma {:induction false} TagNameInjective(a: TagType, b: TagType)
    requires TagName(a) == TagName(b)
    ensures a == b
  {
    match a
    case UnknownTag =>
    case Variable => assert TagName(a)[0] == 'V';
    case Function => assert TagName(a)[0] == 'F';
    case Struct => assert TagName(a)[..3] == "Str";
    case Union => assert TagName(a)[0] == 'U';
    case Member => assert TagName(a)[..3] == "Str";
    case Enum => assert |TagName(a)| == 11;
    case Enumerator => assert |TagName(a)| == 17;
    case Typedef => assert TagName(a)[0] == 'T';
    case Define => assert TagName(a)[0] == 'P';
    case Include => assert TagName(a)[0] == '#';
    case Label => assert TagName(a)[0] == 'G';
  }

  // ---- decimal text, used wherever the source converts numbers to and from strings

  predicate IsDigit(c: char)
  {
    '0' <= c <= '9'
  }

  function DigitValue(c: char): (d: nat)
    requires IsDigit(c)
    ensures d < 10
  {
    c as int - '0' as int
  }

  function DigitChar(d: nat): (c: char)
    requires d < 10
    ensures IsDigit(c) && DigitValue(c) == d
  {
    ('0' as int + d) as char
  }

  predicate AllDigits(s: string)
  {
    forall i :: 0 <= i < |s| ==> IsDigit(s[i])
  }

  /** The value of a string of decimal digits, most significant first. */
  function Decimal(s: string): nat
    requires AllDigits(s)
  {
    if s == [] then 0 else Decimal(s[..|s| - 1]) * 10 + DigitValue(s[|s| - 1])
  }

  /** The decimal text of a number, without leading zeros ("0" for zero). */
  function DecimalText(n: nat): (s: string)
    ensures s != [] && AllDigits(s)
    decreases n
  {
    if n < 10 then [DigitChar(n)] else DecimalText(n / 10) + [DigitChar(n % 10)]
  }

  /** Printing a number and reading it back gives the number. */
  lemma {:induction false} DecimalOfText(n: nat)
    ensures Decimal(DecimalText(n)) == n
    decreases n
  {
    var s := DecimalText(n);
    if n >= 10 {
      DecimalOfText(n / 10);
      assert s[..|s| - 1] == DecimalText(n / 10);
    }
  }

  /**
   * QString::toUInt without a base prefix: the value of an all-digit
   * string that fits in 32 bits, or failure with 0.
   */
  function ParseUInt(s: string): (r: (bool, nat))
    ensures r.0 <==> s != [] && AllDigits(s) && Decimal(s) < 0x1_0000_0000
    ensures r.0 ==> r.1 == Decimal(s) && r.1 < 0x1_0000_0000
    ensures !r.0 ==> r.1 == 0
  {
    if s != [] && AllDigits(s) && Decimal(s) < 0x1_0000_0000 then (true, Decimal(s)) else (false, 0)
  }

  /** Converting a number's decimal text succeeds with the number exactly when it fits in 32 bits. */
  lemma ParseUIntOfDecimalText(n: nat)
    ensures ParseUInt(DecimalText(n)) == if n < 0x1_0000_0000 then (true, n) else (false, 0)
  {
    DecimalOfText(n);
  }

  function StartsWith(s: string, prefix: string): (b: bool)
    ensures b <==> |prefix| <= |s| && s[..|prefix|] == prefix
  {
    prefix <= s
  }

  function EndsWith(s: string, c: char): (b: bool)
    ensures b ==> s != []
  {
    s != [] && s[|s| - 1] == c
  }

  // ---- QString::split(sep, SkipEmptyParts)

  /** The index of the first `sep` in s, |s| when there is none. */
  function FirstIndex(s: string, sep: char): (k: nat)
    ensures k <= |s| && (k < |s| ==> s[k] == sep) && sep !in s[..k]
  {
    if s == [] then 0
    else if s[0] == sep then 0
    else assert s[..1 + FirstIndex(s[1..], sep)] == [s[0]] + s[1..][..FirstIndex(s[1..], sep)]; 1 + FirstIndex(s[1..], sep)
  }

  /** QString::split(sep, SkipEmptyParts): the non-empty pieces between separators, in order. */
  function Split(s: string, sep: char): (parts: seq<string>)
    ensures forall i :: 0 <= i < |parts| ==> parts[i] != [] && sep !in parts[i]
    decreases |s|
  {
    var k := FirstIndex(s, sep);
    if k == |s| then (if s == [] then [] else [s])
    else (if k == 0 then [] else [s[..k]]) + Split(s[k + 1..], sep)
  }

  /** SplitAround when the text before the separator has no separator of its own. */
  lemma {:induction false} SplitAroundPiece(a: string, sep: char, b: string)
    requires FirstIndex(a, sep) == |a|
    ensures Split(a + [sep] + b, sep) == Split(a, sep) + Split(b, sep)
  {
    var s := a + [sep] + b;
    assert FirstIndex(s, sep) == |a| by {
      assert s == a + ([sep] + b);
      FirstIndexOfPrefix(a, sep, [sep] + b);
    }
    assert s[..|a|] == a && s[|a| + 1..] == b;
  }

  /** The first piece of a + [sep] + b is the first piece of a, when a has a separator. */
  lemma {:induction false} SplitAroundHead(a: string, sep: char, b: string, k: nat)
    requires k == FirstIndex(a, sep) && k < |a|
    ensures Split(a + [sep] + b, sep) == (if k == 0 then [] else [a[..k]]) + Split(a[k + 1..] + [sep] + b, sep)
  {
    var s := a + [sep] + b;
    assert FirstIndex(s, sep) == k by {
      assert s == a + ([sep] + b);
      FirstIndexOfPrefix(a, sep, [sep] + b);
    }
    assert s[..k] == a[..k];
    assert s[k + 1..] == a[k + 1..] + [sep] + b;
    SplitFirst(s, sep, k);
  }

  /** SplitAround for a text with a separator, given SplitAround for what follows its first one. */
  lemma {:induction false} SplitAroundStep(a: string, sep: char, b: string, k: nat)
    requires k == FirstIndex(a, sep) && k < |a|
    requires Split(a[k + 1..] + [sep] + b, sep) == Split(a[k + 1..], sep) + Split(b, sep)
    ensures Split(a + [sep] + b, sep) == Split(a, sep) + Split(b, sep)
  {
    var piece := if k == 0 then [] else [a[..k]];
    SplitAroundHead(a, sep, b, k);
    SplitFirst(a, sep, k);
    AppendAssoc(piece, Split(a[k + 1..], sep), Split(b, sep));
  }

  /** Split at the first separator: the piece before it, if any, then the split of the rest. */
  lemma {:induction false} SplitFirst(s: string, sep: char, k: nat)
    requires k == FirstIndex(s, sep) && k < |s|
    ensures Split(s, sep) == (if k == 0 then [] else [s[..k]]) + Split(s[k + 1..], sep)
  {
  }

  lemma AppendAssoc<T>(x: seq<T>, y: seq<T>, z: seq<T>)
    ensures x + (y + z) == (x + y) + z
  {
  }

  /** A separator splits the text into what lies before it and what lies after it. */
  lemma {:induction false} SplitAround(a: string, sep: char, b: string)
    ensures Split(a + [sep] + b, sep) == Split(a, sep) + Split(b, sep)
    decreases |a|
  {
    var k := FirstIndex(a, sep);
    if k == |a| {
      SplitAroundPiece(a, sep, b);
    } else {
      SplitAround(a[k + 1..], sep, b);
      SplitAroundStep(a, sep, b, k);
    }
  }

  /** Text after a prefix does not move the first separator found in the prefix. */
  lemma {:induction false} FirstIndexOfPrefix(a: string, sep: char, b: string)
    ensures FirstIndex(a + b, sep) == (if FirstIndex(a, sep) < |a| then FirstIndex(a, sep) else |a| + FirstIndex(b, sep))
    decreases |a|
  {
    if a == [] {
      assert a + b == b;
    } else if a[0] == sep {
      assert (a + b)[0] == sep;
    } else {
      assert (a + b)[0] == a[0] && (a + b)[1..] == a[1..] + b;
      FirstIndexOfPrefix(a[1..], sep, b);
    }
  }

  /** A piece without separators splits into itself, or into nothing when it is empty. */
  lemma SplitPiece(p: string, sep: char)
    requires sep !in p
    ensures Split(p, sep) == (if p == [] then [] else [p])
  {
    assert FirstIndex(p, sep) == |p|;
  }

  /** Repeated separators count as one. */
  lemma SplitCollapses(a: string, sep: char, b: string)
    ensures Split(a + [sep, sep] + b, sep) == Split(a + [sep] + b, sep)
  {
    assert a + [sep, sep] + b == a + [sep] + ([sep] + b);
    SplitAround(a, sep, [sep] + b);
    assert Split([sep] + b, sep) == Split(b, sep) by {
      assert FirstIndex([sep] + b, sep) == 0;
      assert ([sep] + b)[1..] == b;
    }
    SplitAround(a, sep, b);
  }
}
