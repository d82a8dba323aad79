/**
 * The display side shared by the location list and tree models
 * (core/locationmodel.cpp): the configured columns, the root path that
 * file names are shown relative to, and what each column shows.
 */
module LocationModels {
  import opened Globals

  /** QDir::separator() on a Unix system. */
  const Sep: char := '/'

  /**
   * isEmpty's answer for an index: locations were never added under it
   * (Unknown), they were but none are there (Empty), or some are (Full).
   */
  datatype IsEmptyResult = Empty | Full | Unknown

  /** The roles a view asks data for. */
  datatype Role = DisplayRole | DecorationRole | OtherRole

  /** A QVariant as the model fills it: nothing, a text, a number or a tag-type icon. */
  datatype Variant = NoValue | TextValue(s: string) | NumberValue(n: nat) | IconValue(kind: TagType)

  /**
   * The root path as setRootPath stores it: "/" becomes the empty string,
   * any other path gets a trailing separator if it has none.
   */
  function NormalRoot(path: string): (r: string)
    ensures path == "/" ==> r == []
    ensures path != "/" ==> r != [] && r[|r| - 1] == Sep && path <= r && |r| <= |path| + 1
    ensures path != "/" && EndsWith(path, Sep) ==> r == path
  {
    if path == "/" then [] else if EndsWith(path, Sep) then path else path + [Sep]
  }

  /** Normalising a stored root again keeps it, except for the two roots that trade places. */
  lemma NormalRootStable(path: string)
    requires path != "/" && NormalRoot(path) != "/"
    ensures NormalRoot(NormalRoot(path)) == NormalRoot(path)
  {
  }

  /** The empty root and "/" normalise into each other. */
  lemma NormalRootSwaps()
    ensures NormalRoot("") == "/" && NormalRoot("/") == ""
  {
  }

  /**
   * The text of the File column: a file under a non-empty root is shown
   * as "$", a separator and the rest of the path; any other file in full.
   */
  function FileText(rootPath: string, file: string): string
  {
    if rootPath != [] && StartsWith(file, rootPath) then "$" + [Sep] + file[|rootPath|..] else file
  }

  /**
   * The abbreviation loses nothing: under a non-empty root the full path
   * is the root followed by what comes after "$/"; otherwise the text is
   * the path itself.
   */
  lemma FileTextExpands(rootPath: string, file: string)
    ensures var t := FileText(rootPath, file);
      if rootPath != [] && StartsWith(file, rootPath)
      then |t| >= 2 && t[..2] == "$/" && rootPath + t[2..] == file
      else t == file
  {
  }

  /** columnText: the header title of each field. */
  function ColumnText(f: Field): (s: string)
    ensures s != []
  {
    match f
    case FileField => "File"
    case LineField => "Line"
    case ColumnField => "Column"
    case TagNameField => "Tag"
    case TagTypeField => "Type"
    case ScopeField => "Scope"
    case TextField => "Text"
  }

  /** Every field has a title of its own. */
  lemma ColumnTextInjective(a: Field, b: Field)
    requires ColumnText(a) == ColumnText(b)
    ensures a == b
  {
    match a
    case FileField => assert ColumnText(a)[0] == 'F';
    case LineField => assert ColumnText(a)[0] == 'L';
    case ColumnField => assert ColumnText(a)[0] == 'C';
    case TagNameField => assert ColumnText(a)[..2] == "Ta";
    case TagTypeField => assert ColumnText(a)[0] == 'T' && ColumnText(a)[1] == 'y';
    case ScopeField => assert ColumnText(a)[..2] == "Sc";
    case TextField => assert ColumnText(a)[..2] == "Te";
  }

  /** locationData: what a location shows in a column for a role. */
  function LocationData(columns: seq<Field>, rootPath: string, loc: Location, col: nat, role: Role): Variant
    requires col < |columns|
  {
    match role
    case DecorationRole =>
      if columns[col] == TagNameField && loc.tag.kind != UnknownTag then IconValue(loc.tag.kind) else NoValue
    case OtherRole => NoValue
    case DisplayRole =>
      match columns[col]
      case FileField => TextValue(FileText(rootPath, loc.file))
      case LineField => NumberValue(loc.line)
      case ColumnField => NumberValue(loc.column)
      case TagNameField => TextValue(loc.tag.name)
      case TagTypeField => TextValue(TagName(loc.tag.kind))
      case ScopeField => TextValue(loc.tag.scope)
      case TextField => TextValue(loc.text)
  }

  /**
   * What each column shows: an icon only in the tag column of a known
   * tag type, nothing for other roles, and for display the location's
   * own field, the file under the root abbreviated to "$" and the rest.
   */
  lemma LocationDataSpec(columns: seq<Field>, rootPath: string, loc: Location, col: nat, role: Role)
    requires col < |columns|
    ensures var v := LocationData(columns, rootPath, loc, col, role);
      && (role == OtherRole ==> v == NoValue)
      && (role == DecorationRole ==> (v != NoValue <==> columns[col] == TagNameField && loc.tag.kind != UnknownTag))
      && (role == DisplayRole ==> v != NoValue)
      && (role == DisplayRole && columns[col] == FileField && rootPath != [] && StartsWith(loc.file, rootPath) ==>
            v == TextValue("$" + [Sep] + loc.file[|rootPath|..]))
      && (role == DisplayRole && columns[col] == FileField && (rootPath == [] || !StartsWith(loc.file, rootPath)) ==> v == TextValue(loc.file))
      && (role == DisplayRole && columns[col] == LineField ==> v == NumberValue(loc.line))
      && (role == DisplayRole && columns[col] == ColumnField ==> v == NumberValue(loc.column))
      && (role == DisplayRole && columns[col] == TagNameField ==> v == TextValue(loc.tag.name))
      && (role == DisplayRole && columns[col] == TagTypeField ==> v == TextValue(TagName(loc.tag.kind)))
      && (role == DisplayRole && columns[col] == ScopeField ==> v == TextValue(loc.tag.scope))
      && (role == DisplayRole && columns[col] == TextField ==> v == TextValue(loc.text))
  {
  }

  /** The shared model state: the column list and the root path. */
  class LocationModel {
    var columns: seq<Field>
    var rootPath: string
    /** The number of model resets, each of which makes the views reload. */
    var resets: nat

    constructor ()
      ensures columns == [] && rootPath == [] && resets == 0
    {
      columns := [];
      rootPath := [];
      resets := 0;
    }

    /** setRootPath: stores the normalised path, resetting the model only when it changes. */
    method SetRootPath(path: string)
      modifies this
      ensures rootPath == NormalRoot(path) && columns == old(columns)
      ensures resets == old(resets) + (if NormalRoot(path) == old(rootPath) then 0 else 1)
    {
      var actPath := path;
      if path == "/" {
        actPath := [];
      } else if !EndsWith(path, Sep) {
        actPath := actPath + [Sep];
      }
      if actPath != rootPath {
        rootPath := actPath;
        resets := resets + 1;
      }
    }

    /** setColumns: replaces the column list and resets the model. */
    method SetColumns(colList: seq<Field>)
      modifies this
      ensures columns == colList && rootPath == old(rootPath) && resets == old(resets) + 1
    {
      columns := colList;
      resets := resets + 1;
    }

    /** columnCount: one column per configured field, whatever the parent. */
    function ColumnCount(): (n: nat)
      reads this
      ensures n == |columns|
    {
      |columns|
    }

    /** headerData: the title of the section's field for a horizontal display header, nothing otherwise. */
    function HeaderData(section: int, horizontal: bool, role: Role): (v: Variant)
      reads this
      requires horizontal && role == DisplayRole ==> 0 <= section < |columns|
      ensures horizontal && role == DisplayRole ==> v == TextValue(ColumnText(columns[section]))
      ensures !(horizontal && role == DisplayRole) ==> v == NoValue
    {
      if !horizontal || role != DisplayRole then NoValue else TextValue(ColumnText(columns[section]))
    }
  }

  /** Setting the same root path twice resets the model at most once: the second call changes nothing. */
  method SetRootPathTwice(m: LocationModel, path: string)
    modifies m
    ensures m.rootPath == NormalRoot(path) && m.resets <= old(m.resets) + 1
  {
    m.SetRootPath(path);
    ghost var after := m.resets;
    m.SetRootPath(path);
    assert m.resets == after;
  }
}
