/**
 * The navigation history of visited locations (app/locationhistory.h): a
 * list with a cursor, where adding a location discards the forward part
 * of the list unless the new location is close to the current one.
 */
module LocationHistory {
  import opened Globals

  /** The list of locations and the current position (-1 for none). */
  datatype History = History(list: seq<Location>, pos: int)

  /** The cursor is -1 exactly for the empty list and otherwise indexes an entry. */
  predicate Valid(h: History)
  {
    -1 <= h.pos < |h.list| && (h.pos == -1 <==> h.list == [])
  }

  function Distance(a: nat, b: nat): nat
  {
    if a < b then b - a else a - b
  }

  /** Two locations are close when they are in the same file and fewer than 5 lines apart. */
  predicate Near(cur: Location, loc: Location)
  {
    cur.file == loc.file && Distance(cur.line, loc.line) < 5
  }

  /** A new history: no entries, no current position. */
  function Empty(): (h: History)
    ensures Valid(h) && h.list == [] && h.pos == -1
  {
    History([], -1)
  }

  /**
   * add: a location close to the current one replaces it; any other is
   * appended right after the current position, everything after that
   * position being discarded, and becomes the current one.
   */
  function Added(h: History, loc: Location): (r: History)
    requires Valid(h)
    ensures Valid(r) && r.pos >= 0 && r.list[r.pos] == loc
    ensures r.pos <= |h.list| && r.list[..r.pos] == h.list[..r.pos]
    ensures h.pos >= 0 && Near(h.list[h.pos], loc) ==> r.pos == h.pos && r.list == h.list[h.pos := loc]
    ensures !(h.pos >= 0 && Near(h.list[h.pos], loc)) ==> r.pos == h.pos + 1 && r.pos == |r.list| - 1
  {
    if h.pos >= 0 && Near(h.list[h.pos], loc) then History(h.list[h.pos := loc], h.pos)
    else History(h.list[..h.pos + 1] + [loc], h.pos + 1)
  }

  /** next: moves forward one entry unless the cursor is on the last one. */
  function Forward(h: History): (r: (bool, History))
    requires Valid(h)
    ensures Valid(r.1) && r.1.list == h.list
    ensures r.0 <==> h.pos < |h.list| - 1
    ensures r.0 ==> r.1.pos == h.pos + 1
    ensures !r.0 ==> r.1 == h
  {
    if h.pos == |h.list| - 1 then (false, h) else (true, History(h.list, h.pos + 1))
  }

  /** prev: moves back one entry unless the cursor is on the first entry or there is none. */
  function Back(h: History): (r: (bool, History))
    requires Valid(h)
    ensures Valid(r.1) && r.1.list == h.list
    ensures r.0 <==> h.pos > 0
    ensures r.0 ==> r.1.pos == h.pos - 1
    ensures !r.0 ==> r.1 == h
  {
    if h.pos <= 0 then (false, h) else (true, History(h.list, h.pos - 1))
  }

  /** Going back after going forward returns to the same entry, and vice versa. */
  lemma ForwardBackRoundTrip(h: History)
    requires Valid(h)
    ensures Forward(h).0 ==> Back(Forward(h).1) == (true, h)
    ensures Back(h).0 ==> Forward(Back(h).1) == (true, h)
  {
  }

  /**
   * After a location that is not close to the current one is added there
   * is nothing to go forward to, and going back yields the location that
   * was current before.
   */
  lemma AddDiscardsForward(h: History, loc: Location)
    requires Valid(h) && !(h.pos >= 0 && Near(h.list[h.pos], loc))
    ensures !Forward(Added(h, loc)).0
    ensures h.pos >= 0 ==> Back(Added(h, loc)).0 && Back(Added(h, loc)).1.list[h.pos] == h.list[h.pos]
  {
  }

  /** Replacing a close location keeps the forward part of the history. */
  lemma NearAddKeepsForward(h: History, loc: Location)
    requires Valid(h) && h.pos >= 0 && Near(h.list[h.pos], loc)
    ensures Forward(Added(h, loc)).0 == Forward(h).0
    ensures Added(h, loc).list[h.pos + 1..] == h.list[h.pos + 1..]
  {
  }

  /** Adding the same location twice in a row is the same as adding it once. */
  lemma AddIdempotent(h: History, loc: Location)
    requires Valid(h)
    ensures Added(Added(h, loc), loc) == Added(h, loc)
  {
    var r := Added(h, loc);
    assert Near(r.list[r.pos], loc);
  }

  /** The history object: the list and the cursor, updated in place. */
  class LocationHistory {
    var list: seq<Location>
    var pos: int

    function State(): History
      reads this
    {
      History(list, pos)
    }

    constructor ()
      ensures State() == Empty()
    {
      list := [];
      pos := -1;
    }

    /** add, with its loop removing the entries after the cursor one at a time. */
    method Add(loc: Location)
      requires Valid(State())
      modifies this
      ensures State() == Added(old(State()), loc)
    {
      if pos >= 0 {
        var cur := list[pos];
        if cur.file == loc.file && Distance(cur.line, loc.line) < 5 {
          list := list[pos := loc];
          return;
        }
      }
      while pos < |list| - 1
        invariant -1 <= pos < |list| && list == old(list)[..|list|] && pos == old(pos)
        decreases |list|
      {
        list := list[..|list| - 1];
      }
      list := list + [loc];
      pos := pos + 1;
    }

    /** next: on success the new current entry; otherwise `given` back and no change. */
    method Next(given: Location) returns (ok: bool, loc: Location)
      requires Valid(State())
      modifies this
      ensures (ok, State()) == Forward(old(State()))
      ensures ok ==> loc == list[pos]
      ensures !ok ==> loc == given
    {
      if pos == |list| - 1 {
        return false, given;
      }
      pos := pos + 1;
      ok, loc := true, list[pos];
    }

    /** prev: on success the new current entry; otherwise `given` back and no change. */
    method Prev(given: Location) returns (ok: bool, loc: Location)
      requires Valid(State())
      modifies this
      ensures (ok, State()) == Back(old(State()))
      ensures ok ==> loc == list[pos]
      ensures !ok ==> loc == given
    {
      if pos <= 0 {
        return false, given;
      }
      pos := pos - 1;
      ok, loc := true, list[pos];
    }

    /** clear: back to the empty history. */
    method Clear()
      modifies this
      ensures State() == Empty()
    {
      list := [];
      pos := -1;
    }
  }
}
