/**
 * The flat location model (core/locationlistmodel.cpp): a list of
 * locations shown one per row under the invisible root, with the flag
 * that tells "never filled" from "filled with nothing".
 */
module LocationListModels {
  import opened Globals
  import opened LocationModels

  /** A model index of the list: invalid (the root), or a row under the root. */
  datatype ListIndex = NoIndex | Row(row: int)

  class LocationListModel {
    var locList: seq<Location>
    /** Whether add() was called since the model was last cleared. */
    var locationsAdded: bool

    constructor ()
      ensures locList == [] && !locationsAdded
    {
      locList := [];
      locationsAdded := false;
    }

    /** add: appends the locations in order and marks the model as filled, even when there are none. */
    method Add(locs: seq<Location>)
      modifies this
      ensures locList == old(locList) + locs && locationsAdded
    {
      locationsAdded := true;
      if |locs| == 0 {
        return;
      }
      if locList == [] {
        locList := locs;
      } else {
        locList := locList + locs;
      }
    }

    /** isEmpty: Unknown for a row index or before any add; otherwise Empty or Full by the list. */
    function IsEmpty(idx: ListIndex): (r: IsEmptyResult)
      reads this
      ensures r == Unknown <==> idx.Row? || !locationsAdded
      ensures r == Empty <==> idx.NoIndex? && locationsAdded && locList == []
      ensures r == Full <==> idx.NoIndex? && locationsAdded && locList != []
    {
      if idx.Row? || !locationsAdded then Unknown
      else if locList == [] then Empty
      else Full
    }

    /**
     * clear: a non-empty list is emptied and the flag dropped; clearing an
     * empty list changes nothing, so the flag of an empty add survives.
     */
    method Clear()
      modifies this
      ensures locList == []
      ensures locationsAdded == (old(locationsAdded) && old(locList) == [])
    {
      if locList == [] {
        return;
      }
      locList := [];
      locationsAdded := false;
    }

    /** rowCount: the list's size under the root, nothing under a row. */
    function RowCount(parent: ListIndex): (n: nat)
      reads this
      ensures parent.NoIndex? ==> n == |locList|
      ensures parent.Row? ==> n == 0
    {
      if parent.NoIndex? then |locList| else 0
    }

    /** index(row, 0, parent): a row index exactly for an in-range row under the root. */
    function Index(row: int, parent: ListIndex): (r: ListIndex)
      reads this
      ensures r.Row? <==> parent.NoIndex? && 0 <= row < |locList|
      ensures r.Row? ==> r.row == row
    {
      if parent.Row? then NoIndex
      else if row < 0 || row >= |locList| then NoIndex
      else Row(row)
    }

    /** parent: a flat list has no parent index. */
    function Parent(idx: ListIndex): (r: ListIndex)
      ensures r == NoIndex
    {
      NoIndex
    }

    /** locationFromIndex: the entry at a row index within the list, nothing otherwise. */
    function LocationFromIndex(idx: ListIndex): (r: Option<Location>)
      reads this
      ensures r.Some? <==> idx.Row? && 0 <= idx.row < |locList|
      ensures r.Some? ==> r.value == locList[idx.row]
    {
      if idx.NoIndex? then None
      else if idx.row < 0 || idx.row >= |locList| then None
      else Some(locList[idx.row])
    }

    /** firstLocation: the first entry, failing exactly on the empty list. */
    function FirstLocation(): (r: Option<Location>)
      reads this
      ensures r.None? <==> locList == []
      ensures r.Some? ==> r.value == locList[0]
    {
      if locList == [] then None else Some(locList[0])
    }

    /**
     * nextIndex: the invalid index gives the first row, the last row (or
     * any later one) gives the invalid index, any other row the next one.
     */
    function NextIndex(idx: ListIndex): (r: ListIndex)
      reads this
    {
      if idx.NoIndex? then Index(0, NoIndex)
      else if idx.row >= |locList| - 1 then NoIndex
      else Index(idx.row + 1, Parent(idx))
    }

    /**
     * prevIndex: the invalid index gives the last row, row 0 (or any
     * earlier one) gives the invalid index, any other row the previous one.
     */
    function PrevIndex(idx: ListIndex): (r: ListIndex)
      reads this
    {
      if idx.NoIndex? then Index(|locList| - 1, NoIndex)
      else if idx.row <= 0 then NoIndex
      else Index(idx.row - 1, Parent(idx))
    }
  }

  /** The three cases of nextIndex, and that it only ever yields a row of the list. */
  lemma NextIndexSpec(m: LocationListModel, idx: ListIndex)
    ensures idx.NoIndex? ==> m.NextIndex(idx) == (if m.locList == [] then NoIndex else Row(0))
    ensures idx.Row? && idx.row >= |m.locList| - 1 ==> m.NextIndex(idx) == NoIndex
    ensures idx.Row? && 0 <= idx.row < |m.locList| - 1 ==> m.NextIndex(idx) == Row(idx.row + 1)
    ensures m.NextIndex(idx).Row? ==> m.LocationFromIndex(m.NextIndex(idx)).Some?
  {
  }

  /** The three cases of prevIndex, and that it only ever yields a row of the list. */
  lemma PrevIndexSpec(m: LocationListModel, idx: ListIndex)
    ensures idx.NoIndex? ==> m.PrevIndex(idx) == (if m.locList == [] then NoIndex else Row(|m.locList| - 1))
    ensures idx.Row? && idx.row <= 0 ==> m.PrevIndex(idx) == NoIndex
    ensures idx.Row? && 0 < idx.row <= |m.locList| ==> m.PrevIndex(idx) == Row(idx.row - 1)
    ensures m.PrevIndex(idx).Row? ==> m.LocationFromIndex(m.PrevIndex(idx)).Some?
  {
  }

  /** Stepping forward and then back from a row that has a successor returns to it, and the other way round. */
  lemma NextPrevRoundTrip(m: LocationListModel, row: int)
    ensures 0 <= row < |m.locList| - 1 ==> m.PrevIndex(m.NextIndex(Row(row))) == Row(row)
    ensures 0 < row < |m.locList| ==> m.NextIndex(m.PrevIndex(Row(row))) == Row(row)
  {
  }

  /** The index reached from the invalid one after k calls of nextIndex. */
  function Forward(m: LocationListModel, k: nat): ListIndex
    reads m
  {
    if k == 0 then NoIndex else m.NextIndex(Forward(m, k - 1))
  }

  /**
   * Walking forward from the invalid index visits every row in order and
   * then falls back to the invalid index after the last one.
   */
  lemma {:induction false} ForwardVisitsAll(m: LocationListModel, k: nat)
    requires 0 < k <= |m.locList| + 1
    ensures k <= |m.locList| ==> Forward(m, k) == Row(k - 1) && m.LocationFromIndex(Forward(m, k)) == Some(m.locList[k - 1])
    ensures k == |m.locList| + 1 ==> Forward(m, k) == NoIndex
  {
    if k > 1 {
      ForwardVisitsAll(m, k - 1);
    }
  }

  /**
   * An add of nothing followed by clear leaves the model Empty rather
   * than Unknown; an add of something followed by clear makes it Unknown.
   */
  method AddThenClear(m: LocationListModel, locs: seq<Location>)
    requires m.locList == []
    modifies m
    ensures m.IsEmpty(NoIndex) == (if locs == [] then Empty else Unknown)
  {
    m.Add(locs);
    m.Clear();
  }
}
