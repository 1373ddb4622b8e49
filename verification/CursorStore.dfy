/** The file that keeps the time of the last sync. */
module CursorStore {
  import opened Records

  /** The file of the last sync time; it keeps whole seconds. */
  class SyncStore {
    var saved: Option<Time>

    ghost predicate Valid()
      reads this
    {
      saved.Some? ==> Whole(saved.value)
    }

    /** The time a pull starts from: the zero time before the first sync. */
    function Cursor(): Time
      reads this
    {
      if saved.Some? then saved.value else ZERO_TIME
    }

    constructor ()
      ensures Valid() && saved == None
    {
      saved := None;
    }

    method Save(t: Time, up: bool) returns (r: Result<(), StoreError>)
      requires Valid()
      modifies this
      ensures Valid()
      ensures saved == if up then Some(Trunc(t)) else old(saved)
      ensures r == if up then Success(()) else Failure(Unavailable)
      // the second the time falls in
      ensures up ==> saved.Some? && saved.value % 1_000_000_000 == 0 && saved.value <= t < saved.value + 1_000_000_000
    {
      if !up {
        return Failure(Unavailable);
      }
      saved := Some(Trunc(t));
      r := Success(());
    }

    method Load(up: bool) returns (r: Result<Time, StoreError>)
      requires Valid()
      ensures r == if !up then Failure(Unavailable)
                   else if saved.None? then Failure(NotFound) else Success(saved.value)
    {
      if !up {
        return Failure(Unavailable);
      }
      if saved.None? {
        return Failure(NotFound);
      }
      r := Success(saved.value);
    }
  }
}
