/**
 The read/write lock discipline of internal/store/store.go: every method holds
 the lock for reading, Close and Wipe hold it for writing, and nothing opens a
 closed store again.
 */
module StoreLock {
  /** How often the database was closed and a deletion of its files begun, whether they are gone, and whether the process lock is still held. */
  datatype State = State(readers: nat, closed: bool, closings: nat, wipes: nat, deleted: bool, locked: bool)

  const OPEN := State(0, false, 0, 0, false, true)

  /** use(): a reader, unless the store is closed. */
  function Used(st: State): State { if st.closed then st else st.(readers := st.readers + 1) }

  function Released(st: State): State
    requires st.readers > 0
  {
    st.(readers := st.readers - 1)
  }

  function Closed(st: State): State {
    st.(closed := true, closings := st.closings + (if st.closed then 0 else 1), locked := false)
  }

  /** removed: every file could be deleted, or was not there. */
  function Wiped(st: State, removed: bool): State { Closed(st).(wipes := st.wipes + 1, deleted := st.deleted || removed) }

  class Store {
    var readers: nat
    var closed: bool
    var closings: nat
    var wipes: nat
    var deleted: bool
    var locked: bool

    function View(): State
      reads this
    {
      State(readers, closed, closings, wipes, deleted, locked)
    }

    constructor ()
      ensures View() == OPEN
    {
      readers, closed, closings, wipes, deleted, locked := 0, false, 0, 0, false, true;
    }

    /** Whether the caller may go on; it then owes one Done. */
    method Use() returns (ok: bool)
      modifies this
      ensures View() == Used(old(View()))
      ensures ok <==> !old(closed)
      ensures View() == old(View()).(readers := old(readers) + if ok then 1 else 0)
    {
      readers := readers + 1;
      if closed {
        readers := readers - 1;
        return false;
      }
      return true;
    }

    method Done()
      requires readers > 0
      modifies this
      ensures View() == Released(old(View())) && readers == old(readers) - 1
    {
      readers := readers - 1;
    }

    /** The writer's turn comes when no reader is left. */
    method Close()
      requires readers == 0
      modifies this
      ensures View() == Closed(old(View()))
      ensures closed && !locked && closings == old(closings) + (if old(closed) then 0 else 1)
      ensures wipes == old(wipes) && deleted == old(deleted)
    {
      if !closed {
        closed := true;
        closings := closings + 1;
      }
      locked := false;
    }

    /** ok is false if one of the files, removable[i] of them in turn, could not be deleted; the others are tried all the same. */
    method Wipe(removable: seq<bool>) returns (ok: bool)
      requires readers == 0
      modifies this
      ensures ok <==> forall i :: 0 <= i < |removable| ==> removable[i]
      ensures View() == Wiped(old(View()), ok)
      ensures closed && !locked && closings == old(closings) + (if old(closed) then 0 else 1)
      ensures wipes == old(wipes) + 1 && (deleted <==> old(deleted) || ok)
    {
      if !closed {
        closed := true;
        closings := closings + 1;
      }
      wipes := wipes + 1;
      ok := true;
      for i := 0 to |removable|
        invariant ok <==> forall j :: 0 <= j < i ==> removable[j]
      {
        if !removable[i] {
          ok := false;
        }
      }
      deleted := deleted || ok;
      locked := false;
    }
  }
}
