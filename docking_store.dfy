/** The synchronous docking store: the list of dockings plus the loading
    flag and the last error, each changed by its own setter. */
module DockingStores {
  import opened Wrappers
  import opened IdLists

  /** A scheduled docking; `bayId` is a JavaScript number. */
  datatype Docking = Docking(id: string, dockingTime: string, bayId: real, status: string)

  function DockingId(docking: Docking): (id: string)
  {
    docking.id
  }

  class DockingStore {
    var dockings: seq<Docking>
    var loading: bool
    /** `Error | null`, kept as the error's message. */
    var error: Option<string>

    constructor ()
      ensures dockings == [] && !loading && error == None
    {
      dockings := [];
      loading := false;
      error := None;
    }

    /** `setDockings`: the whole list is replaced. */
    method SetDockings(newDockings: seq<Docking>)
      modifies this
      ensures dockings == newDockings
      ensures loading == old(loading) && error == old(error)
    {
      dockings := newDockings;
    }

    /** `addDocking`: `push` at the end. */
    method AddDocking(newDocking: Docking)
      modifies this
      ensures dockings == old(dockings) + [newDocking]
      ensures loading == old(loading) && error == old(error)
    {
      dockings := dockings + [newDocking];
    }

    /** `updateDocking`: the first docking with the id is replaced by
        `updatedDocking`; with no such docking nothing changes. */
    method UpdateDocking(id: string, updatedDocking: Docking)
      modifies this
      ensures dockings == UpdateById(old(dockings), DockingId, id, updatedDocking)
      ensures loading == old(loading) && error == old(error)
    {
      var index := IndexOfId(dockings, DockingId, id);
      if index != -1 {
        dockings := dockings[index := updatedDocking];
      }
    }

    method SetLoading(isLoading: bool)
      modifies this
      ensures loading == isLoading
      ensures dockings == old(dockings) && error == old(error)
    {
      loading := isLoading;
    }

    method SetError(err: Option<string>)
      modifies this
      ensures error == err
      ensures dockings == old(dockings) && loading == old(loading)
    {
      error := err;
    }
  }
}
