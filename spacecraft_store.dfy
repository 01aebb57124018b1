/** The synchronous spacecraft store: the list of spacecraft plus the
    loading flag and the last error, each changed by its own setter. */
module SpacecraftStores {
  import opened JsValues
  import opened IdLists

  datatype Spacecraft = Spacecraft(id: string, name: string, kind: string, captain: string)

  function SpacecraftId(spacecraft: Spacecraft): (id: string)
  {
    spacecraft.id
  }

  class SpacecraftStore {
    var spacecrafts: seq<Spacecraft>
    var loading: bool
    /** Whatever was last passed to `setError`; `null` initially. */
    var error: Value

    constructor ()
      ensures spacecrafts == [] && !loading && error == Null
    {
      spacecrafts := [];
      loading := false;
      error := Null;
    }

    /** `setSpacecrafts`: the whole list is replaced. */
    method SetSpacecrafts(data: seq<Spacecraft>)
      modifies this
      ensures spacecrafts == data
      ensures loading == old(loading) && error == old(error)
    {
      spacecrafts := data;
    }

    method SetLoading(value: bool)
      modifies this
      ensures loading == value
      ensures spacecrafts == old(spacecrafts) && error == old(error)
    {
      loading := value;
    }

    method SetError(err: Value)
      modifies this
      ensures error == err
      ensures spacecrafts == old(spacecrafts) && loading == old(loading)
    {
      error := err;
    }

    /** `addSpacecraft`: `push` at the end. */
    method AddSpacecraft(data: Spacecraft)
      modifies this
      ensures spacecrafts == old(spacecrafts) + [data]
      ensures loading == old(loading) && error == old(error)
    {
      spacecrafts := spacecrafts + [data];
    }

    /** `updateSpacecraft`: the first spacecraft with the id is replaced by
        `data`; with no such spacecraft nothing changes. */
    method UpdateSpacecraft(id: string, data: Spacecraft)
      modifies this
      ensures spacecrafts == UpdateById(old(spacecrafts), SpacecraftId, id, data)
      ensures loading == old(loading) && error == old(error)
    {
      var index := IndexOfId(spacecrafts, SpacecraftId, id);
      if index != -1 {
        spacecrafts := spacecrafts[index := data];
      }
    }
  }
}
