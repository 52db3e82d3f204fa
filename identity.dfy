/**
 * The per-browser identifier kept under the `uniqueId` key of local storage, created on
 * the first submission and reused afterwards. The fresh identifier (a `uuidv4()`) is
 * passed in.
 */
module Identity {
  import opened Wrappers

  /**
   * The identifier returned and the slot's new content, for a slot and a fresh identifier.
   * `if (!uniqueId)` treats a stored empty string like a missing one.
   */
  function GetOrCreateResult(stored: Option<string>, newId: string): (r: (string, Option<string>))
    ensures r.1 == Some(r.0)
    ensures !IsFalsy(stored) ==> r == (stored.value, stored)
    ensures IsFalsy(stored) ==> r.0 == newId
  {
    if IsFalsy(stored) then (newId, Some(newId)) else (stored.value, stored)
  }

  /**
   * Once the slot holds a non-empty identifier, a second get-or-create returns the same
   * identifier whatever new value it is offered, and changes nothing.
   */
  lemma SecondCallSameId(stored: Option<string>, newId1: string, newId2: string)
    requires newId1 != ""
    ensures var (id1, s1) := GetOrCreateResult(stored, newId1);
            GetOrCreateResult(s1, newId2) == (id1, s1)
  {
  }

  /** The local-storage slot `uniqueId`: `None` when `getItem` returns `null`. */
  class IdentitySlot {
    var stored: Option<string>

    constructor (initial: Option<string>)
      ensures stored == initial
    {
      stored := initial;
    }

    /** Lines 124-128 of `generateInterface`: read the slot, write it only when it is missing. */
    method GetOrCreate(newId: string) returns (id: string)
      modifies this
      ensures (id, stored) == GetOrCreateResult(old(stored), newId)
      ensures !IsFalsy(old(stored)) ==> id == old(stored).value && stored == old(stored)
      ensures IsFalsy(old(stored)) ==> id == newId && stored == Some(newId)
    {
      var item := stored;
      if IsFalsy(item) {
        id := newId;
        stored := Some(newId);
      } else {
        id := item.value;
      }
    }
  }
}
