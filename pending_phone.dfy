/**
 * The pending phone number: a value typed before the profile exists is kept under
 * one local-storage key and written into the profile once the backend is ready.
 */
module PendingPhone {
  import opened Wrappers
  import ProfileForm

  /**
   * The caller's profile as the backend returns it. The declared profile type has no
   * phone field; the hook reads and writes one beside the declared fields.
   */
  datatype StoredProfile = StoredProfile(fields: ProfileForm.DatingProfile, phoneNumber: Option<string>)

  /** JavaScript truthiness of a nullable string: present and non-empty. */
  predicate Truthy(v: Option<string>) {
    v.Some? && v.value != ""
  }

  /**
   * The save the reconcile step issues, if any: only with an actor, a fetched and existing
   * profile, a non-empty pending value and a profile without a phone number; the saved
   * profile is the old one with only the phone number replaced by the pending value.
   */
  function SaveRequest(actorReady: bool, isFetched: bool, profile: Option<StoredProfile>, pending: Option<string>): (save: Option<StoredProfile>)
    ensures save.Some? <==> actorReady && isFetched && profile.Some? && Truthy(pending) && !Truthy(profile.value.phoneNumber)
    ensures save.Some? ==> save.value.fields == profile.value.fields && save.value.phoneNumber == pending
  {
    if !actorReady || !isFetched || profile.None? then None
    else if Truthy(pending) && !Truthy(profile.value.phoneNumber) then Some(profile.value.(phoneNumber := pending))
    else None
  }

  /** The profile a save produced asks for no further save, whatever is still stored. */
  lemma ReconcileSettles(actorReady: bool, isFetched: bool, profile: Option<StoredProfile>, pending: Option<string>, later: Option<string>)
    requires SaveRequest(actorReady, isFetched, profile, pending).Some?
    ensures SaveRequest(actorReady, isFetched, SaveRequest(actorReady, isFetched, profile, pending), later).None?
  {
  }

  /** The `pendingPhoneNumber` entry of local storage. */
  class PendingPhoneStore {
    var stored: Option<string>

    constructor (initial: Option<string>)
      ensures stored == initial
    {
      stored := initial;
    }

    /** `setPendingPhoneNumber`: an empty number is ignored, any other replaces the stored value. */
    method SetPendingPhoneNumber(phoneNumber: string)
      modifies this
      ensures phoneNumber == "" ==> stored == old(stored)
      ensures phoneNumber != "" ==> stored == Some(phoneNumber)
    {
      if phoneNumber != "" {
        stored := Some(phoneNumber);
      }
    }

    /** `clearPendingPhoneNumber`: the key is removed, so clearing again changes nothing. */
    method ClearPendingPhoneNumber()
      modifies this
      ensures stored.None?
    {
      stored := None;
    }

    /**
     * The hook's effect with the save's outcome given: it returns the save it issued, and
     * removes the key only when such a save succeeded; a failed save keeps it for a retry.
     */
    method Reconcile(actorReady: bool, isFetched: bool, profile: Option<StoredProfile>, saveSucceeds: bool)
      returns (save: Option<StoredProfile>)
      modifies this
      ensures save == SaveRequest(actorReady, isFetched, profile, old(stored))
      ensures stored == if save.Some? && saveSucceeds then None else old(stored)
    {
      save := None;
      if !actorReady || !isFetched || profile.None? {
        return;
      }
      var pendingPhone := stored;
      if Truthy(pendingPhone) && !Truthy(profile.value.phoneNumber) {
        save := Some(profile.value.(phoneNumber := pendingPhone));
        if saveSucceeds {
          stored := None;
        }
      }
    }
  }

  /**
   * Two clears leave storage as one clear does, and a save that fails keeps the number,
   * so the retry issues the same save and, succeeding, removes the key.
   */
  method ClearTwiceThenRetry(actorReady: bool, isFetched: bool, profile: Option<StoredProfile>)
    returns (first: Option<StoredProfile>, retry: Option<StoredProfile>, left: Option<string>)
    ensures retry == first
    ensures first == SaveRequest(actorReady, isFetched, profile, Some("98"))
    ensures left == if first.Some? then None else Some("98")
  {
    var store := new PendingPhoneStore(Some("12"));
    store.ClearPendingPhoneNumber();
    store.ClearPendingPhoneNumber();
    store.SetPendingPhoneNumber("98");
    first := store.Reconcile(actorReady, isFetched, profile, false);
    retry := store.Reconcile(actorReady, isFetched, profile, true);
    left := store.stored;
  }
}
