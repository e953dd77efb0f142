/** The onboarding screen: choosing a role, toggling interests, and the
    guard in front of the profile update that completes the setup. */
module Onboarding {
  import opened Lists

  /** `selectedRole`: 'innovator' | 'investor'. */
  datatype Role = Innovator | Investor

  /** The string written to the profile's `role` column. */
  function RoleValue(role: Role): string
  {
    match role
    case Innovator => "innovator"
    case Investor => "investor"
  }

  /** The values of the two role cards, in the order shown. */
  const RoleCards: seq<string> := ["innovator", "investor"]

  /** The interest badges, in the order shown. */
  const InterestCatalog: seq<string> := [
    "AI", "Health", "Education", "Finance", "Technology", "Environment",
    "E-commerce", "Social Media", "Gaming", "Food", "Transportation", "Real Estate"]

  /** The `toggleInterest` updater: a selected interest is filtered out,
      an unselected one is appended. */
  function Toggle(prev: seq<string>, interest: string): (r: seq<string>)
    ensures interest in r <==> interest !in prev
    ensures forall other :: other != interest ==> (other in r <==> other in prev)
    ensures interest !in prev ==> r == prev + [interest]
    ensures interest in prev ==> IsSubsequence(r, prev)
    ensures NoDuplicates(prev) ==> NoDuplicates(r)
    ensures NoDuplicates(prev) ==>
      forall i :: 0 <= i < |prev| && prev[i] == interest ==> r == prev[..i] + prev[i + 1..]
  {
    if interest in prev then
      assert NoDuplicates(prev) ==> NoDuplicates(RemoveAll(prev, interest)) by {
        if NoDuplicates(prev) { RemoveNoDuplicates(prev, interest); }
      }
      forall i | 0 <= i < |prev| && prev[i] == interest && NoDuplicates(prev)
        ensures RemoveAll(prev, interest) == prev[..i] + prev[i + 1..]
      {
        RemoveAt(prev, i);
      }
      RemoveAll(prev, interest)
    else
      assert NoDuplicates(prev) ==> NoDuplicates(prev + [interest]) by {
        if NoDuplicates(prev) { AppendNoDuplicates(prev, interest); }
      }
      prev + [interest]
  }

  /** Toggling an unselected interest twice gives back the same list. */
  lemma ToggleTwiceAbsent(prev: seq<string>, interest: string)
    requires interest !in prev
    ensures Toggle(Toggle(prev, interest), interest) == prev
  {
    RemoveAppended(prev, interest);
  }

  /** Toggling a selected interest twice keeps the same set of interests
      but moves that interest to the end. */
  lemma ToggleTwicePresent(prev: seq<string>, interest: string)
    requires interest in prev
    ensures Toggle(Toggle(prev, interest), interest) == RemoveAll(prev, interest) + [interest]
    ensures forall x :: x in Toggle(Toggle(prev, interest), interest) <==> x in prev
    ensures NoDuplicates(prev) && prev[|prev| - 1] != interest ==>
      Toggle(Toggle(prev, interest), interest) != prev
  {
    var back := Toggle(Toggle(prev, interest), interest);
    if NoDuplicates(prev) && prev[|prev| - 1] != interest {
      assert back[|back| - 1] == interest;
    }
  }

  /** The selection after a sequence of badge clicks. */
  function ToggleAll(prev: seq<string>, clicks: seq<string>): seq<string>
    decreases |clicks|
  {
    if clicks == [] then prev else ToggleAll(Toggle(prev, clicks[0]), clicks[1..])
  }

  /** No sequence of clicks produces a duplicate, and clicks on catalog
      badges only ever select catalog interests. */
  lemma {:induction false} ToggleAllKeepsSelection(prev: seq<string>, clicks: seq<string>)
    requires NoDuplicates(prev)
    ensures NoDuplicates(ToggleAll(prev, clicks))
    ensures (forall x :: x in prev ==> x in InterestCatalog) && (forall c :: c in clicks ==> c in InterestCatalog) ==>
      forall x :: x in ToggleAll(prev, clicks) ==> x in InterestCatalog
    decreases |clicks|
  {
    if clicks != [] {
      assert forall c :: c in clicks[1..] ==> c in clicks;
      ToggleAllKeepsSelection(Toggle(prev, clicks[0]), clicks[1..]);
    }
  }

  /** The row `handleComplete` writes to the user's profile. */
  datatype ProfileUpdate = ProfileUpdate(role: Role, interests: seq<string>)

  /** How `handleComplete` ends: the empty-selection toast, the "No user
      found" error, a failed update, or a written profile followed by the
      navigation to `/`. */
  datatype Completion =
    | SelectInterestsFirst
    | NoUser
    | UpdateFailed(update: ProfileUpdate)
    | Completed(update: ProfileUpdate)

  /** The form's state: the chosen role (initially innovator) and the
      ordered list of selected interests. */
  class OnboardingForm {
    var selectedRole: Role
    var selectedInterests: seq<string>

    ghost predicate Valid()
      reads this
    {
      NoDuplicates(selectedInterests)
    }

    constructor ()
      ensures Valid() && selectedRole == Innovator && selectedInterests == []
    {
      selectedRole := Innovator;
      selectedInterests := [];
    }

    /** A role card's `onClick`. */
    method SelectRole(role: Role)
      requires Valid()
      modifies this
      ensures Valid() && selectedRole == role && selectedInterests == old(selectedInterests)
    {
      selectedRole := role;
    }

    /** `toggleInterest(interest)`. */
    method ToggleInterest(interest: string)
      requires Valid()
      modifies this
      ensures Valid()
      ensures selectedInterests == Toggle(old(selectedInterests), interest)
      ensures selectedRole == old(selectedRole)
    {
      selectedInterests := Toggle(selectedInterests, interest);
    }

    /** `handleComplete`: `signedIn` is whether `getUser` returns a user and
      `updateSucceeds` whether the profile update reports no error. Nothing
      is written when no interest is selected. */
    method HandleComplete(signedIn: bool, updateSucceeds: bool) returns (c: Completion)
      ensures c == SelectInterestsFirst <==> selectedInterests == []
      ensures c == NoUser <==> selectedInterests != [] && !signedIn
      ensures c.Completed? <==> selectedInterests != [] && signedIn && updateSucceeds
      ensures c.UpdateFailed? <==> selectedInterests != [] && signedIn && !updateSucceeds
      ensures c.UpdateFailed? || c.Completed? ==>
        c.update == ProfileUpdate(selectedRole, selectedInterests) && RoleValue(c.update.role) in RoleCards
    {
      if selectedInterests == [] {
        return SelectInterestsFirst;
      }
      if !signedIn {
        return NoUser;
      }
      var update := ProfileUpdate(selectedRole, selectedInterests);
      if updateSucceeds {
        c := Completed(update);
      } else {
        c := UpdateFailed(update);
      }
    }
  }
}
