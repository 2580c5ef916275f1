/** The suggestion card of frontend/src/components/RecomendationCard.jsx: the follow
    flag synced from `userData`, the follow toggle, the skills line and the button
    label. */
module RecommendationCard {
  import opened Js
  import UserModel

  /** `following ? "unfollow" : "follow"`. */
  function Endpoint(following: bool): string {
    if following then "unfollow" else "follow"
  }

  /** The button text. */
  function ButtonLabel(loadingFollow: bool, following: bool): (r: string)
    ensures loadingFollow ==> r == "Please wait..."
    ensures !loadingFollow ==> r == (if following then "Unfollow" else "Follow")
  {
    if loadingFollow then "Please wait..." else if following then "Unfollow" else "Follow"
  }

  /** The label names the request a click would send. */
  lemma LabelMatchesEndpoint(following: bool)
    ensures ButtonLabel(false, following) == (if Endpoint(following) == "unfollow" then "Unfollow" else "Follow")
  {
  }

  /** The skills line: absent without skills; otherwise the first three joined with
      ", ", and " ..." when there are more. */
  function SkillsLine(skills: Maybe<seq<string>>): (r: Maybe<string>)
    ensures r.Defined? <==> skills.Defined? && |skills.value| > 0
    ensures r.Defined? && |skills.value| <= 3 ==> r.value == Join(skills.value, ", ")
    ensures r.Defined? && |skills.value| > 3 ==> r.value == Join(skills.value[..3], ", ") + " ..."
  {
    if skills.Undefined? || |skills.value| == 0 then Undefined
    else
      var shown := if |skills.value| > 3 then skills.value[..3] else skills.value;
      Defined(Join(shown, ", ") + (if |skills.value| > 3 then " ..." else ""))
  }

  /** The line begins with the first skill. */
  lemma SkillsLineStartsWithFirst(skills: seq<string>)
    requires |skills| > 0
    ensures StartsWith(SkillsLine(Defined(skills)).value, skills[0])
  {
    var shown := if |skills| > 3 then skills[..3] else skills;
    JoinStartsWithFirst(shown, ", ");
    var line := SkillsLine(Defined(skills)).value;
    assert line[..|skills[0]|] == Join(shown, ", ")[..|skills[0]|];
  }

  lemma JoinStartsWithFirst(parts: seq<string>, sep: string)
    requires |parts| > 0
    ensures StartsWith(Join(parts, sep), parts[0])
  {
    if |parts| > 1 {
      assert Join(parts, sep) == parts[0] + (sep + Join(parts[1..], sep));
    }
  }

  /** `userData?.following?.includes(info._id) || false`. */
  predicate FollowsCard(userData: Maybe<UserModel.User>, cardId: string) {
    userData.Defined? && cardId in userData.value.following
  }

  /** One card. The context's value has no `setUserData` and no `fetchPostData`
      (frontend/src/Context/AuthProvider.jsx shares only `user`, `userData` and the
      sign-in functions); `contextComplete` says whether they are there. */
  class Card {
    const cardId: string
    const contextComplete: bool
    var following: bool
    var loadingFollow: bool
    /** The `endpoint` values posted, in order. */
    var requests: seq<string>

    constructor (cardId: string, contextComplete: bool)
      ensures this.cardId == cardId && this.contextComplete == contextComplete
      ensures !following && !loadingFollow && requests == []
    {
      this.cardId, this.contextComplete := cardId, contextComplete;
      following, loadingFollow, requests := false, false, [];
    }

    /** The effect on `userData` and `info._id`. */
    method Sync(userData: Maybe<UserModel.User>)
      modifies this
      ensures following == FollowsCard(userData, cardId)
      ensures loadingFollow == old(loadingFollow) && requests == old(requests)
    {
      following := userData.Defined? && cardId in userData.value.following;
    }

    /** `handleFollowToggle` up to the request: no user, no request. */
    method HandleFollowToggle(loggedIn: bool)
      modifies this
      ensures !loggedIn ==> loadingFollow == old(loadingFollow) && requests == old(requests)
      ensures loggedIn ==> loadingFollow && requests == old(requests) + [Endpoint(old(following))]
      ensures following == old(following)
    {
      if !loggedIn {
        return;
      }
      loadingFollow := true;
      requests := requests + [Endpoint(following)];
    }

    /** `handleFollowToggle` after the request. A successful POST flips `following`
        before the context calls, so the flip stands when they throw (as they do
        when the context lacks them); the toast tells which. The flag is cleared in
        every case. */
    method FollowSettled(postOk: bool) returns (toast: string)
      modifies this
      ensures !loadingFollow && requests == old(requests)
      ensures following == (if postOk then !old(following) else old(following))
      ensures toast == (if postOk && contextComplete
                        then (if following then "Now following this user!" else "Unfollowed successfully")
                        else "Error updating follow status")
    {
      if postOk {
        following := !following;
        if contextComplete {
          toast := if following then "Now following this user!" else "Unfollowed successfully";
        } else {
          toast := "Error updating follow status";
        }
      } else {
        toast := "Error updating follow status";
      }
      loadingFollow := false;
    }
  }
}
