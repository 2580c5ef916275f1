/** The project handlers of backend/controllers/projectControllers.js: listing a
    user's projects, and `addProjects` with its checks in order, the normalisation
    of `technologies`, and the answers for a failed save. */
module ProjectControllers {
  import opened Js
  import opened Http
  import Mongo
  import opened ProjectModel
  import UserModel
  import VerifyToken

  /** `technologies` as the request may carry it: an array of strings or one
      comma-separated string. */
  datatype TechInput = Items(items: seq<string>) | Text(text: string)

  /** `!technologies`: absent, or the empty string. An empty array is truthy. */
  predicate TechTruthy(t: Maybe<TechInput>) {
    t.Defined? && t.value != Text("")
  }

  /** `r` is what `trim` leaves of `s`: a slice of it with only whitespace cut
      away at either end and none left at either end. */
  ghost predicate TrimmedFrom(r: string, s: string) {
    (exists i, j :: 0 <= i <= j <= |s| && r == s[i..j] && AllSpace(s[..i]) && AllSpace(s[j..]))
    && (r == [] || (!IsSpace(r[0]) && !IsSpace(r[|r| - 1])))
  }

  /** `.map((t) => t.trim())`. */
  function TrimAll(s: seq<string>): (r: seq<string>)
    ensures |r| == |s|
    ensures forall k :: 0 <= k < |s| ==> r[k] == Trim(s[k])
  {
    seq(|s|, k requires 0 <= k < |s| => Trim(s[k]))
  }

  /** The entries stay in order, each stripped of its surrounding whitespace and
      nothing else, empty exactly when it was blank; trimming again changes nothing. */
  lemma TrimAllSpec(s: seq<string>)
    ensures |TrimAll(s)| == |s|
    ensures forall k :: 0 <= k < |s| ==> TrimmedFrom(TrimAll(s)[k], s[k])
    ensures forall k :: 0 <= k < |s| ==> (TrimAll(s)[k] == "" <==> AllSpace(s[k]))
    ensures TrimAll(TrimAll(s)) == TrimAll(s)
  {
    var r := TrimAll(s);
    forall k | 0 <= k < |s|
      ensures TrimmedFrom(r[k], s[k]) && (r[k] == "" <==> AllSpace(s[k])) && Trim(r[k]) == r[k]
    {
      TrimIsSlice(s[k]);
      TrimEmptyIffAllSpace(s[k]);
      TrimIdempotent(s[k]);
    }
  }

  /** `technologieArray`: each element trimmed, or the string split on "," and
      each piece trimmed. */
  function Technologies(t: TechInput): seq<string> {
    match t
    case Items(items) => TrimAll(items)
    case Text(text) => TrimAll(Split(text, ','))
  }

  /** An array keeps its length and order; a string gives one entry per comma plus
      one, empty pieces included, so it never gives an empty list. */
  lemma TechnologiesShape(t: TechInput)
    ensures t.Items? ==> |Technologies(t)| == |t.items|
                         && forall k :: 0 <= k < |t.items| ==> Technologies(t)[k] == Trim(t.items[k])
    ensures t.Text? ==> |Technologies(t)| == Count(t.text, ',') + 1
                        && forall k :: 0 <= k < |Split(t.text, ',')| ==> Technologies(t)[k] == Trim(Split(t.text, ',')[k])
    ensures t.Text? ==> |Technologies(t)| >= 1
  {
    if t.Text? {
      SplitLength(t.text, ',');
    }
  }

  /** The entries of a comma-separated string are its pieces, trimmed: joining the
      untrimmed pieces gives the string back. */
  lemma TechnologiesFromText(text: string)
    ensures Join(Split(text, ','), ",") == text
    ensures Technologies(Text(text)) == TrimAll(Split(text, ','))
  {
    JoinSplit(text, ',');
  }

  /** `x?.trim() || ""`. */
  function TrimOrEmpty(x: Maybe<string>): (r: string)
    ensures x.Undefined? ==> r == ""
    ensures x.Defined? ==> r == Trim(x.value)
  {
    if x.Defined? then Trim(x.value) else ""
  }

  /** A given value is reduced to what `trim` leaves of it, a missing one to "";
      the result is empty exactly when the value is missing or blank, and trimming
      it again changes nothing. */
  lemma TrimOrEmptySpec(x: Maybe<string>)
    ensures x.Defined? ==> TrimmedFrom(TrimOrEmpty(x), x.value)
    ensures TrimOrEmpty(x) == "" <==> x.Undefined? || AllSpace(x.value)
    ensures Trim(TrimOrEmpty(x)) == TrimOrEmpty(x)
  {
    if x.Defined? {
      TrimIsSlice(x.value);
      TrimEmptyIffAllSpace(x.value);
      TrimIdempotent(x.value);
    }
  }

  /** The document `addProjects` builds for user `userId`. */
  function Build(id: string, title: string, description: string, image: Maybe<string>, technologies: TechInput,
                 githublink: Maybe<string>, livelink: Maybe<string>, userId: string, now: int): (p: Project)
    ensures p.title == Trim(title) && p.description == Trim(description)
    ensures p.technologies == Technologies(technologies)
    ensures p.image == TrimOrEmpty(image) && p.githublink == TrimOrEmpty(githublink)
    ensures p.livelink == TrimOrEmpty(livelink) && p.userId == userId
  {
    Project(id, Trim(title), Trim(description), Technologies(technologies), TrimOrEmpty(livelink),
            TrimOrEmpty(githublink), ImageOrDefault(Defined(TrimOrEmpty(image))), userId, now)
  }

  /** The handler always gives `image` a value, so the schema's placeholder is
      never stored. */
  lemma DefaultImageNeverUsed(id: string, title: string, description: string, technologies: TechInput,
                              githublink: Maybe<string>, livelink: Maybe<string>, userId: string, now: int)
    ensures Build(id, title, description, Undefined, technologies, githublink, livelink, userId, now).image == ""
  {
  }

  /** A title of spaces passes the handler's check and fails the schema. */
  lemma BlankTitleFailsValidation(id: string, description: string, technologies: TechInput, userId: string, now: int)
    ensures !ValidProject(Build(id, "   ", description, Undefined, technologies, Undefined, Undefined, userId, now))
  {
    assert AllSpace("   ");
    TrimEmptyIffAllSpace("   ");
  }

  datatype Body = ProjectList(projects: seq<Project>) | Added(message: string, project: Project) | Message(text: string)

  /** `Project.find({ userId })`, in store order. */
  function ProjectsOf(projects: seq<Project>, userId: string): (r: seq<Project>)
    ensures forall p :: p in r <==> p in projects && p.userId == userId
  {
    Filter(projects, (p: Project) => p.userId == userId)
  }

  /** The project collection. */
  class ProjectStore {
    var projects: seq<Project>

    ghost predicate Valid()
      reads this
    {
      ValidStore(projects)
    }

    constructor ()
      ensures Valid() && projects == []
    {
      projects := [];
    }

    /** `getProjectDate`: the user's projects (an empty list when there are none);
        an id that does not cast makes the query throw. */
    method GetProjectDate(userid: string) returns (r: Response<Body>)
      ensures !Mongo.IsObjectId(userid) ==> r == Response(ServerError, Message("Server error fetching projects"))
      ensures Mongo.IsObjectId(userid) ==> r == Response(Ok, ProjectList(ProjectsOf(projects, userid)))
      ensures r.status == Ok && r.body.projects == [] ==>
                forall k :: 0 <= k < |projects| ==> projects[k].userId != userid
    {
      if !Mongo.IsObjectId(userid) {
        return Response(ServerError, Message("Server error fetching projects"));
      }
      var found := ProjectsOf(projects, userid);
      if found == [] {
        return Response(Ok, ProjectList([]));
      }
      r := Response(Ok, ProjectList(found));
    }

    /** `addProjects`. The checks run in order: the caller's uid (401), the stored
        user (404), the three required fields (400). Then the normalised document is
        validated by the schema (500) and inserted under the unique index; a
        `(title, userId)` pair already stored fails with code 11000, answered 409
        "title already exists." (`title` is the index's first key). `freshId` and
        `now` are the `_id` and `createdAt` the database assigns. */
    method AddProjects(users: seq<UserModel.User>, reqUser: Maybe<VerifyToken.ReqUser>,
                       title: Maybe<string>, description: Maybe<string>, image: Maybe<string>,
                       technologies: Maybe<TechInput>, githublink: Maybe<string>, livelink: Maybe<string>,
                       freshId: string, now: int)
      returns (r: Response<Body>)
      requires Valid()
      requires freshId !in ProjectIds(projects)
      modifies this
      ensures Valid()
      ensures reqUser.Undefined? || reqUser.value.firebaseUid == "" ==>
                r == Response(Unauthorized, Message("Unauthorized: Missing Firebase UID"))
      ensures (reqUser.Defined? && reqUser.value.firebaseUid != ""
               && UserModel.FindByFirebaseUid(users, reqUser.value.firebaseUid).Undefined?) ==>
                r == Response(NotFound, Message("User not found"))
      ensures (reqUser.Defined? && reqUser.value.firebaseUid != ""
               && UserModel.FindByFirebaseUid(users, reqUser.value.firebaseUid).Defined?
               && (!Truthy(title) || !Truthy(description) || !TechTruthy(technologies))) ==>
                r == Response(BadRequest, Message("Title, description, and technologies are required."))
      ensures (reqUser.Defined? && reqUser.value.firebaseUid != ""
               && UserModel.FindByFirebaseUid(users, reqUser.value.firebaseUid).Defined?
               && Truthy(title) && Truthy(description) && TechTruthy(technologies)) ==>
                var u := UserModel.FindByFirebaseUid(users, reqUser.value.firebaseUid).value;
                var p := Build(freshId, title.value, description.value, image, technologies.value,
                               githublink, livelink, u.id, now);
                (!ValidProject(p) ==> r.status == ServerError)
                && (ValidProject(p) && HasTitle(old(projects), p.title, u.id) ==>
                      r == Response(Conflict, Message("title already exists.")))
                && (ValidProject(p) && !HasTitle(old(projects), p.title, u.id) ==>
                      projects == old(projects) + [p]
                      && r == Response(Created, Added("\U{2705} Project added successfully!", p)))
      ensures r.status != Created ==> projects == old(projects)
    {
      if reqUser.Undefined? || reqUser.value.firebaseUid == "" {
        return Response(Unauthorized, Message("Unauthorized: Missing Firebase UID"));
      }
      var u := UserModel.FindByFirebaseUid(users, reqUser.value.firebaseUid);
      if u.Undefined? {
        return Response(NotFound, Message("User not found"));
      }
      if !Truthy(title) || !Truthy(description) || !TechTruthy(technologies) {
        return Response(BadRequest, Message("Title, description, and technologies are required."));
      }
      var p := Build(freshId, title.value, description.value, image, technologies.value,
                     githublink, livelink, u.value.id, now);
      if !ValidProject(p) {
        return Response(ServerError, Message("Server error while adding project"));
      }
      if HasTitle(projects, p.title, u.value.id) {
        return Response(Conflict, Message("title already exists."));
      }
      InsertKeepsValidStore(projects, p);
      projects := projects + [p];
      r := Response(Created, Added("\U{2705} Project added successfully!", p));
    }
  }
}
