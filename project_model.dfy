/** The project document of backend/models/projects.js: the schema's bounds, the
    `image` default, and the unique index on `(title, userId)`. */
module ProjectModel {
  import opened Js
  import Mongo

  /** A stored project, with its timestamp. */
  datatype Project = Project(id: string, title: string, description: string, technologies: seq<string>,
                             livelink: string, githublink: string, image: string, userId: string,
                             createdAt: int)

  const DefaultImage := "https://res.cloudinary.com/demo/image/upload/v1699999999/default_project.png"

  /** `title`: required, at most 50 characters; `description`: required, at most
      300; `technologies`: at least one entry; `userId`: a required ObjectId. */
  predicate ValidProject(p: Project) {
    p.title != "" && |p.title| <= 50
    && p.description != "" && |p.description| <= 300
    && |p.technologies| > 0
    && Mongo.IsObjectId(p.userId)
  }

  /** The `image` path with its default: the placeholder only when no value is given. */
  function ImageOrDefault(image: Maybe<string>): (r: string)
    ensures image.Undefined? ==> r == DefaultImage
    ensures image.Defined? ==> r == image.value
  {
    image.GetOr(DefaultImage)
  }

  /** An empty string is a value: the default does not replace it. */
  lemma EmptyImageKept()
    ensures ImageOrDefault(Defined("")) == ""
  {
  }

  /** The unique index `{ title: 1, userId: 1 }`, and distinct `_id`s. */
  predicate UniqueProjects(projects: seq<Project>) {
    forall i, j :: 0 <= i < j < |projects| ==>
      (projects[i].title, projects[i].userId) != (projects[j].title, projects[j].userId)
      && projects[i].id != projects[j].id
  }

  /** Some stored project already has this title for this user. */
  predicate HasTitle(projects: seq<Project>, title: string, userId: string) {
    exists k :: 0 <= k < |projects| && projects[k].title == title && projects[k].userId == userId
  }

  function ProjectIds(projects: seq<Project>): set<string> {
    set k | 0 <= k < |projects| :: projects[k].id
  }

  /** Inserting a project whose pair and id are new keeps the store's keys unique;
      with the pair present, the index would be violated. */
  lemma InsertKeepsUnique(projects: seq<Project>, p: Project)
    requires UniqueProjects(projects)
    ensures UniqueProjects(projects + [p]) <==>
              !HasTitle(projects, p.title, p.userId) && p.id !in ProjectIds(projects)
  {
    var t := projects + [p];
    if !HasTitle(projects, p.title, p.userId) && p.id !in ProjectIds(projects) {
      forall i, j | 0 <= i < j < |t|
        ensures (t[i].title, t[i].userId) != (t[j].title, t[j].userId) && t[i].id != t[j].id
      {
        if j == |projects| {
          assert t[i] == projects[i];
        } else {
          assert t[i] == projects[i] && t[j] == projects[j];
        }
      }
    }
    if UniqueProjects(t) {
      forall k | 0 <= k < |projects| ensures !(projects[k].title == p.title && projects[k].userId == p.userId) {
        assert t[k] == projects[k] && t[|projects|] == p;
      }
      forall k | 0 <= k < |projects| ensures projects[k].id != p.id {
        assert t[k] == projects[k] && t[|projects|] == p;
      }
    }
  }

  /** What the collection keeps: every document valid, the index respected. */
  predicate ValidStore(projects: seq<Project>) {
    UniqueProjects(projects) && forall k :: 0 <= k < |projects| ==> ValidProject(projects[k])
  }

  lemma InsertKeepsValidStore(projects: seq<Project>, p: Project)
    requires ValidStore(projects) && ValidProject(p)
    requires !HasTitle(projects, p.title, p.userId) && p.id !in ProjectIds(projects)
    ensures ValidStore(projects + [p])
  {
    InsertKeepsUnique(projects, p);
    var t := projects + [p];
    forall k | 0 <= k < |t| ensures ValidProject(t[k]) {
      if k < |projects| {
        assert t[k] == projects[k];
      }
    }
  }
}
