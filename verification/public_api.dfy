/**
 * The public blueprint (`/api/portfolio`): personal info with its built-in fallback, the
 * project listing with the `featured` filter, the grouped skills listing, and the
 * contact-message submission.
 */
module PublicApi {
  import opened Wrappers
  import opened Http
  import opened Models
  import SkillGroups

  /** The `data` object of the personal-info response. */
  datatype InfoView = InfoView(
    name: string, title: string, email: string, phone: string, location: string, summary: string)

  /** The record answered when the table has no row; it is not stored. */
  const FallbackInfo := InfoView(
    DefaultName, DefaultTitle, DefaultEmail, DefaultPhone, DefaultLocation,
    "Highly motivated and results-oriented Full Stack Developer with a strong passion for creating innovative and user-centric web applications.")

  function InfoViewOf(p: PersonalInfo): InfoView {
    InfoView(p.name, p.title, p.email, p.phone, p.location, p.summary)
  }

  /** `get_personal_info`: the first row if there is one, the fallback record otherwise. */
  function GetPersonalInfo(db: Db): (r: InfoView)
    ensures db.personalInfo == [] ==> r == FallbackInfo
    ensures db.personalInfo != [] ==> r == InfoViewOf(db.personalInfo[0])
  {
    if |db.personalInfo| == 0 then FallbackInfo else InfoViewOf(db.personalInfo[0])
  }

  /** One element of the project listing, with the JSON-list columns decoded. */
  datatype ProjectView = ProjectView(
    id: nat, title: string, subtitle: Option<string>, description: string,
    longDescription: Option<string>, technologies: seq<string>, features: seq<string>,
    imageUrl: Option<string>, liveUrl: Option<string>, githubUrl: Option<string>,
    status: Option<string>, isFeatured: Option<bool>)

  function ProjectViewOf(p: Project): (v: ProjectView)
    ensures v.id == p.id && v.isFeatured == p.isFeatured
    ensures v.technologies == GetTechnologies(p) && v.features == GetFeatures(p)
  {
    ProjectView(p.id, p.title, p.subtitle, p.description, p.longDescription,
      GetTechnologies(p), GetFeatures(p), p.imageUrl, p.liveUrl, p.githubUrl,
      p.status, p.isFeatured)
  }

  /** ASCII lower-casing of one character. */
  function LowerChar(c: char): char {
    if 'A' <= c <= 'Z' then (c as int + 32) as char else c
  }

  /** ASCII lower-casing, enough to decide whether a text lower-cases to "true". */
  function Lower(s: string): (r: string)
    ensures |r| == |s|
    ensures forall k :: 0 <= k < |s| ==> r[k] == LowerChar(s[k])
  {
    if |s| == 0 then []
    else [LowerChar(s[0])] + Lower(s[1..])
  }

  /** `request.args.get('featured', 'false').lower() == 'true'`. */
  predicate FeaturedOnly(arg: Option<string>) {
    Lower(arg.GetOr("false")) == "true"
  }

  /** The rows the query `filter_by(is_featured=True)` keeps, in their order. */
  function FeaturedProjects(ps: seq<Project>): (r: seq<Project>)
    ensures |r| <= |ps|
    ensures forall p :: p in r <==> p in ps && p.isFeatured == Some(true)
  {
    if |ps| == 0 then []
    else (if ps[0].isFeatured == Some(true) then [ps[0]] else []) + FeaturedProjects(ps[1..])
  }

  /** Adding a row at the end adds it to the featured rows exactly when it is featured. */
  lemma {:induction false} FeaturedProjectsSnoc(ps: seq<Project>, p: Project)
    ensures FeaturedProjects(ps + [p]) == FeaturedProjects(ps) + (if p.isFeatured == Some(true) then [p] else [])
  {
    if |ps| == 0 {
      assert ps + [p] == [p];
      assert [p][1..] == [];
    } else {
      assert (ps + [p])[0] == ps[0];
      assert (ps + [p])[1..] == ps[1..] + [p];
      FeaturedProjectsSnoc(ps[1..], p);
    }
  }

  function Views(ps: seq<Project>): (r: seq<ProjectView>)
    ensures |r| == |ps| && forall k :: 0 <= k < |ps| ==> r[k] == ProjectViewOf(ps[k])
  {
    seq(|ps|, k requires 0 <= k < |ps| => ProjectViewOf(ps[k]))
  }

  /**
   * `get_projects`: with the flag set, exactly the featured projects; otherwise every
   * project. The rows are taken in the order the query returns them.
   */
  function GetProjects(db: Db, featured: Option<string>): (r: seq<ProjectView>)
    ensures FeaturedOnly(featured) ==> forall k :: 0 <= k < |r| ==> r[k].isFeatured == Some(true)
    ensures FeaturedOnly(featured) ==>
      forall p :: p in db.projects && p.isFeatured == Some(true) ==> ProjectViewOf(p) in r
    ensures FeaturedOnly(featured) ==> r == Views(FeaturedProjects(db.projects))
    ensures !FeaturedOnly(featured) ==> |r| == |db.projects|
    ensures !FeaturedOnly(featured) ==> forall k :: 0 <= k < |r| ==> r[k] == ProjectViewOf(db.projects[k])
  {
    var rows := if FeaturedOnly(featured) then FeaturedProjects(db.projects) else db.projects;
    var r := Views(rows);
    assert FeaturedOnly(featured) ==> forall p :: p in db.projects && p.isFeatured == Some(true) ==>
      ProjectViewOf(p) in r by {
      if FeaturedOnly(featured) {
        forall p | p in db.projects && p.isFeatured == Some(true) ensures ProjectViewOf(p) in r {
          var k :| 0 <= k < |rows| && rows[k] == p;
          assert r[k] == ProjectViewOf(p);
        }
      }
    }
    r
  }

  /** The flag is on for exactly the sixteen casings of "true". */
  lemma FeaturedOnlyCasings(s: string)
    ensures FeaturedOnly(Some(s)) <==>
      && |s| == 4
      && (s[0] == 't' || s[0] == 'T') && (s[1] == 'r' || s[1] == 'R')
      && (s[2] == 'u' || s[2] == 'U') && (s[3] == 'e' || s[3] == 'E')
  {
    var l := Lower(s);
    if |s| == 4 {
      assert l == "true" <==> l[0] == 't' && l[1] == 'r' && l[2] == 'u' && l[3] == 'e';
    }
  }

  /** The flag is compared case-insensitively, and anything else lists every project. */
  lemma FeaturedFlagValues()
    ensures FeaturedOnly(Some("true")) && FeaturedOnly(Some("TRUE")) && FeaturedOnly(Some("True"))
    ensures !FeaturedOnly(None) && !FeaturedOnly(Some("false")) && !FeaturedOnly(Some("1"))
    ensures !FeaturedOnly(Some("yes")) && !FeaturedOnly(Some(" true"))
  {
  }

  /** `get_skills`: the grouped listing of the skills in query order. */
  function GetSkills(db: Db): (r: seq<SkillGroups.Group>)
    ensures SkillGroups.KeysDistinct(r) && SkillGroups.NoEmptyGroup(r)
    ensures SkillGroups.Total(r) == |db.skills|
  {
    SkillGroups.GroupByCategory(db.skills)
  }

  /** The four keys `submit_contact` insists on are all present. */
  predicate HasContactKeys(body: Body) {
    "name" in body && "email" in body && "subject" in body && "message" in body
  }

  /** All four values are strings, so the NOT NULL text columns accept them. */
  predicate ContactValuesFit(body: Body)
    requires HasContactKeys(body)
  {
    && body["name"].JStr? && body["email"].JStr?
    && body["subject"].JStr? && body["message"].JStr?
  }

  /**
   * `submit_contact`: a body lacking one of the four keys is answered 400; a body with all
   * four stores exactly one new unread message holding them. A missing body, or a value
   * the text columns cannot hold (such as null), fails at commit with 500. Any failure
   * leaves the database as it was.
   */
  function SubmitContact(db: Db, body: Option<Body>): (r: (Status, Db))
    ensures r.0 == BadRequest400 <==> body.Some? && !HasContactKeys(body.value)
    ensures r.0 == Ok200 <==> body.Some? && HasContactKeys(body.value) && ContactValuesFit(body.value)
    ensures r.0 != Ok200 ==> r.1 == db
    ensures r.0 == Ok200 ==> |r.1.messages| == |db.messages| + 1
    ensures r.0 == Ok200 ==>
      var m := r.1.messages[|db.messages|];
      && r.1 == db.(messages := db.messages + [m])
      && JStr(m.name) == body.value["name"] && JStr(m.email) == body.value["email"]
      && JStr(m.subject) == body.value["subject"] && JStr(m.message) == body.value["message"]
      && m.isRead == Some(false)
      && forall k :: 0 <= k < |db.messages| ==> db.messages[k].id < m.id
  {
    if body.None? then (ServerError500, db)
    else
      var data := body.value;
      if !HasContactKeys(data) then (BadRequest400, db)
      else if !ContactValuesFit(data) then (ServerError500, db)
      else
        var m := ContactMessage(
          NextId(MessageIds(db.messages)),
          data["name"].s, data["email"].s, data["subject"].s, data["message"].s,
          Some(DefaultIsRead));
        (Ok200, db.(messages := db.messages + [m]))
  }

  /** A request that only misses the message text stores nothing. */
  lemma SubmitContactMissingKey(db: Db)
    ensures SubmitContact(db, Some(map["name" := JStr("a"), "email" := JStr("b"), "subject" := JStr("c")]))
      == (BadRequest400, db)
  {
    var body := map["name" := JStr("a"), "email" := JStr("b"), "subject" := JStr("c")];
    assert "message" !in body;
  }

  /** The check is on key presence only: empty strings are accepted and stored. */
  lemma SubmitContactEmptyStrings(db: Db)
    ensures var body := map["name" := JStr(""), "email" := JStr(""), "subject" := JStr(""), "message" := JStr("")];
      SubmitContact(db, Some(body)).0 == Ok200
  {
  }

  /** Submitting keeps primary keys distinct. */
  lemma SubmitContactWellFormed(db: Db, body: Option<Body>)
    requires WellFormed(db)
    ensures WellFormed(SubmitContact(db, body).1)
  {
    var r := SubmitContact(db, body);
    if r.0 == Ok200 {
      var m := r.1.messages[|db.messages|];
      DistinctAppendFresh(MessageIds(db.messages), m.id);
      assert MessageIds(r.1.messages) == MessageIds(db.messages) + [m.id];
    }
  }
}
