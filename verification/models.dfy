/**
 * The SQLAlchemy tables as immutable rows, the database as one sequence of rows per
 * table (in query order), column defaults, primary-key assignment, uniqueness, and the
 * JSON-list accessors of `Experience` and `Project`.
 */
module Models {
  import opened Wrappers
  import JsonList

  datatype PersonalInfo = PersonalInfo(
    id: nat, name: string, title: string, email: string, phone: string,
    location: string, summary: string)

  datatype Experience = Experience(
    id: nat, title: string, company: string, period: string, location: string,
    description: Option<string>,
    responsibilities: Option<string>,   // JSON text
    projects: Option<string>,           // JSON text
    orderIndex: Option<int>)

  datatype Project = Project(
    id: nat, title: string, subtitle: Option<string>, description: string,
    longDescription: Option<string>,
    technologies: Option<string>,       // JSON text
    features: Option<string>,           // JSON text
    imageUrl: Option<string>, liveUrl: Option<string>, githubUrl: Option<string>,
    status: Option<string>, isFeatured: Option<bool>, orderIndex: Option<int>)

  datatype Skill = Skill(
    id: nat, name: string, category: string, level: Option<int>,
    description: Option<string>, orderIndex: Option<int>)

  datatype Language = Language(id: nat, name: string, level: string, orderIndex: Option<int>)

  datatype ContactMessage = ContactMessage(
    id: nat, name: string, email: string, subject: string, message: string,
    isRead: Option<bool>)

  datatype AdminUser = AdminUser(
    id: nat, username: string, passwordHash: string, email: string, isActive: Option<bool>)

  /** Every table, each as the sequence of its rows in query order. */
  datatype Db = Db(
    personalInfo: seq<PersonalInfo>,
    experiences: seq<Experience>,
    projects: seq<Project>,
    skills: seq<Skill>,
    languages: seq<Language>,
    messages: seq<ContactMessage>,
    admins: seq<AdminUser>)

  const EmptyDb := Db([], [], [], [], [], [], [])

  // Column defaults.
  const DefaultStatus := "Live"
  const DefaultFeatured := false
  const DefaultOrderIndex := 0
  const DefaultSkillLevel := 50
  const DefaultIsRead := false
  const DefaultIsActive := true
  const DefaultName := "Mahmoud Glala"
  const DefaultTitle := "Full Stack Developer & UI/UX Enthusiast"
  const DefaultEmail := "mahmoud.glala@example.com"
  const DefaultPhone := "+20 123 456 7890"
  const DefaultLocation := "Egypt"

  /**
   * The value an INSERT stores in a column that has a default: a value left at `None`
   * gets the default.
   */
  function OrDefault<T>(v: Option<T>, default: T): (r: T)
    ensures v.Some? ==> r == v.value
    ensures v.None? ==> r == default
  {
    v.GetOr(default)
  }

  /** The largest element of a sequence of keys, 0 for none. */
  function MaxId(ids: seq<nat>): (m: nat)
    ensures forall k :: 0 <= k < |ids| ==> ids[k] <= m
    ensures |ids| > 0 ==> exists k :: 0 <= k < |ids| && ids[k] == m
    ensures |ids| == 0 ==> m == 0
  {
    if |ids| == 0 then 0
    else
      var m := MaxId(ids[..|ids| - 1]);
      var last := ids[|ids| - 1];
      assert forall k :: 0 <= k < |ids| - 1 ==> ids[..|ids| - 1][k] == ids[k];
      if last > m then last else m
  }

  /**
   * The primary key SQLite gives a new row of an INTEGER PRIMARY KEY table:
   * one more than the largest key present (1 for an empty table).
   */
  function NextId(ids: seq<nat>): (r: nat)
    ensures r >= 1
    ensures forall k :: 0 <= k < |ids| ==> ids[k] < r
    ensures |ids| == 0 ==> r == 1
  {
    MaxId(ids) + 1
  }

  /** The key column of a table, row by row. */
  function Keys<R>(rows: seq<R>, key: R -> nat): (r: seq<nat>)
    ensures |r| == |rows| && forall k :: 0 <= k < |rows| ==> r[k] == key(rows[k])
  {
    seq(|rows|, k requires 0 <= k < |rows| => key(rows[k]))
  }

  function ProjectIds(ps: seq<Project>): seq<nat> { Keys(ps, (p: Project) => p.id) }
  function SkillIds(ss: seq<Skill>): seq<nat> { Keys(ss, (s: Skill) => s.id) }
  function MessageIds(ms: seq<ContactMessage>): seq<nat> { Keys(ms, (m: ContactMessage) => m.id) }
  function AdminIds(us: seq<AdminUser>): seq<nat> { Keys(us, (u: AdminUser) => u.id) }
  function PersonalInfoIds(xs: seq<PersonalInfo>): seq<nat> { Keys(xs, (x: PersonalInfo) => x.id) }

  /** No key occurs twice. */
  predicate Distinct<T(==)>(xs: seq<T>) {
    forall i, j :: 0 <= i < j < |xs| ==> xs[i] != xs[j]
  }

  /** The keys 1, 2, 3, ... that rows inserted into an empty table receive are distinct. */
  lemma CountingDistinct(ids: seq<nat>)
    requires forall k :: 0 <= k < |ids| ==> ids[k] == k + 1
    ensures Distinct(ids)
  {
  }

  /** Appending a key above every present key keeps the keys distinct. */
  lemma DistinctAppendFresh(ids: seq<nat>, newId: nat)
    requires Distinct(ids)
    requires forall k :: 0 <= k < |ids| ==> ids[k] < newId
    ensures Distinct(ids + [newId])
  {
  }

  /** `AdminUser.username` and `AdminUser.email` are each UNIQUE. */
  predicate AdminsUnique(us: seq<AdminUser>) {
    forall i, j :: 0 <= i < j < |us| ==> us[i].username != us[j].username && us[i].email != us[j].email
  }

  /** Primary keys are distinct in every modelled table, and the admin UNIQUE constraints hold. */
  predicate WellFormed(db: Db) {
    && Distinct(PersonalInfoIds(db.personalInfo))
    && Distinct(ProjectIds(db.projects))
    && Distinct(SkillIds(db.skills))
    && Distinct(MessageIds(db.messages))
    && Distinct(AdminIds(db.admins))
    && AdminsUnique(db.admins)
  }

  /** The position of the first occurrence of a key: what a primary-key lookup finds, if anything. */
  function FindKey(ids: seq<nat>, id: nat): (r: Option<nat>)
    ensures r.Some? ==> r.value < |ids| && ids[r.value] == id
    ensures r.Some? ==> forall k :: 0 <= k < r.value ==> ids[k] != id
    ensures r.None? <==> forall k :: 0 <= k < |ids| ==> ids[k] != id
  {
    if |ids| == 0 then None
    else if ids[0] == id then Some(0)
    else match FindKey(ids[1..], id)
      case None => None
      case Some(k) => Some(k + 1)
  }

  /** `Project.query.get_or_404(id)`, `ContactMessage.query.get_or_404(id)`, `AdminUser.query.get(id)`. */
  function FindProject(ps: seq<Project>, id: nat): Option<nat> { FindKey(ProjectIds(ps), id) }
  function FindMessage(ms: seq<ContactMessage>, id: nat): Option<nat> { FindKey(MessageIds(ms), id) }
  function FindAdmin(us: seq<AdminUser>, id: nat): Option<nat> { FindKey(AdminIds(us), id) }

  // ---------------------------------------------------------------------------
  // JSON-list columns

  /**
   * The shared body of `get_technologies`, `get_features`, `get_responsibilities` and
   * `get_projects`: a NULL or empty column, or one whose text does not decode, reads as `[]`.
   */
  function GetList(col: Option<string>): (r: seq<string>)
    ensures col.None? || col == Some([]) ==> r == []
    ensures col.Some? && JsonList.Loads(col.value).None? ==> r == []
    ensures col.Some? && JsonList.Loads(col.value).Some? ==> r == JsonList.Loads(col.value).value
  {
    if col.None? || col.value == [] then []
    else match JsonList.Loads(col.value)
      case None => []
      case Some(xs) => xs
  }

  /** The shared body of the `set_*` accessors: the column holds the JSON text of the list. */
  function SetList(xs: seq<string>): (col: Option<string>)
    ensures GetList(col) == xs
  {
    JsonList.LoadsDumps(xs);
    Some(JsonList.Dumps(xs))
  }

  function GetTechnologies(p: Project): seq<string> { GetList(p.technologies) }
  function GetFeatures(p: Project): seq<string> { GetList(p.features) }
  function GetResponsibilities(e: Experience): seq<string> { GetList(e.responsibilities) }
  function GetExperienceProjects(e: Experience): seq<string> { GetList(e.projects) }

  /** `set_technologies`: the getter returns the list just set, and no other column changes. */
  function SetTechnologies(p: Project, xs: seq<string>): (r: Project)
    ensures GetTechnologies(r) == xs
    ensures r.(technologies := p.technologies) == p
  {
    p.(technologies := SetList(xs))
  }

  function SetFeatures(p: Project, xs: seq<string>): (r: Project)
    ensures GetFeatures(r) == xs
    ensures r.(features := p.features) == p
  {
    p.(features := SetList(xs))
  }

  function SetResponsibilities(e: Experience, xs: seq<string>): (r: Experience)
    ensures GetResponsibilities(r) == xs
    ensures r.(responsibilities := e.responsibilities) == e
  {
    e.(responsibilities := SetList(xs))
  }

  function SetExperienceProjects(e: Experience, xs: seq<string>): (r: Experience)
    ensures GetExperienceProjects(r) == xs
    ensures r.(projects := e.projects) == e
  {
    e.(projects := SetList(xs))
  }

  /** A setter overwrites the stored text whatever it held before: the last set wins. */
  lemma SetOverwrites(p: Project, xs: seq<string>, ys: seq<string>)
    ensures SetTechnologies(SetTechnologies(p, xs), ys) == SetTechnologies(p, ys)
    ensures SetFeatures(SetFeatures(p, xs), ys) == SetFeatures(p, ys)
    ensures GetTechnologies(SetTechnologies(SetTechnologies(p, xs), ys)) == ys
  {
  }
}
