/**
 * The admin blueprint (`/api/admin`): the `login_required` gate, login/logout and the
 * auth check over the Flask session, the dashboard counters, and the write handlers
 * with their partial-update and rollback behaviour.
 */
module Admin {
  import opened Wrappers
  import opened Http
  import opened Models
  import PublicApi

  /** The values the handlers put in the session. */
  datatype SessionVal = SInt(n: nat) | SStr(s: string)

  /** The Flask session: a map from keys to values. */
  type Session = map<string, SessionVal>

  const AdminIdKey := "admin_id"
  const AdminNameKey := "admin_username"

  /** The gate of `login_required`: only the presence of `admin_id` is checked. */
  predicate LoggedIn(session: Session) {
    AdminIdKey in session
  }

  /** Everything a handler reads or writes. */
  datatype Server = Server(db: Db, session: Session)

  datatype AdminView = AdminView(id: nat, username: string, email: string)

  datatype Stats = Stats(
    totalProjects: nat, featuredProjects: nat, totalSkills: nat,
    unreadMessages: nat, totalMessages: nat)

  datatype RecentMessage = RecentMessage(
    id: nat, name: string, email: string, subject: string, isRead: Option<bool>)

  /** The part of a JSON response beyond `success` and `message`. */
  datatype Payload =
    | NoData
    | Created(id: nat)
    | LoginOk(admin: AdminView)
    | AuthState(authenticated: bool, current: Option<AdminView>)
    | DashboardData(stats: Stats, recent: seq<RecentMessage>)

  datatype Reply = Reply(status: Status, payload: Payload)

  /** The answer of the gate when `admin_id` is missing. */
  const Denied := Reply(Unauthorized401, NoData)

  function ViewOf(a: AdminUser): AdminView {
    AdminView(a.id, a.username, a.email)
  }

  // ---------------------------------------------------------------------------
  // Authentication

  /** `AdminUser.query.filter_by(username=u, is_active=True).first()`. */
  function FindActiveByName(us: seq<AdminUser>, u: JVal): (r: Option<nat>)
    ensures r.Some? ==> r.value < |us| && JStr(us[r.value].username) == u && us[r.value].isActive == Some(true)
    ensures r.Some? ==> forall k :: 0 <= k < r.value ==> !(JStr(us[k].username) == u && us[k].isActive == Some(true))
    ensures r.None? <==> forall k :: 0 <= k < |us| ==> !(JStr(us[k].username) == u && us[k].isActive == Some(true))
  {
    if |us| == 0 then None
    else if JStr(us[0].username) == u && us[0].isActive == Some(true) then Some(0)
    else match FindActiveByName(us[1..], u)
      case None => None
      case Some(k) => Some(k + 1)
  }

  /** Both credentials are present and truthy (`if not username or not password`). */
  predicate CredentialsGiven(data: Body) {
    Truthy(Get(data, "username", JNull)) && Truthy(Get(data, "password", JNull))
  }

  /** The first active admin of the given username exists and its hash accepts the given password. */
  predicate PasswordAccepted(us: seq<AdminUser>, data: Body, checkHash: (string, string) -> bool) {
    var (u, pw) := (Get(data, "username", JNull), Get(data, "password", JNull));
    && FindActiveByName(us, u).Some?
    && pw.JStr?
    && checkHash(us[FindActiveByName(us, u).value].passwordHash, pw.s)
  }

  /**
   * `login`: with truthy credentials, the first active admin of that username whose stored
   * hash accepts the password is logged in; `checkHash` stands for `check_password_hash`.
   * Success writes the admin's id and username into the session and keeps its other keys.
   * Missing credentials give 400, unknown users and wrong passwords 401, a password that is
   * not a string 500 (the hash check raises). Only success changes anything.
   */
  function Login(st: Server, body: Option<Body>, checkHash: (string, string) -> bool): (r: (Reply, Server))
    ensures r.1.db == st.db
    ensures r.0.status != Ok200 ==> r.1 == st
    ensures r.0.status == BadRequest400 <==> body.Some? && !CredentialsGiven(body.value)
    ensures r.0.status == Ok200 ==> body.Some? && CredentialsGiven(body.value)
    ensures r.0.status == Ok200 <==>
      body.Some? && CredentialsGiven(body.value) && PasswordAccepted(st.db.admins, body.value, checkHash)
    ensures r.0.status == ServerError500 <==>
      body.None? || (CredentialsGiven(body.value) && FindActiveByName(st.db.admins, body.value["username"]).Some?
                     && !body.value["password"].JStr?)
    ensures (&& body.Some? && CredentialsGiven(body.value) && body.value["password"].JStr?
             && FindActiveByName(st.db.admins, body.value["username"]).Some?) ==>
      var a := st.db.admins[FindActiveByName(st.db.admins, body.value["username"]).value];
      && (r.0.status == Ok200 <==> checkHash(a.passwordHash, body.value["password"].s))
      && (r.0.status == Ok200 || r.0.status == Unauthorized401)
    ensures r.0.status == Ok200 ==>
      exists k :: 0 <= k < |st.db.admins| &&
        var a := st.db.admins[k];
        && a.isActive == Some(true)
        && body.value["username"] == JStr(a.username)
        && body.value["password"].JStr?
        && checkHash(a.passwordHash, body.value["password"].s)
        && r.1.session == st.session[AdminIdKey := SInt(a.id)][AdminNameKey := SStr(a.username)]
        && r.0.payload == LoginOk(ViewOf(a))
    ensures body.Some? && CredentialsGiven(body.value)
      && (forall k :: 0 <= k < |st.db.admins| ==>
            !(JStr(st.db.admins[k].username) == body.value["username"] && st.db.admins[k].isActive == Some(true)))
      ==> r.0.status == Unauthorized401
  {
    if body.None? then (Reply(ServerError500, NoData), st)
    else
      var data := body.value;
      if !CredentialsGiven(data) then (Reply(BadRequest400, NoData), st)
      else
        var password := data["password"];
        match FindActiveByName(st.db.admins, data["username"])
        case None => (Reply(Unauthorized401, NoData), st)
        case Some(k) =>
          var a := st.db.admins[k];
          if !password.JStr? then (Reply(ServerError500, NoData), st)
          else if checkHash(a.passwordHash, password.s) then
            (Reply(Ok200, LoginOk(ViewOf(a))),
             st.(session := st.session[AdminIdKey := SInt(a.id)][AdminNameKey := SStr(a.username)]))
          else (Reply(Unauthorized401, NoData), st)
  }

  /** `logout` (behind the gate): the whole session is cleared. */
  function Logout(st: Server): (r: (Reply, Server))
    ensures r.0.status == Ok200
    ensures r.1.db == st.db && !LoggedIn(r.1.session) && |r.1.session| == 0
  {
    (Reply(Ok200, NoData), st.(session := map[]))
  }

  /**
   * `check_auth` (not gated): authenticated exactly when the session's `admin_id` names an
   * existing active admin. It always answers 200 and changes nothing.
   */
  function CheckAuth(st: Server): (r: Reply)
    ensures r.status == Ok200
    ensures r.payload.AuthState?
    ensures r.payload.authenticated ==> LoggedIn(st.session)
    ensures r.payload.authenticated <==>
      (&& LoggedIn(st.session) && st.session[AdminIdKey].SInt?
       && exists k :: (0 <= k < |st.db.admins|
         && st.db.admins[k].id == st.session[AdminIdKey].n && st.db.admins[k].isActive == Some(true)
         && FindAdmin(st.db.admins, st.session[AdminIdKey].n) == Some(k)))
    ensures r.payload.authenticated ==>
      r.payload.current == Some(ViewOf(st.db.admins[FindAdmin(st.db.admins, st.session[AdminIdKey].n).value]))
    ensures !r.payload.authenticated ==> r.payload.current.None?
  {
    if AdminIdKey in st.session && st.session[AdminIdKey].SInt? then
      match FindAdmin(st.db.admins, st.session[AdminIdKey].n)
      case Some(k) =>
        if st.db.admins[k].isActive == Some(true) then
          Reply(Ok200, AuthState(true, Some(ViewOf(st.db.admins[k]))))
        else Reply(Ok200, AuthState(false, None))
      case None => Reply(Ok200, AuthState(false, None))
    else Reply(Ok200, AuthState(false, None))
  }

  // ---------------------------------------------------------------------------
  // Dashboard

  /** The number of featured projects (`filter_by(is_featured=True).count()`). */
  function CountFeatured(ps: seq<Project>): (n: nat)
    ensures n <= |ps|
    ensures n == 0 <==> forall k :: 0 <= k < |ps| ==> ps[k].isFeatured != Some(true)
    ensures n == |ps| <==> forall k :: 0 <= k < |ps| ==> ps[k].isFeatured == Some(true)
  {
    if |ps| == 0 then 0
    else
      var rest := CountFeatured(ps[1..]);
      assert forall k :: 1 <= k < |ps| ==> ps[k] == ps[1..][k - 1];
      (if ps[0].isFeatured == Some(true) then 1 else 0) + rest
  }

  /** The number of unread messages (`filter_by(is_read=False).count()`). */
  function CountUnread(ms: seq<ContactMessage>): (n: nat)
    ensures n <= |ms|
    ensures n == 0 <==> forall k :: 0 <= k < |ms| ==> ms[k].isRead != Some(false)
    ensures n == |ms| <==> forall k :: 0 <= k < |ms| ==> ms[k].isRead == Some(false)
  {
    if |ms| == 0 then 0
    else
      var rest := CountUnread(ms[1..]);
      assert forall k :: 1 <= k < |ms| ==> ms[k] == ms[1..][k - 1];
      (if ms[0].isRead == Some(false) then 1 else 0) + rest
  }

  function RecentViewOf(m: ContactMessage): RecentMessage {
    RecentMessage(m.id, m.name, m.email, m.subject, m.isRead)
  }

  /** The `limit` newest messages, newest first (messages are kept in creation order). */
  function Newest(ms: seq<ContactMessage>, limit: nat): (r: seq<RecentMessage>)
    ensures |r| == if |ms| < limit then |ms| else limit
    ensures forall k :: 0 <= k < |r| ==> r[k] == RecentViewOf(ms[|ms| - 1 - k])
  {
    if |ms| == 0 || limit == 0 then []
    else
      var rest := Newest(ms[..|ms| - 1], limit - 1);
      [RecentViewOf(ms[|ms| - 1])] + rest
  }

  /** `dashboard` (behind the gate): the five counters and at most five recent messages. */
  function Dashboard(db: Db): (r: Reply)
    ensures r.status == Ok200 && r.payload.DashboardData?
    ensures r.payload.stats.featuredProjects <= r.payload.stats.totalProjects == |db.projects|
    ensures r.payload.stats.unreadMessages <= r.payload.stats.totalMessages == |db.messages|
    ensures r.payload.stats.totalSkills == |db.skills|
    ensures |r.payload.recent| <= 5
    ensures |r.payload.recent| == if |db.messages| < 5 then |db.messages| else 5
    ensures r.payload.stats.featuredProjects == CountFeatured(db.projects)
    ensures r.payload.stats.unreadMessages == CountUnread(db.messages)
    ensures r.payload.recent == Newest(db.messages, 5)
  {
    var stats := Stats(
      |db.projects|, CountFeatured(db.projects), |db.skills|,
      CountUnread(db.messages), |db.messages|);
    Reply(Ok200, DashboardData(stats, Newest(db.messages, 5)))
  }

  // ---------------------------------------------------------------------------
  // Personal info

  /** Every key present in the body fits its column. */
  predicate KeyFits<T>(data: Body, key: string, conv: JVal -> Cell<T>) {
    key !in data || conv(data[key]).Fits?
  }

  /** On an existing row every present key must be a string (the columns are NOT NULL). */
  predicate InfoUpdateFits(data: Body) {
    && KeyFits(data, "name", StrCell) && KeyFits(data, "title", StrCell)
    && KeyFits(data, "email", StrCell) && KeyFits(data, "phone", StrCell)
    && KeyFits(data, "location", StrCell) && KeyFits(data, "summary", StrCell)
  }

  /**
   * On a new row unset columns take their defaults, except `summary`, which has none and
   * so must be given as a string.
   */
  predicate InfoInsertFits(data: Body) {
    && KeyFits(data, "name", TextCell) && KeyFits(data, "title", TextCell)
    && KeyFits(data, "email", TextCell) && KeyFits(data, "phone", TextCell)
    && KeyFits(data, "location", TextCell)
    && "summary" in data && data["summary"].JStr?
  }

  /** The first personal-info row, created from the body: it commits iff the body fits a new row. */
  function InsertInfo(db: Db, data: Body): (r: (Status, Db))
    requires db.personalInfo == []
    ensures r.0 == Ok200 <==> InfoInsertFits(data)
    ensures r.0 == Ok200 ==> r.1.(personalInfo := []) == db && |r.1.personalInfo| == 1
  {
    var name := Patch(data, "name", TextCell, None);
    var title := Patch(data, "title", TextCell, None);
    var email := Patch(data, "email", TextCell, None);
    var phone := Patch(data, "phone", TextCell, None);
    var location := Patch(data, "location", TextCell, None);
    var summary := Patch(data, "summary", TextCell, None);
    if name.Mismatch? || title.Mismatch? || email.Mismatch? || phone.Mismatch? || location.Mismatch?
      || summary.Mismatch? || summary.value.None?
    then (ServerError500, db)
    else
      var row := PersonalInfo(NextId([]),
        OrDefault(name.value, DefaultName), OrDefault(title.value, DefaultTitle),
        OrDefault(email.value, DefaultEmail), OrDefault(phone.value, DefaultPhone),
        OrDefault(location.value, DefaultLocation), summary.value.value);
      (Ok200, db.(personalInfo := [row]))
  }

  /** The existing first row, patched from the body: it commits iff every given key is a string. */
  function ModifyInfo(db: Db, data: Body): (r: (Status, Db))
    requires db.personalInfo != []
    ensures r.0 == Ok200 <==> InfoUpdateFits(data)
    ensures r.0 == Ok200 ==> r.1.(personalInfo := db.personalInfo) == db && |r.1.personalInfo| == |db.personalInfo|
  {
    var p := db.personalInfo[0];
    var name := Patch(data, "name", StrCell, p.name);
    var title := Patch(data, "title", StrCell, p.title);
    var email := Patch(data, "email", StrCell, p.email);
    var phone := Patch(data, "phone", StrCell, p.phone);
    var location := Patch(data, "location", StrCell, p.location);
    var summary := Patch(data, "summary", StrCell, p.summary);
    if name.Mismatch? || title.Mismatch? || email.Mismatch? || phone.Mismatch? || location.Mismatch?
      || summary.Mismatch?
    then (ServerError500, db)
    else
      var row := p.(name := name.value, title := title.value, email := email.value,
                    phone := phone.value, location := location.value, summary := summary.value);
      (Ok200, db.(personalInfo := db.personalInfo[0 := row]))
  }

  /**
   * `update_personal_info` (behind the gate). On the existing first row each absent key
   * keeps its value and each present key overwrites it; on an empty table a row is
   * created from the body and the column defaults. Nothing else changes, and a failed
   * commit changes nothing at all.
   */
  function UpdatePersonalInfo(db: Db, body: Option<Body>): (r: (Status, Db))
    ensures r.0 == Ok200 || r.0 == ServerError500
    ensures r.0 != Ok200 ==> r.1 == db
    ensures r.0 == Ok200 ==> |r.1.personalInfo| == (if db.personalInfo == [] then 1 else |db.personalInfo|)
    ensures r.0 == Ok200 <==>
      (body.Some? && if db.personalInfo == [] then InfoInsertFits(body.value) else InfoUpdateFits(body.value))
    ensures r.0 == Ok200 && db.personalInfo != [] ==>
      var (p, q, data) := (db.personalInfo[0], r.1.personalInfo[0], body.value);
      && r.1 == db.(personalInfo := db.personalInfo[0 := q])
      && q.id == p.id
      && Patched(data, "name", StrCell, p.name, q.name)
      && Patched(data, "title", StrCell, p.title, q.title)
      && Patched(data, "email", StrCell, p.email, q.email)
      && Patched(data, "phone", StrCell, p.phone, q.phone)
      && Patched(data, "location", StrCell, p.location, q.location)
      && Patched(data, "summary", StrCell, p.summary, q.summary)
    ensures r.0 == Ok200 && db.personalInfo == [] ==>
      var (q, data) := (r.1.personalInfo[0], body.value);
      && r.1 == db.(personalInfo := [q])
      && q.id == 1
      && JStr(q.summary) == data["summary"]
      && Defaulted(data, "name", TextCell, DefaultName, Some(q.name))
      && Defaulted(data, "title", TextCell, DefaultTitle, Some(q.title))
      && Defaulted(data, "email", TextCell, DefaultEmail, Some(q.email))
      && Defaulted(data, "phone", TextCell, DefaultPhone, Some(q.phone))
      && Defaulted(data, "location", TextCell, DefaultLocation, Some(q.location))
  {
    if body.None? then (ServerError500, db)
    else if db.personalInfo == [] then InsertInfo(db, body.value)
    else ModifyInfo(db, body.value)
  }

  // ---------------------------------------------------------------------------
  // Projects

  /**
   * What `set_technologies` and its siblings store: the JSON text of whatever value they
   * are given. A list of strings reads back as itself; any other value reads back as `[]`.
   */
  function StoredList(v: JVal): (col: Option<string>)
    ensures col.Some? && |col.value| > 0
    ensures StrListCell(v).Fits? ==> GetList(col) == StrListCell(v).value
    ensures !v.JList? ==> GetList(col) == []
  {
    var t := DumpsValue(v);
    if v.JList? && Strings(v.items).Some? then
      DumpsValueStrings(v.items);
      JsonList.LoadsDumps(Strings(v.items).value);
      Some(t)
    else
      assert JsonList.SkipWs(t) == t;
      Some(t)
  }

  /** The body fits the new row: title and description are strings and every other given column fits. */
  predicate ProjectCreateFits(data: Body) {
    && Get(data, "title", JNull).JStr? && Get(data, "description", JNull).JStr?
    && KeyFits(data, "subtitle", TextCell) && KeyFits(data, "long_description", TextCell)
    && KeyFits(data, "image_url", TextCell) && KeyFits(data, "live_url", TextCell)
    && KeyFits(data, "github_url", TextCell) && KeyFits(data, "status", TextCell)
    && KeyFits(data, "is_featured", BoolCell) && KeyFits(data, "order_index", IntCell)
  }

  /** Every given column fits the existing row (title and description are NOT NULL). */
  predicate ProjectPatchFits(data: Body) {
    && KeyFits(data, "title", StrCell) && KeyFits(data, "description", StrCell)
    && KeyFits(data, "subtitle", TextCell) && KeyFits(data, "long_description", TextCell)
    && KeyFits(data, "image_url", TextCell) && KeyFits(data, "live_url", TextCell)
    && KeyFits(data, "github_url", TextCell) && KeyFits(data, "status", TextCell)
    && KeyFits(data, "is_featured", BoolCell) && KeyFits(data, "order_index", IntCell)
  }

  /** The row `create_project` would insert, or `Mismatch` when its commit fails. */
  function NewProject(data: Body, id: nat): (c: Cell<Project>)
    ensures Get(data, "title", JNull) == JNull ==> c == Mismatch
    ensures Get(data, "description", JNull) == JNull ==> c == Mismatch
    ensures c.Fits? <==> ProjectCreateFits(data)
    ensures c.Fits? ==> c.value.id == id
  {
    var title := StrCell(Get(data, "title", JNull));
    var subtitle := TextCell(Get(data, "subtitle", JNull));
    var description := StrCell(Get(data, "description", JNull));
    var longDescription := TextCell(Get(data, "long_description", JNull));
    var imageUrl := TextCell(Get(data, "image_url", JNull));
    var liveUrl := TextCell(Get(data, "live_url", JNull));
    var githubUrl := TextCell(Get(data, "github_url", JNull));
    var status := TextCell(Get(data, "status", JStr(DefaultStatus)));
    var featured := BoolCell(Get(data, "is_featured", JBool(DefaultFeatured)));
    var order := IntCell(Get(data, "order_index", JInt(DefaultOrderIndex)));
    var tech := if Truthy(Get(data, "technologies", JNull)) then StoredList(data["technologies"]) else None;
    var feats := if Truthy(Get(data, "features", JNull)) then StoredList(data["features"]) else None;
    if title.Mismatch? || subtitle.Mismatch? || description.Mismatch? || longDescription.Mismatch?
      || imageUrl.Mismatch? || liveUrl.Mismatch? || githubUrl.Mismatch? || status.Mismatch?
      || featured.Mismatch? || order.Mismatch?
    then Mismatch
    else Fits(Project(id, title.value, subtitle.value, description.value, longDescription.value,
      tech, feats, imageUrl.value, liveUrl.value, githubUrl.value,
      Some(OrDefault(status.value, DefaultStatus)),
      Some(OrDefault(featured.value, DefaultFeatured)),
      Some(OrDefault(order.value, DefaultOrderIndex))))
  }

  /**
   * `create_project` (behind the gate): appends one row with a fresh key, taking absent
   * `status`, `is_featured` and `order_index` from their defaults; the lists are stored only
   * when truthy. A missing title or description fails the commit and stores nothing.
   */
  function CreateProject(db: Db, body: Option<Body>): (r: (Reply, Db))
    ensures r.0.status == Ok200 || r.0.status == ServerError500
    ensures r.0.status != Ok200 ==> r.1 == db
    ensures body.Some? && Get(body.value, "title", JNull) == JNull ==> r.0.status == ServerError500
    ensures r.0.status == Ok200 <==> body.Some? && ProjectCreateFits(body.value)
    ensures r.0.status == Ok200 ==> |r.1.projects| == |db.projects| + 1
    ensures r.0.status == Ok200 ==> body.Some? && "title" in body.value && "description" in body.value
    ensures r.0.status == Ok200 ==>
      var (p, data) := (r.1.projects[|db.projects|], body.value);
      && r.1 == db.(projects := db.projects + [p])
      && r.0.payload == Created(p.id)
      && (forall k :: 0 <= k < |db.projects| ==> db.projects[k].id < p.id)
      && JStr(p.title) == data["title"] && JStr(p.description) == data["description"]
      && Patched(data, "subtitle", TextCell, None, p.subtitle)
      && Patched(data, "long_description", TextCell, None, p.longDescription)
      && Patched(data, "image_url", TextCell, None, p.imageUrl)
      && Patched(data, "live_url", TextCell, None, p.liveUrl)
      && Patched(data, "github_url", TextCell, None, p.githubUrl)
      && Defaulted(data, "status", TextCell, DefaultStatus, p.status)
      && Defaulted(data, "is_featured", BoolCell, DefaultFeatured, p.isFeatured)
      && Defaulted(data, "order_index", IntCell, DefaultOrderIndex, p.orderIndex)
      && (!Truthy(Get(data, "technologies", JNull)) ==> p.technologies == None)
      && (Truthy(Get(data, "technologies", JNull)) ==> p.technologies == StoredList(data["technologies"]))
      && (Truthy(Get(data, "technologies", JNull)) && StrListCell(data["technologies"]).Fits? ==>
            GetTechnologies(p) == StrListCell(data["technologies"]).value)
      && (!Truthy(Get(data, "features", JNull)) ==> p.features == None)
      && (Truthy(Get(data, "features", JNull)) ==> p.features == StoredList(data["features"]))
      && (Truthy(Get(data, "features", JNull)) && StrListCell(data["features"]).Fits? ==>
            GetFeatures(p) == StrListCell(data["features"]).value)
  {
    if body.None? then (Reply(ServerError500, NoData), db)
    else match NewProject(body.value, NextId(ProjectIds(db.projects)))
      case Mismatch => (Reply(ServerError500, NoData), db)
      case Fits(p) => (Reply(Ok200, Created(p.id)), db.(projects := db.projects + [p]))
  }

  /** The row after `update_project`'s partial update, or `Mismatch` when its commit fails. */
  function PatchProject(p: Project, data: Body): (c: Cell<Project>)
    ensures c.Fits? <==> ProjectPatchFits(data)
    ensures c.Fits? ==> c.value.id == p.id
  {
    var title := Patch(data, "title", StrCell, p.title);
    var subtitle := Patch(data, "subtitle", TextCell, p.subtitle);
    var description := Patch(data, "description", StrCell, p.description);
    var longDescription := Patch(data, "long_description", TextCell, p.longDescription);
    var imageUrl := Patch(data, "image_url", TextCell, p.imageUrl);
    var liveUrl := Patch(data, "live_url", TextCell, p.liveUrl);
    var githubUrl := Patch(data, "github_url", TextCell, p.githubUrl);
    var status := Patch(data, "status", TextCell, p.status);
    var featured := Patch(data, "is_featured", BoolCell, p.isFeatured);
    var order := Patch(data, "order_index", IntCell, p.orderIndex);
    var tech := if "technologies" in data then StoredList(data["technologies"]) else p.technologies;
    var feats := if "features" in data then StoredList(data["features"]) else p.features;
    if title.Mismatch? || subtitle.Mismatch? || description.Mismatch? || longDescription.Mismatch?
      || imageUrl.Mismatch? || liveUrl.Mismatch? || githubUrl.Mismatch? || status.Mismatch?
      || featured.Mismatch? || order.Mismatch?
    then Mismatch
    else Fits(Project(p.id, title.value, subtitle.value, description.value, longDescription.value,
      tech, feats, imageUrl.value, liveUrl.value, githubUrl.value,
      status.value, featured.value, order.value))
  }

  /**
   * `update_project` (behind the gate): on the row with that key, every absent key keeps
   * its value and every present key overwrites it; the lists are replaced exactly when
   * their key is present. No other row or table changes. An unknown key is answered 500
   * (the `get_or_404` NotFound is caught by the handler's own `except`), and so is a
   * failed commit; both leave the database unchanged.
   */
  function UpdateProject(db: Db, id: nat, body: Option<Body>): (r: (Status, Db))
    ensures r.0 == Ok200 || r.0 == ServerError500
    ensures r.0 != Ok200 ==> r.1 == db
    ensures FindProject(db.projects, id).None? ==> r.0 == ServerError500
    ensures r.0 == Ok200 <==> body.Some? && FindProject(db.projects, id).Some? && ProjectPatchFits(body.value)
    ensures r.0 == Ok200 ==> body.Some? && FindProject(db.projects, id).Some? && |r.1.projects| == |db.projects|
    ensures r.0 == Ok200 ==>
      var k := FindProject(db.projects, id).value;
      var (p, q, data) := (db.projects[k], r.1.projects[k], body.value);
      && r.1 == db.(projects := db.projects[k := q])
      && q.id == id
      && Patched(data, "title", StrCell, p.title, q.title)
      && Patched(data, "subtitle", TextCell, p.subtitle, q.subtitle)
      && Patched(data, "description", StrCell, p.description, q.description)
      && Patched(data, "long_description", TextCell, p.longDescription, q.longDescription)
      && Patched(data, "image_url", TextCell, p.imageUrl, q.imageUrl)
      && Patched(data, "live_url", TextCell, p.liveUrl, q.liveUrl)
      && Patched(data, "github_url", TextCell, p.githubUrl, q.githubUrl)
      && Patched(data, "status", TextCell, p.status, q.status)
      && Patched(data, "is_featured", BoolCell, p.isFeatured, q.isFeatured)
      && Patched(data, "order_index", IntCell, p.orderIndex, q.orderIndex)
      && ("technologies" !in data ==> q.technologies == p.technologies)
      && ("technologies" in data ==> q.technologies == StoredList(data["technologies"]))
      && ("technologies" in data && StrListCell(data["technologies"]).Fits? ==>
            GetTechnologies(q) == StrListCell(data["technologies"]).value)
      && ("features" !in data ==> q.features == p.features)
      && ("features" in data ==> q.features == StoredList(data["features"]))
      && ("features" in data && StrListCell(data["features"]).Fits? ==>
            GetFeatures(q) == StrListCell(data["features"]).value)
  {
    match FindProject(db.projects, id)
    case None => (ServerError500, db)
    case Some(k) =>
      if body.None? then (ServerError500, db)
      else match PatchProject(db.projects[k], body.value)
        case Mismatch => (ServerError500, db)
        case Fits(q) => (Ok200, db.(projects := db.projects[k := q]))
  }

  // ---------------------------------------------------------------------------
  // Skills and messages

  /** The body fits the new skill: name and category are strings and every other given column fits. */
  predicate SkillCreateFits(data: Body) {
    && Get(data, "name", JNull).JStr? && Get(data, "category", JNull).JStr?
    && KeyFits(data, "level", IntCell) && KeyFits(data, "description", TextCell)
    && KeyFits(data, "order_index", IntCell)
  }

  /**
   * `create_skill` (behind the gate): appends one skill with a fresh key; an absent level is
   * 50, and a given level is stored as it is, without any range check.
   */
  function CreateSkill(db: Db, body: Option<Body>): (r: (Reply, Db))
    ensures r.0.status == Ok200 || r.0.status == ServerError500
    ensures r.0.status == Ok200 <==> body.Some? && SkillCreateFits(body.value)
    ensures r.0.status != Ok200 ==> r.1 == db
    ensures r.0.status == Ok200 ==> |r.1.skills| == |db.skills| + 1
    ensures r.0.status == Ok200 ==> body.Some? && "name" in body.value && "category" in body.value
    ensures r.0.status == Ok200 ==>
      var (s, data) := (r.1.skills[|db.skills|], body.value);
      && r.1 == db.(skills := db.skills + [s])
      && r.0.payload == Created(s.id)
      && (forall k :: 0 <= k < |db.skills| ==> db.skills[k].id < s.id)
      && JStr(s.name) == data["name"] && JStr(s.category) == data["category"]
      && Defaulted(data, "level", IntCell, DefaultSkillLevel, s.level)
      && Patched(data, "description", TextCell, None, s.description)
      && Defaulted(data, "order_index", IntCell, DefaultOrderIndex, s.orderIndex)
  {
    if body.None? then (Reply(ServerError500, NoData), db)
    else
      var data := body.value;
      var name := StrCell(Get(data, "name", JNull));
      var category := StrCell(Get(data, "category", JNull));
      var level := IntCell(Get(data, "level", JInt(DefaultSkillLevel)));
      var description := TextCell(Get(data, "description", JNull));
      var order := IntCell(Get(data, "order_index", JInt(DefaultOrderIndex)));
      if name.Mismatch? || category.Mismatch? || level.Mismatch? || description.Mismatch? || order.Mismatch?
      then (Reply(ServerError500, NoData), db)
      else
        var s := Skill(NextId(SkillIds(db.skills)), name.value, category.value,
          Some(OrDefault(level.value, DefaultSkillLevel)), description.value,
          Some(OrDefault(order.value, DefaultOrderIndex)));
        (Reply(Ok200, Created(s.id)), db.(skills := db.skills + [s]))
  }

  /**
   * `mark_message_read` (behind the gate): the message with that key becomes read and
   * nothing else changes; an unknown key is answered 500 and changes nothing.
   */
  function MarkMessageRead(db: Db, id: nat): (r: (Status, Db))
    ensures r.0 == Ok200 <==> exists k :: 0 <= k < |db.messages| && db.messages[k].id == id
    ensures r.0 != Ok200 ==> r.1 == db
    ensures r.0 == Ok200 ==>
      var k := FindMessage(db.messages, id).value;
      && r.1 == db.(messages := db.messages[k := db.messages[k].(isRead := Some(true))])
      && r.1.messages[k].isRead == Some(true)
  {
    match FindMessage(db.messages, id)
    case None => (ServerError500, db)
    case Some(k) => (Ok200, db.(messages := db.messages[k := db.messages[k].(isRead := Some(true))]))
  }

  // ---------------------------------------------------------------------------
  // The gate

  /** The handlers that sit behind `login_required`. */
  datatype AdminCall =
    | LogoutCall
    | DashboardCall
    | UpdatePersonalInfoCall(body: Option<Body>)
    | CreateProjectCall(body: Option<Body>)
    | UpdateProjectCall(projectId: nat, body: Option<Body>)
    | CreateSkillCall(body: Option<Body>)
    | MarkMessageReadCall(messageId: nat)

  /** The handler bodies themselves, run only once the gate has let the call through. */
  function Handle(st: Server, call: AdminCall): (r: (Reply, Server))
    ensures !call.LogoutCall? ==> r.1.session == st.session
    ensures call.LogoutCall? || call.DashboardCall? ==> r.1.db == st.db
    ensures r.0.status != Ok200 ==> r.1 == st
  {
    match call
    case LogoutCall => Logout(st)
    case DashboardCall => (Dashboard(st.db), st)
    case UpdatePersonalInfoCall(body) =>
      var (s, db) := UpdatePersonalInfo(st.db, body); (Reply(s, NoData), st.(db := db))
    case CreateProjectCall(body) =>
      var (rep, db) := CreateProject(st.db, body); (rep, st.(db := db))
    case UpdateProjectCall(id, body) =>
      var (s, db) := UpdateProject(st.db, id, body); (Reply(s, NoData), st.(db := db))
    case CreateSkillCall(body) =>
      var (rep, db) := CreateSkill(st.db, body); (rep, st.(db := db))
    case MarkMessageReadCall(id) =>
      var (s, db) := MarkMessageRead(st.db, id); (Reply(s, NoData), st.(db := db))
  }

  /**
   * A request to a gated route: without `admin_id` in the session the answer is 401 and
   * the handler never runs, so neither the database nor the session changes.
   */
  function Call(st: Server, call: AdminCall): (r: (Reply, Server))
    ensures !LoggedIn(st.session) ==> r == (Denied, st)
    ensures LoggedIn(st.session) ==> r == Handle(st, call)
  {
    if AdminIdKey !in st.session then (Denied, st) else Handle(st, call)
  }

  /** The session of a successful login passes the gate. */
  lemma LoginOpensGate(st: Server, body: Option<Body>, checkHash: (string, string) -> bool)
    requires Login(st, body, checkHash).0.status == Ok200
    ensures LoggedIn(Login(st, body, checkHash).1.session)
  {
  }

  /** After a logout every gated call is refused until the next login. */
  lemma LogoutClosesGate(st: Server, call: AdminCall)
    requires LoggedIn(st.session)
    ensures var after := Call(st, LogoutCall).1;
      Call(after, call) == (Denied, after) && after.db == st.db
  {
  }

  /** A session that `check_auth` accepts also passes the gate. */
  lemma CheckAuthImpliesGate(st: Server)
    ensures CheckAuth(st).payload.authenticated ==> LoggedIn(st.session)
  {
  }

  /**
   * The converse fails: the gate only looks at the session, so an admin deactivated after
   * logging in still passes it while `check_auth` reports the session as unauthenticated.
   */
  lemma GateIgnoresDeactivation()
    ensures var st := Server(EmptyDb.(admins := [AdminUser(1, "admin", "h", "a@b", Some(false))]),
                             map[AdminIdKey := SInt(1), AdminNameKey := SStr("admin")]);
      && !CheckAuth(st).payload.authenticated
      && Call(st, DashboardCall).0.status == Ok200
  {
  }

  /** Marking a message read twice is the same as marking it once. */
  lemma MarkMessageReadIdempotent(db: Db, id: nat)
    ensures var once := MarkMessageRead(db, id).1;
      MarkMessageRead(once, id) == (MarkMessageRead(db, id).0, once)
  {
    var r := MarkMessageRead(db, id);
    if r.0 == Ok200 {
      var k := FindMessage(db.messages, id).value;
      assert r.1.messages[k].id == id;
      var k2 := FindMessage(r.1.messages, id).value;
      assert forall j :: 0 <= j < |db.messages| ==> r.1.messages[j].id == db.messages[j].id;
      assert k2 == k;
      assert r.1.messages[k := r.1.messages[k].(isRead := Some(true))] == r.1.messages;
    }
  }

  /** Only the named message changes: every other message keeps every field. */
  lemma MarkMessageReadFrame(db: Db, id: nat, j: nat)
    requires j < |db.messages| && db.messages[j].id != id
    ensures MarkMessageRead(db, id).1.messages[j] == db.messages[j]
  {
  }

  /** An empty list of technologies is not stored on create... */
  lemma EmptyTechnologiesOnCreate(db: Db)
    ensures var body := map["title" := JStr("t"), "description" := JStr("d"), "technologies" := JList([])];
      var (rep, db1) := CreateProject(db, Some(body));
      && rep.status == Ok200
      && db1.projects[|db.projects|].technologies == None
  {
    var body := map["title" := JStr("t"), "description" := JStr("d"), "technologies" := JList([])];
    assert Get(body, "technologies", JNull) == JList([]);
    assert Get(body, "features", JNull) == JNull;
    assert Get(body, "status", JStr(DefaultStatus)) == JStr(DefaultStatus);
    assert Get(body, "is_featured", JBool(DefaultFeatured)) == JBool(DefaultFeatured);
    assert Get(body, "order_index", JInt(DefaultOrderIndex)) == JInt(DefaultOrderIndex);
    assert NewProject(body, NextId(ProjectIds(db.projects))).Fits?;
  }

  /** ...but is stored as `[]` on update, where the key's presence alone decides. */
  lemma EmptyTechnologiesOnUpdate(db: Db, id: nat)
    requires FindProject(db.projects, id).Some?
    ensures var body := map["technologies" := JList([])];
      var (s, db2) := UpdateProject(db, id, Some(body));
      && s == Ok200
      && db2.projects[FindProject(db.projects, id).value].technologies == Some("[]")
  {
    var body := map["technologies" := JList([])];
    var k := FindProject(db.projects, id).value;
    assert JsonList.Dumps([]) == "[]";
    assert PatchProject(db.projects[k], body).Fits?;
  }

  /** The level of a created skill is not range-checked. */
  lemma CreateSkillAnyLevel(db: Db)
    ensures var body := map["name" := JStr("n"), "category" := JStr("c"), "level" := JInt(250)];
      var (rep, db1) := CreateSkill(db, Some(body));
      rep.status == Ok200 && db1.skills[|db.skills|].level == Some(250)
  {
  }

  /** An update whose body names no column leaves the project table as it was. */
  lemma UpdateProjectEmptyBody(db: Db, id: nat)
    requires FindProject(db.projects, id).Some?
    ensures UpdateProject(db, id, Some(map[])) == (Ok200, db)
  {
    var k := FindProject(db.projects, id).value;
    assert PatchProject(db.projects[k], map[]) == Fits(db.projects[k]);
    assert db.projects[k := db.projects[k]] == db.projects;
  }

  /** The same for the personal-info row, once it exists. */
  lemma UpdatePersonalInfoEmptyBody(db: Db)
    requires db.personalInfo != []
    ensures UpdatePersonalInfo(db, Some(map[])) == (Ok200, db)
  {
    assert db.personalInfo[0 := db.personalInfo[0]] == db.personalInfo;
  }

  /** The dashboard's featured counter agrees with the public featured listing. */
  lemma {:induction false} CountFeaturedListing(ps: seq<Project>)
    ensures CountFeatured(ps) == |PublicApi.FeaturedProjects(ps)|
  {
    if |ps| > 0 {
      CountFeaturedListing(ps[1..]);
    }
  }

  /** The featured counter adds up over a split table. */
  lemma {:induction false} CountFeaturedAppend(a: seq<Project>, b: seq<Project>)
    ensures CountFeatured(a + b) == CountFeatured(a) + CountFeatured(b)
  {
    if |a| > 0 {
      assert (a + b)[0] == a[0];
      assert (a + b)[1..] == a[1..] + b;
      CountFeaturedAppend(a[1..], b);
    } else {
      assert a + b == b;
    }
  }

  /** The unread counter adds up over a split table. */
  lemma {:induction false} CountUnreadAppend(a: seq<ContactMessage>, b: seq<ContactMessage>)
    ensures CountUnread(a + b) == CountUnread(a) + CountUnread(b)
  {
    if |a| > 0 {
      assert (a + b)[0] == a[0];
      assert (a + b)[1..] == a[1..] + b;
      CountUnreadAppend(a[1..], b);
    } else {
      assert a + b == b;
    }
  }

  /** Marking a message read lowers the unread counter by one exactly when it was unread. */
  lemma MarkMessageReadCountsDown(db: Db, id: nat)
    requires MarkMessageRead(db, id).0 == Ok200
    ensures var k := FindMessage(db.messages, id).value;
      CountUnread(MarkMessageRead(db, id).1.messages)
        == CountUnread(db.messages) - (if db.messages[k].isRead == Some(false) then 1 else 0)
  {
    var k := FindMessage(db.messages, id).value;
    var ms := db.messages;
    var ms2 := MarkMessageRead(db, id).1.messages;
    assert ms == ms[..k] + [ms[k]] + ms[k + 1..];
    assert ms2 == ms[..k] + [ms2[k]] + ms[k + 1..];
    CountUnreadAppend(ms[..k] + [ms[k]], ms[k + 1..]);
    CountUnreadAppend(ms[..k], [ms[k]]);
    CountUnreadAppend(ms[..k] + [ms2[k]], ms[k + 1..]);
    CountUnreadAppend(ms[..k], [ms2[k]]);
  }

  /** A created project takes a fresh key, so keys stay distinct. */
  lemma CreateProjectWellFormed(db: Db, body: Option<Body>)
    requires WellFormed(db)
    ensures WellFormed(CreateProject(db, body).1)
  {
    var r := CreateProject(db, body);
    if r.0.status == Ok200 {
      var p := r.1.projects[|db.projects|];
      DistinctAppendFresh(ProjectIds(db.projects), p.id);
      assert ProjectIds(r.1.projects) == ProjectIds(db.projects) + [p.id];
    }
  }

  /** The same for a created skill. */
  lemma CreateSkillWellFormed(db: Db, body: Option<Body>)
    requires WellFormed(db)
    ensures WellFormed(CreateSkill(db, body).1)
  {
    var r := CreateSkill(db, body);
    if r.0.status == Ok200 {
      var s := r.1.skills[|db.skills|];
      DistinctAppendFresh(SkillIds(db.skills), s.id);
      assert SkillIds(r.1.skills) == SkillIds(db.skills) + [s.id];
    }
  }

  /** An update keeps the row's key, so keys stay distinct. */
  lemma UpdateProjectWellFormed(db: Db, id: nat, body: Option<Body>)
    requires WellFormed(db)
    ensures WellFormed(UpdateProject(db, id, body).1)
  {
    var r := UpdateProject(db, id, body);
    if r.0 == Ok200 {
      assert ProjectIds(r.1.projects) == ProjectIds(db.projects);
    }
  }

  /** Marking a message read keeps its key. */
  lemma MarkMessageReadWellFormed(db: Db, id: nat)
    requires WellFormed(db)
    ensures WellFormed(MarkMessageRead(db, id).1)
  {
    var r := MarkMessageRead(db, id);
    if r.0 == Ok200 {
      assert MessageIds(r.1.messages) == MessageIds(db.messages);
    }
  }

  /** An empty-string username counts as missing: 400, whatever the password. */
  lemma LoginEmptyUsername(st: Server, pw: JVal, checkHash: (string, string) -> bool)
    ensures Login(st, Some(map["username" := JStr(""), "password" := pw]), checkHash).0.status == BadRequest400
  {
    var data := map["username" := JStr(""), "password" := pw];
    assert Get(data, "username", JNull) == JStr("");
  }
}
