/**
 * `init_default_data`, run at start-up: the admin user and each content table are seeded
 * only when missing, and everything is written by one final commit.
 */
module Seed {
  import opened Wrappers
  import opened Models
  import PublicApi

  const SeedAdminName := "admin"
  const SeedAdminEmail := "admin@mahmoudglala.com"

  const SeedSummary := "Highly motivated and results-oriented Full Stack Developer with a strong passion for creating innovative and user-centric web applications. Proficient in both frontend and backend technologies, with a keen eye for creative UI/UX design and a commitment to delivering high-quality, scalable solutions. Adept at working under pressure and leveraging AI tools to enhance productivity and stay abreast of market trends."

  /** The literal data of one seeded project, before it goes through the setters. */
  datatype ProjectSeed = ProjectSeed(
    title: string, subtitle: string, description: string, longDescription: string,
    technologies: seq<string>, features: seq<string>,
    liveUrl: string, githubUrl: string, status: string, isFeatured: bool, orderIndex: int)

  const MainProjects: seq<ProjectSeed> := [
    ProjectSeed(
      "Roo Florals", "Online Flower Shop",
      "A comprehensive e-commerce platform for a flower shop featuring product catalog, shopping cart, order management, and admin panel.",
      "Developed a beautiful and modern online flower shop with complete e-commerce functionality. The platform includes a responsive product catalog, shopping cart with quantity management, secure checkout process, and comprehensive admin panel for managing products, orders, and settings. Features include coupon system, branch management, contact forms, and Telegram integration for order notifications.",
      ["Flask", "Python", "SQLite", "HTML5", "CSS3", "JavaScript", "Telegram Bot API"],
      ["Product catalog with search and filtering", "Shopping cart and checkout system", "Admin panel for content management", "Order tracking and management", "Telegram bot integration", "Coupon and discount system", "Branch management", "Responsive design"],
      "https://rooflorals.com", "#", "Live", true, 1),
    ProjectSeed(
      "MG Store", "E-commerce Platform",
      "A robust e-commerce platform with modern React frontend, Flask backend, and comprehensive admin panel.",
      "Engineered a full-stack e-commerce solution with a modern React.js frontend and robust Flask backend. The platform features comprehensive API endpoints for products, categories, orders, authentication, and payment processing. Implemented advanced security measures including CSRF protection, rate limiting, and secure logging. The admin panel provides rich UI for managing all aspects of the store.",
      ["React.js", "Flask", "SQLAlchemy", "Python", "REST API", "CSRF Protection", "Rate Limiting"],
      ["Modern React.js frontend", "RESTful API architecture", "Advanced security measures", "Rate limiting and CSRF protection", "Comprehensive admin panel", "Payment processing integration", "User authentication system", "Scalable database design"],
      "#", "#", "In Development", true, 2),
    ProjectSeed(
      "Nexus Agency", "Agency Website",
      "A modern agency website showcasing services, portfolio, and team.",
      "Created a sophisticated agency website that effectively showcases the company's services, portfolio, and team. The site features modern design principles, smooth animations, and optimized performance. Implemented SEO best practices and ensured excellent user experience across all devices.",
      ["React.js", "Tailwind CSS", "Framer Motion", "Next.js", "SEO Optimization"],
      ["Modern responsive design", "Smooth animations and transitions", "SEO optimized", "Performance optimized", "Portfolio showcase", "Contact forms", "Team profiles", "Service pages"],
      "https://nexusagencyeg.com", "#", "Live", true, 3)
  ]

  /** The literal data of one seeded skill. */
  datatype SkillSeed = SkillSeed(name: string, category: string, level: int)

  /** The literal data of one seeded language. */
  datatype LanguageSeed = LanguageSeed(name: string, level: string, orderIndex: int)

  /** Everything `init_default_data` writes into the content tables. */
  datatype Seeds = Seeds(
    summary: string, projects: seq<ProjectSeed>, skills: seq<SkillSeed>, languages: seq<LanguageSeed>)

  const MainSkills: seq<SkillSeed> := [
    SkillSeed("Python", "Backend", 90), SkillSeed("Flask", "Backend", 85),
    SkillSeed("JavaScript", "Frontend", 88), SkillSeed("React.js", "Frontend", 85),
    SkillSeed("HTML5", "Frontend", 95), SkillSeed("CSS3", "Frontend", 90),
    SkillSeed("SQLite", "Database", 80), SkillSeed("SQLAlchemy", "Database", 75),
    SkillSeed("REST APIs", "Backend", 85), SkillSeed("Git", "Tools", 80),
    SkillSeed("UI/UX Design", "Design", 85)
  ]

  const MainLanguages: seq<LanguageSeed> := [
    LanguageSeed("Arabic", "Native", 1), LanguageSeed("English", "Fluent", 2)]

  /** The data the start-up code seeds. */
  const MainSeeds := Seeds(SeedSummary, MainProjects, MainSkills, MainLanguages)

  /** The seeded personal-info row: the column defaults and the long summary, key 1. */
  function InfoRow(seeds: Seeds): (p: PersonalInfo)
    ensures p.id == 1 && p.summary == seeds.summary && p.name == DefaultName && p.email == DefaultEmail
  {
    PersonalInfo(1, DefaultName, DefaultTitle, DefaultEmail, DefaultPhone, DefaultLocation, seeds.summary)
  }

  /**
   * A seeded project row: the scalar columns from the literal, the two lists through
   * `set_technologies` and `set_features`, the image URL left NULL.
   */
  function SeedProject(d: ProjectSeed, id: nat): (p: Project)
    ensures p.id == id && p.title == d.title && p.description == d.description
    ensures p.status == Some(d.status) && p.isFeatured == Some(d.isFeatured) && p.orderIndex == Some(d.orderIndex)
    ensures p.subtitle == Some(d.subtitle) && p.longDescription == Some(d.longDescription)
    ensures p.liveUrl == Some(d.liveUrl) && p.githubUrl == Some(d.githubUrl)
    ensures p.imageUrl.None?
    ensures GetTechnologies(p) == d.technologies && GetFeatures(p) == d.features
  {
    var bare := Project(id, d.title, Some(d.subtitle), d.description, Some(d.longDescription),
      None, None, None, Some(d.liveUrl), Some(d.githubUrl), Some(d.status),
      Some(d.isFeatured), Some(d.orderIndex));
    SetFeatures(SetTechnologies(bare, d.technologies), d.features)
  }

  /** Rows inserted into an empty table receive the keys 1, 2, 3, ... in insertion order. */
  function ProjectRows(ps: seq<ProjectSeed>): (r: seq<Project>)
    ensures |r| == |ps| && Distinct(ProjectIds(r))
    ensures forall k :: 0 <= k < |r| ==> r[k].id == k + 1 && r[k].title == ps[k].title
    ensures forall k :: 0 <= k < |r| ==>
      GetTechnologies(r[k]) == ps[k].technologies && GetFeatures(r[k]) == ps[k].features
    ensures forall k :: 0 <= k < |r| ==>
      r[k].isFeatured == Some(ps[k].isFeatured) && r[k].orderIndex == Some(ps[k].orderIndex)
  {
    var r := seq(|ps|, k requires 0 <= k < |ps| => SeedProject(ps[k], k + 1));
    assert forall k :: 0 <= k < |r| ==> ProjectIds(r)[k] == k + 1;
    CountingDistinct(ProjectIds(r));
    r
  }

  /** Seeded skills carry no description and the default `order_index`. */
  function SkillRows(ss: seq<SkillSeed>): (r: seq<Skill>)
    ensures |r| == |ss| && Distinct(SkillIds(r))
    ensures forall k :: 0 <= k < |r| ==>
      r[k] == Skill(k + 1, ss[k].name, ss[k].category, Some(ss[k].level), None, Some(DefaultOrderIndex))
  {
    seq(|ss|, k requires 0 <= k < |ss| => Skill(k + 1, ss[k].name, ss[k].category, Some(ss[k].level), None, Some(DefaultOrderIndex)))
  }

  function LanguageRows(ls: seq<LanguageSeed>): (r: seq<Language>)
    ensures |r| == |ls|
    ensures forall k :: 0 <= k < |r| ==> r[k] == Language(k + 1, ls[k].name, ls[k].level, Some(ls[k].orderIndex))
  {
    seq(|ls|, k requires 0 <= k < |ls| => Language(k + 1, ls[k].name, ls[k].level, Some(ls[k].orderIndex)))
  }

  /** `AdminUser.query.filter_by(username=name).first()` finds a row. */
  predicate HasAdminNamed(us: seq<AdminUser>, name: string) {
    exists k :: 0 <= k < |us| && us[k].username == name
  }

  predicate EmailTaken(us: seq<AdminUser>, email: string) {
    exists k :: 0 <= k < |us| && us[k].email == email
  }

  /** A table that is empty receives its seeded rows; a table with any row is left alone. */
  function SeedIfEmpty<T>(rows: seq<T>, seeded: seq<T>): seq<T> {
    if rows == [] then seeded else rows
  }

  /**
   * `init_default_data` with `MainSeeds` as `seeds`; `adminHash` stands for
   * `generate_password_hash('admin123')`, whose salt is random. Each content table is seeded
   * exactly when it is empty, the admin user exactly when none is named "admin"; other rows
   * and tables are left as they were. The single commit fails, writing nothing, when the
   * new admin's e-mail is already taken.
   */
  function InitDefaultData(db: Db, seeds: Seeds, adminHash: string): (r: Option<Db>)
    ensures r.None? <==> !HasAdminNamed(db.admins, SeedAdminName) && EmailTaken(db.admins, SeedAdminEmail)
    ensures r.Some? ==>
      && r.value.experiences == db.experiences && r.value.messages == db.messages
      && (db.personalInfo != [] ==> r.value.personalInfo == db.personalInfo)
      && (db.personalInfo == [] ==> r.value.personalInfo == [InfoRow(seeds)])
      && (db.projects != [] ==> r.value.projects == db.projects)
      && (db.projects == [] ==> r.value.projects == ProjectRows(seeds.projects))
      && (db.skills != [] ==> r.value.skills == db.skills)
      && (db.skills == [] ==> r.value.skills == SkillRows(seeds.skills))
      && (db.languages != [] ==> r.value.languages == db.languages)
      && (db.languages == [] ==> r.value.languages == LanguageRows(seeds.languages))
    ensures r.Some? && HasAdminNamed(db.admins, SeedAdminName) ==> r.value.admins == db.admins
    ensures r.Some? && !HasAdminNamed(db.admins, SeedAdminName) ==>
      |r.value.admins| == |db.admins| + 1 && r.value.admins[..|db.admins|] == db.admins
      && var a := r.value.admins[|db.admins|];
      a.username == SeedAdminName && a.email == SeedAdminEmail && a.passwordHash == adminHash
      && a.isActive == Some(true)
      && forall k :: 0 <= k < |db.admins| ==> db.admins[k].id < a.id
    ensures r.Some? ==> HasAdminNamed(r.value.admins, SeedAdminName)
  {
    var needAdmin := !HasAdminNamed(db.admins, SeedAdminName);
    if needAdmin && EmailTaken(db.admins, SeedAdminEmail) then None
    else
      var admin := AdminUser(NextId(AdminIds(db.admins)), SeedAdminName, adminHash, SeedAdminEmail, Some(DefaultIsActive));
      var admins := if needAdmin then db.admins + [admin] else db.admins;
      assert needAdmin ==> admins[|db.admins|] == admin;
      assert forall k :: 0 <= k < |db.admins| ==> db.admins[k].id == AdminIds(db.admins)[k];
      Some(Db(
        SeedIfEmpty(db.personalInfo, [InfoRow(seeds)]),
        db.experiences,
        SeedIfEmpty(db.projects, ProjectRows(seeds.projects)),
        SeedIfEmpty(db.skills, SkillRows(seeds.skills)),
        SeedIfEmpty(db.languages, LanguageRows(seeds.languages)),
        db.messages,
        admins))
  }

  /** A second run inserts nothing, whatever hash it would have used. */
  lemma SeedIdempotent(db: Db, seeds: Seeds, h1: string, h2: string)
    requires |seeds.projects| > 0 && |seeds.skills| > 0 && |seeds.languages| > 0
    requires InitDefaultData(db, seeds, h1).Some?
    ensures InitDefaultData(InitDefaultData(db, seeds, h1).value, seeds, h2) == InitDefaultData(db, seeds, h1)
  {
  }

  /** Seeding keeps primary keys distinct and the admin columns unique. */
  lemma SeedWellFormed(db: Db, seeds: Seeds, h: string)
    requires WellFormed(db) && InitDefaultData(db, seeds, h).Some?
    ensures WellFormed(InitDefaultData(db, seeds, h).value)
  {
    var r := InitDefaultData(db, seeds, h).value;
    assert PersonalInfoIds([InfoRow(seeds)]) == [1];
    if !HasAdminNamed(db.admins, SeedAdminName) {
      var a := r.admins[|db.admins|];
      assert r.admins == db.admins + [a];
      DistinctAppendFresh(AdminIds(db.admins), a.id);
      assert AdminIds(r.admins) == AdminIds(db.admins) + [a.id];
      assert !EmailTaken(db.admins, SeedAdminEmail);
      assert forall i :: 0 <= i < |db.admins| ==> db.admins[i].username != a.username && db.admins[i].email != a.email;
    }
  }

  /** Three featured projects ordered 1, 2, 3, eleven skills and two languages ordered 1, 2. */
  lemma MainSeedsShape()
    ensures |MainSeeds.projects| == 3 && |MainSeeds.skills| == 11 && |MainSeeds.languages| == 2
    ensures forall k :: 0 <= k < 3 ==> MainSeeds.projects[k].isFeatured && MainSeeds.projects[k].orderIndex == k + 1
    ensures MainSeeds.languages[0].orderIndex == 1 && MainSeeds.languages[1].orderIndex == 2
  {
  }

  /**
   * On an empty database the public endpoint answers its built-in record, and after
   * seeding it answers the seeded row, whose summary is a different text.
   */
  lemma PublicInfoBeforeAndAfterSeed(h: string)
    ensures PublicApi.GetPersonalInfo(EmptyDb) == PublicApi.FallbackInfo
    ensures InitDefaultData(EmptyDb, MainSeeds, h).Some?
    ensures PublicApi.GetPersonalInfo(InitDefaultData(EmptyDb, MainSeeds, h).value).summary == SeedSummary
    ensures SeedSummary != PublicApi.FallbackInfo.summary
  {
    assert |SeedSummary| != |PublicApi.FallbackInfo.summary|;
  }
}
