/** The domain records shared by every page: roles, departments, users and
    posts, with the literal strings that stand for them on the wire. */
module Types {
  import opened Wrappers

  /** The three roles; a closed set. */
  datatype Role = Admin | Manager | User

  /** The ten departments; a closed set. */
  datatype Department =
    | Accounting
    | Marketing
    | HumanResources
    | TechnicalControl
    | Sales
    | IT
    | LogisticsAndTransport
    | CustomerSupport
    | ResearchAndDevelopment
    | Procurement

  datatype Gender = Male | Female

  /** A user account. Only the department may be absent. */
  datatype User = User(
    id: string,
    email: string,
    name: string,
    role: Role,
    department: Option<Department>,
    gender: Gender,
    birthDate: string)

  /** Where a post is addressed: one department, or everyone ("all"). */
  datatype PostTarget = All | Dept(department: Department)

  /** A post, carrying a full snapshot of its author. */
  datatype Post = Post(
    id: string,
    content: string,
    department: PostTarget,
    createdAt: string,
    author: User)

  /** The literal string a role is written as. */
  function RoleName(r: Role): string
  {
    match r
    case Admin => "Admin"
    case Manager => "Manager"
    case User => "User"
  }

  /** Reads a role from its literal string; every other string is rejected. */
  function ParseRole(s: string): (r: Option<Role>)
    ensures r.Some? ==> RoleName(r.value) == s
    ensures forall role :: RoleName(role) == s ==> r == Some(role)
  {
    if s == "Admin" then Some(Admin)
    else if s == "Manager" then Some(Manager)
    else if s == "User" then Some(Role.User)
    else None
  }

  /** The literal string a department is written as. */
  function DepartmentName(d: Department): string
  {
    match d
    case Accounting => "Бухгалтерия"
    case Marketing => "Отдел маркетинга"
    case HumanResources => "Отдел кадров"
    case TechnicalControl => "Отдел технического контроля"
    case Sales => "Отдел сбыта"
    case IT => "Отдел IT"
    case LogisticsAndTransport => "Отдел логистики и транспорта"
    case CustomerSupport => "Отдел клиентской поддержки"
    case ResearchAndDevelopment => "Отдел разработки и исследований"
    case Procurement => "Отдел закупок"
  }

  /** Reads a department from its literal string; every other string is rejected. */
  function ParseDepartment(s: string): (r: Option<Department>)
    ensures r.Some? ==> DepartmentName(r.value) == s
    ensures forall d :: DepartmentName(d) == s ==> r == Some(d)
  {
    if s == "Бухгалтерия" then Some(Accounting)
    else if s == "Отдел маркетинга" then Some(Marketing)
    else if s == "Отдел кадров" then Some(HumanResources)
    else if s == "Отдел технического контроля" then Some(TechnicalControl)
    else if s == "Отдел сбыта" then Some(Sales)
    else if s == "Отдел IT" then Some(IT)
    else if s == "Отдел логистики и транспорта" then Some(LogisticsAndTransport)
    else if s == "Отдел клиентской поддержки" then Some(CustomerSupport)
    else if s == "Отдел разработки и исследований" then Some(ResearchAndDevelopment)
    else if s == "Отдел закупок" then Some(Procurement)
    else None
  }

  /** Distinct departments are written as distinct strings, and none of them
      is the sentinel "all" a post target may carry. */
  lemma DepartmentNamesDistinct(d1: Department, d2: Department)
    ensures DepartmentName(d1) == DepartmentName(d2) <==> d1 == d2
    ensures DepartmentName(d1) != "all"
  {
  }

  /** The department choices offered by the registration and post forms, in
      declaration order, each once. */
  function DepartmentOptions(): (r: seq<Department>)
    ensures |r| == 10
    ensures forall i, j :: 0 <= i < j < |r| ==> r[i] != r[j]
  {
    [Accounting, Marketing, HumanResources, TechnicalControl, Sales,
     IT, LogisticsAndTransport, CustomerSupport, ResearchAndDevelopment, Procurement]
  }

  /** Every department is among the options. */
  lemma DepartmentOptionsComplete(d: Department)
    ensures d in DepartmentOptions()
  {
    var r := DepartmentOptions();
    match d
    case Accounting => assert r[0] == d;
    case Marketing => assert r[1] == d;
    case HumanResources => assert r[2] == d;
    case TechnicalControl => assert r[3] == d;
    case Sales => assert r[4] == d;
    case IT => assert r[5] == d;
    case LogisticsAndTransport => assert r[6] == d;
    case CustomerSupport => assert r[7] == d;
    case ResearchAndDevelopment => assert r[8] == d;
    case Procurement => assert r[9] == d;
  }
}
