/** The side navigation: a fixed table of links, each listing the role
    names allowed to see it, filtered by the current user's role. */
module Layout {
  import opened Wrappers
  import opened Types
  import Seqs

  /** A link and the literal role names that may see it. */
  datatype NavItem = NavItem(caption: string, href: string, roles: seq<string>)

  const Home := NavItem("Главная", "/", ["Admin", "Manager", "User"])
  const Profile := NavItem("Личный кабинет", "/profile", ["Admin", "Manager", "User"])
  const Users := NavItem("Пользователи", "/users", ["Admin", "Manager"])
  const Roles := NavItem("Роли", "/roles", ["Admin"])

  /** The navigation table, in display order: four links with distinct
      targets, the last open to administrators only. */
  function NavItems(): (r: seq<NavItem>)
    ensures |r| == 4
    ensures forall i, j :: 0 <= i < j < |r| ==> r[i].href != r[j].href
    ensures r[3].roles == ["Admin"]
  {
    [Home, Profile, Users, Roles]
  }

  /** An item is shown when someone is logged in and the item's role list
      includes the name of that user's role. */
  function IsNavItemVisible(item: NavItem, user: Option<User>): (b: bool)
    ensures b <==> user.Some? && exists i :: 0 <= i < |item.roles| && ParseRole(item.roles[i]) == Some(user.value.role)
  {
    user.Some? && RoleName(user.value.role) in item.roles
  }

  /** `IsNavItemVisible` for a fixed user, as a filter argument. */
  function VisibleTo(user: Option<User>): NavItem -> bool
  {
    (item: NavItem) => IsNavItemVisible(item, user)
  }

  /** The links shown to `user`, in table order. */
  function FilteredNavItems(user: Option<User>): (r: seq<NavItem>)
    ensures Seqs.IsSubsequence(r, NavItems())
    ensures forall item :: item in r <==> item in NavItems() && IsNavItemVisible(item, user)
    ensures user.None? ==> r == []
  {
    Seqs.Filter(NavItems(), VisibleTo(user))
  }

  /** Administrators see all four links. */
  lemma NavItemsForAdmin(u: User)
    requires u.role == Admin
    ensures FilteredNavItems(Some(u)) == [Home, Profile, Users, Roles]
  {
    var keep := VisibleTo(Some(u));
    FilterTable(keep);
    assert keep(Home) && keep(Profile) && keep(Users) && keep(Roles);
  }

  /** Managers see every link but the roles page. */
  lemma NavItemsForManager(u: User)
    requires u.role == Manager
    ensures FilteredNavItems(Some(u)) == [Home, Profile, Users]
  {
    var keep := VisibleTo(Some(u));
    FilterTable(keep);
    assert keep(Home) && keep(Profile) && keep(Users) && !keep(Roles);
  }

  /** Plain users see only the home and profile pages. */
  lemma NavItemsForUser(u: User)
    requires u.role == Role.User
    ensures FilteredNavItems(Some(u)) == [Home, Profile]
  {
    var keep := VisibleTo(Some(u));
    FilterTable(keep);
    assert keep(Home) && keep(Profile) && !keep(Users) && !keep(Roles);
  }

  /** Filtering the four-row table, one row at a time. */
  lemma FilterTable(keep: NavItem -> bool)
    ensures Seqs.Filter(NavItems(), keep)
         == (if keep(Home) then [Home] else []) + ((if keep(Profile) then [Profile] else [])
          + ((if keep(Users) then [Users] else []) + (if keep(Roles) then [Roles] else [])))
  {
    var f0 := Seqs.Filter([], keep);
    var f1 := Seqs.Filter([Roles], keep);
    var f2 := Seqs.Filter([Users, Roles], keep);
    var f3 := Seqs.Filter([Profile, Users, Roles], keep);
    assert f0 == [];
    Seqs.FilterCons(Roles, [], keep);
    assert [Roles] + [] == [Roles];
    assert f1 == (if keep(Roles) then [Roles] else []);
    Seqs.FilterCons(Users, [Roles], keep);
    assert [Users] + [Roles] == [Users, Roles];
    assert f2 == (if keep(Users) then [Users] else []) + f1;
    Seqs.FilterCons(Profile, [Users, Roles], keep);
    assert [Profile] + [Users, Roles] == [Profile, Users, Roles];
    assert f3 == (if keep(Profile) then [Profile] else []) + f2;
    Seqs.FilterCons(Home, [Profile, Users, Roles], keep);
    assert [Home] + [Profile, Users, Roles] == NavItems();
    assert Seqs.Filter(NavItems(), keep) == (if keep(Home) then [Home] else []) + f3;
  }

  /** The roles management link is shown to administrators and nobody else. */
  lemma RolesItemOnlyForAdmin(user: Option<User>)
    ensures Roles in FilteredNavItems(user) <==> user.Some? && user.value.role == Admin
  {
  }

  /** What a user sees depends only on the role. */
  lemma NavDependsOnlyOnRole(u: User, v: User)
    requires u.role == v.role
    ensures FilteredNavItems(Some(u)) == FilteredNavItems(Some(v))
  {
    match u.role
    case Admin => NavItemsForAdmin(u); NavItemsForAdmin(v);
    case Manager => NavItemsForManager(u); NavItemsForManager(v);
    case User => NavItemsForUser(u); NavItemsForUser(v);
  }

  /** Each role sees at least what a less privileged role sees: User's links
      are among Manager's, and Manager's among Admin's. */
  lemma NavVisibilityNested(u: User, item: NavItem)
    ensures item in FilteredNavItems(Some(u.(role := Role.User))) ==> item in FilteredNavItems(Some(u.(role := Manager)))
    ensures item in FilteredNavItems(Some(u.(role := Manager))) ==> item in FilteredNavItems(Some(u.(role := Admin)))
  {
    NavItemsForUser(u.(role := Role.User));
    NavItemsForManager(u.(role := Manager));
    NavItemsForAdmin(u.(role := Admin));
  }
}
