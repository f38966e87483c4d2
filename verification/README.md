# Access-gateway bulletin board: access control and session model in Dafny

This project models the access-control and content-visibility logic of a small role-gated bulletin board. It also models the authentication state machines behind that logic. The pieces are:

- `types.dfy` (module `Types`): the closed `Role` and `Department` sets, `User` with an optional department, and `Post`. A post targets either one department or everyone (`"all"`) and carries its author. The module also holds the literal strings for roles and departments, and the department list the forms offer.
- `auth.dfy` (module `Auth`): the mock authentication provider of `src/lib/auth.tsx`. Its state is the current user plus the module-level user list. It has three transitions:
  - `Login` looks a user up by email only.
  - `Register` rejects a duplicate email, otherwise appends the new user and logs it in.
  - `Logout` clears the current user.
- `layout.dfy` (module `Layout`): the fixed navigation table and its role filter.
- `dashboard.dfy` (module `Dashboard`): `canCreatePost`, the feed filter and the new-post submission.
- `register_page.dfy` (module `RegisterPage`): the registration form, its per-field edits, and the submit handler. The handler runs the required-fields check, then the department check, then calls `Auth.Register`.
- `backend.dfy` (module `Backend`): the server's `/api/register` and `/api/login` routes. The users table is modelled as a sequence of rows.
- `seqs.dfy` and `wrappers.dfy`: an order-preserving `Filter` (`Array.prototype.filter`), a first-match `Find` (`Array.prototype.find`, a query's `.first()`), `Option` and `Result`.

Every operation is a pure function from the old state to the new state. Each transition returns the error it threw, if any. An error is never paired with a changed state, and the contracts say so.

The model follows the code where the code and the design intent differ:

- With nobody logged in, the feed still shows the posts addressed to `"all"` (`src/pages/Dashboard.tsx:79`). `user?.department` is undefined there, but a post's department never is. The intended design was that anonymous viewers see nothing. `Dashboard.AnonymousSeesOnlyAll` and `Dashboard.FeedAfterLogout` state the behaviour as written.
- The mock `login` ignores the password (`src/lib/auth.tsx:22`). See `Auth.LoginIgnoresPassword`.
- The front end models the in-memory mock provider, because that is the code the pages call. The server routes are modelled separately, and the two are not wired together.

## Model

| member | source | states |
|---|---|---|
| Types.ParseRole | src/lib/types.ts:1 | exactly the three literals "Admin", "Manager" and "User" name a role; each role's literal reads back as that role and every other string is rejected |
| Types.ParseDepartment | src/lib/types.ts:3-13 | exactly the ten department literals read as departments; each department's literal reads back as that department and every other string is rejected |
| Types.DepartmentNamesDistinct | src/lib/types.ts:3-13 | the ten department names are pairwise distinct, and none of them is the post sentinel "all" |
| Types.DepartmentOptions | src/pages/Register.tsx:10-21 | the form's department list has ten entries with no repeats |
| Types.DepartmentOptionsComplete | src/pages/Dashboard.tsx:9-20 | every department of the closed set appears in the list offered by the forms |
| Seqs.Filter | src/components/Layout.tsx:22-24 | the filtered list is an order-preserving subsequence of its input, and an element occurs in it exactly when it occurs in the input and passes the test |
| Seqs.FilterCount | src/pages/Dashboard.tsx:77-80 | the filter keeps every copy of a passing element and drops every copy of a failing one, so each element occurs as often as in the input or not at all |
| Seqs.FindIndex | src/lib/auth.tsx:22 | the search returns the index of a matching element with no match before it, and returns nothing exactly when no element matches |
| Seqs.Find | src/lib/auth.tsx:22 | the search finds nothing exactly when no element matches; otherwise it returns the first matching element |
| Auth.InitialState | src/lib/auth.tsx:14-17 | the provider starts with no current user, and that state satisfies the store invariant |
| Auth.FindByEmail | src/lib/auth.tsx:22 | the lookup succeeds exactly when some stored user has the email, and then yields the first such user |
| Auth.Login | src/lib/auth.tsx:19-28 | login succeeds exactly when the email is stored, and the first user with that email becomes current; otherwise it throws "User not found" and the state is unchanged; the store is never changed |
| Auth.NewUser | src/lib/auth.tsx:40-43 | the new account carries the given id, and dropping that id and adding back the password gives the registration data unchanged |
| Auth.Register | src/lib/auth.tsx:31-52 | a stored email throws "User already exists" with the state unchanged; otherwise exactly one user is appended, holding the given fields and the new id, and it becomes the current user |
| Auth.Logout | src/lib/auth.tsx:54-57 | afterwards nobody is logged in, and the store is unchanged |
| Auth.RegisterPreservesValid | src/lib/auth.tsx:35-49 | registration keeps stored emails pairwise distinct, and keeps the current user among the stored users |
| Auth.LoginLogoutPreserveValid | src/lib/auth.tsx:19-57 | login and logout keep the same invariant |
| Auth.LoginIgnoresPassword | src/lib/auth.tsx:19-22 | two logins with the same email and different passwords have identical outcomes |
| Auth.LoginFindsStoredUser | src/lib/auth.tsx:22-27 | in a valid state, every stored user logs in by email with any password and becomes exactly the current user |
| Auth.RegisterThenLogin | src/lib/auth.tsx:22-49 | a successful registration makes the new account current; after a logout, logging in with that email succeeds with no error and restores exactly that state |
| Auth.LogoutAfterLogin | src/lib/auth.tsx:54-56 | logging out after a login gives the same state as logging out without it |
| Layout.NavItems | src/components/Layout.tsx:11-16 | the navigation table has four links with distinct targets, and the last is open to the "Admin" role only |
| Layout.IsNavItemVisible | src/components/Layout.tsx:23 | a link is visible exactly when a user is present and one of the link's role names reads as that user's role |
| Layout.FilteredNavItems | src/components/Layout.tsx:22-24 | the shown links keep table order; a link is shown exactly when a user is present and the user's role name is in the link's role list; with no user nothing is shown |
| Layout.NavItemsForAdmin | src/components/Layout.tsx:11-16 | an administrator sees Home, Profile, Users and Roles, in that order |
| Layout.NavItemsForManager | src/components/Layout.tsx:11-16 | a manager sees Home, Profile and Users |
| Layout.NavItemsForUser | src/components/Layout.tsx:11-16 | a plain user sees Home and Profile only |
| Layout.RolesItemOnlyForAdmin | src/components/Layout.tsx:15 | the roles link is shown exactly when the current user is an administrator |
| Layout.NavDependsOnlyOnRole | src/components/Layout.tsx:22-24 | two users with the same role see the same links |
| Layout.NavVisibilityNested | src/components/Layout.tsx:11-16 | a plain user's links are among a manager's, and a manager's are among an administrator's |
| Dashboard.CanCreatePost | src/pages/Dashboard.tsx:76 | posting is allowed exactly when a user is present whose role is Admin or Manager |
| Dashboard.IsPostVisible | src/pages/Dashboard.tsx:77-79 | Admin and Manager viewers see every post; a plain user sees a post exactly when it targets "all" or their own department; with no user, exactly the "all" posts are shown |
| Dashboard.VisiblePosts | src/pages/Dashboard.tsx:77-80 | the feed is an order-preserving subsequence of the loaded posts; each visible post occurs in it as many times as it is loaded, and no other post occurs |
| Dashboard.PrivilegedSeeEverything | src/pages/Dashboard.tsx:78 | for an Admin or Manager viewer, the feed is the whole post list |
| Dashboard.UserSeesAllAndOwnDepartment | src/pages/Dashboard.tsx:79 | a plain user's feed holds exactly the loaded posts that target "all" or the user's own department |
| Dashboard.AnonymousSeesOnlyAll | src/pages/Dashboard.tsx:77-79 | with nobody logged in, the feed holds exactly the loaded posts that target "all" |
| Dashboard.FeedAfterLogout | src/pages/Dashboard.tsx:77-79 | after logout, the feed is the loaded posts filtered down to those targeting "all" |
| Dashboard.HandleCreatePost | src/pages/Dashboard.tsx:46-74 | without posting rights: no request, no toast, no change; otherwise the form is sent; success puts the created post in front of the list and resets the form to empty content with target "all"; failure leaves posts and form untouched and shows "Failed to create post" |
| Dashboard.CreatedPostReachesViewers | src/pages/Dashboard.tsx:60 | after a successful post, every viewer's feed is the old feed with the new post in front, exactly when that viewer may see the post |
| RegisterPage.ApplyEdit | src/pages/Register.tsx:79-85 | an edit sets the field it names to the given value and leaves the other six fields unchanged |
| RegisterPage.ApplyEditIdempotent | src/pages/Register.tsx:79-85 | repeating an edit changes nothing further; an edit that writes the value already held is a no-op |
| RegisterPage.Validate | src/pages/Register.tsx:42-59 | the form passes exactly when every required field is filled and a User role has a department; a missing required field reports the required-fields message even if the department is also missing; the department message appears only when every required field is filled |
| RegisterPage.ToRegistration | src/pages/Register.tsx:63 | `register` receives the form's values unchanged |
| RegisterPage.DisplayedMessage | src/pages/Register.tsx:73 | the failure toast shows a caught `Error`'s own message, and "Ошибка при регистрации" for any other thrown value |
| RegisterPage.Submit | src/pages/Register.tsx:38-77 | a form that fails validation shows its message and leaves the provider untouched; a valid form leaves the provider exactly as `register` does; navigation to "/" happens exactly when `register` succeeds; otherwise the provider's "User already exists" message is shown verbatim |
| RegisterPage.InitialFormRejected | src/pages/Register.tsx:24-49 | submitting the untouched form reports the required-fields message and registers nobody |
| RegisterPage.UserRoleNeedsDepartment | src/pages/Register.tsx:52-59 | a User-role form without a department never reaches `register` and changes nothing |
| RegisterPage.PrivilegedNeedNoDepartment | src/pages/Register.tsx:52-68 | a complete Admin or Manager form without a department, with a new email, registers the account without a department and navigates home |
| RegisterPage.SubmitPreservesValid | src/pages/Register.tsx:63 | a submission keeps the provider invariant of distinct emails |
| Backend.Register | backend/main.py:63-88 | a taken email fails with 400 "Email already registered" and adds nothing; otherwise exactly one row is appended, copying email, password, name, role, department, gender and birth date under the new id, and it is returned |
| Backend.Login | backend/main.py:90-104 | login returns a stored row exactly when some row matches both email and password, and the row returned matches both; otherwise it fails with 401 "Invalid credentials"; the table is never changed |
| Backend.RegisterPreservesUnique | backend/main.py:68-84 | registration keeps emails unique across rows |
| Backend.RegisterAcceptsAnyDepartment | backend/main.py:54-79 | a new email is accepted for any role, with or without a department; the server does not require a department for plain users |
| Backend.LoginStoredRow | backend/main.py:94-100 | with unique emails, a stored account logs in with its own password and is refused with 401 under any other password |
| Backend.RegisterThenLogin | backend/main.py:63-104 | an account just registered logs in with the password it was registered with, and login returns the same row |

## Left out

- React rendering, JSX, hooks and context plumbing are not modelled. This includes the `useAuth` outside-provider error (`src/lib/auth.tsx:66-70`), toast presentation, router mechanics and active-link styling. The submit handlers are modelled as pure state steps.
- `fetchPosts` (`src/pages/Dashboard.tsx:32-44`) is not modelled because it is network I/O. The `fetch` of a new post is replaced by a `response` parameter. `None` stands for every failure. A non-OK status is turned into a thrown error (`src/pages/Dashboard.tsx:57`). It then reaches the same `catch` (`src/pages/Dashboard.tsx:67`) as a failed request or unreadable JSON, so all three have the same effect.
- The new-post form's own field updates (`src/pages/Dashboard.tsx:90`, `:95`) are not modelled. They are plain spreads like the registration form's.
- Random ids (`Math.random` in `auth.tsx`, `os.urandom` in `main.py`) are parameters. Ids are not claimed to be unique. A server-side id collision, which the database would refuse, is not modelled.
- `console.log` calls, date formatting and the `createdAt` value are not modelled. `createdAt` is an opaque string.
- Async scheduling and concurrent double submissions are not modelled. Each handler is one atomic step.
- The FastAPI app, CORS, the SQLAlchemy engine and session, environment configuration and `uvicorn` are not modelled. The users table is a sequence of rows in query order. `.first()` is the first match in that order. With unique emails the result does not depend on the order (`Backend.LoginStoredRow`).
- The front end and back end are not wired together. They also name the birth date differently (`birthDate` and `birth_date`).
- RegisterPage.ApplyEdit: the page's setters take any string key and any string value. The model allows only the seven fields and the values the page's inputs and selects offer, and it writes an unset choice (the empty string) as `None`.
- RegisterPage.Submit: in the page, the failure toast would show a generic message for a thrown value that is not an `Error` (`DisplayedMessage`). The mock `register` only ever throws an `Error`, so that branch cannot be reached in the model.
- Auth.Register: at run time the spread also copies the password into the stored object. Nothing reads it, so the stored record is the typed `User` without it.
- Browser-level `required` attributes on the inputs are not modelled. They may block a submission before `handleSubmit` runs.
