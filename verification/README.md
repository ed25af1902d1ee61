# safespoon authorization and form logic in Dafny

This project models the decision logic of the safespoon restaurant-menu
dashboard (a Next.js application) and proves properties of it:

- the role-based **route guard** that runs before every `/dashboard` request:
  which paths need a session, which need a role, how bracketed route patterns
  match, and whether a request passes, goes to the login page or goes to
  `/unauthorized`;
- the other authorization layers: the client hook's `hasRole` and `can`, the
  client page guard, and the server-side dashboard layout, together with
  facts that relate them to the route guard;
- the **establishment validator** (required fields, e-mail pattern, website
  and place-data checks);
- the menu-item form state (initial values, field update, allergen toggle,
  cross-contamination switch), the category form's trim-and-submit rule, the
  search filters and delete of the establishments and menus list pages, and
  the dashboard shell's `classNames` joiner and active-item rule.

Module layout, one module per source file plus three shared ones:

| file | module | models |
|---|---|---|
| wrappers.dfy | Wrappers | `Option`, and `Outcome` for an expression that throws a `TypeError` |
| text.dfy | Text | `startsWith`, `includes`, `trim`, `toLowerCase`, `indexOf` on strings |
| seqs.dfy | Seqs | `Array.prototype.filter` and order-preserving subsequences |
| route_guard.dfy | RouteGuard | `src/middleware.js` |
| use_auth.dfy | UseAuth | `src/hooks/useAuth.js` |
| protected_client_page.dfy | ProtectedClientPage | `src/components/auth/ProtectedClientPage.jsx` |
| dashboard_root_layout.dfy | DashboardRootLayout | `src/app/dashboard/layout.js` |
| access_layers.dfy | AccessLayers | how the four authorization layers relate |
| validations.dfy | Validations | `src/lib/validations.js` |
| menu_item_form.dfy | MenuItemForm | `src/components/menu/MenuItemForm.jsx` |
| category_form.dfy | CategoryForm | `src/components/menu/CategoryForm.jsx` |
| establishments_page.dfy | EstablishmentsPage | `src/app/dashboard/establishments/page.js` |
| menus_page.dfy | MenusPage | `src/app/dashboard/menus/page.js` |
| dashboard_layout.dfy | DashboardLayout | `src/components/dashboard/DashboardLayout.jsx` |

The modules take the form of their source code:

- The guard, the hooks, the page guard and the layout are pure decisions.
  They are functions that return a disposition value (`Next`,
  `RedirectToLogin`, `RedirectToUnauthorized`, a list of `router.push`
  targets, or a view).
- `validateEstablishment` pushes errors inside a loop, so it is a method with
  a loop. It is proved equal to the specification function `ExpectedErrors`,
  and the validator's promises are lemmas about that function.
- Two components keep state that every handler replaces: the menu-item form's
  `formData`, and the establishments page's list and delete dialog. Each is a
  class whose methods reassign its fields.

Route patterns are compiled the way `route.replace(/\[.*?\]/g, '[^/]+')`
compiles them. Every bracketed name with no line break inside becomes one
`Segment` atom, and every other character stays a literal. `MatchesPrefix` is the start-anchored
regular-expression test. Its reference definition, `HasPrefixInstance`, says
the path begins with the pattern after each `Segment` is filled with a
non-empty string that holds no `/`. The two are proved equivalent.

## Model

| member | source | states |
|---|---|---|
| RouteGuard.Middleware | src/middleware.js:22-69 | the guard's decision; its contract is stated by UnprotectedPassesThrough, NoTokenGoesToLogin, TokenNeverGoesToLogin, AdminNeverUnauthorized, RoleRestrictedDecision and AuthenticationOnlyPaths |
| RouteGuard.IsProtectedRoute | src/middleware.js:72-80 | `isProtectedRoute`; ProtectedIffDashboardPrefix states it is exactly the `/dashboard` string prefix |
| RouteGuard.IsRoleProtectedRoute | src/middleware.js:83-90 | `isRoleProtectedRoute`; RoleRoutesMatch says which paths each entry matches and RoleProtectedIffHasRoles ties it to `getRolesForRoute` |
| RouteGuard.GetRolesForRoute | src/middleware.js:93-103 | `getRolesForRoute`, the first match of the table; its contract is FirstMatchRoles' |
| RouteGuard.Compile | src/middleware.js:76 | the `replace` that turns each `[param]` into `[^/]+`; CompileLiteral, CompileParameter and CompiledEntry0-3 state what it yields |
| RouteGuard.MatchesPrefix | src/middleware.js:75-78 | the start-anchored `test`; MatchesPrefixMeaning proves it equal to the fill-in reference definition |
| RouteGuard.MatchesPrefixMeaning | src/middleware.js:75-78 | the start-anchored `[^/]+` pattern test holds exactly when the path begins with the pattern with each parameter filled by one or more non-`/` characters, whatever follows |
| RouteGuard.CompiledEntry0 | src/middleware.js:16 | `/dashboard/establishments/new` compiles to its literal characters |
| RouteGuard.CompiledEntry1 | src/middleware.js:17 | `/dashboard/establishments/[id]` compiles to the directory's characters followed by one segment |
| RouteGuard.CompiledEntry2 | src/middleware.js:18 | `/dashboard/menus/new` compiles to its literal characters |
| RouteGuard.CompiledEntry3 | src/middleware.js:19 | `/dashboard/menus/[menuId]` compiles to the directory's characters followed by one segment |
| RouteGuard.CompiledDirEntry | src/middleware.js:76 | any bracket-free directory followed by one `[name]`, the name holding no `]` and no line terminator, compiles to that directory's literals and one segment |
| RouteGuard.CompileLiteral | src/middleware.js:76 | a bracket-free prefix of a route compiles character for character |
| RouteGuard.CompileParameter | src/middleware.js:76 | a `[name]` with neither `]` nor a line terminator inside is replaced by exactly one segment |
| RouteGuard.BracketAcrossLinesStaysLiteral | src/middleware.js:76 | a `[name]` whose name holds a line terminator is left alone, since `.` does not match one: the `[` stays literal and compilation goes on after it |
| RouteGuard.RoleRoutesMatch | src/middleware.js:15-20 | for each of the four table entries, exactly which paths it matches: the two `new` entries are plain prefixes, the parameter entries need one non-empty segment without `/` after the directory |
| RouteGuard.MenuEntryMatches | src/middleware.js:19 | the `[menuId]` entry matches exactly the paths with a segment after `/dashboard/menus/` |
| RouteGuard.EntryWithParameterMatches | src/middleware.js:85-88 | a directory followed by one segment matches exactly the paths with a non-empty, non-`/` character right after the directory |
| RouteGuard.FirstMatchRoles | src/middleware.js:93-103 | no matching entry gives `[]`; otherwise the roles are those of the first matching entry in table order |
| RouteGuard.ProtectedIffDashboardPrefix | src/middleware.js:72-80 | a path is protected exactly when it starts with `/dashboard` as a plain string, so `/dashboardX` is protected |
| RouteGuard.RoleProtectedIffHasRoles | src/middleware.js:83-103 | a path is role-restricted exactly when `getRolesForRoute` returns a non-empty list |
| RouteGuard.FirstIndex | src/middleware.js:94-100 | given one matching entry, there is a least matching entry at or before it |
| RouteGuard.UnprotectedPassesThrough | src/middleware.js:27 | an unprotected path passes whatever the token |
| RouteGuard.NoTokenGoesToLogin | src/middleware.js:33-38 | a protected path without a token goes to the login page with the request URL as callback, before any role check |
| RouteGuard.TokenNeverGoesToLogin | src/middleware.js:33-49 | a request with a token is never sent to the login page |
| RouteGuard.AdminNeverUnauthorized | src/middleware.js:45 | an `admin` token is never sent to `/unauthorized` |
| RouteGuard.RoleRestrictedDecision | src/middleware.js:41-47 | on a role-restricted path a non-admin is refused exactly when its role is outside the first matching entry's roles, and passes otherwise |
| RouteGuard.AuthenticationOnlyPaths | src/middleware.js:41-49 | with a token, a protected path that no role pattern matches passes for every role, `consumer` included |
| RouteGuard.DashboardAndMenusNeedNoRole | src/middleware.js:6-20 | `/dashboard` and `/dashboard/menus` are protected but not role-restricted |
| RouteGuard.DashboardXIsProtected | src/middleware.js:73 | `isProtectedRoute` holds for `/dashboardX`; this is a fact about `isProtectedRoute` alone, since the deployed matcher `/dashboard/:path*` does not send `/dashboardX` to the guard |
| RouteGuard.NewPrefixGetsRolesOfNew | src/middleware.js:93-101 | every path that begins with `/dashboard/establishments/new`, such as `.../new-thing`, gets the roles of `new` |
| RouteGuard.MenuItemRoles | src/middleware.js:93-101 | a path with a segment after `/dashboard/menus/` that does not start with `/dashboard/menus/new` is protected and gets the `[menuId]` roles |
| RouteGuard.MenuParameterMatchesOneSegment | src/middleware.js:75-78 | `[menuId]` matches `/dashboard/menus/42` and `/dashboard/menus/42/settings`, and not `/dashboard/menuXYZ` |
| RouteGuard.FirstMatchWins | src/middleware.js:93-101 | `establishment_staff` is refused on `/dashboard/establishments/new`, although the later `[id]` entry matches that path and lists the role |
| RouteGuard.ScenarioNoSession | src/middleware.js:33-38 | `/dashboard` without a token goes to login with itself as callback |
| RouteGuard.ScenarioStaffOnNew | src/middleware.js:45-46 | staff on `/dashboard/establishments/new` goes to `/unauthorized` |
| RouteGuard.ScenarioAdminOnNew | src/middleware.js:45 | admin on `/dashboard/establishments/new` passes |
| RouteGuard.ScenarioLogin | src/middleware.js:68 | `/login` passes without a token |
| RouteGuard.ScenarioStaffOnMenu | src/middleware.js:41-47 | staff on `/dashboard/menus/7` passes |
| UseAuth.Flags | src/hooks/useAuth.js:10-11 | `isAuthenticated` and `isLoading` are never both true, and both are false exactly when unauthenticated |
| UseAuth.HasRole | src/hooks/useAuth.js:28-37 | `hasRole`; stated by HasRoleMeaning and HasRoleNoAdminBypass |
| UseAuth.Can | src/hooks/useAuth.js:40-57 | `can`; stated by CanFalseWhenSignedOut, CanWithoutUserThrows, CanAdminEverything, CanNonAdmin and CanManageImpliesCanView |
| UseAuth.CanWithoutUserThrows | src/hooks/useAuth.js:41-44 | authenticated without a user object, `can` throws on `user.role` |
| UseAuth.HasRoleMeaning | src/hooks/useAuth.js:28-37 | `hasRole` is false without authentication or without a user; an array means membership; a role and the one-element array holding it give the same answer |
| UseAuth.HasRoleNoAdminBypass | src/hooks/useAuth.js:32-36 | an admin does not have the role `establishment_owner` |
| UseAuth.CanFalseWhenSignedOut | src/hooks/useAuth.js:41 | `can` is false for every action without authentication |
| UseAuth.CanAdminEverything | src/hooks/useAuth.js:44 | an authenticated admin can do every action, including unlisted ones |
| UseAuth.CanNonAdmin | src/hooks/useAuth.js:47-56 | for a non-admin, `can` is membership in the action's list, equal to `hasRole` on that list, and false for an unknown action |
| UseAuth.PermissionsNested | src/hooks/useAuth.js:48-51 | every role allowed to manage establishments or menus is allowed to view them |
| UseAuth.CanManageImpliesCanView | src/hooks/useAuth.js:40-57 | every session that can manage establishments or menus can view them |
| ProtectedClientPage.WithDefaults | src/components/auth/ProtectedClientPage.jsx:9-10 | an absent `allowedRoles` becomes `[]` and an absent `redirectTo` becomes `/login`; given props are kept |
| ProtectedClientPage.EffectPushes | src/components/auth/ProtectedClientPage.jsx:15-30 | one run of the effect pushes at most one route |
| ProtectedClientPage.Render | src/components/auth/ProtectedClientPage.jsx:33-47 | the render choice; stated by LoadingWaits, SignedOutGoesToLogin, NoRoleRequirement, ListedRoleAdmitted, RoleOutsideAllowed, MissingUserThrows and ChildrenIffNoRedirect |
| ProtectedClientPage.LoadingWaits | src/components/auth/ProtectedClientPage.jsx:17-39 | while loading there is no redirect and the spinner is shown |
| ProtectedClientPage.SignedOutGoesToLogin | src/components/auth/ProtectedClientPage.jsx:19-22 | loaded and signed out, the only push goes to `redirectTo` (or `/login` when the prop is absent) followed by `?callbackUrl=` and the encoded page URL, and an empty element is rendered |
| ProtectedClientPage.NoRoleRequirement | src/components/auth/ProtectedClientPage.jsx:25-44 | authenticated with empty `allowedRoles`: children and no redirect, even without a user |
| ProtectedClientPage.RoleOutsideAllowed | src/components/auth/ProtectedClientPage.jsx:25-47 | a role outside a non-empty `allowedRoles` gets one push to `/unauthorized` and no children |
| ProtectedClientPage.ListedRoleAdmitted | src/components/auth/ProtectedClientPage.jsx:25-44 | a signed-in user whose role is listed in `allowedRoles` is not redirected and gets the children |
| ProtectedClientPage.MissingUserThrows | src/components/auth/ProtectedClientPage.jsx:25-42 | authenticated without a user object while roles are required, both the effect and the render throw on `user.role` |
| ProtectedClientPage.ChildrenIffNoRedirect | src/components/auth/ProtectedClientPage.jsx:17-44 | children are rendered exactly when the state is loaded and the effect pushes nothing |
| ProtectedClientPage.AdminNotListedIsRefused | src/components/auth/ProtectedClientPage.jsx:25 | an admin not listed in `allowedRoles` is sent to `/unauthorized` |
| DashboardRootLayout.Layout | src/app/dashboard/layout.js:7-27 | the layout's decision; stated by NoSessionGoesToLogin and SessionRoleDecides |
| DashboardRootLayout.NoSessionGoesToLogin | src/app/dashboard/layout.js:12-14 | without a session the redirect is `/login?callbackUrl=/dashboard`, whatever page was asked for |
| DashboardRootLayout.SessionRoleDecides | src/app/dashboard/layout.js:17-26 | with a session, the layout renders exactly for admin, owner and staff; every other role, `consumer` and `user` among them, goes to `/unauthorized` |
| AccessLayers.EntryRolesAreDashboardRoles | src/middleware.js:15-20 | every role the route table lists is one of the layout's allowed roles |
| AccessLayers.GuardPassImpliesLayoutRenders | src/middleware.js:41-47 | a token that passes the guard on a role-restricted path is also admitted by the layout |
| AccessLayers.ConsumerPassesGuardButNotLayout | src/middleware.js:41-49 | a `consumer` token passes the guard on `/dashboard` but the layout sends it to `/unauthorized` |
| AccessLayers.LayoutAdmitsWhatGuardRefuses | src/middleware.js:45-46 | the layout admits staff, yet the guard refuses staff on `/dashboard/establishments/new` |
| AccessLayers.CallbacksDiffer | src/middleware.js:33-38 | without a session the guard's callback is the request URL, the layout's is always `/dashboard` |
| AccessLayers.MenusPathIsNotEstablishments | src/middleware.js:16-17 | a path under `/dashboard/menus/` starts with neither establishments pattern |
| AccessLayers.ManageEstablishmentsAgreesWithGuard | src/hooks/useAuth.js:48 | on `/dashboard/establishments/new...` the guard passes a role exactly when `can('manage:establishments')` holds for it |
| AccessLayers.ViewEstablishmentAgreesWithGuard | src/hooks/useAuth.js:49 | on an establishment page the guard passes a role exactly when `can('view:establishments')` holds for it |
| AccessLayers.ManageMenusAgreesWithGuard | src/hooks/useAuth.js:50 | on `/dashboard/menus/new...` the guard passes a role exactly when `can('manage:menus')` holds for it |
| AccessLayers.ViewMenusWiderThanGuard | src/hooks/useAuth.js:51 | `consumer` can view menus by `can`, yet the guard refuses it on every menu page |
| Validations.IsValidEmail | src/lib/validations.js:50-53 | `isValidEmail`; IsValidEmailMatchesPattern proves it equal to the regular expression's language and IsValidEmailMeaning describes that language |
| Validations.ExpectedErrors | src/lib/validations.js:12-42 | the errors the validator reports; stated by OneErrorPerMissingField, ErrorsInCheckOrder, EmailErrorRule, StateNotRequired, AtMostEightErrors and CompleteObjectValidates |
| Validations.IsValidEmailMatchesPattern | src/lib/validations.js:50-53 | `isValidEmail` accepts exactly the language of `^[^\s@]+@[^\s@]+\.[^\s@]+$` |
| Validations.IsValidEmailMeaning | src/lib/validations.js:50-53 | accepted exactly when there is no whitespace, exactly one `@` with something before it, and after it a dot that is neither right after the `@` nor last |
| Validations.ValidateEstablishment | src/lib/validations.js:8-43 | the errors are the required-field errors in field order, then the e-mail, website and place-data errors; `success` holds exactly when there is none |
| Validations.RequiredErrorsStep | src/lib/validations.js:14-18 | one more loop step appends that field's message exactly when the field is missing |
| Validations.OneErrorPerMissingField | src/lib/validations.js:12-18 | each required field that is absent, empty or whitespace-only yields exactly one `<field> is required`, a present one none |
| Validations.RequiredCountInAllFields | src/lib/validations.js:12-18 | the count of a field's message among the required-field errors is one if it is missing and zero otherwise |
| Validations.RequiredErrorCount | src/lib/validations.js:14-18 | over distinct fields, a field's message occurs once if the field is listed and missing, never otherwise |
| Validations.RequiredFieldsDistinct | src/lib/validations.js:12 | the five required fields are distinct and are all of them |
| Validations.RequiredMessagesDistinct | src/lib/validations.js:16-35 | distinct fields have distinct messages, and none is a format error |
| Validations.FormatErrorsNotRequired | src/lib/validations.js:21-37 | the format errors never hold a required-field message |
| Validations.ErrorsInCheckOrder | src/lib/validations.js:14-37 | the required-field errors come first, in field order, then the format errors in the order e-mail, website, place data |
| Validations.RequiredErrorsInFieldOrder | src/lib/validations.js:14-18 | the required-field errors are a subsequence of all fields' messages in field order |
| Validations.FormatErrorsInOrder | src/lib/validations.js:21-37 | the format errors are a subsequence of the three format messages in check order |
| Validations.EmailErrorRule | src/lib/validations.js:21-23 | the e-mail error is reported exactly when the e-mail is present, non-empty and rejected by `isValidEmail` |
| Validations.RequiredErrorsFromFields | src/lib/validations.js:16 | every required-field error is the message of some field |
| Validations.StateNotRequired | src/lib/validations.js:12 | changing `state`, or leaving it out, never changes the errors |
| Validations.RequiredErrorsSameFields | src/lib/validations.js:14-18 | two objects with the same required values get the same required-field errors |
| Validations.RequiredErrorsBound | src/lib/validations.js:14-18 | at most one error per checked field |
| Validations.AtMostEightErrors | src/lib/validations.js:12-37 | the error list has at most eight entries |
| Validations.CompleteObjectValidates | src/lib/validations.js:12-42 | with all required fields filled in, the object validates exactly when the three format checks pass |
| Validations.NoMissingNoRequiredErrors | src/lib/validations.js:14-18 | with no missing field there is no required-field error |
| MenuItemForm.InitialFormData | src/components/menu/MenuItemForm.jsx:11-17 | each absent initial value falls back to `''`, `[]` or `false`, each present one is kept |
| MenuItemForm.EmptyInitialForm | src/components/menu/MenuItemForm.jsx:10-17 | with the default `{}` the form starts empty |
| MenuItemForm.SubmitLabel | src/components/menu/MenuItemForm.jsx:135 | the button reads `Update Item` exactly when the initial name is a non-empty string, `Add Item` otherwise |
| MenuItemForm.MenuItemFormState.constructor | src/components/menu/MenuItemForm.jsx:11-17 | the state starts as the initial form data |
| MenuItemForm.MenuItemFormState.HandleChange | src/components/menu/MenuItemForm.jsx:19-25 | the new state is the old one with the named field replaced |
| MenuItemForm.WithFieldChangesOneField | src/components/menu/MenuItemForm.jsx:19-25 | the named field gets the value and every other field is unchanged |
| MenuItemForm.MenuItemFormState.HandleAllergenToggle | src/components/menu/MenuItemForm.jsx:27-43 | the new state has the toggled allergen list and nothing else changed; the checkbox of the id flips |
| MenuItemForm.ToggledAllergens | src/components/menu/MenuItemForm.jsx:28-42 | the toggle's new list; stated by ToggleAbsentAppends, TogglePresentRemoves, ToggleFlipsMembership, ToggleKeepsNoDuplicates and the ToggleTwice lemmas |
| MenuItemForm.ToggleAbsentAppends | src/components/menu/MenuItemForm.jsx:37-40 | an absent id is appended at the end and the list before it is kept |
| MenuItemForm.TogglePresentRemoves | src/components/menu/MenuItemForm.jsx:31-35 | a present id is removed everywhere and the other ids keep their order and multiplicities |
| MenuItemForm.ToggleFlipsMembership | src/components/menu/MenuItemForm.jsx:27-43 | a toggle flips the membership of its id and of no other id |
| MenuItemForm.ToggleKeepsNoDuplicates | src/components/menu/MenuItemForm.jsx:31-40 | a toggle keeps a duplicate-free list duplicate-free |
| MenuItemForm.ToggleTwiceAbsent | src/components/menu/MenuItemForm.jsx:31-40 | toggling an absent id twice restores the list exactly |
| MenuItemForm.ToggleTwicePresent | src/components/menu/MenuItemForm.jsx:31-40 | toggling a present id twice moves it to the end; on a duplicate-free list the same ids remain |
| MenuItemForm.ToggleTwiceReorders | src/components/menu/MenuItemForm.jsx:31-40 | toggling twice can change the order: `[gluten, eggs]` becomes `[eggs, gluten]` |
| MenuItemForm.MenuItemFormState.HandleCrossContaminationToggle | src/components/menu/MenuItemForm.jsx:45-50 | crossContamination becomes the given value and nothing else changes |
| CategoryForm.SubmittedName | src/components/menu/CategoryForm.jsx:13-14 | `onSubmit` is not called exactly when the name is empty or only whitespace; when called it gets a non-empty string with no whitespace at either end |
| CategoryForm.SubmittedIsInfix | src/components/menu/CategoryForm.jsx:14 | the submitted name is a contiguous piece of the typed name with only whitespace cut off |
| CategoryForm.SubmitIdempotent | src/components/menu/CategoryForm.jsx:14 | submitting a submitted name passes it through unchanged |
| CategoryForm.TrimmedNamePassesThrough | src/components/menu/CategoryForm.jsx:14 | a name without whitespace at either end is submitted as typed |
| CategoryForm.Heading | src/components/menu/CategoryForm.jsx:20 | the heading reads `Edit Category` exactly when `initialValue` is non-empty |
| CategoryForm.SubmitCaption | src/components/menu/CategoryForm.jsx:37 | the button reads `Update Category` exactly when `initialValue` is non-empty |
| EstablishmentsPage.EstablishmentsPageState.constructor | src/app/dashboard/establishments/page.js:27-30 | the page starts with no establishments, an empty query and the dialog closed with no target |
| EstablishmentsPage.EstablishmentsPageState.HandleSearch | src/app/dashboard/establishments/page.js:76-78 | only the query changes |
| EstablishmentsPage.EstablishmentsPageState.ConfirmDelete | src/app/dashboard/establishments/page.js:85-88 | the target is set and the dialog opens; the list is unchanged |
| EstablishmentsPage.EstablishmentsPageState.CloseDialog | src/app/dashboard/establishments/page.js:278-288 | Cancel closes the dialog and keeps the target and the list |
| EstablishmentsPage.EstablishmentsPageState.HandleDelete | src/app/dashboard/establishments/page.js:90-103 | the list loses every establishment with the target's id, the dialog closes and the target is cleared |
| EstablishmentsPage.OpenDialogCanDelete | src/app/dashboard/establishments/page.js:278-290 | while the dialog is open a target is set, so its Delete button can run `handleDelete` |
| EstablishmentsPage.DeleteMeaning | src/app/dashboard/establishments/page.js:98-100 | no kept establishment has the id; every other one keeps its multiplicity and order |
| EstablishmentsPage.FilteredEstablishments | src/app/dashboard/establishments/page.js:80-83 | `filteredEstablishments`; stated by EmptyQueryKeepsAll, FilterMeaning and FilterIgnoresQueryCase |
| EstablishmentsPage.WithoutId | src/app/dashboard/establishments/page.js:98-100 | the list after a delete; stated by DeleteMeaning |
| EstablishmentsPage.EmptyQueryKeepsAll | src/app/dashboard/establishments/page.js:80-83 | the empty query keeps every establishment |
| EstablishmentsPage.ShownWithEmptySearch | src/app/dashboard/establishments/page.js:80-83 | while the search query is empty the page shows every establishment |
| EstablishmentsPage.FilterMeaning | src/app/dashboard/establishments/page.js:80-83 | the result is an ordered subsequence holding exactly the establishments whose lower-cased name or address contains the lower-cased query |
| EstablishmentsPage.FilterIgnoresQueryCase | src/app/dashboard/establishments/page.js:81-82 | a query and its lower-cased form filter alike |
| EstablishmentsPage.MenuWord | src/app/dashboard/establishments/page.js:209 | the badge reads `menu` exactly when `activeMenus` is 1, `menus` otherwise |
| MenusPage.FilteredMenus | src/app/dashboard/menus/page.js:89-92 | `filteredMenus`; stated by EmptyQueryKeepsAll, FilterMeaning and FilterIdempotent |
| MenusPage.EmptyQueryKeepsAll | src/app/dashboard/menus/page.js:89-92 | the empty query keeps every menu |
| MenusPage.FilterMeaning | src/app/dashboard/menus/page.js:89-92 | the result is an ordered subsequence holding exactly the menus whose lower-cased name or description contains the lower-cased query |
| MenusPage.FilterIdempotent | src/app/dashboard/menus/page.js:89-92 | filtering the filtered list with the same query changes nothing |
| MenusPage.EstablishmentsCaption | src/app/dashboard/menus/page.js:228 | `establishment` gets an `s` exactly when the count is not 1 |
| DashboardLayout.TruthyClasses | src/components/dashboard/DashboardLayout.jsx:21 | the kept strings are exactly the non-empty class arguments, never more than the arguments |
| DashboardLayout.TruthyClassesAppend | src/components/dashboard/DashboardLayout.jsx:21 | `filter(Boolean)` of a concatenation is the concatenation of the filtered parts, so order and repetitions are kept |
| DashboardLayout.TruthyClassesOfOne | src/components/dashboard/DashboardLayout.jsx:21 | a single argument is kept exactly when it is a non-empty string |
| DashboardLayout.JoinAppend | src/components/dashboard/DashboardLayout.jsx:21 | `join(' ')` of two non-empty lists is their joins separated by one space |
| DashboardLayout.ClassNamesAppend | src/components/dashboard/DashboardLayout.jsx:20-22 | `classNames(...a, ...b)` is the result for `a` and the result for `b`, separated by one space when both keep something, for any class strings |
| DashboardLayout.ClassNamesOfOne | src/components/dashboard/DashboardLayout.jsx:20-22 | one argument gives its string when it is truthy and `''` otherwise |
| DashboardLayout.ClassNamesOfTwo | src/components/dashboard/DashboardLayout.jsx:74-79 | two non-empty class strings, spaces inside them included, give the first, one space, the second |
| DashboardLayout.ClassNames | src/components/dashboard/DashboardLayout.jsx:20-22 | `classNames`; stated by ClassNamesAppend, ClassNamesOfOne, ClassNamesOfTwo and AllFalsyGivesEmpty |
| DashboardLayout.AllFalsyGivesEmpty | src/components/dashboard/DashboardLayout.jsx:20-22 | with only falsy arguments the result is `''` |
| DashboardLayout.IsActive | src/components/dashboard/DashboardLayout.jsx:125 | `isActive`; stated by IsActiveMeaning |
| DashboardLayout.IsActiveMeaning | src/components/dashboard/DashboardLayout.jsx:125 | an item is active exactly when the pathname starts with its href at a segment boundary; the mobile list (line 69) applies the same rule |
| DashboardLayout.ActiveFlagsMeaning | src/components/dashboard/DashboardLayout.jsx:28-34 | one flag per navigation item, set exactly when the pathname starts with the item's href and the href is followed by nothing or by `/` |
| DashboardLayout.MenusXNotActiveButProtected | src/components/dashboard/DashboardLayout.jsx:31 | `/dashboard/menusX` does not highlight Menus, yet the route guard protects it |
| DashboardLayout.DashboardAndSectionBothActive | src/components/dashboard/DashboardLayout.jsx:28-34 | a page under `/dashboard/menus/` highlights both Dashboard and Menus |
| DashboardLayout.DashboardActiveBelowDashboard | src/components/dashboard/DashboardLayout.jsx:125 | every page below `/dashboard/` highlights Dashboard |
| Text.LowerChar | src/app/dashboard/establishments/page.js:81 | no upper-case ASCII letter is left, and a character is a lower-case letter afterwards exactly when it was a letter |
| Text.Lower | src/app/dashboard/establishments/page.js:81 | lower-casing keeps the length and leaves no upper-case ASCII letter |
| Text.Trim | src/components/menu/CategoryForm.jsx:13 | `trim` never lengthens; the result is empty exactly for all-whitespace input and otherwise has no whitespace at either end |
| Text.TrimIsInfix | src/components/menu/CategoryForm.jsx:14 | the trimmed string is a contiguous piece with only whitespace cut off |
| Text.TrimIdempotent | src/components/menu/CategoryForm.jsx:14 | trimming twice is trimming once |
| Text.IncludesIgnoringCaseFacts | src/app/dashboard/establishments/page.js:81-82 | lower-casing the query changes nothing, and the empty query is found in every string |
| Seqs.Filter | src/components/menu/MenuItemForm.jsx:34 | `filter` keeps exactly the elements that pass, each with its multiplicity |
| Seqs.FilterIsSubsequence | src/app/dashboard/menus/page.js:89 | `filter` keeps its elements in their order |

## Left out

- Session verification is left out. `getToken`, the JWT secret and the NextAuth
  session (`useSession`, `getServerSession`) are library calls. Each layer
  instead takes the session's role, or its status and user, as a parameter.
- URL building and encoding are left out. `new URL`, `encodeURI(request.url)`
  and `encodeURIComponent(window.location.href)` are represented by the
  already-encoded string, passed as a parameter.
- `NextResponse`, `redirect()` and `router.push` become returned values, not
  effects.
- The middleware's `/api/` branch clones headers and returns
  `NextResponse.next`. It is modelled as the same `Next`.
- `config.matcher` is framework configuration and is not modelled. The guard
  is modelled for every path. Its matcher `/dashboard/:path*`
  (src/middleware.js:106-111) does not send `/dashboardX` to the guard, so
  RouteGuard.DashboardXIsProtected is a fact about `isProtectedRoute` alone.
- RouteGuard.Compile: route keys hold no regular-expression metacharacters
  other than the bracketed parameters. The model treats every other
  character as a literal, which is what the four table keys need.
- Text.Lower: `toLowerCase` is modelled for ASCII letters only. Other
  characters are left as they are.
- Text.IsSpace: the JavaScript whitespace and line-terminator characters are
  modelled. Unicode normalisation is not.
- UseAuth.AllowedRoles: `permissions[action]` is modelled as a lookup in the
  four listed actions. Object prototype keys such as `toString` are not
  modelled. In JavaScript they would yield a non-array and make `includes`
  throw.
- Validations.Establishment: a required property is modelled as an optional
  string. A truthy non-string value, which would make `.trim()` throw, is not
  modelled.
- `isValidUrl` (`new URL`) and `JSON.parse` are not modelled. They are
  predicates passed to the validator as parameters.
- The zod wrapper `lib/validations.js` is not part of this model.
- MenuItemForm.InitialFormData: `x || d` equals `x` for present strings and
  booleans, because a present falsy value equals its default. A numeric price
  of `0` is not modelled: the price is the text of its input.
- MenuItemForm.MenuItemFormState.HandleChange is modelled for the three text
  inputs that use it (`name`, `description`, `price`). Inputs with other
  `name` attributes are not modelled.
- The submit handlers are not modelled. `handleSubmit` only passes
  `formData` to `onSubmit`, or prevents the default event.
- The simulated data loads in `useEffect` are not modelled. Neither is
  `formatDate`, which uses `Date` and locale formatting. The establishments
  page therefore starts with an empty list.
- `login` and `logout` of the auth hook are library calls and are not
  modelled.
- `EstablishmentForm.jsx` is not part of this model. Its field update follows
  the menu-item form's pattern, and its submit is navigation.
- The `sidebarOpen` state and the rest of the markup are UI only.
- EstablishmentsPage.EstablishmentsPageState.HandleDelete requires a chosen
  target. The Delete button only appears while the dialog is open, and the
  dialog is open only with a target (`Valid`). Calling it without a target
  would throw in the source, and that case is not modelled.
- MenuItemForm.ToggleTwicePresent states less than "toggling twice restores
  the list". That holds only for an absent id. For a present id the result
  has the same ids, moved to the end (`ToggleTwiceReorders`).
