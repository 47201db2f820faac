/**
 * The user administration page, src/pages/admin/AdminUsers.jsx: the search filter
 * and how each role is shown.
 */
module AdminUsers {
  import opened Wrappers
  import opened Text
  import opened Lists

  /** A user as `/users` returns it; `username`, `email` and `roles` may be missing. */
  datatype User = User(id: int, username: Option<string>, email: Option<string>, roles: Option<seq<string>>)

  predicate UserMatches(u: User, search: string) {
    Mentions(u.username, Lower(search)) || Mentions(u.email, Lower(search))
  }

  function ByUser(search: string): User -> bool {
    u => UserMatches(u, search)
  }

  /** `filtered` (lines 24-27). */
  function FilteredUsers(users: seq<User>, search: string): (kept: seq<User>)
    ensures forall u :: u in kept <==> u in users && UserMatches(u, search)
  {
    Filter(users, ByUser(search))
  }

  /** The kept users are exactly the matching positions, in their original order. */
  lemma FilteredUsersPositions(users: seq<User>, search: string) returns (idx: seq<nat>)
    ensures SelectsFrom(FilteredUsers(users, search), users, idx)
    ensures forall i :: 0 <= i < |users| ==> (UserMatches(users[i], search) <==> i in idx)
  {
    idx := FilterPositions(users, ByUser(search));
  }

  /** A user with neither username nor email is never listed, whatever the search. */
  lemma NamelessUserHidden(users: seq<User>, search: string, u: User)
    requires u.username.None? && u.email.None?
    ensures u !in FilteredUsers(users, search)
  {
  }

  /** With an empty search every user having a username or an email is listed. */
  lemma EmptySearchListsNamedUsers(u: User)
    requires u.username.Some? || u.email.Some?
    ensures UserMatches(u, "")
  {
    if u.username.Some? {
      IncludesEmpty(Lower(u.username.value));
    } else {
      IncludesEmpty(Lower(u.email.value));
    }
  }

  /** The badge class of a role (line 77). */
  function RoleBadge(role: string): (badge: string)
    ensures badge == "admin" <==> Includes(role, "ADMIN")
    ensures badge == "user" <==> !Includes(role, "ADMIN")
  {
    if Includes(role, "ADMIN") then "admin" else "user"
  }

  /** The label of a role (line 79): its first `ROLE_` removed. */
  function RoleLabel(role: string): (text: string)
    ensures !Includes(role, "ROLE_") ==> text == role
    ensures Includes(role, "ROLE_") ==>
      exists i: nat :: OccursAt(role, "ROLE_", i) && (forall j: nat :: j < i ==> !OccursAt(role, "ROLE_", j))
                    && text == role[..i] + role[i + 5..]
  {
    ReplaceFirst(role, "ROLE_", "")
  }

  /** A role written `ROLE_<name>` is labelled `<name>`. */
  lemma PrefixedRoleLabel(name: string)
    ensures RoleLabel("ROLE_" + name) == name
  {
    ReplaceLeading("ROLE_", name);
  }

  /** Any role whose name contains `ADMIN`, such as `ROLE_ADMIN` or `ROLE_SUPERADMIN`, gets the admin badge. */
  lemma AdminNamedRoleBadge(prefix: string, suffix: string)
    ensures RoleBadge("ROLE_" + prefix + "ADMIN" + suffix) == "admin"
  {
    IncludesInfix("ROLE_" + prefix, "ADMIN", suffix);
  }
}
