/**
 * `hasAccess` (lib/auth.ts): whether the user stored in the browser may
 * see a page that is admin-only or needs some permission.
 *
 * The stored text (`localStorage.getItem("user")`) is a parameter and
 * `JSON.parse` is a parameter `parse` returning `None` where the real one
 * throws. The result is `None` where `hasAccess` throws: a parse error,
 * a stored `null` (reading `role` of `null`), or user permissions that
 * are neither a list nor a string and so have no `includes`.
 */
module Auth {
  import opened Wrappers
  import opened Js

  predicate IsSubstring(p: string, s: string)
  {
    exists i :: 0 <= i <= |s| && p <= s[i..]
  }

  /** `userPermissions.includes(p)` for a list or a string; `None` when
      there is no `includes` to call. */
  function Includes(userPermissions: Json, p: string): Option<bool>
  {
    match userPermissions
    case JArr(xs) => Some(JStr(p) in xs)
    case JStr(s) => Some(IsSubstring(p, s))
    case _ => None
  }

  /** `required.some((p) => user.permissions?.includes(p))`, stopping at
      the first hit; `None` when the first call throws. */
  function SomeIncluded(required: seq<string>, userPermissions: Option<Json>): (r: Option<bool>)
  {
    if |required| == 0 then Some(false)
    else if Nullish(userPermissions) then SomeIncluded(required[1..], userPermissions)
    else match Includes(userPermissions.value, required[0])
      case None => None
      case Some(true) => Some(true)
      case Some(false) => SomeIncluded(required[1..], userPermissions)
  }

  /** `hasAccess(adminOnly, permissions)`. */
  function HasAccess(adminOnly: bool, permissions: seq<string>, stored: Option<string>,
                     parse: string -> Option<Json>): (r: Option<bool>)
  {
    var text := if stored.None? || stored.value == "" then "{}" else stored.value;
    var user := parse(text);
    if user.None? || user.value == JNull then None
    else if StrictEq(Get(user, "role"), Some(JStr("admin"))) then Some(true)
    else if adminOnly then Some(false)
    else if |permissions| == 0 then Some(true)
    else SomeIncluded(permissions, Get(user, "permissions"))
  }

  /** The user `hasAccess` reads, when the stored text parses to an
      object. */
  predicate StoredUser(stored: Option<string>, parse: string -> Option<Json>, user: map<string, Json>)
  {
    parse(if stored.None? || stored.value == "" then "{}" else stored.value) == Some(JObj(user))
  }

  /** An admin is let in whatever the page asks; anyone else is kept out
      of admin-only pages and let into pages that need no permission. */
  lemma AccessOrder(adminOnly: bool, permissions: seq<string>, stored: Option<string>,
                    parse: string -> Option<Json>, user: map<string, Json>)
    requires StoredUser(stored, parse, user)
    ensures Field(user, "role") == Some(JStr("admin")) ==> HasAccess(adminOnly, permissions, stored, parse) == Some(true)
    ensures Field(user, "role") != Some(JStr("admin")) && adminOnly ==>
      HasAccess(adminOnly, permissions, stored, parse) == Some(false)
    ensures Field(user, "role") != Some(JStr("admin")) && !adminOnly && |permissions| == 0 ==>
      HasAccess(adminOnly, permissions, stored, parse) == Some(true)
  {
  }

  /** With a permission list, the chained calls grant access exactly when
      some required permission is in the list. */
  lemma {:induction false} SomeIncludedList(required: seq<string>, xs: seq<Json>)
    ensures SomeIncluded(required, Some(JArr(xs))) == Some(exists i :: 0 <= i < |required| && JStr(required[i]) in xs)
  {
    if |required| > 0 {
      SomeIncludedList(required[1..], xs);
      if JStr(required[0]) !in xs {
        assert forall i :: 1 <= i < |required| ==> required[i] == required[1..][i - 1];
        if exists i :: 0 <= i < |required| && JStr(required[i]) in xs {
          var i :| 0 <= i < |required| && JStr(required[i]) in xs;
          assert JStr(required[1..][i - 1]) in xs;
        }
      }
    }
  }

  /** With a permission string, access needs some required permission
      to occur in it as a substring: "orders" is found in
      "manage-orders". */
  lemma {:induction false} SomeIncludedString(required: seq<string>, s: string)
    ensures SomeIncluded(required, Some(JStr(s))) == Some(exists i :: 0 <= i < |required| && IsSubstring(required[i], s))
  {
    if |required| > 0 {
      SomeIncludedString(required[1..], s);
      if !IsSubstring(required[0], s) {
        assert forall i :: 1 <= i < |required| ==> required[i] == required[1..][i - 1];
        if exists i :: 0 <= i < |required| && IsSubstring(required[i], s) {
          var i :| 0 <= i < |required| && IsSubstring(required[i], s);
          assert IsSubstring(required[1..][i - 1], s);
        }
      }
    }
  }

  /** Users without permissions are kept out of every page that needs
      one; permissions of another kind make the check throw. */
  lemma {:induction false} SomeIncludedOtherwise(required: seq<string>, up: Option<Json>)
    requires |required| > 0
    ensures Nullish(up) ==> SomeIncluded(required, up) == Some(false)
    ensures !Nullish(up) && !up.value.JArr? && !up.value.JStr? ==> SomeIncluded(required, up) == None
  {
    if Nullish(up) && |required| > 1 {
      SomeIncludedOtherwise(required[1..], up);
    }
  }

  /** For a non-admin on a page that is not admin-only and needs some
      permission, access is granted exactly when one of the required
      permissions is in the user's list. */
  lemma PermissionAccess(permissions: seq<string>, stored: Option<string>, parse: string -> Option<Json>,
                         user: map<string, Json>, xs: seq<Json>)
    requires StoredUser(stored, parse, user)
    requires Field(user, "role") != Some(JStr("admin")) && |permissions| > 0
    requires Field(user, "permissions") == Some(JArr(xs))
    ensures HasAccess(false, permissions, stored, parse) ==
      Some(exists i :: 0 <= i < |permissions| && JStr(permissions[i]) in xs)
  {
    SomeIncludedList(permissions, xs);
  }

  /** A stored `null` makes `hasAccess` throw, while nothing stored reads
      as a user without role or permissions. */
  lemma NullUserThrows(adminOnly: bool, permissions: seq<string>, parse: string -> Option<Json>)
    requires parse("null") == Some(JNull) && parse("{}") == Some(JObj(map[]))
    ensures HasAccess(adminOnly, permissions, Some("null"), parse) == None
    ensures HasAccess(adminOnly, permissions, None, parse) == Some(!adminOnly && |permissions| == 0)
  {
    if !adminOnly && |permissions| > 0 {
      SomeIncludedOtherwise(permissions, None);
    }
  }
}
