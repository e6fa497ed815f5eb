/** `IsAdminModeratorOwnerOrReadOnly`: reading is open to everyone, writing needs a
    logged-in user, and changing a recipe needs its author, a moderator or an
    administrator. */
module Permissions {
  import opened Users
  import opened Models

  /** The framework's `SAFE_METHODS`. */
  predicate SafeMethod(verb: string) {
    verb == "GET" || verb == "HEAD" || verb == "OPTIONS"
  }

  /** `has_permission`, inherited from `IsAuthenticatedOrReadOnly`. */
  predicate HasPermission(verb: string, requester: Requester) {
    SafeMethod(verb) || requester.Authenticated?
  }

  /** `has_object_permission`. The framework only asks it after `has_permission`
      allowed the request, so an unsafe request here always has a logged-in user. */
  predicate HasObjectPermission(verb: string, requester: Requester, recipe: Recipe)
    requires HasPermission(verb, requester)
  {
    || SafeMethod(verb)
    || requester.user.id == recipe.author
    || IsModerator(requester.user)
    || IsAdmin(requester.user)
  }

  /** Both checks, in the order the framework runs them for a request on one recipe. */
  predicate MayAccess(verb: string, requester: Requester, recipe: Recipe) {
    HasPermission(verb, requester) && HasObjectPermission(verb, requester, recipe)
  }

  /** Reading a recipe is always allowed. */
  lemma SafeMethodsAlwaysAllowed(verb: string, requester: Requester, recipe: Recipe)
    requires SafeMethod(verb)
    ensures MayAccess(verb, requester, recipe)
  {
  }

  /** An unsafe request on a recipe is allowed exactly when a logged-in user sends it
      who is the recipe's author, a staff user (moderator) or a superuser (admin). */
  lemma UnsafeNeedsEditor(verb: string, requester: Requester, recipe: Recipe)
    requires !SafeMethod(verb)
    ensures MayAccess(verb, requester, recipe) <==>
      && requester.Authenticated?
      && (requester.user.id == recipe.author || requester.user.isStaff || requester.user.isSuperuser)
  {
  }

  /** PATCH and DELETE: denied to an anonymous caller and to a logged-in user who is
      neither the author nor staff nor superuser; allowed to the author, to a moderator
      and to an administrator. */
  lemma EditorsOnly(requester: Requester, recipe: Recipe)
    ensures !MayAccess("PATCH", Anonymous, recipe) && !MayAccess("DELETE", Anonymous, recipe)
    ensures requester.Authenticated? && requester.user.id != recipe.author
            && !requester.user.isStaff && !requester.user.isSuperuser
            ==> !MayAccess("PATCH", requester, recipe) && !MayAccess("DELETE", requester, recipe)
    ensures requester.Authenticated? && (requester.user.id == recipe.author || requester.user.isStaff
                                         || requester.user.isSuperuser)
            ==> MayAccess("PATCH", requester, recipe) && MayAccess("DELETE", requester, recipe)
  {
  }

  /** Writing anything (POST included) needs a logged-in user. */
  lemma WritesNeedLogin(verb: string)
    requires !SafeMethod(verb)
    ensures !HasPermission(verb, Anonymous)
  {
  }
}
