// store/api/permissions.py: IsAdminOrReadOnly, the permission of the product,
// product-group and type viewsets.

module Permissions {

  datatype HttpMethod = Get | Head | Options | Post | Put | Patch | Delete

  /** rest_framework.permissions.SAFE_METHODS */
  const SafeMethods: set<HttpMethod> := {Get, Head, Options}

  /** The requesting user: anonymous, or an account that may be a superuser. */
  datatype Requester = Anonymous | Account(isSuperuser: bool)

  datatype Request = Request(verb: HttpMethod, user: Requester)

  /** `request.user.is_superuser`; the anonymous user is never one. */
  predicate IsSuperuser(u: Requester)
  {
    u.Account? && u.isSuperuser
  }

  /**
   * IsAdminOrReadOnly.has_permission: anyone may read, only a superuser may
   * write. The view plays no part.
   */
  function HasPermission<View>(request: Request, view: View): (r: bool)
    ensures request.verb in {Get, Head, Options} ==> r
    ensures request.verb in {Post, Put, Patch, Delete} ==> (r <==> request.user.Account? && request.user.isSuperuser)
    ensures request.user == Anonymous ==> (r <==> request.verb in {Get, Head, Options})
  {
    request.verb in SafeMethods || IsSuperuser(request.user)
  }

  /**
   * IsAdminOrReadOnly.has_object_permission: the same rule for a single object,
   * whatever the object and the view.
   */
  function HasObjectPermission<View, Obj>(request: Request, view: View, obj: Obj): (r: bool)
    ensures r == HasPermission(request, view)
    ensures request.verb in {Get, Head, Options} ==> r
    ensures request.verb in {Post, Put, Patch, Delete} ==> (r <==> request.user.Account? && request.user.isSuperuser)
  {
    request.verb in SafeMethods || IsSuperuser(request.user)
  }

  /** Whoever passes the object check for one object passes it for every other. */
  lemma ObjectPermissionIgnoresObject<View, Obj>(request: Request, view: View, a: Obj, b: Obj)
    ensures HasObjectPermission(request, view, a) == HasObjectPermission(request, view, b)
  {
    assert HasObjectPermission(request, view, a) == HasPermission(request, view);
  }
}
