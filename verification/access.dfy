/**
 The authorisation registry of access.py: a map from application name to the
 list of key ids it may use, loaded and saved whole like the key registry.
 Nothing here consults the key registry.
 */
module Access {

  type Permissions = map<string, seq<string>>

  /** A list without repeated key ids. */
  predicate Distinct(s: seq<string>) {
    forall i, j :: 0 <= i < j < |s| ==> s[i] != s[j]
  }

  /** Every application's list is duplicate-free. */
  predicate WellFormed(perms: Permissions) {
    forall app :: app in perms ==> Distinct(perms[app])
  }

  /** `check_access`: the pair is granted; an unknown application is simply not granted. */
  function CheckAccess(perms: Permissions, app: string, keyId: string): (granted: bool)
    ensures app !in perms ==> !granted
    ensures granted <==> app in perms && exists i :: 0 <= i < |perms[app]| && perms[app][i] == keyId
  {
    app in perms && keyId in perms[app]
  }

  /**
   `authorize_app`: gives `app` a list if it has none, and appends `keyId` to it
   unless it is already there.
   */
  function AuthorizeApp(perms: Permissions, app: string, keyId: string): (r: Permissions)
    ensures r.Keys == perms.Keys + {app}
    ensures app !in perms ==> r[app] == [keyId]
    ensures app in perms && keyId !in perms[app] ==> r[app] == perms[app] + [keyId]
    ensures app in perms && keyId in perms[app] ==> r == perms
    ensures forall other :: other in perms && other != app ==> r[other] == perms[other]
    ensures WellFormed(perms) ==> WellFormed(r)
  {
    var current := if app in perms then perms[app] else [];
    if keyId in current then perms[app := current]
    else perms[app := current + [keyId]]
  }

  /** Authorising exactly grants the one pair: access afterwards is access before, or that pair. */
  lemma AuthorizeGrantsExactly(perms: Permissions, app: string, keyId: string, a: string, k: string)
    ensures CheckAccess(AuthorizeApp(perms, app, keyId), a, k) <==> CheckAccess(perms, a, k) || (a == app && k == keyId)
  {
  }

  /** An application with no entry has access to nothing; this is a negative answer, not a failure. */
  lemma UnknownAppDenied(perms: Permissions, app: string, keyId: string)
    requires app !in perms
    ensures !CheckAccess(perms, app, keyId)
    ensures CheckAccess(AuthorizeApp(perms, app, keyId), app, keyId)
  {
  }

  /** A second identical authorisation changes nothing. */
  lemma AuthorizeIdempotent(perms: Permissions, app: string, keyId: string)
    ensures AuthorizeApp(AuthorizeApp(perms, app, keyId), app, keyId) == AuthorizeApp(perms, app, keyId)
  {
  }

  /** Authorising never removes a grant, whether or not the key exists anywhere. */
  lemma AuthorizeMonotone(perms: Permissions, app: string, keyId: string)
    ensures forall a, k :: CheckAccess(perms, a, k) ==> CheckAccess(AuthorizeApp(perms, app, keyId), a, k)
  {
  }

  /** Authorising keeps every earlier entry of the application's list, in order, at the front. */
  lemma AuthorizePreservesOrder(perms: Permissions, app: string, keyId: string)
    requires app in perms
    ensures var r := AuthorizeApp(perms, app, keyId);
      |perms[app]| <= |r[app]| <= |perms[app]| + 1 && r[app][..|perms[app]|] == perms[app]
  {
  }
}
