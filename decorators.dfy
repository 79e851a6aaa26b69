/** The two access guards wrapped around the clinic's views: `role_required`
    admits one role, `roles_required` any of several. Each first sends an
    anonymous requester to the login page, then redirects a logged-in user
    whose role is not admitted to the dashboard with a message, and otherwise
    lets the view run. */
module Decorators {
  import opened Models

  /** The requester: anonymous, or a logged-in staff member with an id and a role. */
  datatype Actor = Anonymous | LoggedIn(id: int, funcao: Role)

  /** What a guard decides. `Denied` carries the admitted roles and the text
      flashed to the user before the redirect to the dashboard. */
  datatype Verdict = Proceed | Unauthenticated | Denied(allowed: seq<Role>, message: string)

  /** `t` occurs in `s` starting at index `i`. */
  ghost predicate OccursAt(s: string, t: string, i: int) {
    0 <= i <= |s| - |t| && s[i..i + |t|] == t
  }

  /** `t` occurs in `s` as a contiguous piece. */
  ghost predicate Contains(s: string, t: string) {
    exists i :: OccursAt(s, t, i)
  }

  /** `', '.join(roles)` over the role names. */
  function JoinNames(roles: seq<Role>): (s: string)
    ensures |roles| > 0 ==> |s| > 0
  {
    if |roles| == 0 then ""
    else if |roles| == 1 then RoleName(roles[0])
    else RoleName(roles[0]) + ", " + JoinNames(roles[1..])
  }

  function RoleDeniedMessage(role: Role): (message: string) {
    "Acesso negado. Apenas usuários com a função '" + RoleName(role) + "' podem acessar esta página."
  }

  function RolesDeniedMessage(roles: seq<Role>): (message: string) {
    "Acesso negado. Apenas usuários com as funções " + JoinNames(roles) + " podem acessar esta página."
  }

  /** `role_required(role)`: login first, then the single admitted role. */
  function RoleRequired(role: Role, actor: Actor): (v: Verdict)
    ensures actor.Anonymous? ==> v == Unauthenticated
    ensures v == Proceed <==> actor.LoggedIn? && actor.funcao == role
    ensures v.Denied? <==> actor.LoggedIn? && actor.funcao != role
    ensures v.Denied? ==> v.allowed == [role] && Contains(v.message, RoleName(role))
  {
    if actor.Anonymous? then Unauthenticated
    else if actor.funcao != role then
      NamesRoleInMessage(role);
      Denied([role], RoleDeniedMessage(role))
    else Proceed
  }

  /** `roles_required(*roles)`: login first, then membership in `roles`. */
  function RolesRequired(roles: seq<Role>, actor: Actor): (v: Verdict)
    ensures actor.Anonymous? ==> v == Unauthenticated
    ensures v == Proceed <==> actor.LoggedIn? && actor.funcao in roles
    ensures v.Denied? <==> actor.LoggedIn? && actor.funcao !in roles
    ensures v.Denied? ==> v.allowed == roles
    ensures v.Denied? ==> forall k :: 0 <= k < |roles| ==> Contains(v.message, RoleName(roles[k]))
  {
    if actor.Anonymous? then Unauthenticated
    else if actor.funcao !in roles then
      forall k | 0 <= k < |roles| ensures Contains(RolesDeniedMessage(roles), RoleName(roles[k])) {
        NamesRolesInMessage(roles, k);
      }
      Denied(roles, RolesDeniedMessage(roles))
    else Proceed
  }

  lemma ContainsInfix(a: string, t: string, b: string, x: string)
    requires Contains(t, x)
    ensures Contains(a + t + b, x)
  {
    var i :| OccursAt(t, x, i);
    var s := a + t + b;
    assert s[|a| + i..|a| + i + |x|] == t[i..i + |x|];
    assert OccursAt(s, x, |a| + i);
  }

  lemma ContainsSelf(x: string)
    ensures Contains(x, x)
  {
    assert x[0..|x|] == x;
    assert OccursAt(x, x, 0);
  }

  /** Every admitted role's name appears in the joined list. */
  lemma {:induction false} JoinNamesMentions(roles: seq<Role>, k: int)
    requires 0 <= k < |roles|
    ensures Contains(JoinNames(roles), RoleName(roles[k]))
  {
    if |roles| == 1 {
      ContainsSelf(RoleName(roles[0]));
    } else if k == 0 {
      ContainsSelf(RoleName(roles[0]));
      ContainsInfix("", RoleName(roles[0]), ", " + JoinNames(roles[1..]), RoleName(roles[0]));
      assert "" + RoleName(roles[0]) + (", " + JoinNames(roles[1..])) == JoinNames(roles);
    } else {
      JoinNamesMentions(roles[1..], k - 1);
      assert roles[1..][k - 1] == roles[k];
      ContainsInfix(RoleName(roles[0]) + ", ", JoinNames(roles[1..]), "", RoleName(roles[k]));
      assert RoleName(roles[0]) + ", " + JoinNames(roles[1..]) + "" == JoinNames(roles);
    }
  }

  lemma NamesRoleInMessage(role: Role)
    ensures Contains(RoleDeniedMessage(role), RoleName(role))
  {
    ContainsSelf(RoleName(role));
    ContainsInfix("Acesso negado. Apenas usuários com a função '", RoleName(role),
                  "' podem acessar esta página.", RoleName(role));
  }

  lemma NamesRolesInMessage(roles: seq<Role>, k: int)
    requires 0 <= k < |roles|
    ensures Contains(RolesDeniedMessage(roles), RoleName(roles[k]))
  {
    JoinNamesMentions(roles, k);
    ContainsInfix("Acesso negado. Apenas usuários com as funções ", JoinNames(roles),
                  " podem acessar esta página.", RoleName(roles[k]));
  }

  /** With one admitted role the joined list is just that role's name. */
  lemma JoinSingle(r: Role)
    ensures JoinNames([r]) == RoleName(r)
  {
  }

  /** `roles_required(r)` and `role_required(r)` reach the same decision for
      every requester and admit the same roles; only the wording of the
      denial differs ("a função 'r'" against "as funções r"). */
  lemma SingleRoleSameDecision(r: Role, actor: Actor)
    ensures RolesRequired([r], actor).Proceed? == RoleRequired(r, actor).Proceed?
    ensures RolesRequired([r], actor).Unauthenticated? == RoleRequired(r, actor).Unauthenticated?
    ensures RolesRequired([r], actor).Denied? == RoleRequired(r, actor).Denied?
    ensures RoleRequired(r, actor).Denied? ==>
      RolesRequired([r], actor).allowed == RoleRequired(r, actor).allowed
      && RolesRequired([r], actor).message != RoleRequired(r, actor).message
  {
    if actor.LoggedIn? && actor.funcao != r {
      assert RoleDeniedMessage(r)[36] == ' ';
      assert RolesDeniedMessage([r])[36] == 's';
    }
  }
}
