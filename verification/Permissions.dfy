/** Permission checks and the two flags they leave behind. */
module Permissions {
  import opened Basics

  type Permission = nat

  datatype Verdict = Allowed | NotAuthenticated | Denied

  datatype Flags = Flags(didCheck: bool, failed: bool)

  /** What `validate` answers and how it leaves the flags. */
  function Checked(f: Flags, permissions: Option<set<Permission>>, required: seq<Permission>): (Verdict, Flags) {
    if f.didCheck then (Allowed, f)
    else if permissions.None? then (NotAuthenticated, f.(failed := true))
    else if forall p | p in required :: p in permissions.value then (Allowed, f)
    else (Denied, f.(failed := true))
  }

  /** Once one of them is set, a check changes neither. */
  lemma Sticks(f: Flags, permissions: Option<set<Permission>>, required: seq<Permission>)
    ensures f.didCheck || f.failed ==> Checked(f, permissions, required).1 == f
  {
  }

  ghost predicate HasAll(permissions: Option<set<Permission>>, required: seq<Permission>) {
    permissions.Some? && forall p | p in required :: p in permissions.value
  }

  /** What a check answers: allowed when checked before or when every key is there, and otherwise a failure for good. */
  lemma CheckAnswers(f: Flags, permissions: Option<set<Permission>>, required: seq<Permission>)
    ensures var (verdict, f') := Checked(f, permissions, required);
      && (verdict == Allowed <==> f.didCheck || HasAll(permissions, required))
      && (verdict == NotAuthenticated <==> !f.didCheck && permissions.None?)
      && (verdict == Denied <==> !f.didCheck && permissions.Some? && exists p :: p in required && p !in permissions.value)
      && (f'.failed <==> f.failed || verdict != Allowed) && f'.didCheck == f.didCheck
  {
  }
}
