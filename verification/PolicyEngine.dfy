/** The decision function: which policies a flat permission set satisfies, and
    which slug the decision names. */
module PolicyEngine {
  import opened Text

  datatype MatchStrategy = ANY | ALL

  datatype Policy = Policy(tenant: string, name: string, required: seq<string>,
                           strategy: MatchStrategy, contextVersion: string)

  datatype Decision = Decision(evaluatedPolicyVersion: int, evaluatedPrincipalVersion: int,
                               allowed: bool, reason: string)

  /** The access rule itself: a non-empty list of which some (ANY) or every (ALL)
      slug is held. */
  ghost predicate Allows(policy: Policy, held: set<string>) {
    policy.required != [] &&
    match policy.strategy
    case ANY => exists i :: 0 <= i < |policy.required| && policy.required[i] in held
    case ALL => forall i :: 0 <= i < |policy.required| ==> policy.required[i] in held
  }

  /** Position i holds the first slug whose membership in held equals wanted. */
  ghost predicate FirstAt(required: seq<string>, held: set<string>, wanted: bool, i: int) {
    0 <= i < |required| && (required[i] in held) == wanted &&
    forall j :: 0 <= j < i ==> (required[j] in held) != wanted
  }

  /** The reason a decision must carry: it names the first decider, except where
      nothing single decides. */
  ghost predicate Explains(policy: Policy, held: set<string>, reason: string) {
    if policy.required == [] then
      reason == "denied: policy has no required permissions configured"
    else if policy.strategy == ANY && Allows(policy, held) then
      exists i :: FirstAt(policy.required, held, true, i) && reason == "allowed: holds " + policy.required[i]
    else if policy.strategy == ANY then
      reason == "denied: holds none of [" + Join(policy.required, ", ") + "]"
    else if Allows(policy, held) then
      reason == "allowed: holds all required permissions"
    else
      exists i :: FirstAt(policy.required, held, false, i) && reason == "denied: missing " + policy.required[i]
  }

  method Evaluate(policy: Policy, permissions: set<string>, policyVersion: int, principalVersion: int)
    returns (d: Decision)
    ensures d.allowed <==> Allows(policy, permissions)
    ensures Explains(policy, permissions, d.reason)
    ensures d.evaluatedPolicyVersion == policyVersion && d.evaluatedPrincipalVersion == principalVersion
    ensures policy.required == [] ==>
              !d.allowed && d.reason == "denied: policy has no required permissions configured"
    ensures policy.required != [] && policy.strategy == ANY &&
            (forall s :: s in policy.required ==> s !in permissions) ==>
              !d.allowed && d.reason == "denied: holds none of [" + Join(policy.required, ", ") + "]"
    ensures policy.required != [] && policy.strategy == ALL &&
            (forall s :: s in policy.required ==> s in permissions) ==>
              d.allowed && d.reason == "allowed: holds all required permissions"
    ensures forall i :: 0 <= i < |policy.required| && policy.strategy == ANY && policy.required[i] in permissions &&
                        (forall j :: 0 <= j < i ==> policy.required[j] !in permissions) ==>
              d.allowed && d.reason == "allowed: holds " + policy.required[i]
    ensures forall i :: 0 <= i < |policy.required| && policy.strategy == ALL && policy.required[i] !in permissions &&
                        (forall j :: 0 <= j < i ==> policy.required[j] in permissions) ==>
              !d.allowed && d.reason == "denied: missing " + policy.required[i]
  {
    if |policy.required| == 0 {
      return Decision(policyVersion, principalVersion, false,
                      "denied: policy has no required permissions configured");
    }
    if policy.strategy == ANY {
      d := EvaluateAny(policy, permissions, policyVersion, principalVersion);
    } else {
      d := EvaluateAll(policy, permissions, policyVersion, principalVersion);
    }
  }

  method EvaluateAny(policy: Policy, permissions: set<string>, policyVersion: int, principalVersion: int)
    returns (d: Decision)
    requires policy.required != [] && policy.strategy == ANY
    ensures d.allowed <==> Allows(policy, permissions)
    ensures Explains(policy, permissions, d.reason)
    ensures d.evaluatedPolicyVersion == policyVersion && d.evaluatedPrincipalVersion == principalVersion
  {
    for i := 0 to |policy.required|
      invariant forall j :: 0 <= j < i ==> policy.required[j] !in permissions
    {
      if policy.required[i] in permissions {
        assert FirstAt(policy.required, permissions, true, i);
        return Decision(policyVersion, principalVersion, true, "allowed: holds " + policy.required[i]);
      }
    }
    d := Decision(policyVersion, principalVersion, false,
                  "denied: holds none of [" + Join(policy.required, ", ") + "]");
  }

  method EvaluateAll(policy: Policy, permissions: set<string>, policyVersion: int, principalVersion: int)
    returns (d: Decision)
    requires policy.required != [] && policy.strategy == ALL
    ensures d.allowed <==> Allows(policy, permissions)
    ensures Explains(policy, permissions, d.reason)
    ensures d.evaluatedPolicyVersion == policyVersion && d.evaluatedPrincipalVersion == principalVersion
  {
    for i := 0 to |policy.required|
      invariant forall j :: 0 <= j < i ==> policy.required[j] in permissions
    {
      if policy.required[i] !in permissions {
        assert FirstAt(policy.required, permissions, false, i);
        return Decision(policyVersion, principalVersion, false, "denied: missing " + policy.required[i]);
      }
    }
    d := Decision(policyVersion, principalVersion, true, "allowed: holds all required permissions");
  }

  /** Only one reason is right, so equal inputs give equal decisions. */
  lemma ReasonIsUnique(policy: Policy, held: set<string>, r1: string, r2: string)
    requires Explains(policy, held, r1) && Explains(policy, held, r2)
    ensures r1 == r2
  {
    forall w, i, j | FirstAt(policy.required, held, w, i) && FirstAt(policy.required, held, w, j)
      ensures i == j
    {
    }
  }

  /** Holding more never turns an allow into a deny. */
  lemma AllowsIsMonotone(policy: Policy, held: set<string>, more: set<string>)
    requires Allows(policy, held) && held <= more
    ensures Allows(policy, more)
  {
  }

  /** Neither the order nor the repetition of required slugs matters. */
  lemma AllowsIgnoresOrderAndRepeats(p: Policy, q: Policy, held: set<string>)
    requires p.strategy == q.strategy
    requires forall s :: s in p.required <==> s in q.required
    ensures Allows(p, held) <==> Allows(q, held)
  {
    AllowsTransfers(p, q, held);
    AllowsTransfers(q, p, held);
  }

  lemma AllowsTransfers(p: Policy, q: Policy, held: set<string>)
    requires p.strategy == q.strategy
    requires forall s :: s in p.required <==> s in q.required
    ensures Allows(p, held) ==> Allows(q, held)
  {
    if Allows(p, held) {
      assert p.required[0] in q.required;
      if p.strategy == ANY {
        var i :| 0 <= i < |p.required| && p.required[i] in held;
        assert p.required[i] in q.required;
      } else {
        forall j | 0 <= j < |q.required| ensures q.required[j] in held {
          assert q.required[j] in p.required;
        }
      }
    }
  }

  ghost function Missing(policy: Policy, held: set<string>): set<string> {
    set s | s in policy.required && s !in held
  }

  /** How many grants an operator makes who keeps granting exactly the slug the
      denial names, until the policy allows. */
  ghost function GrantsUntilAllowed(policy: Policy, held: set<string>): nat
    requires policy.required != [] && policy.strategy == ALL
    decreases |Missing(policy, held)|
  {
    if Allows(policy, held) then 0
    else
      var i := FirstMissing(policy.required, held);
      assert Missing(policy, held + {policy.required[i]}) ==
             Missing(policy, held) - {policy.required[i]};
      1 + GrantsUntilAllowed(policy, held + {policy.required[i]})
  }

  ghost function FirstMissing(required: seq<string>, held: set<string>): (i: nat)
    requires exists j :: 0 <= j < |required| && required[j] !in held
    ensures FirstAt(required, held, false, i)
  {
    if required[0] !in held then 0
    else
      var j :| 0 <= j < |required| && required[j] !in held;
      assert required[1..][j - 1] == required[j];
      var i := FirstMissing(required[1..], held);
      assert forall k :: 0 < k <= i + 1 ==> required[k] == required[1..][k - 1];
      i + 1
  }

  /** Following the denials repairs access in exactly as many grants as there are
      distinct missing slugs. */
  lemma {:induction false} RepairTakesOneGrantPerMissingSlug(policy: Policy, held: set<string>)
    requires policy.required != [] && policy.strategy == ALL
    ensures GrantsUntilAllowed(policy, held) == |Missing(policy, held)|
    decreases |Missing(policy, held)|
  {
    if Allows(policy, held) {
      assert Missing(policy, held) == {};
    } else {
      var slug := policy.required[FirstMissing(policy.required, held)];
      assert Missing(policy, held + {slug}) == Missing(policy, held) - {slug};
      RepairTakesOneGrantPerMissingSlug(policy, held + {slug});
    }
  }
}
