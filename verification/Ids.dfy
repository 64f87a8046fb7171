/** The idempotency key sent to the provider, and the reference of a held-out case. */
module Ids {
  import opened Text

  function ReferenceId(caseId: string, attemptNo: nat): string {
    Lower("rvp_" + caseId + "_" + Decimal(attemptNo))
  }

  function ObservedReferenceId(caseId: string): string {
    Lower("rvpo_" + caseId)
  }

  lemma ReferenceIdShape(caseId: string, n: nat)
    ensures ReferenceId(caseId, n) == "rvp_" + Lower(caseId) + "_" + Decimal(n)
  {
  }

  /** Text before and after the last underscore is fixed by the whole: digits hold no underscore. */
  lemma {:induction false} LastUnderscoreSplits(a: string, m: string, b: string, n: string)
    requires a + "_" + m == b + "_" + n
    requires forall i :: 0 <= i < |m| ==> IsDigit(m[i])
    requires forall i :: 0 <= i < |n| ==> IsDigit(n[i])
    ensures a == b && m == n
  {
    var s, t := a + "_" + m, b + "_" + n;
    assert s[|a|] == '_' && t[|b|] == '_';
    assert forall i :: |a| < i < |s| ==> s[i] == m[i - |a| - 1];
    assert forall i :: |b| < i < |t| ==> t[i] == n[i - |b| - 1];
    assert |a| == |b|;
    assert s[..|a|] == a && t[..|b|] == b;
    assert s[|a| + 1..] == m && t[|b| + 1..] == n;
  }

  /** Two keys coincide exactly when the attempt does and the case ids agree up to letter case. */
  lemma ReferenceIdInjective(c1: string, n1: nat, c2: string, n2: nat)
    ensures ReferenceId(c1, n1) == ReferenceId(c2, n2) <==> Lower(c1) == Lower(c2) && n1 == n2
  {
    ReferenceIdShape(c1, n1);
    ReferenceIdShape(c2, n2);
    if ReferenceId(c1, n1) == ReferenceId(c2, n2) {
      LastUnderscoreSplits("rvp_" + Lower(c1), Decimal(n1), "rvp_" + Lower(c2), Decimal(n2));
      assert ("rvp_" + Lower(c1))[4..] == Lower(c1);
      assert ("rvp_" + Lower(c2))[4..] == Lower(c2);
      DecimalInjective(n1, n2);
    }
  }

  /** No issued key is ever the reference of a held-out case, whatever the two cases are. */
  lemma NamespacesDisjoint(c1: string, n: nat, c2: string)
    ensures ReferenceId(c1, n) != ObservedReferenceId(c2)
  {
    ReferenceIdShape(c1, n);
    assert ReferenceId(c1, n)[3] == '_';
    assert ObservedReferenceId(c2)[3] == LowerChar(("rvpo_" + c2)[3]) == 'o';
  }

  /** A key is already in the form both uniqueness domains compare: trimmed and lower-case. */
  lemma ReferenceIdCanonical(caseId: string, n: nat)
    ensures Lower(ReferenceId(caseId, n)) == ReferenceId(caseId, n)
    ensures Strip(ReferenceId(caseId, n)) == ReferenceId(caseId, n)
  {
  }

}
