/** The names `Create` gives to cluster objects tell stacks and attempts apart. */
module Names {
  import opened Types
  import opened Kubernetes
  import opened Worlds
  import opened Decimal

  /** The pod of an attempt: the first is called like the stack. */
  function RetryName(stackID: string, attempt: nat): string {
    if attempt == 0 then stackID else stackID + "-retry-" + Itoa(attempt)
  }

  /** An ID as the service makes it: the prefix, then random hex digits or a decimal time. */
  predicate Generated(id: string) {
    |id| > 6 && id[..6] == "stack-" && '-' !in id[6..]
  }

  /** After the prefix, the first hyphen of a retry name ends the ID. */
  lemma HyphenEndsID(id: string, i: nat)
    requires Generated(id)
    ensures |RetryName(id, i)| >= |id| && RetryName(id, i)[..|id|] == id
    ensures i > 0 ==> |RetryName(id, i)| > |id| + 7 && RetryName(id, i)[|id|] == '-' && RetryName(id, i)[|id| + 7..] == Itoa(i)
    ensures forall p :: 6 <= p < |id| ==> RetryName(id, i)[p] != '-'
  {
    assert forall p :: 6 <= p < |id| ==> id[p] == id[6..][p - 6];
    if i > 0 { DigitsDenote(i); }
  }

  /** The pod of one attempt is called like no pod of another stack or attempt. */
  lemma PodNamesDiffer(a: string, i: nat, b: string, j: nat)
    requires Generated(a) && Generated(b) && RetryName(a, i) == RetryName(b, j)
    ensures a == b && i == j
  {
    HyphenEndsID(a, i);
    HyphenEndsID(b, j);
    assert |a| == |b|;
    if i > 0 && j > 0 { ItoaInjective(i, j); }
  }

  /** Every record carries the names its own `Create` gave it. */
  ghost predicate Named(namespace: string, stacks: map<string, Stack>) {
    forall id :: id in stacks ==>
      && Generated(id) && stacks[id].namespace == namespace
      && (stacks[id].podID == RetryName(id, 0) || stacks[id].podID == RetryName(id, 1))
      && stacks[id].serviceName == ServiceName(id)
  }

  /** No two stacks share a pod or a service name. */
  lemma NamedIsWellNamed(namespace: string, w: World)
    requires Named(namespace, w.stacks)
    ensures WellNamed(namespace, w)
  {
    forall a, b | a in w.stacks && b in w.stacks && a != b
      ensures w.stacks[a].podID != w.stacks[b].podID && w.stacks[a].serviceName != w.stacks[b].serviceName
    {
      var i := if w.stacks[a].podID == RetryName(a, 0) then 0 else 1;
      var j := if w.stacks[b].podID == RetryName(b, 0) then 0 else 1;
      if RetryName(a, i) == RetryName(b, j) { PodNamesDiffer(a, i, b, j); }
      assert ServiceName(a)[4..] == a && ServiceName(b)[4..] == b;
    }
  }

  /** A new record named by its attempt keeps every record so named. */
  lemma NewKeepsNames(namespace: string, stacks: map<string, Stack>, id: string, st: Stack, attempt: nat)
    requires Named(namespace, stacks) && Generated(id) && attempt < 2
    requires st.namespace == namespace && st.podID == RetryName(id, attempt) && st.serviceName == ServiceName(id)
    ensures Named(namespace, stacks[id := st])
  {
    assert attempt == 0 || attempt == 1;
  }

  /** Refreshing and removing records does too. */
  lemma RemainingKeepNames(namespace: string, stacks: map<string, Stack>, stacks': map<string, Stack>)
    requires Named(namespace, stacks) && stacks'.Keys <= stacks.Keys
    requires forall id :: id in stacks' ==> SameStack(stacks[id], stacks'[id])
    ensures Named(namespace, stacks')
  {
    forall id | id in stacks'
      ensures stacks'[id].namespace == stacks[id].namespace && stacks'[id].podID == stacks[id].podID && stacks'[id].serviceName == stacks[id].serviceName
    {
      assert SameStack(stacks[id], stacks'[id]);
    }
  }
}
