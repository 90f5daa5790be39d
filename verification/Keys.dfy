/** The composite keys under which stacks, ports and jobs share one table. */
module Keys {
  import opened Types
  import opened Decimal

  datatype Key = Key(pk: string, sk: string)

  /** Whatever has an item of its own. */
  datatype Ref = StackRef(stackID: string) | PortRef(port: int) | JobRef(jobID: string)

  const META := "META"
  const PORTS := "PORTS"

  function KeyOf(ref: Ref): Key {
    match ref
    case StackRef(id) => Key("STACK#" + id, META)
    case PortRef(port) => Key(PORTS, "PORT#" + Itoa(port))
    case JobRef(id) => Key("JOB#" + id, META)
  }

  lemma PrefixCancels(prefix: string, a: string, b: string)
    requires prefix + a == prefix + b
    ensures a == b
  {
    assert (prefix + a)[|prefix|..] == a && (prefix + b)[|prefix|..] == b;
  }

  /** No two things share a key, be they of one kind or not, and whatever their IDs. */
  lemma KeyIsInjective(a: Ref, b: Ref)
    requires KeyOf(a) == KeyOf(b)
    ensures a == b
  {
    assert KeyOf(a).pk[0] == KeyOf(b).pk[0];
    match (a, b)
    case (StackRef(x), StackRef(y)) => PrefixCancels("STACK#", x, y);
    case (PortRef(x), PortRef(y)) =>
      PrefixCancels("PORT#", Itoa(x), Itoa(y));
      ItoaInjective(x, y);
    case (JobRef(x), JobRef(y)) => PrefixCancels("JOB#", x, y);
    case _ =>
  }

  lemma KeysDiffer(a: Ref, b: Ref)
    requires a != b
    ensures KeyOf(a) != KeyOf(b)
  {
    if KeyOf(a) == KeyOf(b) { KeyIsInjective(a, b); }
  }

  lemma KeysAreInjective()
    ensures forall a, b :: KeyOf(a) == KeyOf(b) ==> a == b
  {
    forall a, b | KeyOf(a) == KeyOf(b) ensures a == b {
      KeyIsInjective(a, b);
    }
  }
}
