/** The registry of send errors (kafka-errors.ts): which failures are worth sending again. */
module KafkaErrors {
  import opened Wrappers

  datatype Kind = NotConnected | QueueFull | Unavailable | NotProvisioned | Fatal | Rejected | Unknown

  datatype Spec = Spec(kind: Kind, retryable: bool, codes: set<int>)

  /** The registry, in declaration order. */
  const REGISTRY: seq<Spec> := [
    Spec(NotConnected, true, {}),
    Spec(QueueFull, true, {-184}),
    Spec(Unavailable, true, {-192, -185, 7, -195, -187, 5, 6, 13, 19, 20, 56, 89}),
    Spec(NotProvisioned, true, {3, -188, -190, 29, 31, -169}),
    Spec(Fatal, true, {-150}),
    Spec(Rejected, false, {10, 18, 2, 87, 44, -199, 17}),
    Spec(Unknown, true, {})
  ]

  /** The lookup map: of two entries for one code the later wins, as in `new Map(pairs)`. */
  function KindByCode(registry: seq<Spec>, code: int): Option<Kind> {
    if registry == [] then None
    else if code in registry[|registry| - 1].codes then Some(registry[|registry| - 1].kind)
    else KindByCode(registry[..|registry| - 1], code)
  }

  function SpecOf(kind: Kind): (spec: Spec)
    ensures spec in REGISTRY && spec.kind == kind
  {
    match kind
    case NotConnected => REGISTRY[0]
    case QueueFull => REGISTRY[1]
    case Unavailable => REGISTRY[2]
    case NotProvisioned => REGISTRY[3]
    case Fatal => REGISTRY[4]
    case Rejected => REGISTRY[5]
    case Unknown => REGISTRY[6]
  }

  /** What a send can throw: an error of ours, or whatever the client library threw. */
  datatype Thrown = SendError(kind: Kind) | ClientError(code: Option<int>, fatal: bool)

  function ToKafkaSendError(err: Thrown): Kind {
    match err
    case SendError(kind) => kind
    case ClientError(code, fatal) =>
      if fatal then Fatal
      else if code.None? then Unknown
      else
        var kind := KindByCode(REGISTRY, code.value);
        if kind.Some? then kind.value else Unknown
  }

  predicate Retryable(err: Thrown) {
    SpecOf(ToKafkaSendError(err)).retryable
  }

  lemma {:induction false} KindByCodeFinds(registry: seq<Spec>, code: int)
    ensures var kind := KindByCode(registry, code);
      if kind.Some? then exists spec :: spec in registry && code in spec.codes && spec.kind == kind.value
      else forall spec :: spec in registry ==> code !in spec.codes
    decreases |registry|
  {
    if registry != [] {
      var n := |registry| - 1;
      assert registry == registry[..n] + [registry[n]];
      KindByCodeFinds(registry[..n], code);
    }
  }

  /** No code stands under two kinds, so the map loses none of them. */
  lemma CodesAreDisjoint(code: int, spec: Spec)
    requires spec in REGISTRY && code in spec.codes
    ensures KindByCode(REGISTRY, code) == Some(spec.kind)
  {
    KindByCodeFinds(REGISTRY, code);
    var i :| 0 <= i < 7 && REGISTRY[i] == spec;
    var j :| 0 <= j < 7 && code in REGISTRY[j].codes && Some(REGISTRY[j].kind) == KindByCode(REGISTRY, code);
    OneKindPerCode(i, j, code);
  }

  lemma OneKindPerCode(i: int, j: int, code: int)
    requires 0 <= i < 7 && 0 <= j < 7 && code in REGISTRY[i].codes && code in REGISTRY[j].codes
    ensures i == j
  {
    assert i in {1, 2, 3, 4, 5};
  }

  /** What the broker refuses for the record's own sake: too large, corrupt, an invalid topic and the like. */
  predicate RecordAtFault(err: Thrown) {
    match err
    case SendError(kind) => kind == Rejected
    case ClientError(code, fatal) => !fatal && code.Some? && code.value in {10, 18, 2, 87, 44, -199, 17}
  }

  /** Only a record the broker refuses for its own sake is poison: everything else, the unknown
      included, is kept and sent again. A fatal client error wins over its code. */
  lemma PoisonExactlyWhenRejected(err: Thrown)
    ensures !Retryable(err) <==> RecordAtFault(err)
  {
    if err.ClientError? && !err.fatal && err.code.Some? {
      var code := err.code.value;
      KindByCodeFinds(REGISTRY, code);
      if code in REGISTRY[5].codes {
        CodesAreDisjoint(code, REGISTRY[5]);
      }
    }
  }
}
