/** The store behind idempotency keys (idempotency.store.ts): a map whose entries are gone once
    their time is up. Times and lifetimes are in one unit, seconds. */
module IdempotencyStore {
  import opened Wrappers

  datatype Entry<V> = Entry(value: V, expiresAt: int)

  datatype Op<V> =
    | Get(key: string)
    | Set(key: string, value: V, ttl: int)
    | SetNx(key: string, value: V, ttl: int)
    | Del(key: string)

  datatype Reply<V> = Value(value: Option<V>) | Inserted(inserted: bool) | Done

  /** What is left of a map at time `now`. */
  function Live<V>(m: map<string, Entry<V>>, now: int): map<string, Entry<V>> {
    map key | key in m && m[key].expiresAt > now :: m[key]
  }

  /** One operation on the abstract store: expired entries are not there. */
  function Step<V>(m: map<string, Entry<V>>, op: Op<V>, now: int): (Reply<V>, map<string, Entry<V>>) {
    var live := Live(m, now);
    match op
    case Get(key) => (Value(if key in live then Some(live[key].value) else None), live)
    case Set(key, value, ttl) => (Done, live[key := Entry(value, now + ttl)])
    case SetNx(key, value, ttl) =>
      if key in live then (Inserted(false), live) else (Inserted(true), live[key := Entry(value, now + ttl)])
    case Del(key) => (Done, live - {key})
  }

  /** The replies to a sequence of operations, each at its time. */
  function Replies<V>(m: map<string, Entry<V>>, ops: seq<(Op<V>, int)>): seq<Reply<V>>
    decreases ops
  {
    if ops == [] then []
    else
      var (reply, after) := Step(m, ops[0].0, ops[0].1);
      [reply] + Replies(after, ops[1..])
  }
}
