/** The store on a Postgres table (pg-idempotency.store.ts), where expired rows linger until an
    insert replaces or prunes them. It answers exactly as the abstract store does. */
module PgIdempotencyStore {
  import opened Wrappers
  import opened IdempotencyStore

  const PRUNE_BATCH: nat := 100

  /** Which rows the pruning part of an insert may take: expired ones of other keys, as many as it
      finds unlocked, up to the batch. */
  predicate MayPrune<V>(table: map<string, Entry<V>>, key: string, now: int, pruned: set<string>) {
    |pruned| <= PRUNE_BATCH && forall k :: k in pruned ==> k in table && table[k].expiresAt <= now && k != key
  }

  class PgIdempotencyStore<V(==)> {
    var table: map<string, Entry<V>>

    constructor ()
      ensures table == map[]
    {
      table := map[];
    }

    method Get(key: string, now: int) returns (value: Option<V>)
      ensures value == if key in table && table[key].expiresAt > now then Some(table[key].value) else None
    {
      if key in table && table[key].expiresAt > now {
        return Some(table[key].value);
      }
      return None;
    }

    method Set(key: string, value: V, ttlSeconds: int, now: int)
      modifies this
      ensures table == old(table)[key := Entry(value, now + ttlSeconds)]
    {
      table := table[key := Entry(value, now + ttlSeconds)];
    }

    /** One statement: the pruning DELETE and the upsert see the same snapshot. */
    method SetNx(key: string, value: V, ttlSeconds: int, now: int, pruned: set<string>) returns (inserted: bool)
      requires MayPrune(table, key, now, pruned)
      modifies this
      ensures (Inserted(inserted), table) == PgStep(old(table), Op.SetNx(key, value, ttlSeconds), now, pruned)
    {
      var rowCount := 0;
      var snapshot := table;
      table := table - pruned;
      if key !in snapshot || snapshot[key].expiresAt <= now {
        table := table[key := Entry(value, now + ttlSeconds)];
        rowCount := 1;
      }
      return rowCount == 1;
    }

    method Del(key: string)
      modifies this
      ensures table == old(table) - {key}
    {
      table := table - {key};
    }

    /** Any operation, as the caller of the store sees it. */
    method Perform(op: Op<V>, now: int, pruned: set<string>) returns (reply: Reply<V>)
      requires op.SetNx? ==> MayPrune(table, op.key, now, pruned)
      modifies this
      ensures (reply, table) == PgStep(old(table), op, now, pruned)
    {
      match op
      case Get(key) =>
        var value := this.Get(key, now);
        return Value(value);
      case Set(key, value, ttl) =>
        this.Set(key, value, ttl, now);
        return Done;
      case SetNx(key, value, ttl) =>
        var inserted := this.SetNx(key, value, ttl, now, pruned);
        return Inserted(inserted);
      case Del(key) =>
        this.Del(key);
        return Done;
    }
  }

  /** One operation on the table, lingering rows and all. */
  function PgStep<V>(table: map<string, Entry<V>>, op: Op<V>, now: int, pruned: set<string>)
      : (Reply<V>, map<string, Entry<V>>) {
    match op
    case Get(key) =>
      (Value(if key in table && table[key].expiresAt > now then Some(table[key].value) else None), table)
    case Set(key, value, ttl) => (Done, table[key := Entry(value, now + ttl)])
    case SetNx(key, value, ttl) =>
      if key in table && table[key].expiresAt > now then (Inserted(false), table - pruned)
      else (Inserted(true), (table - pruned)[key := Entry(value, now + ttl)])
    case Del(key) => (Done, table - {key})
  }

  /** An operation, when it runs, and what it happens to prune. */
  datatype Call<V> = Call(op: Op<V>, now: int, pruned: set<string>)

  /** Every insert prunes only what it may, and the clock does not run backwards. */
  ghost predicate Permitted<V>(table: map<string, Entry<V>>, calls: seq<Call<V>>, since: int)
    decreases calls
  {
    calls != [] ==>
      && since <= calls[0].now
      && (calls[0].op.SetNx? ==> MayPrune(table, calls[0].op.key, calls[0].now, calls[0].pruned))
      && Permitted(PgStep(table, calls[0].op, calls[0].now, calls[0].pruned).1, calls[1..], calls[0].now)
  }

  function PgReplies<V>(table: map<string, Entry<V>>, calls: seq<Call<V>>): seq<Reply<V>>
    decreases calls
  {
    if calls == [] then []
    else
      var (reply, after) := PgStep(table, calls[0].op, calls[0].now, calls[0].pruned);
      [reply] + PgReplies(after, calls[1..])
  }

  function Ops<V>(calls: seq<Call<V>>): seq<(Op<V>, int)> {
    seq(|calls|, i requires 0 <= i < |calls| => (calls[i].op, calls[i].now))
  }

  /** One operation: the same reply, and the same live entries from then on. */
  lemma StepRefines<V>(table: map<string, Entry<V>>, m: map<string, Entry<V>>, call: Call<V>, since: int, later: int)
    requires Live(table, since) == Live(m, since) && since <= call.now <= later
    requires call.op.SetNx? ==> MayPrune(table, call.op.key, call.now, call.pruned)
    ensures var (reply, table') := PgStep(table, call.op, call.now, call.pruned);
      var (abstractReply, m') := Step(m, call.op, call.now);
      reply == abstractReply && Live(table', later) == Live(m', later)
  {
    LiveLater(table, m, since, call.now);
    var key, now := call.op.key, call.now;
    assert key in Live(table, now) <==> key in table && table[key].expiresAt > now;
    var table', m' := PgStep(table, call.op, now, call.pruned).1, Step(m, call.op, now).1;
    forall k ensures k in Live(table', later) <==> k in Live(m', later)
      ensures k in Live(table', later) ==> Live(table', later)[k] == Live(m', later)[k]
    {
      if k != key {
        assert k in Live(table, now) <==> k in Live(m, now);
        assert k in Live(table, now) ==> Live(table, now)[k] == Live(m, now)[k];
      }
    }
  }

  lemma LiveLater<V>(table: map<string, Entry<V>>, m: map<string, Entry<V>>, since: int, now: int)
    requires Live(table, since) == Live(m, since) && since <= now
    ensures Live(table, now) == Live(m, now)
  {
    assert Live(table, now) == Live(Live(table, since), now);
    assert Live(m, now) == Live(Live(m, since), now);
  }

  /** Every sequence of operations gets the replies of the abstract store, whatever the inserts
      prune and however many expired rows linger. */
  lemma {:induction false} TableRefinesMap<V>(table: map<string, Entry<V>>, m: map<string, Entry<V>>,
                                              calls: seq<Call<V>>, since: int)
    requires Live(table, since) == Live(m, since) && Permitted(table, calls, since)
    ensures PgReplies(table, calls) == Replies(m, Ops(calls))
    decreases calls
  {
    if calls != [] {
      var call := calls[0];
      StepRefines(table, m, call, since, call.now);
      assert Ops(calls)[1..] == Ops(calls[1..]);
      var table' := PgStep(table, call.op, call.now, call.pruned).1;
      TableRefinesMap(table', Step(m, call.op, call.now).1, calls[1..], call.now);
    }
  }
}
