/** The unit of work over Postgres: pg-unit-of-work.service.ts with the deadline guard of
    pg-deadline.ts, the ambient transaction of transaction.storage.ts and outbox.writer.ts. */
module UnitOfWork {
  import opened Wrappers

  datatype Write = TaskRow(id: string) | OutboxRow(topic: string, key: Option<string>, payload: int)

  datatype Statement = Begin | SetTimeout(ms: int) | Insert(write: Write) | Commit | Rollback

  // ----- the server's side of a connection -----

  /** `Gone`: the connection was cut, and with it whatever transaction was open. */
  datatype Session = Idle | InTransaction(writes: seq<Write>) | Aborted | Gone

  /** What becomes of a statement that is sent: it runs, the server answers with an error, or the
      connection is cut before the answer. */
  datatype Fate = Runs | Fails(canceled: bool) | Cut(applied: bool)

  datatype Answer = Completed(command: Statement) | DeadlineExceeded | Failed

  /** Postgres: an error aborts the open transaction; in an aborted one nothing but its end is
      accepted, and COMMIT ends it with the command tag ROLLBACK and no error. */
  function Serve(session: Session, committed: seq<Write>, statement: Statement, fate: Fate)
      : (Session, seq<Write>, Answer) {
    if session.Gone? then (Gone, committed, Failed)
    else if fate.Cut? then (Gone, if fate.applied then committed + Lands(session, statement) else committed, Failed)
    else if statement.Rollback? then
      if fate.Fails? then (session, committed, Failed) else (Idle, committed, Completed(Rollback))
    else if session.Aborted? then
      if statement.Commit? then (Idle, committed, Completed(Rollback)) else (session, committed, Failed)
    else if fate.Fails? then
      (if session.Idle? || statement.Commit? then Idle else Aborted, committed, Failed)
    else (After(session, statement), committed + Lands(session, statement), Completed(statement))
  }

  /** What a statement that runs makes permanent. */
  function Lands(session: Session, statement: Statement): seq<Write> {
    if session.InTransaction? && statement.Commit? then session.writes
    else if session.Idle? && statement.Insert? then [statement.write]
    else []
  }

  function After(session: Session, statement: Statement): Session {
    match statement
    case Begin => if session.Idle? then InTransaction([]) else session
    case SetTimeout(_) => session
    case Insert(write) => if session.InTransaction? then InTransaction(session.writes + [write]) else session
    case Commit => Idle
    case Rollback => Idle
  }

  /** The moment of one query, or of one look at the clock: the time, and how the server takes what is
      sent then. */
  datatype Moment = Moment(now: int, fate: Fate)

  /** When the budget in force runs out; None where there is none. */
  type Deadline = Option<int>

  /** remainingMs() is there and not positive. */
  predicate Spent(deadline: Deadline, moment: Moment) {
    deadline.Some? && deadline.value - moment.now <= 0
  }

  /** withDeadline: a nested budget never extends its caller's. */
  function Narrowed(outer: Deadline, ms: int, moment: Moment): Deadline {
    var at := moment.now + ms;
    Some(if outer.Some? && outer.value < at then outer.value else at)
  }

  /** A statement that reached the server, when, and whether it was carried out. */
  datatype Sent = Sent(statement: Statement, at: nat, completed: bool)

  /** A connection of the pool: `asked` counts the moments that have passed, `sent` is the history of what
      went to the server, `releases` records each return to the pool with its `broken` flag. */
  class PoolClient {
    const moments: nat -> Moment
    var asked: nat
    var session: Session
    var committed: seq<Write>
    var sent: seq<Sent>
    var releases: seq<bool>

    constructor (moments: nat -> Moment)
      ensures this.moments == moments && asked == 0 && session == Idle && committed == []
      ensures sent == [] && releases == []
    {
      this.moments, asked, session, committed, sent, releases := moments, 0, Idle, [], [], [];
    }

    /** The server carries out whatever it is sent. */
    ghost predicate AllRun() {
      forall k: nat :: moments(k).fate == Runs
    }

    ghost predicate NothingCut() {
      forall k: nat :: !moments(k).fate.Cut?
    }

    /** The guarded query: once the budget in force is spent nothing but a ROLLBACK is sent. */
    method Query(statement: Statement, deadline: Deadline) returns (answer: Answer)
      modifies `asked, `session, `committed, `sent
      ensures asked == old(asked) + 1
      ensures sent == old(sent) + (if !statement.Rollback? && Spent(deadline, moments(old(asked))) then []
                                   else [Sent(statement, old(asked), answer.Completed?)])
      // a statement that fails is the budget's fault when it was held back, or the server canceled it under one
      ensures answer.DeadlineExceeded? ==> deadline.Some? && !statement.Rollback?
      ensures !statement.Rollback? && Spent(deadline, moments(old(asked))) ==> answer.DeadlineExceeded?
      ensures deadline.Some? && !statement.Rollback? && moments(old(asked)).fate == Fails(true) ==>
        !answer.Failed?
      ensures answer.DeadlineExceeded? ==>
        Spent(deadline, moments(old(asked))) || moments(old(asked)).fate == Fails(true)
      // a ROLLBACK is carried out unless the connection is gone or the server does not do it
      ensures statement.Rollback? ==>
        (answer.Completed? <==> !old(session).Gone? && moments(old(asked)).fate.Runs?)
      ensures !statement.Rollback? && Spent(deadline, moments(old(asked))) ==>
        answer == DeadlineExceeded && session == old(session) && committed == old(committed)
      ensures statement.Rollback? || !Spent(deadline, moments(old(asked))) ==>
        var served := Serve(old(session), old(committed), statement, moments(old(asked)).fate);
        session == served.0 && committed == served.1 && (answer.Completed? <==> served.2.Completed?)
        && (answer.Completed? ==> answer == served.2)
    {
      var moment := moments(asked);
      asked := asked + 1;
      if deadline.Some? && !statement.Rollback? && deadline.value - moment.now <= 0 {
        return DeadlineExceeded;
      }
      var at := asked - 1;
      var served := Serve(session, committed, statement, moment.fate);
      session, committed, answer := served.0, served.1, served.2;
      if answer.Failed? && deadline.Some? && !statement.Rollback? && moment.fate == Fails(true) {
        answer := DeadlineExceeded;
      }
      sent := sent + [Sent(statement, at, answer.Completed?)];
    }

    /** Date.now() */
    method Now() returns (moment: Moment)
      modifies `asked
      ensures asked == old(asked) + 1 && moment == moments(old(asked))
    {
      moment := moments(asked);
      asked := asked + 1;
    }

    method Release(broken: bool)
      modifies `releases
      ensures releases == old(releases) + [broken]
    {
      releases := releases + [broken];
    }
  }

  // ----- the ambient transaction -----

  class AmbientTransaction {
    const client: PoolClient
    var open: bool

    constructor (client: PoolClient)
      ensures this.client == client && open
    {
      this.client, open := client, true;
    }
  }

  datatype Access = Outside | Inside(client: PoolClient) | Ended

  /** What the accessor answers to code that carries `ambient`. */
  function CurrentTransaction(ambient: AmbientTransaction?): Access
    reads ambient
  {
    if ambient == null then Outside else if !ambient.open then Ended else Inside(ambient.client)
  }

  datatype Failure =
    | DeadlineExceededError
    | QueryError
    | TransactionAbortedError
    | TransactionEndedError
    | OutboxOutsideTransactionError
    | NoConnection
    | OwnError

  type Outcome = Result<(), Failure>

  function Settled(answer: Answer): Outcome {
    match answer
    case Completed(_) => Ok(())
    case DeadlineExceeded => Err(DeadlineExceededError)
    case Failed => Err(QueryError)
  }

  // ----- what runs inside -----

  /** A script for the work of a transaction: statements through the ambient client, nested units of
      work, scopes with a budget of their own, errors of its own, and errors that are caught. */
  datatype Work =
    | Save(write: Write)
    | Announce(topic: string, key: Option<string>, payload: int)
    | Then(first: Work, second: Work)
    | Try(body: Work)
    | Nested(body: Work)
    | Budgeted(ms: int, body: Work)
    | Throw

  /** What a script is meant to do: what it does when nothing fails and no budget runs out. */
  function Intended(work: Work): (bool, seq<Write>) {
    match work
    case Save(write) => (true, [write])
    case Announce(topic, key, payload) => (true, [OutboxRow(topic, key, payload)])
    case Then(first, second) =>
      var (ok, writes) := Intended(first);
      if ok then (Intended(second).0, writes + Intended(second).1) else (false, writes)
    case Try(body) => (true, Intended(body).1)
    case Nested(body) => Intended(body)
    case Budgeted(_, body) => Intended(body)
    case Throw => (false, [])
  }

  /** What a script comes to by the clock: whether it ends without an error, what it writes, how many of
      its statements a spent budget held back, and the moment it ends at. */
  datatype Effect = Effect(ok: bool, writes: seq<Write>, refused: nat, next: nat)

  function OneWrite(moments: nat -> Moment, deadline: Deadline, k: nat, write: Write): Effect {
    if Spent(deadline, moments(k)) then Effect(false, [], 1, k + 1) else Effect(true, [write], 0, k + 1)
  }

  /** The effect of a script from moment `k` on, while the server carries out all that is sent. */
  function EffectOf(moments: nat -> Moment, deadline: Deadline, k: nat, work: Work): Effect
    decreases work
  {
    match work
    case Save(write) => OneWrite(moments, deadline, k, write)
    case Announce(topic, key, payload) => OneWrite(moments, deadline, k, OutboxRow(topic, key, payload))
    case Then(first, second) =>
      var one := EffectOf(moments, deadline, k, first);
      if !one.ok then one
      else
        var two := EffectOf(moments, deadline, one.next, second);
        Effect(two.ok, one.writes + two.writes, one.refused + two.refused, two.next)
    case Try(body) => EffectOf(moments, deadline, k, body).(ok := true)
    case Nested(body) => EffectOf(moments, deadline, k, body)
    case Budgeted(ms, body) => EffectOf(moments, Narrowed(deadline, ms, moments(k)), k + 1, body)
    case Throw => Effect(false, [], 0, k)
  }

  /** The transaction can no longer commit. */
  predicate Doomed(session: Session) {
    session.Aborted? || session.Gone?
  }

  /** Work sends its writes, and nothing that begins, limits or ends a transaction. */
  ghost predicate OnlyInserts(before: seq<Sent>, after: seq<Sent>) {
    before <= after && forall i :: |before| <= i < |after| ==> after[i].statement.Insert?
  }

  /** What a piece of work makes of the open transaction: its effect, or a transaction that is doomed. */
  twostate predicate Worked(client: PoolClient, effect: Effect, ok: bool)
    reads client
  {
    && OnlyInserts(old(client.sent), client.sent)
    && (client.NothingCut() && !old(client.session).Gone? ==> !client.session.Gone?)
    && client.committed == old(client.committed) && !client.session.Idle? && client.releases == old(client.releases)
    && (old(Doomed(client.session)) ==> Doomed(client.session))
    && (client.AllRun() && !old(Doomed(client.session)) ==> !Doomed(client.session))
    && (Doomed(client.session) || (
          && old(client.session).InTransaction?
          && client.session == InTransaction(old(client.session).writes + effect.writes)
          && ok == effect.ok && client.asked == effect.next))
  }

  /** outbox.writer.ts: the event goes into the caller's transaction, or nowhere. */
  method Add(ambient: AmbientTransaction?, deadline: Deadline, topic: string, key: Option<string>, payload: int)
      returns (result: Outcome)
    requires ambient != null && ambient.open ==> !ambient.client.session.Idle?
    modifies if ambient != null then {ambient.client} else {}
    ensures ambient == null ==> result == Err(OutboxOutsideTransactionError)
    ensures ambient != null && !old(ambient.open) ==> result == Err(TransactionEndedError) && unchanged(ambient.client)
    ensures ambient != null && old(ambient.open) ==>
      var row := OutboxRow(topic, key, payload);
      var effect := OneWrite(ambient.client.moments, deadline, old(ambient.client.asked), row);
      Worked(ambient.client, effect, result.Ok?)
    ensures ambient != null && old(ambient.open) ==>
      Spent(deadline, ambient.client.moments(old(ambient.client.asked))) ==>
        result == Err(DeadlineExceededError)
  {
    match CurrentTransaction(ambient)
    case Outside => return Err(OutboxOutsideTransactionError);
    case Ended => return Err(TransactionEndedError);
    case Inside(client) =>
      var answer := client.Query(Insert(OutboxRow(topic, key, payload)), deadline);
      return Settled(answer);
  }

  /** Running a script under a deadline; a scope of its own narrows it for what is inside. */
  method Execute(work: Work, deadline: Deadline, tx: AmbientTransaction) returns (result: Outcome)
    requires tx.open && !tx.client.session.Idle?
    modifies tx.client
    ensures Worked(tx.client, EffectOf(tx.client.moments, deadline, old(tx.client.asked), work), result.Ok?)
    decreases work, 0
  {
    match work
    case Save(write) =>
      var answer := tx.client.Query(Insert(write), deadline);
      return Settled(answer);
    case Announce(topic, key, payload) =>
      result := Add(tx, deadline, topic, key, payload);
    case Then(first, second) =>
      result := Execute(first, deadline, tx);
      if result.Ok? { result := Execute(second, deadline, tx); }
    case Try(body) =>
      var caught := Execute(body, deadline, tx);
      return Ok(());
    case Nested(body) =>
      result := Join(tx, deadline, body);
    case Budgeted(ms, body) =>
      var moment := tx.client.Now();
      result := Execute(body, Narrowed(deadline, ms, moment), tx);
    case Throw =>
      return Err(OwnError);
  }

  /** runInTransaction under an ambient transaction: no savepoint, no connection of its own. */
  method Join(ambient: AmbientTransaction, deadline: Deadline, work: Work) returns (result: Outcome)
    requires ambient.open ==> !ambient.client.session.Idle?
    modifies ambient.client
    ensures old(ambient.open) ==>
      Worked(ambient.client, EffectOf(ambient.client.moments, deadline, old(ambient.client.asked), work), result.Ok?)
    ensures !old(ambient.open) ==> result == Err(TransactionEndedError) && unchanged(ambient.client)
    decreases work, 1
  {
    match CurrentTransaction(ambient)
    case Outside => assert false;
    case Ended => return Err(TransactionEndedError);
    case Inside(_) => result := Execute(work, deadline, ambient);
  }

  // ----- the transaction itself -----

  /** The moment at which the work begins, if BEGIN and the time limit are not held back. */
  function Opened(moments: nat -> Moment, deadline: Deadline, k: nat): Option<nat> {
    if Spent(deadline, moments(k)) then None
    else if deadline.None? then Some(k + 2)
    else if Spent(deadline, moments(k + 1)) || Spent(deadline, moments(k + 2)) then None
    else Some(k + 3)
  }

  /** The effect of a transaction's work from moment `k` on: none, where it does not begin. */
  function Transacted(moments: nat -> Moment, deadline: Deadline, k: nat, work: Work): Effect {
    var begin := Opened(moments, deadline, k);
    if begin.None? then Effect(false, [], 0, k) else EffectOf(moments, deadline, begin.value, work)
  }

  /** limitTransaction: the rest of the budget as the server's statement timeout. */
  method LimitTransaction(client: PoolClient, deadline: Deadline) returns (result: Outcome)
    requires client.session == InTransaction([])
    modifies client`asked, client`session, client`committed, client`sent
    ensures client.committed == old(client.committed)
    ensures client.session == InTransaction([]) || (result.Err? && Doomed(client.session))
    // without a budget nothing is sent; with one, what was left of it at the look at the clock
    ensures client.sent == old(client.sent) + (
      if deadline.None? || Spent(deadline, client.moments(old(client.asked)))
        || Spent(deadline, client.moments(old(client.asked) + 1)) then []
      else [Sent(SetTimeout(deadline.value - client.moments(old(client.asked)).now), old(client.asked) + 1,
                 client.session == InTransaction([]))])
    ensures result.Ok? ==> client.asked == old(client.asked) + if deadline.None? then 1 else 2
    ensures result.Ok? && deadline.Some? ==>
      !Spent(deadline, client.moments(old(client.asked))) && !Spent(deadline, client.moments(old(client.asked) + 1))
    ensures client.NothingCut() ==> !client.session.Gone?
    ensures client.AllRun() ==> client.session == InTransaction([])
    ensures client.AllRun() && result.Err? ==> result == Err(DeadlineExceededError)
    ensures client.AllRun() && result.Err? ==>
      Spent(deadline, client.moments(old(client.asked))) || Spent(deadline, client.moments(old(client.asked) + 1))
  {
    var moment := client.Now();
    if deadline.None? { return Ok(()); }
    var left := deadline.value - moment.now;
    if left <= 0 { return Err(DeadlineExceededError); }
    var answer := client.Query(SetTimeout(left), deadline);
    result := Settled(answer);
  }

  /** COMMIT that fails loudly: the command tag tells a commit from a silent rollback. `took` is the
      server's own view of whether it committed. */
  method CommitLoudly(client: PoolClient, deadline: Deadline) returns (result: Outcome, took: bool)
    requires !client.session.Idle?
    modifies client`asked, client`session, client`committed, client`sent
    ensures took ==> old(client.session).InTransaction? && !Spent(deadline, client.moments(old(client.asked)))
    ensures client.committed == old(client.committed) + if took then old(client.session).writes else []
    ensures client.sent == old(client.sent) +
      if Spent(deadline, client.moments(old(client.asked))) then []
      else [Sent(Commit, old(client.asked), result.Ok? || result == Err(TransactionAbortedError))]
    ensures Spent(deadline, client.moments(old(client.asked))) ==> result == Err(DeadlineExceededError)
    ensures client.NothingCut() && !old(client.session).Gone? ==> !client.session.Gone?
    // it resolves only when the writes are there, and rejects with them there only when cut off
    ensures result.Ok? ==> took && client.session.Idle?
    ensures took && result.Err? ==> client.session.Gone? && !client.NothingCut()
    ensures result == Err(TransactionAbortedError) ==> old(client.session).Aborted? && client.session.Idle?
    ensures client.AllRun() && old(client.session).InTransaction? ==>
      (result.Ok? <==> !Spent(deadline, client.moments(old(client.asked)))) && !client.session.Gone?
  {
    var moment := client.moments(client.asked);
    var runs := moment.fate.Runs? || moment.fate == Cut(true);
    took := client.session.InTransaction? && !Spent(deadline, moment) && runs;
    var answer := client.Query(Commit, deadline);
    match answer
    case Completed(command) => result := if command.Commit? then Ok(()) else Err(TransactionAbortedError);
    case _ => result := Settled(answer);
  }

  /** A write that un-awaited work issues, under the budget that work runs under. */
  datatype Late = Late(write: Write, deadline: Deadline)

  /** Late writes that nothing holds back. */
  predicate Unbudgeted(late: seq<Late>) {
    forall i :: 0 <= i < |late| ==> late[i].deadline.None?
  }

  function WritesOf(late: seq<Late>): seq<Write> {
    seq(|late|, i requires 0 <= i < |late| => late[i].write)
  }

  /** Work nobody awaited, running while COMMIT or ROLLBACK is under way: the ambient transaction is
      still open, so it gets the client, and its statements queue behind. `strays` are the writes
      that took effect outside of any transaction. */
  method Straggle(tx: AmbientTransaction, late: seq<Late>) returns (strays: seq<Write>)
    requires tx.open
    modifies tx.client`asked, tx.client`session, tx.client`committed, tx.client`sent
    ensures tx.client.committed == old(tx.client.committed) + strays
    ensures OnlyInserts(old(tx.client.sent), tx.client.sent)
    ensures late == [] ==> strays == [] && tx.client.session == old(tx.client.session)
    ensures tx.client.NothingCut() && !old(tx.client.session).Gone? ==> !tx.client.session.Gone?
    ensures old(tx.client.session).Idle? ==> tx.client.session.Idle? || tx.client.session.Gone?
    ensures !old(tx.client.session).Idle? ==> strays == [] && !tx.client.session.Idle?
    ensures old(tx.client.session).Gone? ==> tx.client.session.Gone?
    ensures tx.client.AllRun() && !old(tx.client.session).Gone? ==> !tx.client.session.Gone?
    ensures tx.client.AllRun() && old(tx.client.session).Idle? && Unbudgeted(late) ==> strays == WritesOf(late)
  {
    strays := [];
    for i := 0 to |late|
      invariant tx.client.committed == old(tx.client.committed) + strays
      invariant OnlyInserts(old(tx.client.sent), tx.client.sent)
      invariant i == 0 ==> strays == [] && tx.client.session == old(tx.client.session)
      invariant tx.client.NothingCut() && !old(tx.client.session).Gone? ==> !tx.client.session.Gone?
      invariant old(tx.client.session).Idle? ==> tx.client.session.Idle? || tx.client.session.Gone?
      invariant !old(tx.client.session).Idle? ==> strays == [] && !tx.client.session.Idle?
      invariant old(tx.client.session).Gone? ==> tx.client.session.Gone?
      invariant tx.client.AllRun() && !old(tx.client.session).Gone? ==> !tx.client.session.Gone?
      invariant tx.client.AllRun() && old(tx.client.session).Idle? && Unbudgeted(late) ==> strays == WritesOf(late[..i])
    {
      var before := tx.client.committed;
      var answer := tx.client.Query(Insert(late[i].write), late[i].deadline);
      assert before <= tx.client.committed;
      strays := strays + tx.client.committed[|before|..];
    }
    assert late[..|late|] == late;
  }

  /** What opens a transaction: BEGIN, and what is then left of the budget as the server's time limit. */
  function Opening(moments: nat -> Moment, deadline: Deadline, k: nat): seq<Sent> {
    [Sent(Begin, k, true)]
    + if deadline.None? then [] else [Sent(SetTimeout(deadline.value - moments(k + 1).now), k + 2, true)]
  }

  ghost predicate NoEnd(before: seq<Sent>, after: seq<Sent>) {
    before <= after
    && forall i :: |before| <= i < |after| ==> !after[i].statement.Commit? && !after[i].statement.Rollback?
  }

  /** BEGIN, the time limit, and the work itself. */
  method Attempt(tx: AmbientTransaction, deadline: Deadline, work: Work) returns (result: Outcome)
    requires tx.open && tx.client.session.Idle?
    modifies tx.client
    ensures tx.client.committed == old(tx.client.committed) && tx.client.releases == old(tx.client.releases)
    ensures result.Ok? ==> !tx.client.session.Idle?
    ensures NoEnd(old(tx.client.sent), tx.client.sent)
    ensures result.Ok? ==>
      OnlyInserts(old(tx.client.sent) + Opening(tx.client.moments, deadline, old(tx.client.asked)), tx.client.sent)
    ensures tx.client.NothingCut() ==> !tx.client.session.Gone?
    ensures result.Ok? && !Doomed(tx.client.session) ==>
      AtEnd(tx.client, Transacted(tx.client.moments, deadline, old(tx.client.asked), work))
    ensures tx.client.AllRun() ==>
      && (result.Ok? <==> Transacted(tx.client.moments, deadline, old(tx.client.asked), work).ok)
      && !tx.client.session.Gone? && (result.Ok? ==> !Doomed(tx.client.session))
  {
    var begun := tx.client.Query(Begin, deadline);
    result := Settled(begun);
    if result.Ok? { result := LimitTransaction(tx.client, deadline); }
    if result.Ok? { result := Execute(work, deadline, tx); }
  }

  /** The work has ended without an error, and its writes wait for COMMIT. */
  ghost predicate AtEnd(client: PoolClient, effect: Effect)
    reads client
  {
    client.session == InTransaction(effect.writes) && effect.ok && client.asked == effect.next
  }

  /** ROLLBACK, which always goes out. */
  method RollBack(tx: AmbientTransaction, deadline: Deadline, after: seq<Late>)
      returns (broken: bool, strays: seq<Write>)
    requires tx.open
    modifies tx.client`asked, tx.client`session, tx.client`committed, tx.client`sent
    ensures tx.client.committed == old(tx.client.committed) + strays
    ensures after == [] ==> strays == []
    ensures broken <==> old(tx.client.session).Gone? || !tx.client.moments(old(tx.client.asked)).fate.Runs?
    ensures OnlyInserts(old(tx.client.sent) + [Sent(Rollback, old(tx.client.asked), !broken)], tx.client.sent)
    ensures !broken ==> tx.client.session.Idle? || tx.client.session.Gone?
    ensures old(tx.client.session).Gone? ==> broken && tx.client.session.Gone?
    ensures tx.client.AllRun() && !old(tx.client.session).Gone? ==> !broken
    ensures tx.client.AllRun() && !old(tx.client.session).Gone? && Unbudgeted(after) ==> strays == WritesOf(after)
  {
    var answer := tx.client.Query(Rollback, deadline);
    broken := !answer.Completed?;
    strays := Straggle(tx, after);
  }

  ghost predicate NoRollback(before: seq<Sent>, after: seq<Sent>) {
    before <= after && forall i :: |before| <= i < |after| ==> !after[i].statement.Rollback?
  }

  lemma NoRollbackTogether(first: seq<Sent>, second: seq<Sent>, third: seq<Sent>)
    requires NoRollback(first, second) && NoRollback(second, third)
    ensures NoRollback(first, third)
  {
  }

  lemma OneRollback(before: seq<Sent>, middle: seq<Sent>, rollback: Sent, after: seq<Sent>)
    requires NoRollback(before, middle) && rollback.statement.Rollback? && OnlyInserts(middle + [rollback], after)
    ensures before <= after && RolledBack(before, after)
    ensures RollbackFailed(before, after) <==> !rollback.completed
    ensures forall i :: |before| <= i < |after| && after[i].statement.Rollback? ==> after[i] == rollback
  {
    assert after[|middle|] == (middle + [rollback])[|middle|];
    assert forall i :: 0 <= i < |middle| ==> after[i] == (middle + [rollback])[i] == middle[i];
  }

  /** From BEGIN to the end of COMMIT. */
  method Transact(tx: AmbientTransaction, deadline: Deadline, work: Work, during: seq<Late>)
      returns (result: Outcome, took: bool, strays: seq<Write>)
    requires tx.open && tx.client.session.Idle?
    modifies tx.client
    ensures tx.client.releases == old(tx.client.releases)
    ensures var effect := Transacted(tx.client.moments, deadline, old(tx.client.asked), work);
      && tx.client.committed == old(tx.client.committed) + (if took then effect.writes else []) + strays
      && (took ==> effect.ok && !Spent(deadline, tx.client.moments(effect.next)))
      && (tx.client.AllRun() ==> (result.Ok? <==> effect.ok && !Spent(deadline, tx.client.moments(effect.next))))
    ensures result.Ok? ==> took && (tx.client.session.Idle? || tx.client.session.Gone?)
    ensures took && result.Err? ==> !tx.client.NothingCut()
    ensures during == [] ==> strays == []
    ensures tx.client.NothingCut() ==> !tx.client.session.Gone?
    ensures NoRollback(old(tx.client.sent), tx.client.sent)
    ensures result.Ok? ==>
      old(tx.client.sent) + Opening(tx.client.moments, deadline, old(tx.client.asked)) <= tx.client.sent
  {
    took, strays := false, [];
    result := Attempt(tx, deadline, work);
    if result.Ok? {
      result, took := CommitLoudly(tx.client, deadline);
      strays := Straggle(tx, during);
    }
  }

  predicate RolledBack(before: seq<Sent>, after: seq<Sent>) {
    exists i :: |before| <= i < |after| && after[i].statement.Rollback?
  }

  predicate RollbackFailed(before: seq<Sent>, after: seq<Sent>) {
    exists i :: |before| <= i < |after| && after[i].statement.Rollback? && !after[i].completed
  }

  /** runInTransaction with no ambient transaction. `pool` is the connection the pool hands out, null
      when it has none to give; `during` and `after` are the writes of un-awaited work issued while
      COMMIT and ROLLBACK are under way. */
  method RunInTransaction(pool: PoolClient?, deadline: Deadline, work: Work, during: seq<Late>, after: seq<Late>)
      returns (result: Outcome, tx: AmbientTransaction?, took: bool, strays: seq<Write>)
    requires pool != null ==> pool.session.Idle?
    modifies if pool != null then {pool} else {}
    ensures pool == null ==> result == Err(NoConnection) && tx == null
    // all that the work came to or none of it, and what strayed
    ensures pool != null ==>
      var effect := Transacted(pool.moments, deadline, old(pool.asked), work);
      && pool.committed == old(pool.committed) + (if took then effect.writes else []) + strays
      && (result.Ok? ==> took)
      && (took ==> effect.ok && Intended(work).0 && !Spent(deadline, pool.moments(effect.next)))
      // that is all that was intended exactly when no statement was held back by a spent budget
      && (took ==> (effect.writes == Intended(work).1 <==> effect.refused == 0))
    ensures result.Ok? ==> pool != null
    ensures took && result.Err? ==> pool != null && !pool.NothingCut()
    ensures during == [] && after == [] ==> strays == []
    // the connection goes back once: destroyed exactly when a ROLLBACK was not carried out, and otherwise
    // outside of any transaction
    ensures pool != null ==>
      pool.releases == old(pool.releases) + [RollbackFailed(old(pool.sent), pool.sent)]
    ensures pool != null && !RollbackFailed(old(pool.sent), pool.sent) ==> pool.session.Idle? || pool.session.Gone?
    ensures result.Ok? ==> pool.releases == old(pool.releases) + [false]
    // one is sent exactly when the unit of work rejects, and fails by its moment or for want of a connection
    ensures pool != null ==> (result.Err? <==> RolledBack(old(pool.sent), pool.sent))
    ensures pool != null ==> forall i :: |old(pool.sent)| <= i < |pool.sent| && pool.sent[i].statement.Rollback? ==>
      (pool.sent[i].completed ==> pool.moments(pool.sent[i].at).fate.Runs?)
      && (pool.NothingCut() && pool.moments(pool.sent[i].at).fate.Runs? ==> pool.sent[i].completed)
    // it opens with BEGIN and what is left of the budget
    ensures result.Ok? ==> old(pool.sent) + Opening(pool.moments, deadline, old(pool.asked)) <= pool.sent
    // whoever still carries the transaction gets no client
    ensures pool != null ==> tx != null && CurrentTransaction(tx) == Ended
    // while the server carries out what it is sent, the outcome is that of the work and of the budget
    ensures pool != null && pool.AllRun() ==>
      var effect := Transacted(pool.moments, deadline, old(pool.asked), work);
      (result.Ok? <==> effect.ok && !Spent(deadline, pool.moments(effect.next)))
    ensures pool != null && pool.AllRun() && Unbudgeted(after) && result.Err? && during == [] ==>
      strays == WritesOf(after)
  {
    took, strays := false, [];
    if pool == null { return Err(NoConnection), null, false, []; }
    TransactedShortOfIntended(pool.moments, deadline, pool.asked, work);
    tx := new AmbientTransaction(pool);
    var broken := false;
    ghost var before := pool.sent;
    result, took, strays := Transact(tx, deadline, work, during);
    if result.Err? {
      ghost var middle, rollback := pool.sent, pool.asked;
      var more;
      broken, more := RollBack(tx, deadline, after);
      strays := strays + more;
      OneRollback(before, middle, Sent(Rollback, rollback, !broken), pool.sent);
    }
    tx.open := false;
    pool.Release(broken);
  }

  // ----- what a spent budget takes away -----

  /** A statement that is held back is missing from the writes, and nothing else is; a script that ends
      well by the clock was meant to. */
  lemma {:induction false} RefusalsAreMissing(moments: nat -> Moment, deadline: Deadline, k: nat, work: Work)
    ensures var effect := EffectOf(moments, deadline, k, work);
      && (effect.refused == 0 ==> (effect.ok, effect.writes) == Intended(work))
      && (effect.refused > 0 ==> |effect.writes| < |Intended(work).1|)
      && (effect.ok ==> Intended(work).0)
    decreases work
  {
    match work
    case Then(first, second) =>
      RefusalsAreMissing(moments, deadline, k, first);
      RefusalsAreMissing(moments, deadline, EffectOf(moments, deadline, k, first).next, second);
    case Try(body) => RefusalsAreMissing(moments, deadline, k, body);
    case Nested(body) => RefusalsAreMissing(moments, deadline, k, body);
    case Budgeted(ms, body) => RefusalsAreMissing(moments, Narrowed(deadline, ms, moments(k)), k + 1, body);
    case _ =>
  }

  lemma TransactedShortOfIntended(moments: nat -> Moment, deadline: Deadline, k: nat, work: Work)
    ensures var effect := Transacted(moments, deadline, k, work);
      effect.ok ==> Intended(work).0 && (effect.writes == Intended(work).1 <==> effect.refused == 0)
  {
    var begin := Opened(moments, deadline, k);
    if begin.Some? {
      RefusalsAreMissing(moments, deadline, begin.value, work);
    }
  }

  /** Time does not run backwards. */
  ghost predicate Steady(moments: nat -> Moment) {
    forall j: nat, k: nat :: j <= k ==> moments(j).now <= moments(k).now
  }

  /** How many statements are held back inside scopes with a budget of their own. */
  function HeldBackInScopes(moments: nat -> Moment, deadline: Deadline, k: nat, work: Work): nat
    decreases work
  {
    match work
    case Then(first, second) =>
      var one := EffectOf(moments, deadline, k, first);
      HeldBackInScopes(moments, deadline, k, first)
      + if one.ok then HeldBackInScopes(moments, deadline, one.next, second) else 0
    case Try(body) => HeldBackInScopes(moments, deadline, k, body)
    case Nested(body) => HeldBackInScopes(moments, deadline, k, body)
    case Budgeted(ms, body) => EffectOf(moments, Narrowed(deadline, ms, moments(k)), k + 1, body).refused
    case _ => 0
  }

  /** With budget left at the end, nothing was held back but inside narrower scopes. */
  lemma {:induction false} OnlyScopesHoldBack(moments: nat -> Moment, deadline: Deadline, k: nat, work: Work)
    requires Steady(moments)
    ensures var effect := EffectOf(moments, deadline, k, work);
      && k <= effect.next
      && (!Spent(deadline, moments(effect.next)) ==> effect.refused == HeldBackInScopes(moments, deadline, k, work))
    decreases work
  {
    match work
    case Then(first, second) =>
      OnlyScopesHoldBack(moments, deadline, k, first);
      OnlyScopesHoldBack(moments, deadline, EffectOf(moments, deadline, k, first).next, second);
    case Try(body) => OnlyScopesHoldBack(moments, deadline, k, body);
    case Nested(body) => OnlyScopesHoldBack(moments, deadline, k, body);
    case Budgeted(ms, body) => OnlyScopesHoldBack(moments, Narrowed(deadline, ms, moments(k)), k + 1, body);
    case _ =>
  }

  /** A unit of work whose script ends well with budget left for COMMIT does all that was intended exactly
      when no statement of a narrower scope was held back. (One that was must have been caught.) */
  lemma WholeUnlessScopeRefused(moments: nat -> Moment, deadline: Deadline, k: nat, work: Work)
    requires Steady(moments) && Opened(moments, deadline, k).Some?
    requires var effect := Transacted(moments, deadline, k, work); effect.ok && !Spent(deadline, moments(effect.next))
    ensures Transacted(moments, deadline, k, work).writes == Intended(work).1
      <==> HeldBackInScopes(moments, deadline, Opened(moments, deadline, k).value, work) == 0
  {
    var begin := Opened(moments, deadline, k).value;
    OnlyScopesHoldBack(moments, deadline, begin, work);
    RefusalsAreMissing(moments, deadline, begin, work);
  }

  predicate NoTry(work: Work) {
    match work
    case Then(first, second) => NoTry(first) && NoTry(second)
    case Try(_) => false
    case Nested(body) => NoTry(body)
    case Budgeted(_, body) => NoTry(body)
    case _ => true
  }

  predicate NoScope(work: Work) {
    match work
    case Then(first, second) => NoScope(first) && NoScope(second)
    case Try(body) => NoScope(body)
    case Nested(body) => NoScope(body)
    case Budgeted(_, _) => false
    case _ => true
  }

  /** No error is caught around a scope with a budget of its own, nor inside one. */
  predicate Candid(work: Work) {
    match work
    case Then(first, second) => Candid(first) && Candid(second)
    case Try(body) => NoScope(body)
    case Nested(body) => Candid(body)
    case Budgeted(_, body) => NoTry(body)
    case _ => true
  }

  lemma {:induction false} NothingCaught(moments: nat -> Moment, deadline: Deadline, k: nat, work: Work)
    requires NoTry(work)
    ensures var effect := EffectOf(moments, deadline, k, work);
      effect.ok ==> effect.refused == 0
    decreases work
  {
    match work
    case Then(first, second) =>
      NothingCaught(moments, deadline, k, first);
      NothingCaught(moments, deadline, EffectOf(moments, deadline, k, first).next, second);
    case Nested(body) => NothingCaught(moments, deadline, k, body);
    case Budgeted(ms, body) => NothingCaught(moments, Narrowed(deadline, ms, moments(k)), k + 1, body);
    case _ =>
  }

  lemma NothingCaughtAtAll(moments: nat -> Moment, deadline: Deadline, k: nat, work: Work)
    requires NoTry(work)
    ensures Transacted(moments, deadline, k, work).ok ==> Transacted(moments, deadline, k, work).refused == 0
  {
    var begin := Opened(moments, deadline, k);
    if begin.Some? {
      NothingCaught(moments, deadline, begin.value, work);
    }
  }

  lemma {:induction false} NoScopeNoRefusal(moments: nat -> Moment, deadline: Deadline, k: nat, work: Work)
    requires NoScope(work)
    ensures HeldBackInScopes(moments, deadline, k, work) == 0
    decreases work
  {
    match work
    case Then(first, second) =>
      NoScopeNoRefusal(moments, deadline, k, first);
      NoScopeNoRefusal(moments, deadline, EffectOf(moments, deadline, k, first).next, second);
    case Try(body) => NoScopeNoRefusal(moments, deadline, k, body);
    case Nested(body) => NoScopeNoRefusal(moments, deadline, k, body);
    case _ =>
  }

  lemma {:induction false} CandidScripts(moments: nat -> Moment, deadline: Deadline, k: nat, work: Work)
    requires Candid(work)
    ensures EffectOf(moments, deadline, k, work).ok ==> HeldBackInScopes(moments, deadline, k, work) == 0
    decreases work
  {
    match work
    case Then(first, second) =>
      CandidScripts(moments, deadline, k, first);
      CandidScripts(moments, deadline, EffectOf(moments, deadline, k, first).next, second);
    case Try(body) => NoScopeNoRefusal(moments, deadline, k, body);
    case Nested(body) => CandidScripts(moments, deadline, k, body);
    case Budgeted(ms, body) => NothingCaught(moments, Narrowed(deadline, ms, moments(k)), k + 1, body);
    case _ =>
  }

  /** A script that catches no error around or inside a narrower scope does all that was intended
      whenever it ends well with budget left for COMMIT, however much time passes in between. */
  lemma CandidScriptsAreWhole(moments: nat -> Moment, deadline: Deadline, k: nat, work: Work)
    requires Steady(moments) && Candid(work)
    ensures var effect := Transacted(moments, deadline, k, work);
      effect.ok && !Spent(deadline, moments(effect.next)) ==> effect.writes == Intended(work).1
  {
    var effect := Transacted(moments, deadline, k, work);
    if effect.ok && !Spent(deadline, moments(effect.next)) {
      CandidScripts(moments, deadline, Opened(moments, deadline, k).value, work);
      WholeUnlessScopeRefused(moments, deadline, k, work);
    }
  }

  // ----- runs -----

  /** TaskUseCase.create: the task and the event that announces it, or neither. */
  method CreateTask(pool: PoolClient?, deadline: Deadline, id: string, topic: string, payload: int)
      returns (result: Outcome)
    requires pool != null ==> pool.session.Idle?
    modifies if pool != null then {pool} else {}
    ensures pool != null ==>
      var rows := [TaskRow(id), OutboxRow(topic, Some(id), payload)];
      && (pool.committed == old(pool.committed) || pool.committed == old(pool.committed) + rows)
      && (result.Ok? ==> pool.committed == old(pool.committed) + rows)
      && (result.Err? && pool.NothingCut() ==> pool.committed == old(pool.committed))
    ensures result.Ok? ==> pool != null
  {
    var work := Then(Save(TaskRow(id)), Announce(topic, Some(id), payload));
    if pool != null {
      NothingCaughtAtAll(pool.moments, deadline, pool.asked, work);
    }
    var tx, took, strays;
    result, tx, took, strays := RunInTransaction(pool, deadline, work, [], []);
  }

  /** Un-awaited work breaks the promise: here the unit of work rejects, and a write stays. */
  method RejectedYetWritten() returns (client: PoolClient, result: Outcome)
    ensures result.Err? && client.committed == [TaskRow("late")]
  {
    client := new PoolClient(_ => Moment(0, Runs));
    var tx, took, strays;
    result, tx, took, strays := RunInTransaction(client, None, Throw, [], [Late(TaskRow("late"), None)]);
  }

  /** Ten milliseconds pass before the sixth moment, and no more. */
  function TenLater(k: nat): Moment {
    Moment(if k < 5 then 0 else 10, Runs)
  }

  lemma CaughtTooLate(work: Work)
    requires work == Then(Save(TaskRow("a")), Try(Budgeted(10, Save(TaskRow("b")))))
    ensures Transacted(TenLater, Some(1_000), 0, work) == Effect(true, [TaskRow("a")], 1, 6)
  {
    var scope := Budgeted(10, Save(TaskRow("b")));
    assert EffectOf(TenLater, Some(1_000), 4, scope) == Effect(false, [], 1, 6);
    assert EffectOf(TenLater, Some(1_000), 3, Save(TaskRow("a"))) == Effect(true, [TaskRow("a")], 0, 4);
  }

  /** So does a caught refusal: save a, and try to save b within 10 ms that pass before it is sent. It
      resolves, under a budget of a second and a clock that only goes forward, with a alone. */
  method ResolvedYetIncomplete() returns (client: PoolClient, result: Outcome)
    ensures result.Ok? && client.committed == [TaskRow("a")] && Steady(client.moments) && client.AllRun()
  {
    client := new PoolClient(TenLater);
    var work := Then(Save(TaskRow("a")), Try(Budgeted(10, Save(TaskRow("b")))));
    CaughtTooLate(work);
    var tx, took, strays;
    result, tx, took, strays := RunInTransaction(client, Some(1_000), work, [], []);
  }
}
