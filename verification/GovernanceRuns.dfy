/** Whole transactions, with executions nested in executions to any depth: what holds at every moment of
    them, and what a failed execution leaves behind. */
module GovernanceRuns {
  import opened Outcomes
  import opened Governance
  import opened GovernanceInvariant

  // ----- how a world may develop -----

  /** Where a status may lead, in any number of moves. */
  predicate Later(from: PollStatus, to: PollStatus) {
    from == to || from == InProgress || (from == Passed && (to == Executed || to == Failed))
  }

  predicate PollDevelops(p: Poll, q: Poll) {
    && q == p.(status := q.status, yesVotes := q.yesVotes, noVotes := q.noVotes,
               totalBalanceAtEnd := q.totalBalanceAtEnd, stakedAmount := q.stakedAmount)
    && Later(p.status, q.status)
    && (p.status != InProgress ==> q == p.(status := q.status))
  }

  /** Nothing is forgotten: polls stay, with statuses moving forward only and tallies frozen once voting
      is over, and the histories only grow. */
  ghost predicate Develops(w: World, v: World) {
    && v.self == w.self && w.pollCount <= v.pollCount
    && (forall id | id in w.polls :: id in v.polls && PollDevelops(w.polls[id], v.polls[id]))
    && w.commits <= v.commits && w.sent <= v.sent
    && (w.overdrawn ==> v.overdrawn)
  }

  lemma DevelopsTransitive(u: World, v: World, w: World)
    requires Develops(u, v) && Develops(v, w)
    ensures Develops(u, w)
  {}

  lemma OnePollDevelops(w: World, v: World, id: nat)
    requires v.self == w.self && w.pollCount <= v.pollCount && w.commits <= v.commits && w.sent <= v.sent
    requires w.overdrawn ==> v.overdrawn
    requires id in v.polls && v.polls == w.polls[id := v.polls[id]]
    requires id in w.polls ==> PollDevelops(w.polls[id], v.polls[id])
    ensures Develops(w, v)
  {}

  /** No message of the script is the contract's own internal message, sent by itself from outside an
      execution. */
  ghost predicate TameCall(call: Call, self: Addr)
    decreases call, 1
  {
    match call
    case ExecutePoll(_, script) => Tame(script, self)
    case Yourself(sender, _, _) => sender != self
    case _ => true
  }

  ghost predicate Tame(s: Script, self: Addr)
    decreases s, 0
  {
    match s
    case Do(call, rest) => TameCall(call, self) && Tame(rest, self)
    case Try(body, rest) => Tame(body, self) && Tame(rest, self)
    case Donate(_, rest) => Tame(rest, self)
    case _ => true
  }

  // ----- one message -----

  lemma PlainCallKeeps(w: World, now: nat, call: Call)
    requires Inv(w) && !call.ExecutePoll? && !call.Yourself?
    requires Exec(w, now, call).Ok?
    ensures Inv(Exec(w, now, call).value)
  {
    match call {
      case Stake(token, sender, amount) => StakeKeepsInv(w, token, sender, amount);
      case Propose(token, sender, amount, e, m) => CreateKeepsInv(w, now, token, sender, amount, e, m);
      case Withdraw(sender, wanted) => WithdrawKeepsInv(w, sender, wanted);
      case Vote(sender, id, vote, amount) => VoteKeepsInv(w, now, sender, id, vote, amount);
      case End(id) => EndKeepsInv(w, now, id);
      case Snapshot(id) => SnapshotKeepsInv(w, now, id);
      case Register(_, _) =>
      case Configure(_, _) =>
    }
  }

  lemma PlainCallDevelops(w: World, now: nat, call: Call)
    requires Inv(w) && !call.ExecutePoll? && !call.Yourself?
    requires Exec(w, now, call).Ok?
    ensures Develops(w, Exec(w, now, call).value)
  {
    match call {
      case Propose(token, sender, amount, e, m) => ProposalDevelops(w, now, token, sender, amount, e, m);
      case Vote(sender, id, vote, amount) => VoteDevelops(w, now, sender, id, vote, amount);
      case End(id) => EndDevelops(w, now, id);
      case Snapshot(id) => SnapshotDevelops(w, now, id);
      case Withdraw(sender, wanted) => WithdrawalDevelops(w, sender, wanted);
      case _ =>
    }
  }

  lemma ProposalDevelops(w: World, now: nat, token: Addr, sender: Addr, amount: nat,
                         e: Option<seq<Message>>, m: Option<seq<Message>>)
    requires Inv(w) && CreatePoll(w, now, token, sender, amount, e, m).Ok?
    ensures Develops(w, CreatePoll(w, now, token, sender, amount, e, m).value)
  {}

  lemma SnapshotDevelops(w: World, now: nat, id: nat)
    requires SnapshotPoll(w, now, id).Ok?
    ensures Develops(w, SnapshotPoll(w, now, id).value)
  {
    OnePollDevelops(w, SnapshotPoll(w, now, id).value, id);
  }

  lemma VoteDevelops(w: World, now: nat, sender: Addr, id: nat, vote: VoteOption, amount: nat)
    requires CastVote(w, now, sender, id, vote, amount).Ok?
    ensures Develops(w, CastVote(w, now, sender, id, vote, amount).value)
  {}

  lemma WithdrawalDevelops(w: World, sender: Addr, wanted: Option<nat>)
    requires WithdrawVotingTokens(w, sender, wanted).Ok?
    ensures Develops(w, WithdrawVotingTokens(w, sender, wanted).value)
  {}

  lemma EndDevelops(w: World, now: nat, id: nat)
    requires EndPoll(w, now, id).Ok?
    ensures Develops(w, EndPoll(w, now, id).value)
  {
    var v := EndPoll(w, now, id).value;
    EndEffect(w, now, id);
    assert w.sent <= v.sent;
    OnePollDevelops(w, v, id);
  }

  /** The world in which poll `id` has failed, and nothing else has changed but the note of its id. */
  function Failing(w: World, id: nat): World
    requires id in w.polls
  {
    w.(tmpPollId := Some(id), polls := w.polls[id := w.polls[id].(status := Failed)],
       indexer := Reindex(w.indexer, id, Passed, Failed))
  }

  /** The world in which the messages of poll `id` are being sent. */
  function Sending(w: World, now: nat, id: nat): World
    requires id in w.polls
  {
    var poll := w.polls[id];
    w.(tmpPollId := Some(id), polls := w.polls[id := poll.(status := Executed)],
       indexer := Reindex(w.indexer, id, Passed, Executed),
       commits := w.commits + [Commit(id, now, w.config.timelockPeriod, poll.status, DispatchOrder(poll))])
  }

  /** The command that starts an execution only notes the poll; the submessage first marks it executed,
      and the reply to a failure marks it failed instead. */
  lemma ExecutionSteps(w: World, now: nat, id: nat)
    requires StartExecution(w, now, id).Ok?
    ensures id in w.polls && StartExecution(w, now, id).value == w.(tmpPollId := Some(id))
    ensures SendMessages(w.(tmpPollId := Some(id)), now, id) == Ok(Sending(w, now, id))
    ensures Reply(w.(tmpPollId := Some(id)), POLL_EXECUTE_REPLY_ID) == Ok(Failing(w, id))
  {}

  lemma NotedKeeps(w: World, now: nat, id: nat)
    requires Inv(w) && StartExecution(w, now, id).Ok?
    ensures Inv(w.(tmpPollId := Some(id))) && Develops(w, w.(tmpPollId := Some(id)))
  {
    StartKeepsInv(w, now, id);
  }

  lemma SendingKeeps(w: World, now: nat, id: nat)
    requires Inv(w) && StartExecution(w, now, id).Ok?
    ensures Inv(Sending(w, now, id)) && Develops(w, Sending(w, now, id))
  {
    var w1 := w.(tmpPollId := Some(id));
    SendKeepsInv(w1, now, id);
    assert SendMessages(w1, now, id) == Ok(Sending(w, now, id));
    OnePollDevelops(w, Sending(w, now, id), id);
  }

  lemma FailingKeeps(w: World, now: nat, id: nat)
    requires Inv(w) && StartExecution(w, now, id).Ok?
    ensures Inv(Failing(w, id)) && Develops(w, Failing(w, id))
  {
    var w1 := w.(tmpPollId := Some(id));
    FailKeepsInv(w1, id);
    assert FailPoll(w1, id) == Ok(Failing(w, id));
    OnePollDevelops(w, Failing(w, id), id);
  }

  lemma DonationKeeps(w: World, amount: nat)
    requires Inv(w)
    ensures Inv(w.(balance := w.balance + amount)) && Develops(w, w.(balance := w.balance + amount))
  {}

  // ----- any nesting -----

  lemma {:induction false} ExecKeeps(w: World, now: nat, call: Call)
    requires Inv(w) && TameCall(call, w.self) && Exec(w, now, call).Ok?
    ensures Inv(Exec(w, now, call).value) && Develops(w, Exec(w, now, call).value)
    decreases call, 2
  {
    if call.ExecutePoll? {
      ExecutionKeeps(w, now, call.pollId, call.script);
    } else if !call.Yourself? {
      PlainCallKeeps(w, now, call);
      PlainCallDevelops(w, now, call);
    }
  }

  lemma {:induction false} ExecutionKeeps(w: World, now: nat, id: nat, script: Script)
    requires Inv(w) && Tame(script, w.self) && StartExecution(w, now, id).Ok?
    ensures Exec(w, now, ExecutePoll(id, script)).Ok?
    ensures var v := Exec(w, now, ExecutePoll(id, script)).value; Inv(v) && Develops(w, v)
    decreases script, 3
  {
    ExecutionOutcome(w, now, id, script);
    if RunScript(Sending(w, now, id), now, script).Ok? {
      SendingKeeps(w, now, id);
      ContinuationKeeps(w, Sending(w, now, id), now, script);
    } else {
      FailingKeeps(w, now, id);
    }
  }

  /** An execution that starts either runs the poll's messages to their end or fails the poll. */
  lemma ExecutionOutcome(w: World, now: nat, id: nat, script: Script)
    requires StartExecution(w, now, id).Ok?
    ensures id in w.polls
    ensures Exec(w, now, ExecutePoll(id, script))
         == if RunScript(Sending(w, now, id), now, script).Ok?
            then RunScript(Sending(w, now, id), now, script) else Ok(Failing(w, id))
  {}

  lemma {:induction false} ScriptKeeps(w: World, now: nat, s: Script)
    requires Inv(w) && Tame(s, w.self) && RunScript(w, now, s).Ok?
    ensures Inv(RunScript(w, now, s).value) && Develops(w, RunScript(w, now, s).value)
    decreases s, 1
  {
    match s {
      case Done =>
      case Do(call, rest) =>
        ExecKeeps(w, now, call);
        ContinuationKeeps(w, Exec(w, now, call).value, now, rest);
      case Try(body, rest) =>
        if RunScript(w, now, body).Ok? {
          ScriptKeeps(w, now, body);
          ContinuationKeeps(w, RunScript(w, now, body).value, now, rest);
        } else {
          ScriptKeeps(w, now, rest);
        }
      case Donate(amount, rest) =>
        DonationKeeps(w, amount);
        ContinuationKeeps(w, w.(balance := w.balance + amount), now, rest);
    }
  }

  lemma {:induction false} ContinuationKeeps(w: World, w1: World, now: nat, rest: Script)
    requires Inv(w1) && Develops(w, w1) && Tame(rest, w.self) && RunScript(w1, now, rest).Ok?
    ensures Inv(RunScript(w1, now, rest).value) && Develops(w, RunScript(w1, now, rest).value)
    decreases rest, 2
  {
    ScriptKeeps(w1, now, rest);
    DevelopsTransitive(w, w1, RunScript(w1, now, rest).value);
  }

  lemma TransactionKeeps(w: World, now: nat, s: Script)
    ensures Inv(w) && Tame(s, w.self) ==> Inv(Transact(w, now, s)) && Develops(w, Transact(w, now, s))
  {
    if Inv(w) && Tame(s, w.self) && RunScript(w, now, s).Ok? {
      ScriptKeeps(w, now, s);
    }
  }

  // ----- every moment of a transaction -----

  /** A moment at which the contract's records are complete: after a command has run, whether or not the
      chain discards its effects later; and the moment just before a reply, with the poll whose
      submessage failed. */
  datatype Event = Seen(w: World) | Replying(failed: nat, w: World)

  function TraceCall(w: World, now: nat, call: Call): seq<Event>
    decreases call, 1
  {
    match call
    case ExecutePoll(id, script) =>
      (match StartExecution(w, now, id)
       case Err(_) => []
       case Ok(w1) =>
         [Seen(w1)]
         + (match SendMessages(w1, now, id)
            case Err(_) => []
            case Ok(w2) => [Seen(w2)] + Trace(w2, now, script))
         + if Submessage(w1, now, id, script).Err? then [Replying(id, w1)] + After(Reply(w1, POLL_EXECUTE_REPLY_ID)) else [])
    case Yourself(sender, id, script) =>
      if sender != w.self || SendMessages(w, now, id).Err? then []
      else [Seen(SendMessages(w, now, id).value)] + Trace(SendMessages(w, now, id).value, now, script)
    case _ => After(Exec(w, now, call))
  }

  function After(r: Result<World, Error>): seq<Event> {
    if r.Ok? then [Seen(r.value)] else []
  }

  function Trace(w: World, now: nat, s: Script): seq<Event>
    decreases s, 0
  {
    match s
    case Done => []
    case Abort => []
    case Do(call, rest) =>
      TraceCall(w, now, call)
      + (match Exec(w, now, call) case Ok(w1) => Trace(w1, now, rest) case Err(_) => [])
    case Try(body, rest) =>
      Trace(w, now, body)
      + (match RunScript(w, now, body) case Ok(w1) => Trace(w1, now, rest) case Err(_) => Trace(w, now, rest))
    case Donate(amount, rest) =>
      [Seen(w.(balance := w.balance + amount))] + Trace(w.(balance := w.balance + amount), now, rest)
  }

  /** What holds at an event of a transaction that began in w. Before a reply: the noted id is that of
      exactly the poll whose messages failed, that poll is back in Passed, and the reply marks it, and only
      it, failed. */
  ghost predicate Sound(w: World, e: Event) {
    && Inv(e.w) && Develops(w, e.w)
    && (e.Replying? ==>
          && e.w.tmpPollId == Some(e.failed)
          && e.failed in e.w.polls && e.w.polls[e.failed].status == Passed
          && Reply(e.w, POLL_EXECUTE_REPLY_ID) == Ok(Failing(e.w, e.failed)))
  }

  ghost predicate AllSound(w: World, events: seq<Event>) {
    forall e | e in events :: Sound(w, e)
  }

  lemma SoundFrom(u: World, v: World, events: seq<Event>)
    requires Develops(u, v) && AllSound(v, events)
    ensures AllSound(u, events)
  {
    forall e | e in events ensures Sound(u, e) {
      assert Sound(v, e);
      DevelopsTransitive(u, v, e.w);
    }
  }

  lemma {:induction false} CallSound(w: World, now: nat, call: Call)
    requires Inv(w) && TameCall(call, w.self)
    ensures AllSound(w, TraceCall(w, now, call))
    decreases call, 2
  {
    if call.ExecutePoll? {
      if StartExecution(w, now, call.pollId).Ok? {
        ExecutionSound(w, now, call.pollId, call.script);
      }
    } else if Exec(w, now, call).Ok? {
      ExecKeeps(w, now, call);
    }
  }

  /** The reply to a failed submessage finds the poll noted, and back in Passed. */
  lemma ReplySound(w: World, now: nat, id: nat)
    requires Inv(w) && StartExecution(w, now, id).Ok?
    ensures Sound(w, Seen(w.(tmpPollId := Some(id)))) && Sound(w, Replying(id, w.(tmpPollId := Some(id))))
  {
    NotedKeeps(w, now, id);
    ExecutionSteps(w, now, id);
  }

  lemma MarksSound(w: World, now: nat, id: nat)
    requires Inv(w) && StartExecution(w, now, id).Ok?
    ensures Sound(w, Seen(Sending(w, now, id))) && Sound(w, Seen(Failing(w, id)))
  {
    SendingKeeps(w, now, id);
    FailingKeeps(w, now, id);
  }

  lemma {:induction false} ExecutionSound(w: World, now: nat, id: nat, script: Script)
    requires Inv(w) && Tame(script, w.self) && StartExecution(w, now, id).Ok?
    ensures AllSound(w, TraceCall(w, now, ExecutePoll(id, script)))
    decreases script, 3
  {
    ReplySound(w, now, id);
    MarksSound(w, now, id);
    ContinuationSound(w, Sending(w, now, id), now, script);
    ExecutionEvents(w, now, id, script);
    EventsSound(w, TraceCall(w, now, ExecutePoll(id, script)), Trace(Sending(w, now, id), now, script),
                Seen(w.(tmpPollId := Some(id))), Seen(Sending(w, now, id)),
                Replying(id, w.(tmpPollId := Some(id))), Seen(Failing(w, id)));
  }

  lemma EventsSound(w: World, events: seq<Event>, inner: seq<Event>, a: Event, b: Event, c: Event, d: Event)
    requires forall e | e in events :: e == a || e == b || e in inner || e == c || e == d
    requires Sound(w, a) && Sound(w, b) && AllSound(w, inner) && Sound(w, c) && Sound(w, d)
    ensures AllSound(w, events)
  {}

  /** The events of an execution, listed. */
  lemma ExecutionEvents(w: World, now: nat, id: nat, script: Script)
    requires StartExecution(w, now, id).Ok?
    ensures id in w.polls
    ensures var w0, w1 := w.(tmpPollId := Some(id)), Sending(w, now, id);
            forall e | e in TraceCall(w, now, ExecutePoll(id, script)) ::
              || e == Seen(w0) || e == Seen(w1) || e in Trace(w1, now, script)
              || e == Replying(id, w0) || e == Seen(Failing(w, id))
  {
    ExecutionSteps(w, now, id);
  }

  lemma {:induction false} TraceSound(w: World, now: nat, s: Script)
    requires Inv(w) && Tame(s, w.self)
    ensures AllSound(w, Trace(w, now, s))
    decreases s, 1
  {
    match s {
      case Done =>
      case Abort =>
      case Do(call, rest) =>
        CallSound(w, now, call);
        if Exec(w, now, call).Ok? {
          AfterCallSound(w, now, call, rest);
        }
      case Try(body, rest) =>
        TraceSound(w, now, body);
        AfterTrySound(w, now, body, rest);
      case Donate(amount, rest) =>
        var w1 := w.(balance := w.balance + amount);
        DonationKeeps(w, amount);
        ContinuationSound(w, w1, now, rest);
        DonationSeen(w, w1, Trace(w1, now, rest));
    }
  }

  lemma {:induction false} AfterCallSound(w: World, now: nat, call: Call, rest: Script)
    requires Inv(w) && TameCall(call, w.self) && Tame(rest, w.self) && Exec(w, now, call).Ok?
    ensures AllSound(w, Trace(Exec(w, now, call).value, now, rest))
    decreases rest, 3
  {
    ExecKeeps(w, now, call);
    ContinuationSound(w, Exec(w, now, call).value, now, rest);
  }

  lemma {:induction false} AfterTrySound(w: World, now: nat, body: Script, rest: Script)
    requires Inv(w) && Tame(body, w.self) && Tame(rest, w.self) && AllSound(w, Trace(w, now, body))
    ensures AllSound(w, Trace(w, now, Try(body, rest)))
    decreases rest, 3
  {
    if RunScript(w, now, body).Ok? {
      ScriptKeeps(w, now, body);
      ContinuationSound(w, RunScript(w, now, body).value, now, rest);
    } else {
      TraceSound(w, now, rest);
    }
  }

  lemma DonationSeen(w: World, w1: World, events: seq<Event>)
    requires Inv(w1) && Develops(w, w1) && AllSound(w, events)
    ensures AllSound(w, [Seen(w1)] + events)
  {}

  lemma {:induction false} ContinuationSound(w: World, w1: World, now: nat, rest: Script)
    requires Inv(w1) && Develops(w, w1) && Tame(rest, w.self)
    ensures AllSound(w, Trace(w1, now, rest))
    decreases rest, 2
  {
    TraceSound(w1, now, rest);
    SoundFrom(w, w1, Trace(w1, now, rest));
  }

  // ----- main results -----

  lemma {:induction false} HistoryKeeps(self: Addr, config: Config, transactions: seq<(nat, Script)>)
    requires forall t | t in transactions :: Tame(t.1, self)
    ensures Inv(History(Instantiated(self, config), transactions))
    ensures History(Instantiated(self, config), transactions).self == self
  {
    InstantiatedInv(self, config);
    if transactions != [] {
      var n := |transactions| - 1;
      HistoryKeeps(self, config, transactions[..n]);
      var w := History(Instantiated(self, config), transactions[..n]);
      assert transactions[n] in transactions;
      if RunScript(w, transactions[n].0, transactions[n].1).Ok? {
        ScriptKeeps(w, transactions[n].0, transactions[n].1);
      }
    }
  }

  /** In every reachable state, and at every moment inside every further transaction, however its
      executions are nested, caught or rolled back, the invariant holds and every reply finds the right
      poll. */
  lemma EveryMomentSound(self: Addr, config: Config, transactions: seq<(nat, Script)>, now: nat, s: Script)
    requires Tame(s, self) && forall t | t in transactions :: Tame(t.1, self)
    ensures var w := History(Instantiated(self, config), transactions);
            Inv(w) && AllSound(w, Trace(w, now, s))
  {
    HistoryKeeps(self, config, transactions);
    TraceSound(History(Instantiated(self, config), transactions), now, s);
  }

  /** If anything a poll's messages set off fails, all of it is undone: what remains is the poll marked
      failed. */
  lemma FailedExecutionOnlyMarksPoll(w: World, now: nat, id: nat, script: Script)
    requires StartExecution(w, now, id).Ok?
    requires Submessage(StartExecution(w, now, id).value, now, id, script).Err?
    ensures id in w.polls && Exec(w, now, ExecutePoll(id, script)) == Ok(Failing(w, id))
  {}

  /** A successful execution sends the poll's messages in their order and leaves the poll executed. */
  lemma ExecutionCommits(w: World, now: nat, id: nat, script: Script)
    requires Inv(w) && Tame(script, w.self) && StartExecution(w, now, id).Ok?
    requires id in w.polls && RunScript(Sending(w, now, id), now, script).Ok?
    ensures Exec(w, now, ExecutePoll(id, script)).Ok?
    ensures var w1 := Exec(w, now, ExecutePoll(id, script)).value;
            && Inv(w1) && w1.self == w.self && Sending(w, now, id).commits <= w1.commits
            && id in w1.polls && w1.polls[id].status == Executed
  {
    ExecutionOutcome(w, now, id, script);
    var w0 := Sending(w, now, id);
    SendingKeeps(w, now, id);
    ScriptKeeps(w0, now, script);
    ExecutedStays(w0, RunScript(w0, now, script).value, id);
  }

  lemma ExecutedStays(w: World, v: World, id: nat)
    requires Develops(w, v) && id in w.polls && w.polls[id].status == Executed
    ensures w.commits <= v.commits && id in v.polls && v.polls[id].status == Executed && v.self == w.self
  {
    assert PollDevelops(w.polls[id], v.polls[id]);
  }

  /** An executed poll can never be executed again, whatever happens; its commit stays. */
  lemma ExecutedForGood(w: World, id: nat, later: seq<(nat, Script)>, at: nat)
    requires Inv(w) && id in w.polls && w.polls[id].status == Executed
    requires forall t | t in later :: Tame(t.1, w.self)
    ensures w.commits <= History(w, later).commits
    ensures id in History(w, later).polls && History(w, later).polls[id].status == Executed
    ensures StartExecution(History(w, later), at, id).Err?
  {
    HistoryDevelops(w, later);
    ExecutedStays(w, History(w, later), id);
  }

  lemma {:induction false} HistoryDevelops(w: World, transactions: seq<(nat, Script)>)
    requires Inv(w) && forall t | t in transactions :: Tame(t.1, w.self)
    ensures Inv(History(w, transactions)) && Develops(w, History(w, transactions))
  {
    if transactions != [] {
      var n := |transactions| - 1;
      HistoryDevelops(w, transactions[..n]);
      var v := History(w, transactions[..n]);
      assert transactions[n] in transactions;
      if RunScript(v, transactions[n].0, transactions[n].1).Ok? {
        ScriptKeeps(v, transactions[n].0, transactions[n].1);
        DevelopsTransitive(w, v, History(w, transactions));
      }
    }
  }

  /** The internal message checks nothing, so it is exactly the guards of the execution command that make
      it safe: on a reachable world it keeps the invariant if and only if they hold. */
  lemma InternalMessageSafeIff(w: World, now: nat, id: nat)
    requires Inv(w) && id in w.polls
    ensures SendMessages(w, now, id).Ok?
    ensures Inv(SendMessages(w, now, id).value) <==> StartExecution(w, now, id).Ok?
  {
    var v, poll := SendMessages(w, now, id).value, w.polls[id];
    if StartExecution(w, now, id).Ok? {
      SendKeepsInv(w, now, id);
    } else if poll.status == Passed {
      var commit := v.commits[|w.commits|];
      assert commit in v.commits && !CommitSound(commit, v.polls);
    } else if poll.status == Executed {
      var c :| c in w.commits && c.pollId == id;
      var i :| 0 <= i < |w.commits| && w.commits[i] == c;
      assert v.commits[i].pollId == v.commits[|w.commits|].pollId;
    } else {
      assert (poll.status, id) in w.indexer;
      assert (poll.status, id) in v.indexer;
    }
  }
}
