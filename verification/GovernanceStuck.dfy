/** Polls that were snapshotted while nobody had staked: once somebody stakes they cannot be ended, and
    neither their deposit nor the votes on them are released, for as long as shares remain. */
module GovernanceStuck {
  import opened Outcomes
  import opened FixedPoint
  import opened Governance
  import opened GovernanceInvariant
  import opened GovernanceRuns
  import opened GovernanceResults

  ghost predicate Stuck(w: World, id: nat) {
    id in w.polls && w.polls[id].status == InProgress && w.polls[id].stakedAmount == Some(0)
  }

  /** Still stuck, with the same deposit and with every vote still recorded. */
  ghost predicate StaysStuck(w: World, v: World, id: nat) {
    && Stuck(w, id) && Stuck(v, id) && v.polls[id].deposit == w.polls[id].deposit
    && forall a | (id, a) in w.voters :: (id, a) in v.voters && v.voters[(id, a)] == w.voters[(id, a)]
  }

  /** Such a poll comes about: with a proposal and its snapshot before the first stake, the expired poll
      cannot be ended. */
  lemma EmptySnapshotBlocksEnd(owner: Addr)
    ensures var config := Config(owner, None, 0, 0, 10, 0, 0, 10);
            var s := Do(Register("psi", 0), Do(Propose("psi", "bob", 5, None, None), Do(Snapshot(1),
                     Do(Stake("psi", "alice", 2), Done))));
            && RunScript(Instantiated("gov", config), 0, s).Ok?
            && Stuck(RunScript(Instantiated("gov", config), 0, s).value, 1)
            && EndPoll(RunScript(Instantiated("gov", config), 0, s).value, 10, 1) == Err(DivideByZero)
  {}

  lemma StuckCannotEnd(w: World, now: nat, id: nat)
    requires Stuck(w, id) && w.totalShare > 0
    ensures EndPoll(w, now, id).Err? && SnapshotPoll(w, now, id).Err? && StartExecution(w, now, id).Err?
  {}

  lemma OtherPollKeepsStuck(w: World, v: World, id: nat, other: nat)
    requires Stuck(w, id) && other != id && v.voters == w.voters
    requires other in v.polls && v.polls == w.polls[other := v.polls[other]]
    ensures StaysStuck(w, v, id)
  {}

  lemma VoteKeepsStuck(w: World, now: nat, sender: Addr, p: nat, vote: VoteOption, amount: nat, id: nat)
    requires Stuck(w, id) && CastVote(w, now, sender, p, vote, amount).Ok?
    ensures StaysStuck(w, CastVote(w, now, sender, p, vote, amount).value, id)
  {}

  lemma WithdrawalKeepsStuck(w: World, sender: Addr, wanted: Option<nat>, id: nat)
    requires Stuck(w, id) && WithdrawVotingTokens(w, sender, wanted).Ok?
    ensures StaysStuck(w, WithdrawVotingTokens(w, sender, wanted).value, id)
  {
    var burned, paid := WithdrawalUsesTerms(w, sender, wanted);
    assert forall k | k in Released(w.polls, w.bank[sender].locked, sender) :: k.0 != id;
  }

  lemma ProposalKeepsStuck(w: World, now: nat, token: Addr, sender: Addr, amount: nat,
                           e: Option<seq<Message>>, m: Option<seq<Message>>, id: nat)
    requires Inv(w) && Stuck(w, id) && CreatePoll(w, now, token, sender, amount, e, m).Ok?
    ensures StaysStuck(w, CreatePoll(w, now, token, sender, amount, e, m).value, id)
  {
    OtherPollKeepsStuck(w, CreatePoll(w, now, token, sender, amount, e, m).value, id, w.pollCount + 1);
  }

  lemma EndKeepsStuck(w: World, now: nat, p: nat, id: nat)
    requires Stuck(w, id) && w.totalShare > 0 && EndPoll(w, now, p).Ok?
    ensures StaysStuck(w, EndPoll(w, now, p).value, id)
  {
    StuckCannotEnd(w, now, id);
    EndEffect(w, now, p);
    OtherPollKeepsStuck(w, EndPoll(w, now, p).value, id, p);
  }

  lemma SnapshotKeepsStuck(w: World, now: nat, p: nat, id: nat)
    requires Stuck(w, id) && SnapshotPoll(w, now, p).Ok?
    ensures StaysStuck(w, SnapshotPoll(w, now, p).value, id)
  {
    OtherPollKeepsStuck(w, SnapshotPoll(w, now, p).value, id, p);
  }

  lemma CommandKeepsStuck(w: World, now: nat, call: Call, id: nat)
    requires Inv(w) && Stuck(w, id) && w.totalShare > 0
    requires !call.ExecutePoll? && !call.Yourself? && Exec(w, now, call).Ok?
    ensures StaysStuck(w, Exec(w, now, call).value, id)
  {
    match call {
      case Propose(token, sender, amount, e, m) => ProposalKeepsStuck(w, now, token, sender, amount, e, m, id);
      case Vote(sender, p, vote, amount) => VoteKeepsStuck(w, now, sender, p, vote, amount, id);
      case Withdraw(sender, wanted) => WithdrawalKeepsStuck(w, sender, wanted, id);
      case End(p) => EndKeepsStuck(w, now, p, id);
      case Snapshot(p) => SnapshotKeepsStuck(w, now, p, id);
      case _ =>
    }
  }

  lemma {:induction false} CallKeepsStuck(w: World, now: nat, call: Call, id: nat)
    requires Inv(w) && TameCall(call, w.self) && Exec(w, now, call).Ok?
    requires Stuck(w, id) && w.totalShare > 0
    requires SharesSurviveCall(w, now, call)
    ensures StaysStuck(w, Exec(w, now, call).value, id)
    decreases call, 2
  {
    if call.ExecutePoll? {
      ExecutionOutcome(w, now, call.pollId, call.script);
      MarksKeepStuck(w, now, call.pollId, id);
      if RunScript(Sending(w, now, call.pollId), now, call.script).Ok? {
        SendingKeeps(w, now, call.pollId);
        ScriptKeepsStuck(Sending(w, now, call.pollId), now, call.script, id);
      }
    } else if !call.Yourself? {
      CommandKeepsStuck(w, now, call, id);
    }
  }

  lemma MarksKeepStuck(w: World, now: nat, executed: nat, id: nat)
    requires Stuck(w, id) && StartExecution(w, now, executed).Ok?
    ensures executed in w.polls
    ensures StaysStuck(w, Sending(w, now, executed), id) && StaysStuck(w, Failing(w, executed), id)
  {}

  /** Whatever a transaction does, and however it nests and fails inside. */
  lemma {:induction false} ScriptKeepsStuck(w: World, now: nat, s: Script, id: nat)
    requires Inv(w) && Tame(s, w.self) && RunScript(w, now, s).Ok?
    requires Stuck(w, id) && w.totalShare > 0 && SharesSurvive(w, now, s)
    ensures StaysStuck(w, RunScript(w, now, s).value, id) && RunScript(w, now, s).value.totalShare > 0
    decreases s, 1
  {
    match s {
      case Done =>
      case Do(call, rest) =>
        CallKeepsStuck(w, now, call, id);
        ExecKeeps(w, now, call);
        ScriptKeepsStuck(Exec(w, now, call).value, now, rest, id);
      case Try(body, rest) => TryKeepsStuck(w, now, body, rest, id);
      case Donate(amount, rest) =>
        DonationKeeps(w, amount);
        ScriptKeepsStuck(w.(balance := w.balance + amount), now, rest, id);
    }
  }

  lemma {:induction false} TryKeepsStuck(w: World, now: nat, body: Script, rest: Script, id: nat)
    requires Inv(w) && Tame(body, w.self) && Tame(rest, w.self) && RunScript(w, now, Try(body, rest)).Ok?
    requires Stuck(w, id) && w.totalShare > 0 && SharesSurvive(w, now, Try(body, rest))
    ensures StaysStuck(w, RunScript(w, now, Try(body, rest)).value, id)
    ensures RunScript(w, now, Try(body, rest)).value.totalShare > 0
    decreases Try(body, rest), 0
  {
    if RunScript(w, now, body).Ok? {
      ScriptKeepsStuck(w, now, body, id);
      ScriptKeeps(w, now, body);
      ScriptKeepsStuck(RunScript(w, now, body).value, now, rest, id);
    } else {
      ScriptKeepsStuck(w, now, rest, id);
    }
  }

  ghost predicate SharesSurviveHistory(w: World, transactions: seq<(nat, Script)>) {
    transactions == [] ||
    (SharesSurviveHistory(w, transactions[..|transactions| - 1])
     && SharesSurvive(History(w, transactions[..|transactions| - 1]),
                      transactions[|transactions| - 1].0, transactions[|transactions| - 1].1))
  }

  /** A stuck poll stays open over any history in which shares remain: it cannot be ended at any time, its
      deposit stays among the open ones, and every vote on it stays locked. */
  lemma {:induction false} StuckWhileSharesRemain(w: World, id: nat, transactions: seq<(nat, Script)>, at: nat)
    requires Inv(w) && Stuck(w, id) && w.totalShare > 0
    requires forall t | t in transactions :: Tame(t.1, w.self)
    requires SharesSurviveHistory(w, transactions)
    ensures var v := History(w, transactions);
            && Inv(v) && StaysStuck(w, v, id) && v.totalShare > 0 && EndPoll(v, at, id).Err?
            && w.polls[id].deposit <= v.totalDeposit
            && forall a | (id, a) in w.voters :: a in v.bank && (id, w.voters[(id, a)]) in v.bank[a].locked
  {
    var v := History(w, transactions);
    HistoryDevelops(w, transactions);
    if transactions != [] {
      var n := |transactions| - 1;
      var u := History(w, transactions[..n]);
      StuckWhileSharesRemain(w, id, transactions[..n], at);
      HistoryDevelops(w, transactions[..n]);
      assert transactions[n] in transactions;
      if RunScript(u, transactions[n].0, transactions[n].1).Ok? {
        ScriptKeepsStuck(u, transactions[n].0, transactions[n].1, id);
      }
    }
    StuckCannotEnd(v, at, id);
    PollChangeKeeps(v, id, v.polls[id]);
  }
}
