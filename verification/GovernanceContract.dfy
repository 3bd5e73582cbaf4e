/** The governance contract as it runs: storage that commands load, change and store back, the token
    transfers they ask for, and the chain's rollback of what fails. */
module GovernanceContract {
  import opened Outcomes
  import opened FixedPoint
  import opened Governance
  import opened GovernanceInvariant
  import opened GovernanceRuns

  class Contract {
    const self: Addr
    var config: Config
    var pollCount: nat
    var totalShare: nat
    var totalDeposit: nat
    var tmpPollId: Option<nat>
    var bank: map<Addr, TokenManager>
    var polls: map<nat, Poll>
    var indexer: set<(PollStatus, nat)>
    var voters: map<(nat, Addr), VoterInfo>
    // The chain's side of the contract.
    var balance: nat
    var overdrawn: bool
    var commits: seq<Commit>
    var sent: seq<Payment>

    function State(): World
      reads this
    {
      World(self, config, pollCount, totalShare, totalDeposit, tmpPollId, bank, polls, indexer, voters,
            balance, overdrawn, commits, sent)
    }

    constructor (self: Addr, config: Config)
      ensures State() == Instantiated(self, config)
    {
      this.self, this.config := self, config.(psiToken := None);
      pollCount, totalShare, totalDeposit, tmpPollId := 0, 0, 0, None;
      bank, polls, indexer, voters := map[], map[], {}, map[];
      balance, overdrawn, commits, sent := 0, false, [], [];
    }

    /** A command either does what its specification says or fails with its error. After a failure the
        fields may hold half of its writes; the chain discards them. */
    ghost predicate Does(expected: Result<World, Error>, r: Result<(), Error>)
      reads this
    {
      match expected
      case Ok(after) => r.Ok? && State() == after
      case Err(e) => r == Err(e)
    }

    method Restore(saved: World)
      requires saved.self == self
      modifies this
      ensures State() == saved
    {
      config, pollCount, totalShare := saved.config, saved.pollCount, saved.totalShare;
      totalDeposit, tmpPollId, bank := saved.totalDeposit, saved.tmpPollId, saved.bank;
      polls, indexer, voters := saved.polls, saved.indexer, saved.voters;
      balance, overdrawn, commits, sent := saved.balance, saved.overdrawn, saved.commits, saved.sent;
    }

    method Transfer(to: Addr, amount: nat) returns (r: Result<(), Error>)
      modifies `balance, `sent
      ensures Does(Pay(old(State()), to, amount), r)
    {
      if config.psiToken.None? || balance < amount {
        return Err(TokenFailure);
      }
      balance := balance - amount;
      sent := sent + [Payment(to, amount)];
      return Ok(());
    }

    method QueryStaked() returns (r: Result<nat, Error>)
      ensures r == Staked(State())
    {
      if config.psiToken.None? {
        return Err(NoToken);
      }
      if balance < totalDeposit {
        return Err(Underflow);
      }
      return Ok(balance - totalDeposit);
    }

    method ReceiveStake(token: Addr, sender: Addr, amount: nat) returns (r: Result<(), Error>)
      modifies this
      ensures Does(StakeVotingTokens(old(State()), token, sender, amount), r)
    {
      if config.psiToken != Some(token) {
        return Err(Unauthorized);
      }
      balance := balance + amount;
      if amount == 0 {
        return Err(InsufficientFunds);
      }
      var manager := LoadBank(State(), sender);
      if balance < totalDeposit + amount {
        return Err(Underflow);
      }
      var totalBalance := balance - (totalDeposit + amount);
      var share := if totalBalance == 0 || totalShare == 0 then amount
                   else MultiplyRatio(amount, totalShare, totalBalance);
      manager := manager.(share := manager.share + share);
      totalShare := totalShare + share;
      bank := bank[sender := manager];
      return Ok(());
    }

    method ReceivePoll(now: nat, token: Addr, proposer: Addr, amount: nat,
                       executeMsgs: Option<seq<Message>>, migrateMsgs: Option<seq<Message>>) returns (r: Result<(), Error>)
      modifies this
      ensures Does(Governance.CreatePoll(old(State()), now, token, proposer, amount, executeMsgs, migrateMsgs), r)
    {
      if config.psiToken != Some(token) {
        return Err(Unauthorized);
      }
      balance := balance + amount;
      if amount < config.proposalDeposit {
        return Err(DepositTooSmall);
      }
      var id := pollCount + 1;
      pollCount := pollCount + 1;
      totalDeposit := totalDeposit + amount;
      var poll := Poll(id, proposer, InProgress, 0, 0, now + config.votingPeriod,
                       NonEmpty(executeMsgs), NonEmpty(migrateMsgs), amount, None, None);
      StoreNewPoll(id, poll);
      return Ok(());
    }

    method StoreNewPoll(id: nat, poll: Poll)
      modifies `polls, `indexer
      ensures polls == old(polls)[id := poll] && indexer == old(indexer) + {(poll.status, id)}
    {
      polls := polls[id := poll];
      indexer := indexer + {(poll.status, id)};
    }

    method MeasureTurnout(poll: Poll) returns (r: Result<(nat, nat), Error>)
      ensures r == Weigh(State(), poll)
    {
      if totalShare == 0 {
        return Ok((0, 0));
      }
      var weight;
      if poll.stakedAmount.Some? {
        weight := poll.stakedAmount.value;
      } else {
        weight :- QueryStaked();
      }
      if weight == 0 {
        return Err(DivideByZero);
      }
      return Ok((FromRatio(poll.yesVotes + poll.noVotes, weight), weight));
    }

    method FinishPoll(now: nat, id: nat) returns (r: Result<(), Error>)
      modifies this
      ensures Does(Governance.EndPoll(old(State()), now, id), r)
    {
      if id !in polls {
        return Err(PollMissing);
      }
      var poll := polls[id];
      if poll.status != InProgress {
        return Err(NotInProgress);
      }
      if poll.endTime > now {
        return Err(VotingNotOver);
      }
      var tallied := poll.yesVotes + poll.noVotes;
      var turnout :- MeasureTurnout(poll);
      var (quorum, weight) := turnout;
      var status, refund := Rejected, false;
      if tallied != 0 && quorum >= config.quorum {
        if FromRatio(poll.yesVotes, tallied) > config.threshold {
          status := Passed;
        }
        refund := poll.deposit != 0;
      }
      if totalDeposit < poll.deposit {
        return Err(Underflow);
      }
      totalDeposit := totalDeposit - poll.deposit;
      indexer := indexer - {(InProgress, id)};
      indexer := indexer + {(status, id)};
      polls := polls[id := poll.(status := status, totalBalanceAtEnd := Some(weight))];
      if refund {
        r := Transfer(poll.creator, poll.deposit);
        return;
      }
      return Ok(());
    }

    method NoteExecution(now: nat, id: nat) returns (r: Result<(), Error>)
      modifies this
      ensures Does(StartExecution(old(State()), now, id), r)
    {
      if id !in polls {
        return Err(PollMissing);
      }
      var poll := polls[id];
      if !poll.ContainsMessages() {
        return Err(NoMessages);
      }
      if poll.status != Passed {
        return Err(NotPassed);
      }
      if poll.endTime + config.timelockPeriod > now {
        return Err(TimelockNotOver);
      }
      tmpPollId := Some(id);
      return Ok(());
    }

    method ExecutePollMessages(now: nat, id: nat) returns (r: Result<(), Error>)
      modifies this
      ensures Does(SendMessages(old(State()), now, id), r)
    {
      if id !in polls {
        return Err(PollMissing);
      }
      var poll := polls[id];
      indexer := indexer - {(Passed, id)};
      indexer := indexer + {(Executed, id)};
      commits := commits + [Commit(id, now, config.timelockPeriod, poll.status, DispatchOrder(poll))];
      polls := polls[id := poll.(status := Executed)];
      return Ok(());
    }

    method MarkFailed(id: nat) returns (r: Result<(), Error>)
      modifies this
      ensures Does(FailPoll(old(State()), id), r)
    {
      if id !in polls {
        return Err(PollMissing);
      }
      indexer := indexer - {(Passed, id)};
      indexer := indexer + {(Failed, id)};
      polls := polls[id := polls[id].(status := Failed)];
      return Ok(());
    }

    method HandleReply(replyId: nat) returns (r: Result<(), Error>)
      modifies this
      ensures Does(Reply(old(State()), replyId), r)
    {
      if replyId != POLL_EXECUTE_REPLY_ID {
        return Err(InvalidReply);
      }
      if tmpPollId.None? {
        return Err(NoTmpPoll);
      }
      r := MarkFailed(tmpPollId.value);
    }

    method TakeSnapshot(now: nat, id: nat) returns (r: Result<(), Error>)
      modifies this
      ensures Does(SnapshotPoll(old(State()), now, id), r)
    {
      if id !in polls {
        return Err(PollMissing);
      }
      var poll := polls[id];
      if poll.status != InProgress {
        return Err(NotInProgress);
      }
      if poll.endTime < now {
        return Err(Underflow);
      }
      if poll.endTime - now > config.snapshotPeriod {
        return Err(CannotSnapshot);
      }
      if poll.stakedAmount.Some? {
        return Err(AlreadySnapshotted);
      }
      var staked :- QueryStaked();
      polls := polls[id := poll.(stakedAmount := Some(staked))];
      return Ok(());
    }

    method RecordVote(now: nat, sender: Addr, id: nat, vote: VoteOption, amount: nat) returns (r: Result<(), Error>)
      modifies this
      ensures Does(CastVote(old(State()), now, sender, id, vote, amount), r)
    {
      if id == 0 || pollCount < id || id !in polls {
        return Err(PollMissing);
      }
      var poll := polls[id];
      if poll.status != InProgress || now > poll.endTime {
        return Err(NotInProgress);
      }
      if (id, sender) in voters {
        return Err(AlreadyVoted);
      }
      var manager := LoadBank(State(), sender);
      var totalBalance :- QueryStaked();
      if totalShare == 0 {
        return Err(DivideByZero);
      }
      if MultiplyRatio(manager.share, totalBalance, totalShare) < amount {
        return Err(NotEnoughStaked);
      }
      if vote == Yes {
        poll := poll.(yesVotes := poll.yesVotes + amount);
      } else {
        poll := poll.(noVotes := poll.noVotes + amount);
      }
      var info := VoterInfo(vote, amount);
      manager := manager.(locked := manager.locked + [(id, info)]);
      bank := bank[sender := manager];
      voters := voters[(id, sender) := info];
      if poll.endTime - now < config.snapshotPeriod && poll.stakedAmount.None? {
        poll := poll.(stakedAmount := Some(totalBalance));
      }
      polls := polls[id := poll];
      return Ok(());
    }

    /** Drops the locks of polls that are over, with their entries among the votes, and returns the locks
        that remain and the largest of them. */
    method ComputeLockedBalance(voter: Addr, locked: seq<(nat, VoterInfo)>)
      returns (kept: seq<(nat, VoterInfo)>, largest: nat)
      requires forall e | e in locked :: e.0 in polls
      modifies `voters
      ensures kept == StillLocked(polls, locked)
      ensures voters == old(voters) - Released(polls, locked, voter)
      ensures largest == LargestLock(kept)
    {
      kept := [];
      for i := 0 to |locked|
        invariant kept == StillLocked(polls, locked[..i])
        invariant voters == old(voters) - Released(polls, locked[..i], voter)
      {
        var e := locked[i];
        assert locked[..i + 1][..i] == locked[..i] && locked[..i + 1] == locked[..i] + [e];
        if polls[e.0].status != InProgress {
          voters := voters - {(e.0, voter)};
          assert Released(polls, locked[..i + 1], voter) == Released(polls, locked[..i], voter) + {(e.0, voter)};
        } else {
          kept := kept + [e];
          assert Released(polls, locked[..i + 1], voter) == Released(polls, locked[..i], voter);
        }
      }
      assert locked[..|locked|] == locked;
      largest := 0;
      for i := 0 to |kept|
        invariant largest == LargestLock(kept[..i])
      {
        assert kept[..i + 1][..i] == kept[..i];
        if largest < kept[i].1.balance {
          largest := kept[i].1.balance;
        }
      }
      assert kept[..|kept|] == kept;
    }

    method PayOut(sender: Addr, wanted: Option<nat>) returns (r: Result<(), Error>)
      modifies this
      ensures Does(WithdrawVotingTokens(old(State()), sender, wanted), r)
    {
      if sender !in bank {
        return Err(NothingStaked);
      }
      var manager := bank[sender];
      var totalBalance :- QueryStaked();
      if exists e | e in manager.locked :: e.0 !in polls {
        return Err(PollMissing);
      }
      var kept, largest := ComputeLockedBalance(sender, manager.locked);
      var terms :- PriceWithdrawal(manager.share, largest, totalBalance, wanted);
      var (burned, paid) := terms;
      r := Burn(sender, TokenManager(manager.share - burned, kept), burned, paid, totalBalance);
    }

    method Burn(sender: Addr, left: TokenManager, burned: nat, paid: nat, totalBalance: nat) returns (r: Result<(), Error>)
      requires burned <= totalShare
      modifies this
      ensures Does(BurnAndPay(old(State()), sender, left, burned, paid, totalBalance), r)
    {
      bank := bank[sender := left];
      totalShare := totalShare - burned;
      overdrawn := overdrawn || paid > totalBalance;
      r := Transfer(sender, paid);
    }

    method PriceWithdrawal(userShare: nat, locked: nat, totalBalance: nat, wanted: Option<nat>)
      returns (r: Result<(nat, nat), Error>)
      ensures r == WithdrawalTerms(userShare, locked, totalShare, totalBalance, wanted)
      ensures r.Ok? ==> r.value.0 <= userShare && r.value.0 <= totalShare
    {
      if totalBalance == 0 {
        return Err(DivideByZero);
      }
      var lockedShare := MultiplyRatio(locked, totalShare, totalBalance);
      var burned, paid;
      if wanted.Some? {
        burned := Max(MultiplyRatio(wanted.value, totalShare, totalBalance), 1);
        paid := wanted.value;
      } else {
        if userShare < lockedShare {
          return Err(Underflow);
        }
        burned := userShare - lockedShare;
        if totalShare == 0 {
          return Err(DivideByZero);
        }
        paid := MultiplyRatio(burned, totalBalance, totalShare);
      }
      if lockedShare + burned > userShare {
        return Err(TooManyTokens);
      }
      if totalShare < burned {
        return Err(Underflow);
      }
      return Ok((burned, paid));
    }

    method Reconfigure(sender: Addr, change: ConfigChange) returns (r: Result<(), Error>)
      modifies this
      ensures Does(UpdateConfig(old(State()), sender, change), r)
    {
      if sender != config.owner {
        return Err(Unauthorized);
      }
      var current := config;
      if change.owner.Some? { current := current.(owner := change.owner.value); }
      if change.quorum.Some? { current := current.(quorum := change.quorum.value); }
      if change.threshold.Some? { current := current.(threshold := change.threshold.value); }
      if change.votingPeriod.Some? { current := current.(votingPeriod := change.votingPeriod.value); }
      if change.timelockPeriod.Some? { current := current.(timelockPeriod := change.timelockPeriod.value); }
      if change.proposalDeposit.Some? { current := current.(proposalDeposit := change.proposalDeposit.value); }
      if change.snapshotPeriod.Some? { current := current.(snapshotPeriod := change.snapshotPeriod.value); }
      config := current;
      return Ok(());
    }

    /** One message with everything it sets off. */
    method Dispatch(now: nat, call: Call) returns (r: Result<(), Error>)
      modifies this
      ensures Does(Exec(old(State()), now, call), r)
      decreases call, 1
    {
      match call {
        case Stake(token, sender, amount) => r := ReceiveStake(token, sender, amount);
        case Propose(token, sender, amount, e, m) => r := ReceivePoll(now, token, sender, amount, e, m);
        case Register(token, held) =>
          if config.psiToken.Some? {
            return Err(Unauthorized);
          }
          config := config.(psiToken := Some(token));
          balance := held;
          return Ok(());
        case Withdraw(sender, wanted) => r := PayOut(sender, wanted);
        case Vote(sender, id, vote, amount) => r := RecordVote(now, sender, id, vote, amount);
        case End(id) => r := FinishPoll(now, id);
        case Snapshot(id) => r := TakeSnapshot(now, id);
        case Configure(sender, change) => r := Reconfigure(sender, change);
        case Yourself(sender, id, script) =>
          if sender != self {
            return Err(Unauthorized);
          }
          r := ExecutePollMessages(now, id);
          if r.Ok? {
            r := Play(now, script);
          }
        case ExecutePoll(id, script) => r := RunExecution(now, id, script);
      }
    }

    /** A failed submessage of an execution is rolled back to the fields as they were before it, and then
        the reply runs. */
    method RunExecution(now: nat, id: nat, script: Script) returns (r: Result<(), Error>)
      modifies this
      ensures Does(Exec(old(State()), now, ExecutePoll(id, script)), r)
      decreases script, 1
    {
      r := NoteExecution(now, id);
      if r.Err? {
        return;
      }
      var saved := State();
      r := ExecutePollMessages(now, id);
      if r.Ok? {
        r := Play(now, script);
      }
      if r.Err? {
        Restore(saved);
        r := HandleReply(POLL_EXECUTE_REPLY_ID);
      }
    }

    method Play(now: nat, s: Script) returns (r: Result<(), Error>)
      modifies this
      ensures Does(RunScript(old(State()), now, s), r)
      decreases s, 0
    {
      match s {
        case Done => return Ok(());
        case Abort => return Err(Aborted);
        case Do(call, rest) =>
          r := Dispatch(now, call);
          if r.Ok? {
            r := Play(now, rest);
          }
        case Try(body, rest) =>
          var saved := State();
          var inner := Play(now, body);
          if inner.Err? {
            Restore(saved);
          }
          r := Play(now, rest);
        case Donate(amount, rest) =>
          balance := balance + amount;
          r := Play(now, rest);
      }
    }

    /** A whole transaction: a failing one leaves no trace. From a state that satisfies the invariant every
        transaction leads to one, and nothing recorded before is lost. */
    method ProcessTransaction(now: nat, s: Script)
      modifies this
      ensures State() == Transact(old(State()), now, s)
      ensures Inv(old(State())) && Tame(s, self) ==> Inv(State()) && Develops(old(State()), State())
    {
      var saved := State();
      var r := Play(now, s);
      if r.Err? {
        Restore(saved);
      }
      TransactionKeeps(saved, now, s);
    }
  }
}
