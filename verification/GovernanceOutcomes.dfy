/** Exactly when each command of the governance contract succeeds, and exactly what it then leaves behind,
    in products instead of rounded quotients. */
module GovernanceOutcomes {
  import opened Outcomes
  import opened FixedPoint
  import opened MapSums
  import opened Governance
  import opened GovernanceInvariant
  import opened GovernanceRuns
  import opened GovernanceResults

  function SharesOf(w: World, a: Addr): nat {
    if a in w.bank then w.bank[a].share else 0
  }

  function LocksOf(w: World, a: Addr): seq<(nat, VoterInfo)> {
    if a in w.bank then w.bank[a].locked else []
  }

  /** q is x * y / z, rounded down. */
  predicate IsPart(q: int, x: int, y: int, z: int) {
    q * z <= x * y < (q + 1) * z
  }

  lemma PartUnique(q: nat, x: nat, y: nat, z: nat)
    requires z > 0
    ensures IsPart(q, x, y, z) <==> q == x * y / z
  {
    DivBounds(x * y, z);
    if IsPart(q, x, y, z) {
      DivBelow(x * y, z, q);
      DivBelow(x * y, z, q + 1);
    }
  }

  // ----- staking -----

  /** The shares minted are the tokens' worth at the price before, rounded down; with no price, one a token. */
  predicate Minted(minted: int, amount: nat, totalShare: nat, backing: int) {
    if totalShare == 0 || backing == 0 then minted == amount else IsPart(minted, amount, totalShare, backing)
  }

  lemma StakeOutcome(w: World, token: Addr, sender: Addr, amount: nat)
    ensures StakeVotingTokens(w, token, sender, amount).Ok? <==>
              w.config.psiToken == Some(token) && amount > 0 && w.totalDeposit <= w.balance
    ensures StakeVotingTokens(w, token, sender, amount).Ok? ==>
              var v := StakeVotingTokens(w, token, sender, amount).value;
              && w.totalShare <= v.totalShare
              && Minted(v.totalShare - w.totalShare, amount, w.totalShare, Backing(w))
              && v == w.(balance := w.balance + amount, totalShare := v.totalShare,
                         bank := w.bank[sender := TokenManager(SharesOf(w, sender) + (v.totalShare - w.totalShare),
                                                               LocksOf(w, sender))])
  {
    if StakeVotingTokens(w, token, sender, amount).Ok? && Backing(w) > 0 {
      DivBounds(amount * w.totalShare, Backing(w));
    }
  }

  // ----- proposing and configuring -----

  function Messages(messages: Option<seq<Message>>): seq<Message> {
    if messages.Some? then messages.value else []
  }

  /** A proposal opens one poll with the given messages and the deposit; any deposit that is large enough,
      through the token, will do. */
  lemma ProposalOutcome(w: World, now: nat, token: Addr, proposer: Addr, amount: nat,
                        e: Option<seq<Message>>, m: Option<seq<Message>>)
    ensures CreatePoll(w, now, token, proposer, amount, e, m).Ok? <==>
              w.config.psiToken == Some(token) && amount >= w.config.proposalDeposit
    ensures CreatePoll(w, now, token, proposer, amount, e, m).Ok? ==>
              var v, id := CreatePoll(w, now, token, proposer, amount, e, m).value, w.pollCount + 1;
              && id in v.polls && Messages(v.polls[id].executeData) == Messages(e)
              && Messages(v.polls[id].migrateData) == Messages(m)
              && v.polls[id] == Poll(id, proposer, InProgress, 0, 0, now + w.config.votingPeriod,
                                     v.polls[id].executeData, v.polls[id].migrateData, amount, None, None)
              && v == w.(balance := w.balance + amount, totalDeposit := w.totalDeposit + amount, pollCount := id,
                         polls := w.polls[id := v.polls[id]], indexer := w.indexer + {(InProgress, id)})
  {}

  lemma ConfigurationOutcome(w: World, sender: Addr, change: ConfigChange)
    ensures UpdateConfig(w, sender, change).Ok? <==> sender == w.config.owner
    ensures sender == w.config.owner ==>
              var v := UpdateConfig(w, sender, change).value;
              && v == w.(config := v.config) && v.config.psiToken == w.config.psiToken
              && v.config.owner == (if change.owner.Some? then change.owner.value else w.config.owner)
              && v.config.quorum == (if change.quorum.Some? then change.quorum.value else w.config.quorum)
              && v.config.threshold == (if change.threshold.Some? then change.threshold.value else w.config.threshold)
              && v.config.votingPeriod
                 == (if change.votingPeriod.Some? then change.votingPeriod.value else w.config.votingPeriod)
              && v.config.timelockPeriod
                 == (if change.timelockPeriod.Some? then change.timelockPeriod.value else w.config.timelockPeriod)
              && v.config.proposalDeposit
                 == (if change.proposalDeposit.Some? then change.proposalDeposit.value else w.config.proposalDeposit)
              && v.config.snapshotPeriod
                 == (if change.snapshotPeriod.Some? then change.snapshotPeriod.value else w.config.snapshotPeriod)
  {}

  /** The token is registered once, by anybody, and nothing else changes. */
  lemma RegistrationOutcome(w: World, token: Addr, held: nat, again: Addr, heldThen: nat)
    ensures RegisterToken(w, token, held).Ok? <==> w.config.psiToken.None?
    ensures w.config.psiToken.None? ==>
              var v := RegisterToken(w, token, held).value;
              && v == w.(balance := held, config := w.config.(psiToken := Some(token)))
              && RegisterToken(v, again, heldThen).Err?
  {}

  // ----- voting -----

  /** The voter's shares are worth the amount at the present price. */
  predicate Worth(w: World, voter: Addr, amount: nat) {
    w.totalShare > 0 && amount * w.totalShare <= SharesOf(w, voter) * Backing(w)
  }

  /** A vote is accepted exactly when the poll is open and not over, the voter has not voted on it yet, and
      the voter's shares are worth the amount. */
  lemma VoteAcceptedIff(w: World, now: nat, sender: Addr, id: nat, vote: VoteOption, amount: nat)
    requires Inv(w)
    ensures CastVote(w, now, sender, id, vote, amount).Ok? <==>
              && id in w.polls && w.polls[id].status == InProgress && now <= w.polls[id].endTime
              && (id, sender) !in w.voters && Worth(w, sender, amount)
  {
    if w.totalShare > 0 {
      TokenRegistered(w);
      WorthRounded(w, sender, amount);
    }
    VoteAccepted(w, now, sender, id, vote, amount);
  }

  lemma WorthRounded(w: World, voter: Addr, amount: nat)
    requires w.totalShare > 0 && w.totalDeposit <= w.balance
    ensures amount <= MultiplyRatio(SharesOf(w, voter), Backing(w), w.totalShare) <==> Worth(w, voter, amount)
  {
    DivBelow(SharesOf(w, voter) * Backing(w), w.totalShare, amount);
  }

  lemma TokenRegistered(w: World)
    requires Inv(w) && w.totalShare > 0
    ensures w.config.psiToken.Some? && w.totalDeposit < w.balance
    ensures forall id | id in w.polls :: 1 <= id <= w.pollCount
  {}

  lemma VoteAccepted(w: World, now: nat, sender: Addr, id: nat, vote: VoteOption, amount: nat)
    requires w.totalShare > 0 ==> w.config.psiToken.Some? && w.totalDeposit < w.balance
    requires w.totalShare > 0 ==> forall id | id in w.polls :: 1 <= id <= w.pollCount
    ensures CastVote(w, now, sender, id, vote, amount).Ok? <==>
              && id in w.polls && w.polls[id].status == InProgress && now <= w.polls[id].endTime
              && (id, sender) !in w.voters && w.totalShare > 0
              && amount <= MultiplyRatio(SharesOf(w, sender), Backing(w), w.totalShare)
  {}

  /** A vote counts its amount, locks it and records it. The first vote less than the snapshot period before
      the end also snapshots the stake, and no vote does so otherwise. */
  lemma VoteOutcome(w: World, now: nat, sender: Addr, id: nat, vote: VoteOption, amount: nat)
    requires CastVote(w, now, sender, id, vote, amount).Ok?
    ensures id in w.polls && now <= w.polls[id].endTime && Backing(w) >= 0
    ensures var v, poll := CastVote(w, now, sender, id, vote, amount).value, w.polls[id];
            var late := poll.endTime - now < w.config.snapshotPeriod && poll.stakedAmount.None?;
            && id in v.polls
            && v.polls[id] == poll.(yesVotes := poll.yesVotes + (if vote == Yes then amount else 0),
                                    noVotes := poll.noVotes + (if vote == No then amount else 0),
                                    stakedAmount := if late then Some(w.balance - w.totalDeposit) else poll.stakedAmount)
            && v == w.(polls := w.polls[id := v.polls[id]],
                       voters := w.voters[(id, sender) := VoterInfo(vote, amount)],
                       bank := w.bank[sender := TokenManager(SharesOf(w, sender),
                                                             LocksOf(w, sender) + [(id, VoterInfo(vote, amount))])])
  {}

  /** A snapshot is taken by anybody, once, of an open poll within the snapshot period before its end; it
      stores the stake without the open deposits. */
  lemma SnapshotOutcome(w: World, now: nat, id: nat)
    ensures SnapshotPoll(w, now, id).Ok? <==>
              && id in w.polls && w.polls[id].status == InProgress && w.polls[id].stakedAmount.None?
              && now <= w.polls[id].endTime <= now + w.config.snapshotPeriod
              && w.config.psiToken.Some? && w.totalDeposit <= w.balance
    ensures SnapshotPoll(w, now, id).Ok? ==>
              SnapshotPoll(w, now, id).value
              == w.(polls := w.polls[id := w.polls[id].(stakedAmount := Some(w.balance - w.totalDeposit))])
  {}

  // ----- ending -----

  /** Ending a poll: the verdict, the deposit and the index, with nothing else changed. When it is possible
      is the subject of EndSucceedsIff. */
  lemma EndOutcome(w: World, now: nat, id: nat)
    requires EndPoll(w, now, id).Ok?
    ensures Expired(w, now, id) && w.polls[id].deposit <= w.totalDeposit
    ensures var poll := w.polls[id];
            var status, refund := if Carried(w, poll) then Passed else Rejected, if Quorate(w, poll) then poll.deposit else 0;
            && refund <= w.balance && (w.totalShare > 0 ==> Electorate(w, poll) > 0)
            && EndPoll(w, now, id).value
            == w.(totalDeposit := w.totalDeposit - poll.deposit, balance := w.balance - refund,
                  sent := w.sent + (if refund > 0 then [Payment(poll.creator, refund)] else []),
                  indexer := w.indexer - {(InProgress, id)} + {(status, id)},
                  polls := w.polls[id := poll.(status := status,
                                               totalBalanceAtEnd := Some(if w.totalShare == 0 then 0
                                                                         else Electorate(w, poll)))])
  {
    EndEffect(w, now, id);
    EndVerdict(w, now, id);
    EndWeighed(w, now, id);
    DecidedExactly(w, w.polls[id]);
  }

  lemma EndWeighed(w: World, now: nat, id: nat)
    requires EndPoll(w, now, id).Ok?
    ensures Expired(w, now, id) && (w.totalShare > 0 ==> Electorate(w, w.polls[id]) > 0)
  {}

  // ----- executing -----

  /** An execution may start exactly when the poll has passed, proposes some message, and its timelock has
      run out. */
  lemma ExecutionStartsIff(w: World, now: nat, id: nat)
    ensures StartExecution(w, now, id).Ok? <==>
              && id in w.polls && w.polls[id].status == Passed
              && Messages(w.polls[id].executeData) + Messages(w.polls[id].migrateData) != []
              && w.polls[id].endTime + w.config.timelockPeriod <= now
  {}

  /** Of each kind all messages are sent, sorted by order number, and executions go before migrations. */
  lemma DispatchIsComplete(poll: Poll, order: nat)
    ensures var sent, n := DispatchOrder(poll), |Messages(poll.executeData)|;
            && |sent| == n + |Messages(poll.migrateData)|
            && Ordered(sent[..n]) && WithOrder(sent[..n], order) == WithOrder(Messages(poll.executeData), order)
            && Ordered(sent[n..]) && WithOrder(sent[n..], order) == WithOrder(Messages(poll.migrateData), order)
  {
    var e, m := Messages(poll.executeData), Messages(poll.migrateData);
    SortKeepsLength(e);
    SortKeepsLength(m);
    SortIsStable(e, order);
    SortIsStable(m, order);
    assert DispatchOrder(poll)[..|e|] == SortByOrder(e) && DispatchOrder(poll)[|e|..] == SortByOrder(m);
  }

  lemma {:induction false} SortKeepsLength(messages: seq<Message>)
    ensures |SortByOrder(messages)| == |messages|
  {
    if messages != [] {
      SortKeepsLength(messages[..|messages| - 1]);
      InsertKeepsLength(SortByOrder(messages[..|messages| - 1]), messages[|messages| - 1]);
    }
  }

  lemma {:induction false} InsertKeepsLength(sorted: seq<Message>, m: Message)
    ensures |Insert(sorted, m)| == |sorted| + 1
  {
    if sorted != [] && sorted[|sorted| - 1].order > m.order {
      InsertKeepsLength(sorted[..|sorted| - 1], m);
    }
  }

  /** Only the known reply is handled, and only when an execution has been noted. */
  lemma ReplyOutcome(w: World, replyId: nat)
    ensures Reply(w, replyId).Ok? <==> replyId == 1 && w.tmpPollId.Some? && w.tmpPollId.value in w.polls
    ensures Reply(w, replyId).Ok? ==>
              var id := w.tmpPollId.value;
              Reply(w, replyId).value
              == w.(polls := w.polls[id := w.polls[id].(status := Failed)],
                    indexer := w.indexer - {(Passed, id)} + {(Failed, id)})
  {}

  /** The internal message is refused to everybody but the contract itself. */
  lemma OnlyItselfSends(w: World, now: nat, sender: Addr, id: nat, script: Script)
    requires Exec(w, now, Yourself(sender, id, script)).Ok?
    ensures sender == w.self && id in w.polls
  {}

  /** What is sent is what was proposed: after a proposal, whatever happens, the poll keeps its messages and
      its end, and every commit of it is made of them, complete and sorted, and not before the timelock that
      follows the voting period. */
  lemma ProposalIsWhatExecutes(w: World, now: nat, token: Addr, proposer: Addr, amount: nat,
                               e: Option<seq<Message>>, m: Option<seq<Message>>,
                               later: seq<(nat, Script)>, c: Commit, order: nat)
    requires Inv(w) && CreatePoll(w, now, token, proposer, amount, e, m).Ok?
    requires forall t | t in later :: Tame(t.1, w.self)
    requires c in History(CreatePoll(w, now, token, proposer, amount, e, m).value, later).commits
    requires c.pollId == w.pollCount + 1
    ensures c.at >= now + w.config.votingPeriod + c.timelock
    ensures var n := |Messages(e)|;
            && |c.messages| == n + |Messages(m)|
            && Ordered(c.messages[..n]) && WithOrder(c.messages[..n], order) == WithOrder(Messages(e), order)
            && Ordered(c.messages[n..]) && WithOrder(c.messages[n..], order) == WithOrder(Messages(m), order)
  {
    var v, id := CreatePoll(w, now, token, proposer, amount, e, m).value, w.pollCount + 1;
    ProposalOutcome(w, now, token, proposer, amount, e, m);
    CreateKeepsInv(w, now, token, proposer, amount, e, m);
    HistoryDevelops(v, later);
    CommittedAsProposed(v, History(v, later), id, c);
    DispatchIsComplete(v.polls[id], order);
  }

  lemma CommittedAsProposed(v: World, u: World, id: nat, c: Commit)
    requires Inv(u) && Develops(v, u) && id in v.polls && c in u.commits && c.pollId == id
    ensures c.messages == DispatchOrder(v.polls[id]) && c.at >= v.polls[id].endTime + c.timelock
  {
    assert CommitSound(c, u.polls) && PollDevelops(v.polls[id], u.polls[id]);
  }

  // ----- withdrawing -----

  /** The shares an explicit withdrawal burns: the tokens' worth rounded down, but at least one. */
  predicate IsBurn(burned: int, amount: nat, totalShare: nat, backing: int) {
    && burned >= 1
    && amount * totalShare < (burned + 1) * backing
    && (burned == 1 || burned * backing <= amount * totalShare)
  }

  lemma BurnUnique(burned: nat, amount: nat, totalShare: nat, backing: nat)
    requires backing > 0
    ensures IsBurn(burned, amount, totalShare, backing) <==> burned == BurnedFor(amount, totalShare, backing)
  {
    var worth := MultiplyRatio(amount, totalShare, backing);
    PartUnique(worth, amount, totalShare, backing);
    PartUnique(burned, amount, totalShare, backing);
    if IsBurn(burned, amount, totalShare, backing) && burned == 1 {
      DivBelow(amount * totalShare, backing, 2);
    }
    if worth == 0 {
      MulMonotone(1, 2, backing);
    }
  }

  lemma LargestVoteUnique(w: World, voter: Addr, a: nat, b: nat)
    requires IsLargestOpenVote(w, voter, a) && IsLargestOpenVote(w, voter, b)
    ensures a == b
  {}

  /** What a withdrawal leaves: the shares and tokens of its terms are gone, and so are, with their locks,
      the sender's votes on polls that are over; the votes on open polls stay. */
  ghost predicate Leaves(w: World, v: World, sender: Addr, burned: int, paid: int) {
    && sender in w.bank && sender in v.bank
    && v == w.(bank := w.bank[sender := v.bank[sender]], voters := v.voters, totalShare := v.totalShare,
               balance := v.balance, overdrawn := v.overdrawn, sent := v.sent)
    && v.bank[sender].share == w.bank[sender].share - burned
    && v.totalShare == w.totalShare - burned && v.balance == w.balance - paid
    && (v.overdrawn <==> w.overdrawn || paid > Backing(w))
    && paid >= 0 && v.sent == w.sent + [Payment(sender, paid)]
    && (forall e :: e in v.bank[sender].locked <==>
          e in w.bank[sender].locked && e.0 in w.polls && w.polls[e.0].status == InProgress)
    && (forall k :: k in v.voters <==>
          k in w.voters && (k.1 == sender && k.0 in w.polls ==> w.polls[k.0].status == InProgress))
    && (forall k | k in v.voters :: k in w.voters && v.voters[k] == w.voters[k])
  }

  lemma WithdrawalLeaves(w: World, sender: Addr, burned: nat, paid: nat)
    requires Inv(w) && sender in w.bank && forall e | e in w.bank[sender].locked :: e.0 in w.polls
    requires burned <= w.bank[sender].share && burned <= w.totalShare && paid <= w.balance
    ensures Leaves(w, Withdrawn(w, sender, burned, paid), sender, burned, paid)
  {
    assert LocksRecorded(sender, w.bank[sender].locked, w.voters);
    StillLockedKeeps(w.polls, w.bank[sender].locked);
    var gone := Released(w.polls, w.bank[sender].locked, sender);
    forall k | k in w.voters
      ensures k in gone <==> k.1 == sender && k.0 in w.polls && w.polls[k.0].status != InProgress
    {
      assert (k.0, w.voters[k]) in w.bank[k.1].locked;
      if k.1 == sender && k.0 in w.polls && w.polls[k.0].status != InProgress {
        assert (k.0, w.voters[k]).0 == k.0;
      }
    }
  }

  /** The terms of a withdrawal, on top of the shares that cover the lock. */
  predicate Terms(userShare: int, cover: int, totalShare: nat, backing: int, wanted: Option<nat>, burned: int, paid: int) {
    match wanted
    case Some(amount) => IsBurn(burned, amount, totalShare, backing) && paid == amount
    case None => burned == userShare - cover && IsPart(paid, burned, backing, totalShare)
  }

  lemma TermsExactly(userShare: nat, locked: nat, totalShare: nat, backing: nat, wanted: Option<nat>,
                     cover: nat, burned: int, paid: int)
    requires 0 < totalShare && 0 < backing && userShare <= totalShare
    requires IsPart(cover, locked, totalShare, backing)
    requires Terms(userShare, cover, totalShare, backing, wanted, burned, paid)
    ensures WithdrawalTerms(userShare, locked, totalShare, backing, wanted).Ok?
       <==> 0 <= burned && cover + burned <= userShare
    ensures WithdrawalTerms(userShare, locked, totalShare, backing, wanted).Ok? ==>
              WithdrawalTerms(userShare, locked, totalShare, backing, wanted) == Ok((burned, paid))
  {
    PartUnique(cover, locked, totalShare, backing);
    if wanted.Some? {
      BurnUnique(burned, wanted.value, totalShare, backing);
    } else if burned >= 0 {
      MulMonotone(0, burned, backing);
      PartNonNegative(paid, burned, backing, totalShare);
      PartUnique(paid, burned, backing, totalShare);
    }
  }

  lemma PartNonNegative(q: int, x: nat, y: nat, z: nat)
    requires z > 0 && IsPart(q, x, y, z)
    ensures q >= 0
  {
    MulMonotone(0, x, y);
    if q < 0 {
      MulMonotone(q + 1, 0, z);
    }
  }

  lemma ShareWithinTotal(w: World, a: Addr)
    requires Inv(w) && a in w.bank
    ensures w.bank[a].share <= w.totalShare
  {
    assert Shares(w.bank)[a] == w.bank[a].share;
    SumNonNegative(Shares(w.bank));
  }

  /** Exactly when a withdrawal succeeds: the sender's shares suffice for those burned on top of those that
      cover the largest open vote, and the contract holds the tokens. */
  lemma WithdrawalSucceedsIff(w: World, sender: Addr, wanted: Option<nat>, largest: nat, cover: nat, burned: int, paid: int)
    requires Inv(w) && IsLargestOpenVote(w, sender, largest)
    requires w.totalShare > 0 ==>
               IsPart(cover, largest, w.totalShare, Backing(w))
               && Terms(SharesOf(w, sender), cover, w.totalShare, Backing(w), wanted, burned, paid)
    ensures WithdrawVotingTokens(w, sender, wanted).Ok? <==>
              && w.totalShare > 0 && sender in w.bank
              && 0 <= burned && cover + burned <= w.bank[sender].share && paid <= w.balance
    ensures WithdrawVotingTokens(w, sender, wanted).Ok? ==>
              Leaves(w, WithdrawVotingTokens(w, sender, wanted).value, sender, burned, paid)
  {
    if w.totalShare > 0 && sender in w.bank {
      TokenRegistered(w);
      LockIsLargestOpenVote(w, sender);
      var locked := LargestLock(StillLocked(w.polls, w.bank[sender].locked));
      LargestVoteUnique(w, sender, largest, locked);
      ShareWithinTotal(w, sender);
      TermsExactly(w.bank[sender].share, largest, w.totalShare, Backing(w), wanted, cover, burned, paid);
      WithdrawalByTerms(w, sender, wanted);
      if WithdrawVotingTokens(w, sender, wanted).Ok? {
        var b, p := WithdrawalUsesTerms(w, sender, wanted);
        WithdrawalLeaves(w, sender, b, p);
      }
    } else {
      NothingToWithdraw(w, sender, wanted);
    }
  }

  lemma WithdrawalByTerms(w: World, sender: Addr, wanted: Option<nat>)
    requires w.config.psiToken.Some? && w.totalDeposit <= w.balance && sender in w.bank
    requires forall e | e in w.bank[sender].locked :: e.0 in w.polls
    ensures var terms := WithdrawalTerms(w.bank[sender].share, LargestLock(StillLocked(w.polls, w.bank[sender].locked)),
                                         w.totalShare, Backing(w), wanted);
            WithdrawVotingTokens(w, sender, wanted).Ok? <==> terms.Ok? && terms.value.1 <= w.balance
  {}

  lemma NothingToWithdraw(w: World, sender: Addr, wanted: Option<nat>)
    requires Inv(w) && (w.totalShare == 0 || sender !in w.bank)
    ensures WithdrawVotingTokens(w, sender, wanted).Err?
  {
    if sender in w.bank {
      ShareWithinTotal(w, sender);
    }
  }

  /** Terms exist, so every successful withdrawal has them. */
  lemma TermsExist(userShare: nat, totalShare: nat, backing: nat, wanted: Option<nat>, locked: nat)
    returns (cover: nat, burned: int, paid: int)
    requires 0 < totalShare && 0 < backing
    ensures IsPart(cover, locked, totalShare, backing)
    ensures cover <= userShare || wanted.Some? ==>
              Terms(userShare, cover, totalShare, backing, wanted, burned, paid)
    ensures cover > userShare && wanted.None? ==> burned < 0
  {
    cover := locked * totalShare / backing;
    PartUnique(cover, locked, totalShare, backing);
    if wanted.Some? {
      burned, paid := BurnedFor(wanted.value, totalShare, backing), wanted.value;
      BurnUnique(burned, wanted.value, totalShare, backing);
    } else {
      burned, paid := userShare - cover, 0;
      if burned >= 0 {
        paid := burned * backing / totalShare;
        PartUnique(paid, burned, backing, totalShare);
      }
    }
  }

  /** What any successful withdrawal burns, pays and leaves. */
  lemma WithdrawalOutcome(w: World, sender: Addr, wanted: Option<nat>)
    returns (largest: nat, cover: nat, burned: int, paid: int)
    requires Inv(w) && WithdrawVotingTokens(w, sender, wanted).Ok?
    ensures sender in w.bank && IsLargestOpenVote(w, sender, largest)
    ensures IsPart(cover, largest, w.totalShare, Backing(w))
    ensures Terms(w.bank[sender].share, cover, w.totalShare, Backing(w), wanted, burned, paid)
    ensures cover + burned <= w.bank[sender].share
    ensures Leaves(w, WithdrawVotingTokens(w, sender, wanted).value, sender, burned, paid)
  {
    if w.totalShare == 0 || sender !in w.bank {
      NothingToWithdraw(w, sender, wanted);
    }
    TokenRegistered(w);
    LockIsLargestOpenVote(w, sender);
    largest := LargestLock(StillLocked(w.polls, w.bank[sender].locked));
    cover, burned, paid := TermsExist(w.bank[sender].share, w.totalShare, Backing(w), wanted, largest);
    CoverHeld(w, sender, wanted, largest, cover);
    WithdrawalSucceedsIff(w, sender, wanted, largest, cover, burned, paid);
  }

  lemma CoverHeld(w: World, sender: Addr, wanted: Option<nat>, largest: nat, cover: nat)
    requires WithdrawVotingTokens(w, sender, wanted).Ok?
    requires sender in w.bank && forall e | e in w.bank[sender].locked :: e.0 in w.polls
    requires largest == LargestLock(StillLocked(w.polls, w.bank[sender].locked))
    requires IsPart(cover, largest, w.totalShare, Backing(w))
    ensures cover <= w.bank[sender].share
  {
    var burned, paid := WithdrawalUsesTerms(w, sender, wanted);
    PartUnique(cover, largest, w.totalShare, Backing(w));
  }
}
