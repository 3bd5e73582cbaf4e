/** What every command of the governance contract keeps. */
module GovernanceInvariant {
  import opened Outcomes
  import opened FixedPoint
  import opened MapSums
  import opened Governance

  // ----- the parts of the invariant -----

  ghost predicate PollsNumbered(pollCount: nat, polls: map<nat, Poll>) {
    && (forall id :: id in polls <==> 1 <= id <= pollCount)
    && (forall id | id in polls :: polls[id].id == id)
  }

  /** The status index lists every poll under its status and nothing else. */
  ghost predicate IndexMatches(indexer: set<(PollStatus, nat)>, polls: map<nat, Poll>) {
    forall status: PollStatus, id: nat ::
      (status, id) in indexer <==> id in polls && polls[id].status == status
  }

  ghost function Shares(bank: map<Addr, TokenManager>): map<Addr, int> {
    map a | a in bank :: bank[a].share
  }

  ghost function OpenDeposits(polls: map<nat, Poll>): map<nat, int> {
    map id | id in polls :: if polls[id].status.InProgress? then polls[id].deposit else 0
  }

  ghost predicate SharesAddUp(totalShare: nat, bank: map<Addr, TokenManager>) {
    totalShare == Sum(Shares(bank))
  }

  ghost predicate DepositsAddUp(totalDeposit: nat, polls: map<nat, Poll>) {
    totalDeposit == Sum(OpenDeposits(polls))
  }

  predicate DistinctIds(locked: seq<(nat, VoterInfo)>) {
    forall i, j | 0 <= i < j < |locked| :: locked[i].0 != locked[j].0
  }

  predicate LocksRecorded(a: Addr, locked: seq<(nat, VoterInfo)>, voters: map<(nat, Addr), VoterInfo>) {
    DistinctIds(locked) && forall e | e in locked :: (e.0, a) in voters && voters[(e.0, a)] == e.1
  }

  /** A vote is recorded for a poll exactly when it occurs, once, among the voter's locks. */
  ghost predicate LocksMatchVotes(bank: map<Addr, TokenManager>, voters: map<(nat, Addr), VoterInfo>) {
    && (forall a | a in bank :: LocksRecorded(a, bank[a].locked, voters))
    && (forall k | k in voters :: k.1 in bank && (k.0, voters[k]) in bank[k.1].locked)
  }

  ghost predicate VotesHavePolls(voters: map<(nat, Addr), VoterInfo>, polls: map<nat, Poll>) {
    forall k | k in voters :: k.0 in polls
  }

  /** The recorded balances behind one option of one poll; other entries count 0. */
  ghost function Ballots(voters: map<(nat, Addr), VoterInfo>, id: nat, vote: VoteOption): map<(nat, Addr), int> {
    map k | k in voters :: if k.0 == id && voters[k].vote == vote then voters[k].balance else 0
  }

  ghost predicate Tallied(poll: Poll, voters: map<(nat, Addr), VoterInfo>, id: nat) {
    poll.status.InProgress? ==>
      && poll.yesVotes == Sum(Ballots(voters, id, Yes))
      && poll.noVotes == Sum(Ballots(voters, id, No))
  }

  ghost predicate TalliesMatch(polls: map<nat, Poll>, voters: map<(nat, Addr), VoterInfo>) {
    forall id | id in polls :: Tallied(polls[id], voters, id)
  }

  /** Messages were sent for executed polls only, each poll's once, all of them, after it had passed and
      its timelock had run out. */
  ghost predicate CommitSound(c: Commit, polls: map<nat, Poll>) {
    && c.pollId in polls && polls[c.pollId].status == Executed
    && c.before == Passed && c.at >= polls[c.pollId].endTime + c.timelock
    && polls[c.pollId].ContainsMessages() && c.messages == DispatchOrder(polls[c.pollId])
  }

  ghost predicate CommitsSound(commits: seq<Commit>, polls: map<nat, Poll>) {
    && (forall c | c in commits :: CommitSound(c, polls))
    && (forall i, j | 0 <= i < j < |commits| :: commits[i].pollId != commits[j].pollId)
    && (forall id | id in polls && polls[id].status == Executed :: exists c | c in commits :: c.pollId == id)
  }

  /** The balance behind the shares, as an integer. */
  function Backing(w: World): int {
    w.balance - w.totalDeposit
  }

  /** While anybody holds a share the balance exceeds the open deposits. With no share left it covers them,
      unless a withdrawal once took more than all stakes together. */
  predicate Solvent(w: World) {
    && (w.totalShare > 0 ==> w.totalDeposit < w.balance)
    && (w.overdrawn || w.totalDeposit <= w.balance)
  }

  ghost predicate Inv(w: World) {
    && PollsNumbered(w.pollCount, w.polls)
    && IndexMatches(w.indexer, w.polls)
    && SharesAddUp(w.totalShare, w.bank)
    && DepositsAddUp(w.totalDeposit, w.polls)
    && LocksMatchVotes(w.bank, w.voters)
    && VotesHavePolls(w.voters, w.polls)
    && TalliesMatch(w.polls, w.voters)
    && CommitsSound(w.commits, w.polls)
    && Solvent(w)
    && (w.config.psiToken.None? ==> w.totalDeposit == 0 == w.totalShare)
  }

  lemma InstantiatedInv(self: Addr, config: Config)
    ensures Inv(Instantiated(self, config))
  {}

  // ----- sums -----

  lemma SharePut(bank: map<Addr, TokenManager>, a: Addr, manager: TokenManager)
    ensures Sum(Shares(bank[a := manager]))
         == Sum(Shares(bank)) - (if a in bank then bank[a].share else 0) + manager.share
    ensures a in bank ==> bank[a].share <= Sum(Shares(bank))
  {
    assert Shares(bank[a := manager]) == Shares(bank)[a := manager.share];
    SumPut(Shares(bank), a, manager.share);
    SumNonNegative(Shares(bank));
  }

  function OpenDeposit(poll: Poll): nat {
    if poll.status.InProgress? then poll.deposit else 0
  }

  lemma DepositPut(polls: map<nat, Poll>, id: nat, poll: Poll)
    ensures Sum(OpenDeposits(polls[id := poll]))
         == Sum(OpenDeposits(polls)) - (if id in polls then OpenDeposit(polls[id]) else 0) + OpenDeposit(poll)
    ensures id in polls ==> OpenDeposit(polls[id]) <= Sum(OpenDeposits(polls))
  {
    assert OpenDeposits(polls[id := poll]) == OpenDeposits(polls)[id := OpenDeposit(poll)];
    SumPut(OpenDeposits(polls), id, OpenDeposit(poll));
    SumNonNegative(OpenDeposits(polls));
  }

  lemma BallotPut(voters: map<(nat, Addr), VoterInfo>, k: (nat, Addr), info: VoterInfo, id: nat, vote: VoteOption)
    requires k !in voters
    ensures Sum(Ballots(voters[k := info], id, vote))
         == Sum(Ballots(voters, id, vote)) + if k.0 == id && info.vote == vote then info.balance else 0
  {
    var x := if k.0 == id && info.vote == vote then info.balance else 0;
    assert Ballots(voters[k := info], id, vote) == Ballots(voters, id, vote)[k := x];
    SumPut(Ballots(voters, id, vote), k, x);
  }

  /** Forgetting entries of other polls leaves the ballots of a poll alone. */
  lemma {:induction false} BallotsKept(voters: map<(nat, Addr), VoterInfo>, gone: set<(nat, Addr)>, id: nat, vote: VoteOption)
    requires forall k | k in gone :: k.0 != id
    ensures Sum(Ballots(voters - gone, id, vote)) == Sum(Ballots(voters, id, vote))
    decreases |gone|
  {
    if gone == {} {
      assert voters - gone == voters;
    } else {
      var k :| k in gone;
      BallotsKept(voters, gone - {k}, id, vote);
      var most := voters - (gone - {k});
      assert voters - gone == most - {k};
      assert Ballots(most - {k}, id, vote) == Ballots(most, id, vote) - {k};
      SumDrop(Ballots(most, id, vote), k);
    }
  }

  lemma NoBallots(voters: map<(nat, Addr), VoterInfo>, id: nat, vote: VoteOption)
    requires forall k | k in voters :: k.0 != id
    ensures Sum(Ballots(voters, id, vote)) == 0
  {
    BallotsKept(voters, voters.Keys, id, vote);
    assert voters - voters.Keys == map[];
    assert Ballots(map[], id, vote) == map[];
  }

  // ----- staking and proposing -----

  /** Changing a share, or opening an account, leaves the locks alone. */
  lemma ShareKeepsLocks(bank: map<Addr, TokenManager>, voters: map<(nat, Addr), VoterInfo>, a: Addr, share: nat)
    requires LocksMatchVotes(bank, voters)
    ensures LocksMatchVotes(bank[a := (if a in bank then bank[a] else NO_TOKENS).(share := share)], voters)
  {}

  lemma StakeKeepsInv(w: World, token: Addr, sender: Addr, amount: nat)
    requires Inv(w) && StakeVotingTokens(w, token, sender, amount).Ok?
    ensures Inv(StakeVotingTokens(w, token, sender, amount).value)
  {
    var w' := StakeVotingTokens(w, token, sender, amount).value;
    SharePut(w.bank, sender, w'.bank[sender]);
    ShareKeepsLocks(w.bank, w.voters, sender, w'.bank[sender].share);
  }

  /** A poll that nobody has voted on yet. */
  lemma NewPollTallied(polls: map<nat, Poll>, voters: map<(nat, Addr), VoterInfo>, id: nat, poll: Poll)
    requires TalliesMatch(polls, voters) && VotesHavePolls(voters, polls) && id !in polls
    requires poll.yesVotes == 0 == poll.noVotes
    ensures TalliesMatch(polls[id := poll], voters)
  {
    NoBallots(voters, id, Yes);
    NoBallots(voters, id, No);
    var polls' := polls[id := poll];
    forall p | p in polls' ensures Tallied(polls'[p], voters, p) {
      assert p != id ==> Tallied(polls[p], voters, p);
    }
  }

  lemma CreateKeepsInv(w: World, now: nat, token: Addr, proposer: Addr, amount: nat,
                       e: Option<seq<Message>>, m: Option<seq<Message>>)
    requires Inv(w) && CreatePoll(w, now, token, proposer, amount, e, m).Ok?
    ensures Inv(CreatePoll(w, now, token, proposer, amount, e, m).value)
  {
    var w' := CreatePoll(w, now, token, proposer, amount, e, m).value;
    var id := w.pollCount + 1;
    DepositPut(w.polls, id, w'.polls[id]);
    NewPollTallied(w.polls, w.voters, id, w'.polls[id]);
    CommitsKept(w.commits, w.polls, id, w'.polls[id]);
  }

  // ----- changes to one poll -----

  /** A change that keeps what commits look at, in a poll that is not executed before or after. */
  lemma CommitsKept(commits: seq<Commit>, polls: map<nat, Poll>, id: nat, poll: Poll)
    requires CommitsSound(commits, polls)
    requires id in polls ==> polls[id].status != Executed
    requires poll.status != Executed
    ensures CommitsSound(commits, polls[id := poll])
  {}

  /** An open poll whose votes and deposit are untouched while its status or its snapshot changes. */
  lemma PollChangeKeeps(w: World, id: nat, poll: Poll)
    requires Inv(w) && id in w.polls && poll.id == id
    requires w.polls[id].status != Executed && poll.status != Executed
    requires poll.status.InProgress? ==>
               w.polls[id].status.InProgress? && poll.yesVotes == w.polls[id].yesVotes && poll.noVotes == w.polls[id].noVotes
    ensures var polls := w.polls[id := poll];
            && PollsNumbered(w.pollCount, polls) && VotesHavePolls(w.voters, polls)
            && TalliesMatch(polls, w.voters) && CommitsSound(w.commits, polls)
            && Sum(OpenDeposits(polls)) == w.totalDeposit - OpenDeposit(w.polls[id]) + OpenDeposit(poll)
            && OpenDeposit(w.polls[id]) <= w.totalDeposit
            && IndexMatches(Reindex(w.indexer, id, w.polls[id].status, poll.status), polls)
  {
    assert Tallied(w.polls[id], w.voters, id);
    CommitsKept(w.commits, w.polls, id, poll);
    DepositPut(w.polls, id, poll);
    ReindexMatches(w.indexer, w.polls, id, poll);
  }

  lemma ReindexMatches(indexer: set<(PollStatus, nat)>, polls: map<nat, Poll>, id: nat, poll: Poll)
    requires IndexMatches(indexer, polls) && id in polls
    ensures IndexMatches(Reindex(indexer, id, polls[id].status, poll.status), polls[id := poll])
  {}

  /** What ending a poll changes, whatever the verdict. */
  lemma EndEffect(w: World, now: nat, id: nat)
    requires EndPoll(w, now, id).Ok?
    ensures id in w.polls && w.polls[id].status == InProgress && w.polls[id].deposit <= w.totalDeposit
    ensures var w', poll := EndPoll(w, now, id).value, w.polls[id];
            && id in w'.polls
            && (w'.polls[id].status == Passed || w'.polls[id].status == Rejected)
            && w'.polls[id] == poll.(status := w'.polls[id].status, totalBalanceAtEnd := w'.polls[id].totalBalanceAtEnd)
            && w' == w.(totalDeposit := w.totalDeposit - poll.deposit, balance := w'.balance, sent := w'.sent,
                        polls := w.polls[id := w'.polls[id]],
                        indexer := Reindex(w.indexer, id, InProgress, w'.polls[id].status))
            && (w'.balance == w.balance || (w'.balance == w.balance - poll.deposit))
  {}

  lemma EndKeepsInv(w: World, now: nat, id: nat)
    requires Inv(w) && EndPoll(w, now, id).Ok?
    ensures Inv(EndPoll(w, now, id).value)
  {
    EndEffect(w, now, id);
    PollChangeKeeps(w, id, EndPoll(w, now, id).value.polls[id]);
  }

  lemma SnapshotKeepsInv(w: World, now: nat, id: nat)
    requires Inv(w)
    ensures SnapshotPoll(w, now, id).Ok? ==> Inv(SnapshotPoll(w, now, id).value)
  {
    if SnapshotPoll(w, now, id).Ok? {
      PollChangeKeeps(w, id, SnapshotPoll(w, now, id).value.polls[id]);
      assert Reindex(w.indexer, id, InProgress, InProgress) == w.indexer;
    }
  }

  lemma FailKeepsInv(w: World, id: nat)
    requires Inv(w) && id in w.polls && w.polls[id].status == Passed
    ensures FailPoll(w, id).Ok? && Inv(FailPoll(w, id).value)
  {
    PollChangeKeeps(w, id, w.polls[id].(status := Failed));
  }

  lemma StartKeepsInv(w: World, now: nat, id: nat)
    requires Inv(w) && StartExecution(w, now, id).Ok?
    ensures var w' := StartExecution(w, now, id).value;
            && Inv(w') && w' == w.(tmpPollId := Some(id)) && id in w'.polls && w'.polls[id].status == Passed
            && w'.polls[id].ContainsMessages() && now >= w'.polls[id].endTime + w'.config.timelockPeriod
  {}

  lemma CommitsExtend(commits: seq<Commit>, polls: map<nat, Poll>, commit: Commit)
    requires CommitsSound(commits, polls) && commit.pollId in polls && polls[commit.pollId].status == Passed
    requires CommitSound(commit, polls[commit.pollId := polls[commit.pollId].(status := Executed)])
    ensures CommitsSound(commits + [commit], polls[commit.pollId := polls[commit.pollId].(status := Executed)])
  {
    var id := commit.pollId;
    var commits', polls' := commits + [commit], polls[id := polls[id].(status := Executed)];
    forall c | c in commits' ensures CommitSound(c, polls') {
      if c in commits { assert CommitSound(c, polls); } else { assert c == commit; }
    }
    forall p | p in polls' && polls'[p].status == Executed ensures exists c | c in commits' :: c.pollId == p {
      if p == id {
        assert commits'[|commits|] == commit;
      } else {
        var c :| c in commits && c.pollId == p;
        assert c in commits';
      }
    }
    forall i, j | 0 <= i < j < |commits'| ensures commits'[i].pollId != commits'[j].pollId {
      assert commits[i] in commits && CommitSound(commits[i], polls);
    }
  }

  lemma SendKeepsInv(w: World, now: nat, id: nat)
    requires Inv(w) && id in w.polls && w.polls[id].status == Passed
    requires w.polls[id].ContainsMessages() && now >= w.polls[id].endTime + w.config.timelockPeriod
    ensures SendMessages(w, now, id).Ok? && Inv(SendMessages(w, now, id).value)
  {
    var w' := SendMessages(w, now, id).value;
    DepositPut(w.polls, id, w'.polls[id]);
    CommitsExtend(w.commits, w.polls, w'.commits[|w.commits|]);
  }

  // ----- voting -----

  lemma VoteKeepsLocks(bank: map<Addr, TokenManager>, voters: map<(nat, Addr), VoterInfo>,
                       sender: Addr, id: nat, info: VoterInfo, manager: TokenManager)
    requires LocksMatchVotes(bank, voters) && (id, sender) !in voters
    requires manager == if sender in bank then bank[sender] else NO_TOKENS
    ensures LocksMatchVotes(bank[sender := manager.(locked := manager.locked + [(id, info)])], voters[(id, sender) := info])
  {}

  lemma VoteKeepsTallies(polls: map<nat, Poll>, voters: map<(nat, Addr), VoterInfo>,
                         sender: Addr, id: nat, info: VoterInfo, poll: Poll)
    requires TalliesMatch(polls, voters) && id in polls && polls[id].status.InProgress? && (id, sender) !in voters
    requires poll.yesVotes == polls[id].yesVotes + (if info.vote.Yes? then info.balance else 0)
    requires poll.noVotes == polls[id].noVotes + (if info.vote.No? then info.balance else 0)
    ensures TalliesMatch(polls[id := poll], voters[(id, sender) := info])
  {
    forall p | p in polls ensures Tallied(polls[id := poll][p], voters[(id, sender) := info], p) {
      assert Tallied(polls[p], voters, p);
      BallotPut(voters, (id, sender), info, p, Yes);
      BallotPut(voters, (id, sender), info, p, No);
    }
  }

  /** What a vote changes. */
  lemma VoteEffect(w: World, now: nat, sender: Addr, id: nat, vote: VoteOption, amount: nat)
    requires CastVote(w, now, sender, id, vote, amount).Ok?
    ensures id in w.polls && w.polls[id].status == InProgress && (id, sender) !in w.voters
    ensures var w', manager := CastVote(w, now, sender, id, vote, amount).value, LoadBank(w, sender);
            && id in w'.polls
            && w' == w.(bank := w.bank[sender := manager.(locked := manager.locked + [(id, VoterInfo(vote, amount))])],
                        voters := w.voters[(id, sender) := VoterInfo(vote, amount)],
                        polls := w.polls[id := w'.polls[id]])
            && w'.polls[id] == CountedVote(w.polls[id], VoterInfo(vote, amount), w'.polls[id].stakedAmount)
  {}

  /** Counting a vote in an open poll leaves its standing alone. */
  lemma CountingKeepsPolls(w: World, id: nat, yes: nat, no: nat, staked: Option<nat>)
    requires Inv(w) && id in w.polls && w.polls[id].status == InProgress
    ensures var polls := w.polls[id := w.polls[id].(yesVotes := yes, noVotes := no, stakedAmount := staked)];
            && PollsNumbered(w.pollCount, polls) && IndexMatches(w.indexer, polls)
            && DepositsAddUp(w.totalDeposit, polls) && CommitsSound(w.commits, polls)
  {
    var poll := w.polls[id].(yesVotes := yes, noVotes := no, stakedAmount := staked);
    DepositPut(w.polls, id, poll);
    CommitsKept(w.commits, w.polls, id, poll);
  }

  function CountedVote(poll: Poll, info: VoterInfo, staked: Option<nat>): Poll {
    poll.(yesVotes := poll.yesVotes + (if info.vote.Yes? then info.balance else 0),
          noVotes := poll.noVotes + (if info.vote.No? then info.balance else 0),
          stakedAmount := staked)
  }

  lemma RecordedVoteKeepsInv(w: World, sender: Addr, id: nat, info: VoterInfo, staked: Option<nat>)
    requires Inv(w) && id in w.polls && w.polls[id].status == InProgress && (id, sender) !in w.voters
    ensures var manager := LoadBank(w, sender);
            Inv(w.(bank := w.bank[sender := manager.(locked := manager.locked + [(id, info)])],
                   voters := w.voters[(id, sender) := info],
                   polls := w.polls[id := CountedVote(w.polls[id], info, staked)]))
  {
    var poll, manager := CountedVote(w.polls[id], info, staked), LoadBank(w, sender);
    VoteKeepsLocks(w.bank, w.voters, sender, id, info, manager);
    VoteKeepsTallies(w.polls, w.voters, sender, id, info, poll);
    SharePut(w.bank, sender, manager.(locked := manager.locked + [(id, info)]));
    CountingKeepsPolls(w, id, poll.yesVotes, poll.noVotes, staked);
  }

  lemma VoteKeepsInv(w: World, now: nat, sender: Addr, id: nat, vote: VoteOption, amount: nat)
    requires Inv(w) && CastVote(w, now, sender, id, vote, amount).Ok?
    ensures Inv(CastVote(w, now, sender, id, vote, amount).value)
  {
    VoteEffect(w, now, sender, id, vote, amount);
    var staked := CastVote(w, now, sender, id, vote, amount).value.polls[id].stakedAmount;
    RecordedVoteKeepsInv(w, sender, id, VoterInfo(vote, amount), staked);
  }

  // ----- withdrawing -----

  lemma {:induction false} StillLockedKeeps(polls: map<nat, Poll>, locked: seq<(nat, VoterInfo)>)
    requires forall e | e in locked :: e.0 in polls
    requires DistinctIds(locked)
    ensures DistinctIds(StillLocked(polls, locked))
    ensures forall e :: e in StillLocked(polls, locked) <==> e in locked && polls[e.0].status.InProgress?
  {
    if locked != [] {
      var n := |locked| - 1;
      StillLockedKeeps(polls, locked[..n]);
      var rest := StillLocked(polls, locked[..n]);
      assert locked == locked[..n] + [locked[n]];
      forall i | 0 <= i < |rest| ensures rest[i].0 != locked[n].0 {
        assert rest[i] in locked[..n];
      }
    }
  }

  lemma WithdrawKeepsLocks(w: World, sender: Addr, share: nat)
    requires Inv(w) && sender in w.bank
    ensures forall e | e in w.bank[sender].locked :: e.0 in w.polls
    ensures var locked := StillLocked(w.polls, w.bank[sender].locked);
            var gone := Released(w.polls, w.bank[sender].locked, sender);
            && LocksMatchVotes(w.bank[sender := TokenManager(share, locked)], w.voters - gone)
            && TalliesMatch(w.polls, w.voters - gone)
  {
    var old_ := w.bank[sender].locked;
    assert LocksRecorded(sender, old_, w.voters);
    StillLockedKeeps(w.polls, old_);
    var locked, gone := StillLocked(w.polls, old_), Released(w.polls, old_, sender);
    var bank', voters' := w.bank[sender := TokenManager(share, locked)], w.voters - gone;
    forall a | a in bank' ensures LocksRecorded(a, bank'[a].locked, voters') {
      assert LocksRecorded(a, w.bank[a].locked, w.voters);
      if a == sender {
        forall e | e in locked ensures (e.0, a) !in gone {}
      }
    }
    forall k | k in voters' ensures k.1 in bank' && (k.0, voters'[k]) in bank'[k.1].locked {
      assert (k.0, w.voters[k]) in w.bank[k.1].locked;
      if k.1 == sender {
        var e := (k.0, w.voters[k]);
        assert !w.polls[e.0].status.InProgress? ==> (e.0, sender) in gone;
      }
    }
    forall p | p in w.polls ensures Tallied(w.polls[p], voters', p) {
      assert Tallied(w.polls[p], w.voters, p);
      if w.polls[p].status.InProgress? {
        BallotsKept(w.voters, gone, p, Yes);
        BallotsKept(w.voters, gone, p, No);
      }
    }
  }

  /** The world after a withdrawal: the locks of finished polls are gone, with their votes. */
  function Withdrawn(w: World, sender: Addr, burned: nat, paid: nat): World
    requires sender in w.bank && forall e | e in w.bank[sender].locked :: e.0 in w.polls
    requires burned <= w.bank[sender].share && burned <= w.totalShare && paid <= w.balance
  {
    var manager := w.bank[sender];
    w.(bank := w.bank[sender := TokenManager(manager.share - burned, StillLocked(w.polls, manager.locked))],
       voters := w.voters - Released(w.polls, manager.locked, sender),
       totalShare := w.totalShare - burned, balance := w.balance - paid,
       overdrawn := w.overdrawn || paid > Backing(w), sent := w.sent + [Payment(sender, paid)])
  }

  /** A withdrawal burns the shares and pays the tokens of its terms, and changes nothing else but locks. */
  lemma WithdrawalUsesTerms(w: World, sender: Addr, amount: Option<nat>) returns (burned: nat, paid: nat)
    requires WithdrawVotingTokens(w, sender, amount).Ok?
    ensures w.config.psiToken.Some? && Backing(w) >= 0
    ensures sender in w.bank && (forall e | e in w.bank[sender].locked :: e.0 in w.polls)
    ensures WithdrawalTerms(w.bank[sender].share, LargestLock(StillLocked(w.polls, w.bank[sender].locked)),
                            w.totalShare, Backing(w), amount) == Ok((burned, paid))
    ensures burned <= w.bank[sender].share && burned <= w.totalShare && paid <= w.balance
    ensures WithdrawVotingTokens(w, sender, amount).value == Withdrawn(w, sender, burned, paid)
  {
    var locked := LargestLock(StillLocked(w.polls, w.bank[sender].locked));
    var terms := WithdrawalTerms(w.bank[sender].share, locked, w.totalShare, Backing(w), amount).value;
    burned, paid := terms.0, terms.1;
  }

  lemma ExplicitTermsBounded(amount: nat, totalShare: nat, backing: nat)
    requires backing > 0
    ensures amount * totalShare < (BurnedFor(amount, totalShare, backing) + 1) * backing
  {}

  lemma FullTermsBounded(userShare: nat, locked: nat, totalShare: nat, backing: nat)
    requires WithdrawalTerms(userShare, locked, totalShare, backing, None).Ok?
    ensures var (burned, paid) := WithdrawalTerms(userShare, locked, totalShare, backing, None).value;
            paid <= backing && paid * totalShare <= burned * backing
  {
    var burned := WithdrawalTerms(userShare, locked, totalShare, backing, None).value.0;
    DivBounds(burned * backing, totalShare);
    MulMonotone(burned, totalShare, backing);
    DivBelow(burned * backing, totalShare, backing + 1);
  }

  /** A withdrawal that leaves a share leaves a token behind it; one of everything unlocked takes no deposit. */
  lemma TermsSolvent(userShare: nat, locked: nat, totalShare: nat, backing: nat, amount: Option<nat>)
    requires WithdrawalTerms(userShare, locked, totalShare, backing, amount).Ok?
    ensures var (burned, paid) := WithdrawalTerms(userShare, locked, totalShare, backing, amount).value;
            && (burned < totalShare ==> paid < backing)
            && (amount.None? ==> paid <= backing)
  {
    var (burned, paid) := WithdrawalTerms(userShare, locked, totalShare, backing, amount).value;
    if amount.Some? {
      ExplicitTermsBounded(paid, totalShare, backing);
    } else {
      FullTermsBounded(userShare, locked, totalShare, backing);
    }
    PartPaid(totalShare, backing, burned, paid);
  }

  lemma PartPaid(totalShare: nat, backing: nat, burned: nat, paid: nat)
    requires backing > 0
    requires paid * totalShare < (burned + 1) * backing
    ensures burned < totalShare ==> paid < backing
  {
    if burned < totalShare && backing <= paid {
      MulMonotone(burned + 1, totalShare, backing);
      MulMonotone(backing, paid, totalShare);
      assert false;
    }
  }

  lemma WithdrawalKeepsInv(w: World, sender: Addr, burned: nat, paid: nat)
    requires Inv(w) && w.config.psiToken.Some? && sender in w.bank && burned <= w.bank[sender].share
    requires burned <= w.totalShare && paid <= w.balance && (burned < w.totalShare ==> paid < Backing(w))
    ensures forall e | e in w.bank[sender].locked :: e.0 in w.polls
    ensures Inv(Withdrawn(w, sender, burned, paid))
  {
    WithdrawKeepsLocks(w, sender, w.bank[sender].share - burned);
    SharePut(w.bank, sender, TokenManager(w.bank[sender].share - burned, StillLocked(w.polls, w.bank[sender].locked)));
  }

  lemma WithdrawKeepsInv(w: World, sender: Addr, amount: Option<nat>)
    requires Inv(w)
    ensures WithdrawVotingTokens(w, sender, amount).Ok? ==> Inv(WithdrawVotingTokens(w, sender, amount).value)
  {
    if WithdrawVotingTokens(w, sender, amount).Ok? {
      var burned, paid := WithdrawalUsesTerms(w, sender, amount);
      TermsSolvent(w.bank[sender].share, LargestLock(StillLocked(w.polls, w.bank[sender].locked)),
                   w.totalShare, Backing(w), amount);
      WithdrawalKeepsInv(w, sender, burned, paid);
    }
  }
}
