/** The governance contract: its records, and what each command does to them. */
module Governance {
  import opened Outcomes
  import opened FixedPoint

  type Addr = string

  datatype PollStatus = InProgress | Passed | Rejected | Executed | Failed

  datatype VoteOption = Yes | No

  datatype VoterInfo = VoterInfo(vote: VoteOption, balance: nat)

  datatype TokenManager = TokenManager(share: nat, locked: seq<(nat, VoterInfo)>)

  datatype Message =
    | Execute(order: nat, contract: Addr, msg: string)
    | Migrate(order: nat, contract: Addr, codeId: nat, msg: string)

  datatype Poll = Poll(
    id: nat, creator: Addr, status: PollStatus, yesVotes: nat, noVotes: nat, endTime: nat,
    executeData: Option<seq<Message>>, migrateData: Option<seq<Message>>, deposit: nat,
    totalBalanceAtEnd: Option<nat>, stakedAmount: Option<nat>)
  {
    predicate ContainsMessages() {
      || (executeData.Some? && executeData.value != [])
      || (migrateData.Some? && migrateData.value != [])
    }
  }

  datatype Config = Config(
    owner: Addr, psiToken: Option<Addr>, quorum: nat, threshold: nat, votingPeriod: nat,
    timelockPeriod: nat, proposalDeposit: nat, snapshotPeriod: nat)

  /** The messages of a poll that were sent out, with the circumstances. */
  datatype Commit = Commit(pollId: nat, at: nat, timelock: nat, before: PollStatus, messages: seq<Message>)

  datatype Payment = Payment(to: Addr, amount: nat)

  /** The contract's storage, its own address, its balance of the governed token, and a history that the
      chain keeps (and rolls back) with them: whether a withdrawal ever took more than all stakes together,
      the poll messages sent, and the token transfers made. */
  datatype World = World(
    self: Addr, config: Config, pollCount: nat, totalShare: nat, totalDeposit: nat, tmpPollId: Option<nat>,
    bank: map<Addr, TokenManager>, polls: map<nat, Poll>, indexer: set<(PollStatus, nat)>,
    voters: map<(nat, Addr), VoterInfo>,
    balance: nat, overdrawn: bool, commits: seq<Commit>, sent: seq<Payment>)

  datatype Error =
    | Unauthorized | NoToken | TokenFailure | Underflow | DivideByZero | InsufficientFunds | DepositTooSmall
    | PollMissing | NotInProgress | VotingNotOver | NoMessages | NotPassed | TimelockNotOver
    | CannotSnapshot | AlreadySnapshotted | AlreadyVoted | NotEnoughStaked | NothingStaked | TooManyTokens
    | NoTmpPoll | InvalidReply | Aborted

  const NO_TOKENS := TokenManager(0, [])

  function LoadBank(w: World, a: Addr): TokenManager {
    if a in w.bank then w.bank[a] else NO_TOKENS
  }

  /** The balance that backs the shares: everything but the deposits of open polls. */
  function Staked(w: World): Result<nat, Error> {
    if w.config.psiToken.None? then Err(NoToken)
    else if w.balance < w.totalDeposit then Err(Underflow)
    else Ok(w.balance - w.totalDeposit)
  }

  /** A token transfer out of the contract, as the token contract carries it out. */
  function Pay(w: World, to: Addr, amount: nat): Result<World, Error> {
    if w.config.psiToken.None? || w.balance < amount then Err(TokenFailure)
    else Ok(w.(balance := w.balance - amount, sent := w.sent + [Payment(to, amount)]))
  }

  function Reindex(indexer: set<(PollStatus, nat)>, id: nat, from: PollStatus, to: PollStatus): set<(PollStatus, nat)> {
    indexer - {(from, id)} + {(to, id)}
  }

  // ----- through the token -----

  function ShareFor(amount: nat, totalShare: nat, totalBalance: nat): nat {
    if totalBalance == 0 || totalShare == 0 then amount else MultiplyRatio(amount, totalShare, totalBalance)
  }

  /** A stake arrives with its tokens already credited. */
  function StakeVotingTokens(w: World, token: Addr, sender: Addr, amount: nat): Result<World, Error> {
    if w.config.psiToken != Some(token) then Err(Unauthorized)
    else if amount == 0 then Err(InsufficientFunds)
    else if w.balance + amount < w.totalDeposit + amount then Err(Underflow)
    else
      var totalBalance := w.balance + amount - (w.totalDeposit + amount);
      var share := ShareFor(amount, w.totalShare, totalBalance);
      var manager := LoadBank(w, sender);
      Ok(w.(balance := w.balance + amount, totalShare := w.totalShare + share,
            bank := w.bank[sender := manager.(share := manager.share + share)]))
  }

  /** An empty list of messages counts as none. */
  function NonEmpty(messages: Option<seq<Message>>): Option<seq<Message>> {
    if messages == Some([]) then None else messages
  }

  function CreatePoll(w: World, now: nat, token: Addr, proposer: Addr, amount: nat,
                      executeMsgs: Option<seq<Message>>, migrateMsgs: Option<seq<Message>>): Result<World, Error> {
    if w.config.psiToken != Some(token) then Err(Unauthorized)
    else if amount < w.config.proposalDeposit then Err(DepositTooSmall)
    else
      var id := w.pollCount + 1;
      var poll := Poll(id, proposer, InProgress, 0, 0, now + w.config.votingPeriod,
                       NonEmpty(executeMsgs), NonEmpty(migrateMsgs), amount, None, None);
      Ok(w.(balance := w.balance + amount, pollCount := id, totalDeposit := w.totalDeposit + amount,
            polls := w.polls[id := poll], indexer := w.indexer + {(InProgress, id)}))
  }

  // ----- the end of a poll -----

  /** The turnout as a decimal, and the weight it is measured against. */
  function Weigh(w: World, poll: Poll): Result<(nat, nat), Error> {
    var tallied := poll.yesVotes + poll.noVotes;
    if w.totalShare == 0 then Ok((0, 0))
    else
      var staked :- if poll.stakedAmount.Some? then Ok(poll.stakedAmount.value) else Staked(w);
      if staked == 0 then Err(DivideByZero) else Ok((FromRatio(tallied, staked), staked))
  }

  datatype Verdict = QuorumNotReached | ThresholdNotReached | Accepted

  function Decide(config: Config, yes: nat, no: nat, turnout: nat): Verdict {
    if yes + no == 0 || turnout < config.quorum then QuorumNotReached
    else if FromRatio(yes, yes + no) > config.threshold then Accepted
    else ThresholdNotReached
  }

  function EndPoll(w: World, now: nat, id: nat): Result<World, Error> {
    if id !in w.polls then Err(PollMissing)
    else
      var poll := w.polls[id];
      if poll.status != InProgress then Err(NotInProgress)
      else if poll.endTime > now then Err(VotingNotOver)
      else
        var (turnout, weight) :- Weigh(w, poll);
        var verdict := Decide(w.config, poll.yesVotes, poll.noVotes, turnout);
        var status := if verdict.Accepted? then Passed else Rejected;
        if w.totalDeposit < poll.deposit then Err(Underflow)
        else
          var w1 := w.(totalDeposit := w.totalDeposit - poll.deposit,
                       indexer := Reindex(w.indexer, id, InProgress, status),
                       polls := w.polls[id := poll.(status := status, totalBalanceAtEnd := Some(weight))]);
          if verdict.QuorumNotReached? || poll.deposit == 0 then Ok(w1) else Pay(w1, poll.creator, poll.deposit)
  }

  // ----- the execution of a poll -----

  /** The order in which messages are sent: by their order number, keeping the order of equal ones. */
  function SortByOrder(messages: seq<Message>): seq<Message> {
    if messages == [] then []
    else Insert(SortByOrder(messages[..|messages| - 1]), messages[|messages| - 1])
  }

  function Insert(sorted: seq<Message>, m: Message): seq<Message> {
    if sorted == [] || sorted[|sorted| - 1].order <= m.order then sorted + [m]
    else Insert(sorted[..|sorted| - 1], m) + [sorted[|sorted| - 1]]
  }

  function ListOf(messages: Option<seq<Message>>): seq<Message> {
    if messages.Some? then messages.value else []
  }

  function DispatchOrder(poll: Poll): seq<Message> {
    SortByOrder(ListOf(poll.executeData)) + SortByOrder(ListOf(poll.migrateData))
  }

  /** execute_poll: checks, and notes which poll the coming submessage belongs to. */
  function StartExecution(w: World, now: nat, id: nat): Result<World, Error> {
    if id !in w.polls then Err(PollMissing)
    else
      var poll := w.polls[id];
      if !poll.ContainsMessages() then Err(NoMessages)
      else if poll.status != Passed then Err(NotPassed)
      else if poll.endTime + w.config.timelockPeriod > now then Err(TimelockNotOver)
      else Ok(w.(tmpPollId := Some(id)))
  }

  /** execute_poll_messages: marks the poll executed and sends its messages. It checks nothing itself. */
  function SendMessages(w: World, now: nat, id: nat): Result<World, Error> {
    if id !in w.polls then Err(PollMissing)
    else
      var poll := w.polls[id];
      Ok(w.(indexer := Reindex(w.indexer, id, Passed, Executed),
            polls := w.polls[id := poll.(status := Executed)],
            commits := w.commits + [Commit(id, now, w.config.timelockPeriod, poll.status, DispatchOrder(poll))]))
  }

  function FailPoll(w: World, id: nat): Result<World, Error> {
    if id !in w.polls then Err(PollMissing)
    else
      Ok(w.(indexer := Reindex(w.indexer, id, Passed, Failed),
            polls := w.polls[id := w.polls[id].(status := Failed)]))
  }

  const POLL_EXECUTE_REPLY_ID: nat := 1

  function Reply(w: World, replyId: nat): Result<World, Error> {
    if replyId != POLL_EXECUTE_REPLY_ID then Err(InvalidReply)
    else if w.tmpPollId.None? then Err(NoTmpPoll)
    else FailPoll(w, w.tmpPollId.value)
  }

  // ----- voting -----

  function SnapshotPoll(w: World, now: nat, id: nat): Result<World, Error> {
    if id !in w.polls then Err(PollMissing)
    else
      var poll := w.polls[id];
      if poll.status != InProgress then Err(NotInProgress)
      else if poll.endTime < now then Err(Underflow)
      else if poll.endTime - now > w.config.snapshotPeriod then Err(CannotSnapshot)
      else if poll.stakedAmount.Some? then Err(AlreadySnapshotted)
      else
        var staked :- Staked(w);
        Ok(w.(polls := w.polls[id := poll.(stakedAmount := Some(staked))]))
  }

  function CastVote(w: World, now: nat, sender: Addr, id: nat, vote: VoteOption, amount: nat): Result<World, Error> {
    if id == 0 || w.pollCount < id || id !in w.polls then Err(PollMissing)
    else
      var poll := w.polls[id];
      if poll.status != InProgress || now > poll.endTime then Err(NotInProgress)
      else if (id, sender) in w.voters then Err(AlreadyVoted)
      else
        var manager := LoadBank(w, sender);
        var totalBalance :- Staked(w);
        if w.totalShare == 0 then Err(DivideByZero)
        else if MultiplyRatio(manager.share, totalBalance, w.totalShare) < amount then Err(NotEnoughStaked)
        else
          var info := VoterInfo(vote, amount);
          var tallied := if vote.Yes? then poll.(yesVotes := poll.yesVotes + amount)
                         else poll.(noVotes := poll.noVotes + amount);
          var snapshot := if poll.endTime - now < w.config.snapshotPeriod && poll.stakedAmount.None?
                          then tallied.(stakedAmount := Some(totalBalance)) else tallied;
          Ok(w.(bank := w.bank[sender := manager.(locked := manager.locked + [(id, info)])],
                voters := w.voters[(id, sender) := info],
                polls := w.polls[id := snapshot]))
  }

  // ----- withdrawing -----

  /** The locks that still hold. */
  function StillLocked(polls: map<nat, Poll>, locked: seq<(nat, VoterInfo)>): seq<(nat, VoterInfo)>
    requires forall e | e in locked :: e.0 in polls
  {
    if locked == [] then []
    else
      var e, rest := locked[|locked| - 1], StillLocked(polls, locked[..|locked| - 1]);
      assert e in locked;
      if polls[e.0].status.InProgress? then rest + [e] else rest
  }

  /** The entries of the voter in polls that are over. */
  function Released(polls: map<nat, Poll>, locked: seq<(nat, VoterInfo)>, voter: Addr): set<(nat, Addr)>
    requires forall e | e in locked :: e.0 in polls
  {
    set e | e in locked && !polls[e.0].status.InProgress? :: (e.0, voter)
  }

  function LargestLock(locked: seq<(nat, VoterInfo)>): nat {
    if locked == [] then 0
    else
      var rest := LargestLock(locked[..|locked| - 1]);
      if rest < locked[|locked| - 1].1.balance then locked[|locked| - 1].1.balance else rest
  }

  /** An explicit amount burns its worth in shares, rounded down, but at least one. */
  function BurnedFor(amount: nat, totalShare: nat, totalBalance: nat): nat
    requires totalBalance > 0
  {
    var worth := MultiplyRatio(amount, totalShare, totalBalance);
    if worth < 1 then 1 else worth
  }

  /** How many shares a withdrawal burns and how many tokens it pays. */
  function WithdrawalTerms(userShare: nat, locked: nat, totalShare: nat, totalBalance: nat, amount: Option<nat>):
    Result<(nat, nat), Error>
  {
    if totalBalance == 0 then Err(DivideByZero)
    else
      var lockedShare := MultiplyRatio(locked, totalShare, totalBalance);
      match amount
      case Some(v) =>
        var burned := BurnedFor(v, totalShare, totalBalance);
        if lockedShare + burned > userShare then Err(TooManyTokens)
        else if totalShare < burned then Err(Underflow)
        else Ok((burned, v))
      case None =>
        if userShare < lockedShare then Err(Underflow)
        else if totalShare == 0 then Err(DivideByZero)
        else
          var burned := userShare - lockedShare;
          if totalShare < burned then Err(Underflow)
          else Ok((burned, MultiplyRatio(burned, totalBalance, totalShare)))
  }

  function WithdrawVotingTokens(w: World, sender: Addr, amount: Option<nat>): Result<World, Error> {
    if sender !in w.bank then Err(NothingStaked)
    else
      var manager := w.bank[sender];
      var totalBalance :- Staked(w);
      if exists e | e in manager.locked :: e.0 !in w.polls then Err(PollMissing)
      else
        var locked := StillLocked(w.polls, manager.locked);
        var (burned, paid) :- WithdrawalTerms(manager.share, LargestLock(locked), w.totalShare, totalBalance, amount);
        BurnAndPay(w.(voters := w.voters - Released(w.polls, manager.locked, sender)),
                   sender, TokenManager(manager.share - burned, locked), burned, paid, totalBalance)
  }

  function BurnAndPay(w: World, sender: Addr, left: TokenManager, burned: nat, paid: nat, totalBalance: nat):
    Result<World, Error>
    requires burned <= w.totalShare
  {
    Pay(w.(bank := w.bank[sender := left], totalShare := w.totalShare - burned,
           overdrawn := w.overdrawn || paid > totalBalance), sender, paid)
  }

  // ----- configuration -----

  function RegisterToken(w: World, token: Addr, held: nat): Result<World, Error> {
    if w.config.psiToken.Some? then Err(Unauthorized)
    else Ok(w.(config := w.config.(psiToken := Some(token)), balance := held))
  }

  datatype ConfigChange = ConfigChange(
    owner: Option<Addr>, quorum: Option<nat>, threshold: Option<nat>, votingPeriod: Option<nat>,
    timelockPeriod: Option<nat>, proposalDeposit: Option<nat>, snapshotPeriod: Option<nat>)

  function Or<T>(change: Option<T>, current: T): T {
    if change.Some? then change.value else current
  }

  function UpdateConfig(w: World, sender: Addr, change: ConfigChange): Result<World, Error> {
    if sender != w.config.owner then Err(Unauthorized)
    else
      var c := w.config;
      Ok(w.(config := Config(
              Or(change.owner, c.owner), c.psiToken, Or(change.quorum, c.quorum), Or(change.threshold, c.threshold),
              Or(change.votingPeriod, c.votingPeriod), Or(change.timelockPeriod, c.timelockPeriod),
              Or(change.proposalDeposit, c.proposalDeposit), Or(change.snapshotPeriod, c.snapshotPeriod))))
  }

  // ----- dispatch -----

  /** A message to the contract. The script of an execution is what the poll's messages turn out to do. */
  datatype Call =
    | Stake(token: Addr, sender: Addr, amount: nat)
    | Propose(token: Addr, sender: Addr, amount: nat, executeMsgs: Option<seq<Message>>, migrateMsgs: Option<seq<Message>>)
    | Register(token: Addr, held: nat)
    | Withdraw(sender: Addr, wanted: Option<nat>)
    | Vote(sender: Addr, pollId: nat, vote: VoteOption, amount: nat)
    | End(pollId: nat)
    | Snapshot(pollId: nat)
    | Configure(sender: Addr, change: ConfigChange)
    | ExecutePoll(pollId: nat, script: Script)
    | Yourself(sender: Addr, pollId: nat, script: Script)

  /** What other contracts do during a transaction, as far as this contract can see: calls to it, which
      may be nested to any depth and caught at any point, and token gifts. */
  datatype Script =
    | Done
    | Abort
    | Do(call: Call, rest: Script)
    | Try(body: Script, rest: Script)
    | Donate(amount: nat, rest: Script)

  /** One message, with everything it sets off. */
  function Exec(w: World, now: nat, call: Call): Result<World, Error>
    decreases call, 1
  {
    match call
    case Stake(token, sender, amount) => StakeVotingTokens(w, token, sender, amount)
    case Propose(token, sender, amount, e, m) => CreatePoll(w, now, token, sender, amount, e, m)
    case Register(token, held) => RegisterToken(w, token, held)
    case Withdraw(sender, wanted) => WithdrawVotingTokens(w, sender, wanted)
    case Vote(sender, id, vote, amount) => CastVote(w, now, sender, id, vote, amount)
    case End(id) => EndPoll(w, now, id)
    case Snapshot(id) => SnapshotPoll(w, now, id)
    case Configure(sender, change) => UpdateConfig(w, sender, change)
    case Yourself(sender, id, script) =>
      if sender != w.self then Err(Unauthorized)
      else
        var w1 :- SendMessages(w, now, id);
        RunScript(w1, now, script)
    case ExecutePoll(id, script) =>
      var w1 :- StartExecution(w, now, id);
      match Submessage(w1, now, id, script)
      case Ok(w2) => Ok(w2)
      case Err(_) => Reply(w1, POLL_EXECUTE_REPLY_ID)
  }

  /** The contract's message to itself, which fails as a whole if any of the poll's messages does. */
  function Submessage(w: World, now: nat, id: nat, script: Script): Result<World, Error>
    decreases script, 1
  {
    var w1 :- SendMessages(w, now, id);
    RunScript(w1, now, script)
  }

  function RunScript(w: World, now: nat, s: Script): Result<World, Error>
    decreases s, 0
  {
    match s
    case Done => Ok(w)
    case Abort => Err(Aborted)
    case Do(call, rest) =>
      var w1 :- Exec(w, now, call);
      RunScript(w1, now, rest)
    case Try(body, rest) =>
      var w1 := match RunScript(w, now, body) case Ok(after) => after case Err(_) => w;
      RunScript(w1, now, rest)
    case Donate(amount, rest) =>
      RunScript(w.(balance := w.balance + amount), now, rest)
  }

  /** A transaction at a block time; a failing one leaves no trace. */
  function Transact(w: World, now: nat, s: Script): World {
    match RunScript(w, now, s) case Ok(after) => after case Err(_) => w
  }

  function History(w: World, transactions: seq<(nat, Script)>): World {
    if transactions == [] then w
    else
      var (now, s) := transactions[|transactions| - 1];
      Transact(History(w, transactions[..|transactions| - 1]), now, s)
  }

  function Instantiated(self: Addr, config: Config): World {
    World(self, config.(psiToken := None), 0, 0, 0, None, map[], map[], {}, map[], 0, false, [], [])
  }
}
