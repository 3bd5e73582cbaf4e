/** What the invariant means for stakers and voters: solvency, the share price, vote locks and verdicts. */
module GovernanceResults {
  import opened Outcomes
  import opened FixedPoint
  import opened Governance
  import opened GovernanceInvariant
  import opened GovernanceRuns

  // ----- solvency -----

  /** A withdrawal of explicit tokens keeps the deposits covered exactly when it takes no more than all
      stakes together; when it takes more, it has burned the last share. */
  lemma ExplicitWithdrawalSolventIff(w: World, sender: Addr, amount: nat)
    requires WithdrawVotingTokens(w, sender, Some(amount)).Ok?
    ensures var v := WithdrawVotingTokens(w, sender, Some(amount)).value;
            && (v.totalDeposit <= v.balance <==> amount <= Backing(w))
            && (v.overdrawn <==> w.overdrawn || amount > Backing(w))
            && (amount > Backing(w) ==> v.totalShare == 0)
  {
    var burned, paid := WithdrawalUsesTerms(w, sender, Some(amount));
    TermsSolvent(w.bank[sender].share, LargestLock(StillLocked(w.polls, w.bank[sender].locked)),
                 w.totalShare, Backing(w), Some(amount));
  }

  /** A withdrawal of everything unlocked never takes more than its share of the stakes. */
  lemma FullWithdrawalSolvent(w: World, sender: Addr)
    requires WithdrawVotingTokens(w, sender, None).Ok?
    ensures var v := WithdrawVotingTokens(w, sender, None).value;
            && v.totalDeposit <= v.balance && v.overdrawn == w.overdrawn
            && (w.balance - v.balance) * w.totalShare <= (w.totalShare - v.totalShare) * Backing(w)
  {
    var burned, paid := WithdrawalUsesTerms(w, sender, None);
    FullTermsBounded(w.bank[sender].share, LargestLock(StillLocked(w.polls, w.bank[sender].locked)),
                     w.totalShare, Backing(w));
  }

  /** The last staker may indeed take a poll's deposit along: with 2 shares worth 3 tokens, a withdrawal
      of 4 burns both and leaves a deposit of 5 backed by 4. */
  lemma LastWithdrawalCanOverdraw(owner: Addr)
    ensures var config := Config(owner, None, 0, 0, 10, 0, 0, 0);
            var s := Do(Register("psi", 0), Do(Stake("psi", "alice", 2), Donate(1,
                     Do(Propose("psi", "bob", 5, None, None), Do(Withdraw("alice", Some(4)), Done)))));
            && RunScript(Instantiated("gov", config), 0, s).Ok?
            && RunScript(Instantiated("gov", config), 0, s).value.balance == 4
            && RunScript(Instantiated("gov", config), 0, s).value.totalDeposit == 5
  {}

  /** In every reachable world, and at every moment inside every transaction, open deposits are covered
      while anybody holds a share, with at least a token left over for the shares. */
  lemma DepositsCovered(self: Addr, config: Config, transactions: seq<(nat, Script)>, now: nat, s: Script)
    requires Tame(s, self) && forall t | t in transactions :: Tame(t.1, self)
    ensures var w := History(Instantiated(self, config), transactions);
            && Solvent(w)
            && (forall e | e in Trace(w, now, s) :: e.w.totalShare > 0 ==> e.w.totalDeposit < e.w.balance)
  {
    EveryMomentSound(self, config, transactions, now, s);
    var w := History(Instantiated(self, config), transactions);
    forall e | e in Trace(w, now, s) ensures e.w.totalShare > 0 ==> e.w.totalDeposit < e.w.balance {
      assert Sound(w, e);
    }
  }

  /** The checked subtraction of a stake fails only when deposits are uncovered, and they never are while
      anybody holds a share or if nothing was ever overdrawn. */
  lemma StakeAlwaysSucceeds(w: World, token: Addr, sender: Addr, amount: nat)
    requires Inv(w) && w.config.psiToken == Some(token) && amount > 0
    ensures StakeVotingTokens(w, token, sender, amount).Ok? <==> w.totalDeposit <= w.balance
    ensures w.totalShare > 0 || !w.overdrawn ==> StakeVotingTokens(w, token, sender, amount).Ok?
  {}

  /** The poll was snapshotted while nobody had staked, and now somebody has. */
  predicate NoWeight(w: World, poll: Poll) {
    w.totalShare > 0 && poll.stakedAmount == Some(0)
  }

  /** Nobody holds a share, the poll is still quorate, and its deposit went with an overdraft. */
  predicate RefundUncovered(w: World, poll: Poll) {
    w.totalShare == 0 && w.config.quorum == 0 && poll.yesVotes + poll.noVotes > 0 && w.balance < poll.deposit
  }

  predicate Expired(w: World, now: nat, id: nat) {
    id in w.polls && w.polls[id].status == InProgress && w.polls[id].endTime <= now
  }

  /** Exactly when a poll can be ended: it is open and has expired, the turnout would not be measured against
      0, and the balance to refund the deposit is there. It is not only after an overdraft, with no share left. */
  lemma EndSucceedsIff(w: World, now: nat, id: nat)
    requires Inv(w)
    ensures EndPoll(w, now, id).Ok? <==>
              Expired(w, now, id) && !NoWeight(w, w.polls[id]) && !RefundUncovered(w, w.polls[id])
    ensures Expired(w, now, id) && RefundUncovered(w, w.polls[id]) ==> w.totalShare == 0 && w.overdrawn
    ensures Expired(w, now, id) && NoWeight(w, w.polls[id]) ==> EndPoll(w, now, id) == Err(DivideByZero)
  {
    if Expired(w, now, id) {
      OpenDepositHeld(w, id);
      EndSucceedsWhenHeld(w, now, id);
    } else {
      EndRefusedEarly(w, now, id);
    }
  }

  lemma OpenDepositHeld(w: World, id: nat)
    requires Inv(w) && id in w.polls && w.polls[id].status == InProgress
    ensures w.polls[id].deposit <= w.totalDeposit
  {
    DepositPut(w.polls, id, w.polls[id]);
  }

  lemma EndRefusedEarly(w: World, now: nat, id: nat)
    requires !Expired(w, now, id)
    ensures EndPoll(w, now, id).Err?
  {}

  /** Alice holds both shares, worth 3 tokens, and a poll of bob's with a deposit of 5 is open, on which she
      may have voted with 1. */
  function TwoSharesOnePoll(owner: Addr, voted: bool): World {
    var info := VoterInfo(Yes, 1);
    World("gov", Config(owner, Some("psi"), 0, 0, 10, 0, 0, 0), 1, 2, 5, None,
          map["alice" := TokenManager(2, if voted then [(1, info)] else [])],
          map[1 := Poll(1, "bob", InProgress, if voted then 1 else 0, 0, 10, None, None, 5, None, None)],
          {(InProgress, 1)}, if voted then map[(1, "alice") := info] else map[], 8, false, [], [])
  }

  lemma OnePollArises(owner: Addr, rest: Script)
    ensures var s := Do(Register("psi", 0), Do(Stake("psi", "alice", 2), Donate(1,
                     Do(Propose("psi", "bob", 5, None, None), rest))));
            RunScript(Instantiated("gov", Config(owner, None, 0, 0, 10, 0, 0, 0)), 0, s)
            == RunScript(TwoSharesOnePoll(owner, false), 0, rest)
  {
    var w1 := RegisterToken(Instantiated("gov", Config(owner, None, 0, 0, 10, 0, 0, 0)), "psi", 0).value;
    var w2 := StakeVotingTokens(w1, "psi", "alice", 2).value;
    var w3 := w2.(balance := 3);
    var w4 := CreatePoll(w3, 0, "psi", "bob", 5, None, None).value;
    assert w4.bank == map["alice" := TokenManager(2, [])] && w4.polls == TwoSharesOnePoll(owner, false).polls;
    assert w4.indexer == {(InProgress, 1)};
    assert w4 == TwoSharesOnePoll(owner, false);
    var s3 := Do(Propose("psi", "bob", 5, None, None), rest);
    assert RunScript(w3, 0, s3) == RunScript(w4, 0, rest);
    assert RunScript(w2, 0, Donate(1, s3)) == RunScript(w3, 0, s3);
    assert RunScript(w1, 0, Do(Stake("psi", "alice", 2), Donate(1, s3))) == RunScript(w2, 0, Donate(1, s3));
  }

  lemma AliceVotes(owner: Addr)
    ensures CastVote(TwoSharesOnePoll(owner, false), 0, "alice", 1, Yes, 1) == Ok(TwoSharesOnePoll(owner, true))
  {
    var w := TwoSharesOnePoll(owner, false);
    assert MultiplyRatio(2, 3, 2) == 3;
    var lock := (1, VoterInfo(Yes, 1));
    assert w.bank["alice"].locked + [lock] == [lock];
    var v := CastVote(w, 0, "alice", 1, Yes, 1).value;
    assert v.bank == TwoSharesOnePoll(owner, true).bank && v.polls == TwoSharesOnePoll(owner, true).polls;
    assert v.voters == TwoSharesOnePoll(owner, true).voters;
  }

  lemma AliceLeaves(owner: Addr)
    ensures var w := WithdrawVotingTokens(TwoSharesOnePoll(owner, true), "alice", Some(4));
            w.Ok? && w.value.polls == TwoSharesOnePoll(owner, true).polls
            && w.value.totalShare == 0 && w.value.totalDeposit == 5 && w.value.balance == 4
            && w.value.config == TwoSharesOnePoll(owner, true).config
  {
    var locked := [(1, VoterInfo(Yes, 1))];
    assert locked[..0] == [];
    assert StillLocked(TwoSharesOnePoll(owner, true).polls, locked) == locked && LargestLock(locked) == 1;
    assert WithdrawalTerms(2, 1, 2, 3, Some(4)) == Ok((2, 4));
  }

  lemma VoteAndLeave(owner: Addr) returns (w: World)
    ensures RunScript(TwoSharesOnePoll(owner, false), 0, Do(Vote("alice", 1, Yes, 1), Do(Withdraw("alice", Some(4)), Done)))
         == Ok(w)
    ensures w.polls == TwoSharesOnePoll(owner, true).polls && w.config == TwoSharesOnePoll(owner, true).config
    ensures w.totalShare == 0 && w.totalDeposit == 5 && w.balance == 4
  {
    AliceVotes(owner);
    AliceLeaves(owner);
    w := WithdrawVotingTokens(TwoSharesOnePoll(owner, true), "alice", Some(4)).value;
    assert RunScript(w, 0, Done) == Ok(w);
  }

  /** That case comes about too: alice votes with 1 of her 3 tokens, withdraws 4, and the refund of 5 meets a
      balance of 4. */
  lemma OverdraftBlocksRefund(owner: Addr) returns (w: World)
    ensures var s := Do(Register("psi", 0), Do(Stake("psi", "alice", 2), Donate(1,
                     Do(Propose("psi", "bob", 5, None, None), Do(Vote("alice", 1, Yes, 1),
                     Do(Withdraw("alice", Some(4)), Done))))));
            RunScript(Instantiated("gov", Config(owner, None, 0, 0, 10, 0, 0, 0)), 0, s) == Ok(w)
    ensures 1 in w.polls && RefundUncovered(w, w.polls[1]) && EndPoll(w, 10, 1) == Err(TokenFailure)
  {
    OnePollArises(owner, Do(Vote("alice", 1, Yes, 1), Do(Withdraw("alice", Some(4)), Done)));
    w := VoteAndLeave(owner);
  }

  lemma EndSucceedsWhenHeld(w: World, now: nat, id: nat)
    requires Expired(w, now, id) && w.polls[id].deposit <= w.totalDeposit && Solvent(w)
    requires w.config.psiToken.None? ==> w.totalDeposit == 0 == w.totalShare
    ensures EndPoll(w, now, id).Err? <==> NoWeight(w, w.polls[id]) || RefundUncovered(w, w.polls[id])
    ensures NoWeight(w, w.polls[id]) ==> EndPoll(w, now, id) == Err(DivideByZero)
  {}

  // ----- the share price -----

  /** Tokens behind one share, compared without dividing: no lower in v than in w. */
  predicate PriceHolds(w: World, v: World) {
    Backing(v) * w.totalShare >= Backing(w) * v.totalShare
  }

  lemma StakeKeepsPrice(w: World, token: Addr, sender: Addr, amount: nat)
    requires w.totalDeposit <= w.balance && w.totalShare > 0 && StakeVotingTokens(w, token, sender, amount).Ok?
    ensures PriceHolds(w, StakeVotingTokens(w, token, sender, amount).value)
  {}

  lemma BackingKeepsPrice(w: World, v: World)
    requires v.totalShare == w.totalShare && Backing(w) <= Backing(v)
    ensures PriceHolds(w, v)
  {}

  lemma FullWithdrawalKeepsPrice(w: World, sender: Addr)
    requires WithdrawVotingTokens(w, sender, None).Ok?
    ensures PriceHolds(w, WithdrawVotingTokens(w, sender, None).value)
  {}

  /** An explicit withdrawal may round the price down, but by less than the worth of one share. */
  lemma ExplicitWithdrawalPrice(w: World, sender: Addr, amount: nat)
    requires WithdrawVotingTokens(w, sender, Some(amount)).Ok?
    ensures var v := WithdrawVotingTokens(w, sender, Some(amount)).value;
            && amount * w.totalShare < (w.totalShare - v.totalShare + 1) * Backing(w)
            && Backing(v) * w.totalShare > (v.totalShare - 1) * Backing(w)
  {
    var burned, paid := WithdrawalUsesTerms(w, sender, Some(amount));
    ExplicitTermsBounded(amount, w.totalShare, Backing(w));
    ExplicitPaymentPrice(Backing(w), w.totalShare, amount, burned);
  }

  lemma ExplicitPaymentPrice(backing: int, totalShare: int, paid: int, burned: int)
    requires paid * totalShare < (burned + 1) * backing
    ensures (backing - paid) * totalShare > (totalShare - burned - 1) * backing
  {}

  lemma EndKeepsPrice(w: World, now: nat, id: nat)
    requires EndPoll(w, now, id).Ok?
    ensures PriceHolds(w, EndPoll(w, now, id).value)
  {}

  lemma StillKeepsPrice(w: World, now: nat, call: Call)
    requires call.Propose? || call.Register? || call.Vote? || call.Snapshot? || call.Configure?
    requires w.config.psiToken.Some? && Exec(w, now, call).Ok?
    ensures PriceHolds(w, Exec(w, now, call).value)
  {
    BackingKeepsPrice(w, Exec(w, now, call).value);
  }

  /** No command but an explicit withdrawal lowers the price. */
  lemma CommandKeepsPrice(w: World, now: nat, call: Call)
    requires Inv(w) && w.totalShare > 0
    requires !call.ExecutePoll? && !call.Yourself? && !(call.Withdraw? && call.wanted.Some?)
    requires Exec(w, now, call).Ok?
    ensures PriceHolds(w, Exec(w, now, call).value)
  {
    match call {
      case Stake(token, sender, amount) => StakeKeepsPrice(w, token, sender, amount);
      case Withdraw(sender, _) => FullWithdrawalKeepsPrice(w, sender);
      case End(id) => EndKeepsPrice(w, now, id);
      case _ => StillKeepsPrice(w, now, call);
    }
  }

  lemma PriceHoldsTransitive(u: World, v: World, w: World)
    requires PriceHolds(u, v) && PriceHolds(v, w) && v.totalShare > 0
    ensures PriceHolds(u, w)
  {}

  /** No explicit withdrawal anywhere in the script. */
  ghost predicate Patient(s: Script)
    decreases s, 0
  {
    match s
    case Do(call, rest) => PatientCall(call) && Patient(rest)
    case Try(body, rest) => Patient(body) && Patient(rest)
    case Donate(_, rest) => Patient(rest)
    case _ => true
  }

  ghost predicate PatientCall(call: Call)
    decreases call, 1
  {
    match call
    case ExecutePoll(_, script) => Patient(script)
    case Yourself(_, _, script) => Patient(script)
    case Withdraw(_, wanted) => wanted.None?
    case _ => true
  }

  /** Somebody holds a share after every call of the script whose effects last; what is rolled back does
      not matter. */
  ghost predicate SharesSurvive(w: World, now: nat, s: Script)
    decreases s, 0
  {
    match s
    case Done => true
    case Abort => true
    case Do(call, rest) =>
      (match Exec(w, now, call)
       case Err(_) => true
       case Ok(w1) => SharesSurviveCall(w, now, call) && w1.totalShare > 0 && SharesSurvive(w1, now, rest))
    case Try(body, rest) =>
      (match RunScript(w, now, body)
       case Err(_) => SharesSurvive(w, now, rest)
       case Ok(w1) => SharesSurvive(w, now, body) && SharesSurvive(w1, now, rest))
    case Donate(amount, rest) => SharesSurvive(w.(balance := w.balance + amount), now, rest)
  }

  ghost predicate SharesSurviveCall(w: World, now: nat, call: Call)
    decreases call, 1
  {
    call.ExecutePoll? && StartExecution(w, now, call.pollId).Ok? ==>
      (RunScript(Sending(w, now, call.pollId), now, call.script).Ok? ==>
         SharesSurvive(Sending(w, now, call.pollId), now, call.script))
  }

  ghost predicate Steady(w: World, v: World) {
    PriceHolds(w, v) && v.totalShare > 0
  }

  lemma {:induction false} CallKeepsPrice(w: World, now: nat, call: Call)
    requires Inv(w) && w.totalShare > 0
    requires TameCall(call, w.self) && PatientCall(call) && Exec(w, now, call).Ok?
    requires SharesSurviveCall(w, now, call) && Exec(w, now, call).value.totalShare > 0
    ensures Steady(w, Exec(w, now, call).value)
    decreases call, 2
  {
    if call.ExecutePoll? {
      ExecutionKeepsPrice(w, now, call.pollId, call.script);
    } else if !call.Yourself? {
      CommandKeepsPrice(w, now, call);
    }
  }

  lemma {:induction false} ExecutionKeepsPrice(w: World, now: nat, id: nat, script: Script)
    requires Inv(w) && w.totalShare > 0
    requires Tame(script, w.self) && Patient(script) && StartExecution(w, now, id).Ok?
    requires SharesSurviveCall(w, now, ExecutePoll(id, script))
    ensures Exec(w, now, ExecutePoll(id, script)).Ok? && Steady(w, Exec(w, now, ExecutePoll(id, script)).value)
    decreases script, 3
  {
    ExecutionOutcome(w, now, id, script);
    MarksKeepPrice(w, now, id);
    if RunScript(Sending(w, now, id), now, script).Ok? {
      assert Inv(Sending(w, now, id)) by { SendingKeeps(w, now, id); }
      RestKeepsPrice(w, Sending(w, now, id), now, script);
    }
  }

  lemma MarksKeepPrice(w: World, now: nat, id: nat)
    requires id in w.polls && w.totalShare > 0
    ensures Steady(w, Sending(w, now, id)) && Steady(w, Failing(w, id))
  {}

  /** A transaction without explicit withdrawals, however it nests and fails inside, never lowers the
      price of a share as long as shares remain. */
  lemma {:induction false} ScriptKeepsPrice(w: World, now: nat, s: Script)
    requires Inv(w) && w.totalShare > 0
    requires Tame(s, w.self) && Patient(s) && RunScript(w, now, s).Ok? && SharesSurvive(w, now, s)
    ensures Steady(w, RunScript(w, now, s).value)
    decreases s, 1
  {
    match s {
      case Done =>
      case Do(call, rest) =>
        CallKeepsPrice(w, now, call);
        ExecKeeps(w, now, call);
        RestKeepsPrice(w, Exec(w, now, call).value, now, rest);
      case Try(body, rest) => TryKeepsPrice(w, now, body, rest);
      case Donate(amount, rest) =>
        DonationKeeps(w, amount);
        BackingKeepsPrice(w, w.(balance := w.balance + amount));
        RestKeepsPrice(w, w.(balance := w.balance + amount), now, rest);
    }
  }

  lemma {:induction false} TryKeepsPrice(w: World, now: nat, body: Script, rest: Script)
    requires Inv(w) && w.totalShare > 0
    requires Tame(body, w.self) && Patient(body) && Tame(rest, w.self) && Patient(rest)
    requires RunScript(w, now, Try(body, rest)).Ok? && SharesSurvive(w, now, Try(body, rest))
    ensures Steady(w, RunScript(w, now, Try(body, rest)).value)
    decreases Try(body, rest), 0
  {
    if RunScript(w, now, body).Ok? {
      ScriptKeepsPrice(w, now, body);
      ScriptKeeps(w, now, body);
      RestKeepsPrice(w, RunScript(w, now, body).value, now, rest);
    } else {
      ScriptKeepsPrice(w, now, rest);
    }
  }

  lemma {:induction false} RestKeepsPrice(w: World, w1: World, now: nat, rest: Script)
    requires Inv(w1) && w1.self == w.self && Steady(w, w1)
    requires Tame(rest, w.self) && Patient(rest) && RunScript(w1, now, rest).Ok? && SharesSurvive(w1, now, rest)
    ensures Steady(w, RunScript(w1, now, rest).value)
    decreases rest, 2
  {
    ScriptKeepsPrice(w1, now, rest);
    PriceHoldsTransitive(w, w1, RunScript(w1, now, rest).value);
  }

  lemma CommandNeverOverdraws(w: World, now: nat, call: Call)
    requires !call.ExecutePoll? && !call.Yourself? && PatientCall(call)
    requires Exec(w, now, call).Ok?
    ensures Exec(w, now, call).value.overdrawn == w.overdrawn
  {
    match call {
      case Withdraw(sender, _) => FullWithdrawalNeverOverdraws(w, sender);
      case End(id) => EndNeverOverdraws(w, now, id);
      case _ =>
    }
  }

  lemma FullWithdrawalNeverOverdraws(w: World, sender: Addr)
    requires WithdrawVotingTokens(w, sender, None).Ok?
    ensures WithdrawVotingTokens(w, sender, None).value.overdrawn == w.overdrawn
  {
    FullWithdrawalSolvent(w, sender);
  }

  lemma EndNeverOverdraws(w: World, now: nat, id: nat)
    requires EndPoll(w, now, id).Ok?
    ensures EndPoll(w, now, id).value.overdrawn == w.overdrawn
  {
    EndEffect(w, now, id);
  }

  lemma {:induction false} CallNeverOverdraws(w: World, now: nat, call: Call)
    requires Inv(w) && TameCall(call, w.self) && PatientCall(call) && Exec(w, now, call).Ok?
    ensures Exec(w, now, call).value.overdrawn == w.overdrawn
    decreases call, 1
  {
    if call.ExecutePoll? {
      ExecutionOutcome(w, now, call.pollId, call.script);
      if RunScript(Sending(w, now, call.pollId), now, call.script).Ok? {
        SendingKeeps(w, now, call.pollId);
        PatientNeverOverdraws(Sending(w, now, call.pollId), now, call.script);
      }
    } else if !call.Yourself? {
      CommandNeverOverdraws(w, now, call);
    }
  }

  /** A transaction without explicit withdrawals never uses up deposits, however it nests and fails. */
  lemma {:induction false} PatientNeverOverdraws(w: World, now: nat, s: Script)
    requires Inv(w) && Tame(s, w.self) && Patient(s) && RunScript(w, now, s).Ok?
    ensures RunScript(w, now, s).value.overdrawn == w.overdrawn
    decreases s, 0
  {
    match s {
      case Done =>
      case Do(call, rest) =>
        CallNeverOverdraws(w, now, call);
        ExecKeeps(w, now, call);
        PatientNeverOverdraws(Exec(w, now, call).value, now, rest);
      case Try(body, rest) =>
        if RunScript(w, now, body).Ok? {
          PatientNeverOverdraws(w, now, body);
          ScriptKeeps(w, now, body);
          PatientNeverOverdraws(RunScript(w, now, body).value, now, rest);
        } else {
          PatientNeverOverdraws(w, now, rest);
        }
      case Donate(amount, rest) =>
        DonationKeeps(w, amount);
        PatientNeverOverdraws(w.(balance := w.balance + amount), now, rest);
    }
  }

  // ----- vote locks -----

  lemma {:induction false} LargestLockIsLargest(locked: seq<(nat, VoterInfo)>)
    ensures forall e | e in locked :: e.1.balance <= LargestLock(locked)
    ensures locked == [] ==> LargestLock(locked) == 0
    ensures locked != [] ==> exists e | e in locked :: e.1.balance == LargestLock(locked)
  {
    if locked != [] {
      var n := |locked| - 1;
      LargestLockIsLargest(locked[..n]);
      assert locked == locked[..n] + [locked[n]];
      if LargestLock(locked) == locked[n].1.balance {
        assert locked[n] in locked;
      } else if n > 0 {
        var e :| e in locked[..n] && e.1.balance == LargestLock(locked[..n]);
        assert e in locked;
      }
    }
  }

  /** The largest vote a voter has in a poll that is still open. */
  ghost predicate IsLargestOpenVote(w: World, voter: Addr, largest: nat) {
    && (forall id | (id, voter) in w.voters && id in w.polls && w.polls[id].status.InProgress? ::
          w.voters[(id, voter)].balance <= largest)
    && (largest == 0 || exists id | (id, voter) in w.voters && id in w.polls && w.polls[id].status.InProgress? ::
          w.voters[(id, voter)].balance == largest)
  }

  lemma LockIsLargestOpenVote(w: World, sender: Addr)
    requires Inv(w) && sender in w.bank
    ensures forall e | e in w.bank[sender].locked :: e.0 in w.polls
    ensures IsLargestOpenVote(w, sender, LargestLock(StillLocked(w.polls, w.bank[sender].locked)))
  {
    WithdrawKeepsLocks(w, sender, 0);
    assert LocksRecorded(sender, w.bank[sender].locked, w.voters);
    StillLockedKeeps(w.polls, w.bank[sender].locked);
    var locked := StillLocked(w.polls, w.bank[sender].locked);
    LargestLockIsLargest(locked);
    forall id | (id, sender) in w.voters && id in w.polls && w.polls[id].status.InProgress?
      ensures w.voters[(id, sender)].balance <= LargestLock(locked)
    {
      assert (id, w.voters[(id, sender)]) in w.bank[sender].locked;
      assert (id, w.voters[(id, sender)]) in locked;
    }
    if LargestLock(locked) != 0 {
      var e :| e in locked && e.1.balance == LargestLock(locked);
      assert (e.0, sender) in w.voters && w.voters[(e.0, sender)] == e.1;
    }
  }

  lemma TermsRespectLock(userShare: nat, locked: nat, totalShare: nat, backing: nat, amount: Option<nat>)
    requires WithdrawalTerms(userShare, locked, totalShare, backing, amount).Ok?
    ensures backing > 0
    ensures var burned := WithdrawalTerms(userShare, locked, totalShare, backing, amount).value.0;
            && burned <= userShare
            && locked * totalShare / backing <= userShare - burned
            && locked * totalShare < (userShare - burned + 1) * backing
            && (amount.None? ==> userShare - burned == locked * totalShare / backing)
  {}

  /** What a withdrawal leaves covers the lock it computed. */
  lemma WithdrawalCoversLock(w: World, sender: Addr, amount: Option<nat>)
    requires WithdrawVotingTokens(w, sender, amount).Ok?
    ensures Backing(w) > 0 && sender in w.bank && forall e | e in w.bank[sender].locked :: e.0 in w.polls
    ensures sender in WithdrawVotingTokens(w, sender, amount).value.bank
    ensures var left := WithdrawVotingTokens(w, sender, amount).value.bank[sender].share;
            Covers(w, left, LargestLock(StillLocked(w.polls, w.bank[sender].locked)), amount.None?)
  {
    var burned, paid := WithdrawalUsesTerms(w, sender, amount);
    TermsRespectLock(w.bank[sender].share, LargestLock(StillLocked(w.polls, w.bank[sender].locked)),
                     w.totalShare, Backing(w), amount);
  }

  /** The shares are worth the votes, up to one share at the price in w; or exactly their rounded cover. */
  predicate Covers(w: World, shares: nat, votes: nat, exactly: bool)
    requires Backing(w) > 0
  {
    && shares >= votes * w.totalShare / Backing(w)
    && (shares + 1) * Backing(w) > votes * w.totalShare
    && (exactly ==> shares == votes * w.totalShare / Backing(w))
  }

  /** After any withdrawal the remaining shares still cover the largest open vote, up to one share at the
      price before; a withdrawal of everything leaves exactly the rounded cover. */
  lemma WithdrawalRespectsLocks(w: World, sender: Addr, amount: Option<nat>) returns (largest: nat)
    requires Inv(w) && WithdrawVotingTokens(w, sender, amount).Ok?
    ensures IsLargestOpenVote(w, sender, largest) && Backing(w) > 0
    ensures sender in WithdrawVotingTokens(w, sender, amount).value.bank
    ensures Covers(w, WithdrawVotingTokens(w, sender, amount).value.bank[sender].share, largest, amount.None?)
  {
    WithdrawalCoversLock(w, sender, amount);
    LockIsLargestOpenVote(w, sender);
    largest := LargestLock(StillLocked(w.polls, w.bank[sender].locked));
  }

  // ----- verdicts -----

  /** The rounded quorum test is the exact one. */
  lemma QuorumExact(tallied: nat, staked: nat, quorum: nat)
    requires staked > 0
    ensures FromRatio(tallied, staked) < quorum <==> tallied * SCALE < quorum * staked
  {
    DivBelow(tallied * SCALE, staked, quorum);
  }

  /** An accepted poll exceeds the threshold exactly; rounding never lets one through. And for a threshold
      of exactly a / b, with the votes times b at most 10^18, nothing is refused by rounding either. */
  lemma ThresholdExact(yes: nat, tallied: nat, threshold: nat, a: nat, b: nat)
    requires tallied > 0
    ensures FromRatio(yes, tallied) > threshold ==> yes * SCALE > threshold * tallied
    ensures b > 0 && threshold * b == a * SCALE && tallied * b <= SCALE ==>
              (FromRatio(yes, tallied) > threshold <==> yes * b > a * tallied)
  {
    var q := FromRatio(yes, tallied);
    DivBelow(yes * SCALE, tallied, threshold + 1);
    assert (threshold + 1) * tallied == threshold * tallied + tallied;
    if b > 0 && threshold * b == a * SCALE && tallied * b <= SCALE {
      assert (yes * SCALE) * b == (yes * b) * SCALE;
      assert (threshold * tallied) * b == (a * tallied) * SCALE by {
        assert (threshold * tallied) * b == (threshold * b) * tallied;
        assert (a * SCALE) * tallied == (a * tallied) * SCALE;
      }
      if yes * b > a * tallied {
        MulMonotone(a * tallied + 1, yes * b, SCALE);
        assert (threshold * tallied + tallied) * b <= (yes * SCALE) * b;
        if threshold * tallied + tallied > yes * SCALE {
          MulMonotone(yes * SCALE + 1, threshold * tallied + tallied, b);
        }
      } else {
        MulMonotone(yes * b, a * tallied, SCALE);
        if q > threshold {
          MulMonotone(threshold * tallied + 1, yes * SCALE, b);
        }
      }
    }
  }

  function Votes(poll: Poll): nat {
    poll.yesVotes + poll.noVotes
  }

  /** The tokens that the turnout is measured against: those of the snapshot, or else those behind the
      shares, without the open deposits. */
  function Electorate(w: World, poll: Poll): int {
    if poll.stakedAmount.Some? then poll.stakedAmount.value else w.balance - w.totalDeposit
  }

  /** Somebody voted, and the turnout reaches the quorum (of nothing, when no shares are left). */
  predicate Quorate(w: World, poll: Poll) {
    && Votes(poll) > 0
    && (if w.totalShare == 0 then w.config.quorum == 0
        else Votes(poll) * SCALE >= w.config.quorum * Electorate(w, poll))
  }

  /** Quorate, and the approval exceeds the threshold by a raw unit. */
  predicate Carried(w: World, poll: Poll) {
    Quorate(w, poll) && poll.yesVotes * SCALE >= (w.config.threshold + 1) * Votes(poll)
  }

  /** When an ending poll passes, compared without rounding. For a threshold of exactly a / b, with the
      votes times b at most 10^18, it is when the poll is quorate and yes * b > a * votes. */
  lemma PollPassesIff(w: World, now: nat, id: nat, a: nat, b: nat)
    requires EndPoll(w, now, id).Ok?
    ensures id in w.polls
    ensures var poll := w.polls[id];
            var passed := EndPoll(w, now, id).value.polls[id].status == Passed;
            && (passed <==> Carried(w, poll))
            && (passed ==> poll.yesVotes * SCALE > w.config.threshold * Votes(poll))
            && (b > 0 && w.config.threshold * b == a * SCALE && Votes(poll) * b <= SCALE ==>
                  (passed <==> Quorate(w, poll) && poll.yesVotes * b > a * Votes(poll)))
  {
    EndVerdict(w, now, id);
    DecidedExactly(w, w.polls[id]);
    var poll := w.polls[id];
    if Votes(poll) > 0 {
      DivBelow(poll.yesVotes * SCALE, Votes(poll), w.config.threshold + 1);
      ThresholdExact(poll.yesVotes, Votes(poll), w.config.threshold, a, b);
    }
  }

  /** The verdict in exact terms. */
  lemma DecidedExactly(w: World, poll: Poll)
    requires Weigh(w, poll).Ok?
    ensures var verdict := Decide(w.config, poll.yesVotes, poll.noVotes, Weigh(w, poll).value.0);
            && (verdict.QuorumNotReached? <==> !Quorate(w, poll))
            && (verdict.Accepted? <==> Carried(w, poll))
    ensures Weigh(w, poll).value.1 == if w.totalShare == 0 then 0 else Electorate(w, poll)
  {
    if w.totalShare > 0 {
      QuorumExact(Votes(poll), Electorate(w, poll), w.config.quorum);
    }
    if Votes(poll) > 0 {
      DivBelow(poll.yesVotes * SCALE, Votes(poll), w.config.threshold + 1);
    }
  }

  lemma EndVerdict(w: World, now: nat, id: nat)
    requires EndPoll(w, now, id).Ok?
    ensures id in w.polls && Weigh(w, w.polls[id]).Ok?
    ensures var poll, v := w.polls[id], EndPoll(w, now, id).value;
            var verdict := Decide(w.config, poll.yesVotes, poll.noVotes, Weigh(w, poll).value.0);
            && (v.polls[id].status == Passed <==> verdict.Accepted?)
            && v.polls[id].totalBalanceAtEnd == Some(Weigh(w, poll).value.1)
            && v.balance == w.balance - (if verdict.QuorumNotReached? then 0 else poll.deposit)
            && v.sent == w.sent + (if !verdict.QuorumNotReached? && poll.deposit > 0
                                   then [Payment(poll.creator, poll.deposit)] else [])
  {}

  /** The deposit goes back to the creator exactly when the quorum is reached; otherwise it joins the
      stakes. Either way it is no longer owed. The poll records what its turnout was measured against. */
  lemma DepositSettled(w: World, now: nat, id: nat)
    requires EndPoll(w, now, id).Ok?
    ensures id in w.polls
    ensures var v, poll := EndPoll(w, now, id).value, w.polls[id];
            && v.totalDeposit == w.totalDeposit - poll.deposit
            && Backing(v) == Backing(w) + (if Quorate(w, poll) then 0 else poll.deposit)
            && v.sent == w.sent + (if Quorate(w, poll) && poll.deposit > 0
                                   then [Payment(poll.creator, poll.deposit)] else [])
            && v.polls[id].totalBalanceAtEnd == Some(if w.totalShare == 0 then 0 else Electorate(w, poll))
  {
    EndEffect(w, now, id);
    EndVerdict(w, now, id);
    DecidedExactly(w, w.polls[id]);
  }

  // ----- the order of messages -----

  function WithOrder(messages: seq<Message>, order: nat): seq<Message> {
    if messages == [] then []
    else
      var rest := WithOrder(messages[..|messages| - 1], order);
      if messages[|messages| - 1].order == order then rest + [messages[|messages| - 1]] else rest
  }

  predicate Ordered(messages: seq<Message>) {
    forall i, j | 0 <= i < j < |messages| :: messages[i].order <= messages[j].order
  }

  lemma {:induction false} InsertHolds(sorted: seq<Message>, m: Message)
    ensures forall x :: x in Insert(sorted, m) <==> x in sorted || x == m
  {
    if sorted != [] && sorted[|sorted| - 1].order > m.order {
      InsertHolds(sorted[..|sorted| - 1], m);
      assert sorted == sorted[..|sorted| - 1] + [sorted[|sorted| - 1]];
    }
  }

  lemma {:induction false} InsertKeepsOrder(sorted: seq<Message>, m: Message)
    requires Ordered(sorted)
    ensures Ordered(Insert(sorted, m))
  {
    if sorted != [] && sorted[|sorted| - 1].order > m.order {
      var n := |sorted| - 1;
      var front := Insert(sorted[..n], m);
      InsertKeepsOrder(sorted[..n], m);
      InsertHolds(sorted[..n], m);
      forall i | 0 <= i < |front| ensures front[i].order <= sorted[n].order {
        assert front[i] in front;
      }
    }
  }

  lemma {:induction false} InsertIsStable(sorted: seq<Message>, m: Message, order: nat)
    ensures WithOrder(Insert(sorted, m), order) == WithOrder(sorted + [m], order)
  {
    var n := |sorted| - 1;
    assert (sorted + [m])[..|sorted|] == sorted;
    if sorted != [] && sorted[n].order > m.order {
      InsertIsStable(sorted[..n], m, order);
      assert (sorted[..n] + [m])[..n] == sorted[..n];
      var front := Insert(sorted[..n], m);
      assert (front + [sorted[n]])[..|front|] == front;
    }
  }

  /** Messages go out by ascending order number, all of them, and those of one number as proposed. */
  lemma {:induction false} SortIsStable(messages: seq<Message>, order: nat)
    ensures Ordered(SortByOrder(messages))
    ensures WithOrder(SortByOrder(messages), order) == WithOrder(messages, order)
  {
    if messages != [] {
      var n := |messages| - 1;
      SortIsStable(messages[..n], order);
      var sorted := SortByOrder(messages[..n]);
      InsertKeepsOrder(sorted, messages[n]);
      InsertIsStable(sorted, messages[n], order);
      assert (sorted + [messages[n]])[..|sorted|] == sorted;
    }
  }
}
