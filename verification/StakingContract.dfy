/** The staking contract as it runs: storage fields that the calls update in place. */
module StakingContract {
  import opened Outcomes
  import opened FixedPoint
  import opened Staking
  import opened StakingRuns

  method ComputeReward(slots: seq<Slot>, state: State, now: nat) returns (r: Result<State, Error>)
    ensures r == Accrue(slots, state, now)
  {
    if state.last >= now {
      return Ok(state);
    }
    if state.totalBond == 0 {
      return Ok(state.(last := now));
    }
    var distributed := 0;
    for i := 0 to |slots|
      invariant distributed == Emission(slots[..i], state.last, now)
      invariant forall j | 0 <= j < i :: !Aborts(slots[j], state.last, now)
    {
      var s := slots[i];
      assert slots[..i + 1][..i] == slots[..i];
      if s.start > now || s.end < state.last {
        continue;
      }
      if s.end <= s.start {
        assert Aborts(s, state.last, now) && s in slots;
        return Err(BadSlot);
      }
      var passed := Min(s.end, now) - Max(s.start, state.last);
      var perTime := FromRatio(s.amount, s.end - s.start);
      distributed := distributed + Scaled(perTime, passed);
    }
    assert slots[..|slots|] == slots;
    return Ok(State(now, state.totalBond, state.index + FromRatio(distributed, state.totalBond)));
  }

  method ComputeStakerReward(state: State, info: Staker) returns (r: Result<Staker, Error>)
    ensures r == Settle(state.index, info)
  {
    var earned, before := Scaled(state.index, info.bond), Scaled(info.index, info.bond);
    if earned < before {
      return Err(Underflow);
    }
    return Ok(info.(index := state.index, pending := info.pending + (earned - before)));
  }

  /** The first pass of a migration adds up the schedule and drops what has not started. */
  method RetainStarted(slots: seq<Slot>, now: nat) returns (started: seq<Slot>, total: nat)
    ensures started == Started(slots, now) && total == Total(slots)
  {
    started, total := [], 0;
    for i := 0 to |slots|
      invariant total == Total(slots[..i]) && started == Started(slots[..i], now)
    {
      assert slots[..i + 1][..i] == slots[..i];
      total := total + slots[i].amount;
      if slots[i].start < now {
        started := started + [slots[i]];
      }
    }
    assert slots[..|slots|] == slots;
  }

  /** The second pass rewrites the slots that have started, one by one. */
  method CutSlots(started: seq<Slot>, now: nat) returns (slots: seq<Slot>, distributed: nat)
    requires forall s | s in started :: s.start < now
    ensures slots == Kept(started, now) && distributed == Distributed(started, now)
  {
    slots, distributed := started, 0;
    KeptAt(started, now);
    for i := 0 to |started|
      invariant |slots| == |started|
      invariant forall j | 0 <= j < |started| ::
                  slots[j] == if j < i then Kept(started, now)[j] else started[j]
      invariant distributed == Distributed(started[..i], now)
    {
      var s := slots[i];
      assert started[..i + 1][..i] == started[..i];
      if s.end < now {
        distributed := distributed + s.amount;
      } else {
        var perTime := FromRatio(s.amount, s.end - s.start);
        var onSlot := Scaled(perTime, now - s.start);
        distributed := distributed + onSlot;
        slots := slots[i := Slot(s.start, now, onSlot)];
      }
    }
    assert started[..|started|] == started;
  }

  class Contract {
    const owner: Addr
    const token: Addr
    var slots: seq<Slot>
    var state: State
    var stakers: map<Addr, Staker>

    function Stored(): Storage
      reads this
    {
      Storage(owner, token, slots, state, stakers)
    }

    constructor (owner: Addr, token: Addr, slots: seq<Slot>, now: nat)
      ensures Stored() == Instantiated(owner, token, slots, now)
    {
      this.owner, this.token, this.slots := owner, token, slots;
      this.state, this.stakers := State(now, 0, 0), map[];
    }

    /** What every call promises: the step of the specification, or no change at all. */
    ghost predicate Performed(before: Storage, now: nat, op: Op, r: Result<Transfer, Error>)
      reads this
    {
      match Step(before, now, op)
      case Ok((after, transfer)) => r == Ok(transfer) && Stored() == after
      case Err(e) => r == Err(e) && Stored() == before
    }

    method ReceiveBond(now: nat, caller: Addr, sender: Addr, amount: nat) returns (r: Result<Transfer, Error>)
      modifies this
      ensures Performed(old(Stored()), now, Bond(caller, sender, amount), r)
    {
      if caller != token {
        return Err(Unauthorized);
      }
      var info := Read(stakers, sender);
      var current :- ComputeReward(slots, state, now);
      info :- ComputeStakerReward(current, info);
      current := current.(totalBond := current.totalBond + amount);
      info := info.(bond := info.bond + amount);
      stakers := stakers[sender := info];
      state := current;
      return Ok(NoTransfer);
    }

    method UnbondTokens(now: nat, sender: Addr, amount: nat) returns (r: Result<Transfer, Error>)
      modifies this
      ensures Performed(old(Stored()), now, Unbond(sender, amount), r)
    {
      var info := Read(stakers, sender);
      if info.bond < amount {
        return Err(BondTooSmall);
      }
      var current :- ComputeReward(slots, state, now);
      info :- ComputeStakerReward(current, info);
      if current.totalBond < amount || info.bond < amount {
        return Err(Underflow);
      }
      current := current.(totalBond := current.totalBond - amount);
      info := info.(bond := info.bond - amount);
      if info.pending == 0 && info.bond == 0 {
        stakers := stakers - {sender};
      } else {
        stakers := stakers[sender := info];
      }
      state := current;
      return Ok(Unbonded(sender, amount));
    }

    method WithdrawRewards(now: nat, sender: Addr) returns (r: Result<Transfer, Error>)
      modifies this
      ensures Performed(old(Stored()), now, Withdraw(sender), r)
    {
      var info := Read(stakers, sender);
      var current :- ComputeReward(slots, state, now);
      info :- ComputeStakerReward(current, info);
      var amount := info.pending;
      info := info.(pending := 0);
      if info.bond == 0 {
        stakers := stakers - {sender};
      } else {
        stakers := stakers[sender := info];
      }
      state := current;
      return Ok(Reward(sender, amount));
    }

    method AppendSchedules(now: nat, sender: Addr, added: seq<Slot>) returns (r: Result<Transfer, Error>)
      modifies this
      ensures Performed(old(Stored()), now, AddSchedules(sender, added), r)
    {
      if sender != owner {
        return Err(Unauthorized);
      }
      for i := 0 to |added|
        invariant forall j | 0 <= j < i :: now <= added[j].start
      {
        if added[i].start < now {
          assert added[i] in added;
          return Err(StartsInThePast);
        }
      }
      slots := slots + added;
      return Ok(NoTransfer);
    }

    method MigrateStaking(now: nat, sender: Addr, target: Addr) returns (r: Result<Transfer, Error>)
      modifies this
      ensures Performed(old(Stored()), now, Migrate(sender, target), r)
    {
      if sender != owner {
        return Err(Unauthorized);
      }
      var current :- ComputeReward(slots, state, now);
      var started, total := RetainStarted(slots, now);
      CutInTwoPasses(slots, now);
      var kept, distributed := CutSlots(started, now);
      if total < distributed {
        return Err(Underflow);
      }
      slots := kept;
      state := current;
      return Ok(Remaining(target, total - distributed));
    }

    /** A whole call. It keeps the books: bonds add up, and claims move only by what is paid and released. */
    method Execute(now: nat, op: Op) returns (r: Result<Transfer, Error>)
      modifies this
      ensures Performed(old(Stored()), now, op, r)
      ensures Balanced(old(Stored())) ==>
                && Balanced(Stored()) && Conserves(old(Stored()), now, op)
                && (r.Ok? <==> Admissible(old(Stored()), now, op))
    {
      ghost var before := Stored();
      match op {
        case Bond(caller, staker, amount) => r := ReceiveBond(now, caller, staker, amount);
        case Unbond(sender, amount) => r := UnbondTokens(now, sender, amount);
        case Withdraw(sender) => r := WithdrawRewards(now, sender);
        case AddSchedules(sender, added) => r := AppendSchedules(now, sender, added);
        case Migrate(sender, target) => r := MigrateStaking(now, sender, target);
      }
      if Balanced(before) {
        StepConserves(before, now, op);
        StepSucceedsIff(before, now, op);
      }
    }

    /** What a query reports: the record as it stands, or as it would be settled at a time, with all that
        could be withdrawn then. Storage is not touched. */
    method QueryStakerInfo(time: Option<nat>, a: Addr) returns (r: Result<Staker, Error>)
      ensures time.None? ==> r == Ok(Read(stakers, a))
      ensures time.Some? && r.Ok? ==>
                && Accrue(slots, state, time.value).Ok?
                && var index, info := Accrue(slots, state, time.value).value.index, Read(stakers, a);
                   r.value.index == index && r.value.bond == info.bond && r.value.pending == Claimable(info, index)
      ensures time.Some? && Balanced(Stored()) ==> (r.Ok? <==> !Blocked(Stored(), time.value))
    {
      if time.None? {
        return Ok(Read(stakers, a));
      }
      var current :- ComputeReward(slots, state, time.value);
      r := ComputeStakerReward(current, Read(stakers, a));
      if Balanced(Stored()) {
        SettlesAt(Stored(), time.value, a);
      }
    }
  }
}
