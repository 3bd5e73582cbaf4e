/** The vesting contract as it runs: storage fields that the calls update in place. */
module VestingContract {
  import opened Outcomes
  import opened FixedPoint
  import opened Vesting

  /** A bad schedule anywhere fails the registration as a whole. */
  lemma {:induction false} RegisteredFailsFrom(infos: map<Addr, VestingInfo>, genesis: nat, accounts: seq<Account>, n: nat)
    requires n <= |accounts| && Registered(infos, genesis, accounts[..n]).Err?
    ensures Registered(infos, genesis, accounts) == Registered(infos, genesis, accounts[..n])
    decreases |accounts| - n
  {
    if n == |accounts| {
      assert accounts[..n] == accounts;
    } else {
      assert accounts[..n + 1][..n] == accounts[..n];
      RegisteredFailsFrom(infos, genesis, accounts, n + 1);
    }
  }

  lemma {:induction false} ClaimAmountFailsFrom(schedules: seq<Schedule>, last: nat, now: nat, n: nat)
    requires AllAcceptable(schedules) && n <= |schedules|
    requires ClaimAmount(schedules[..n], last, now).Err?
    ensures ClaimAmount(schedules, last, now) == ClaimAmount(schedules[..n], last, now)
    decreases |schedules| - n
  {
    if n == |schedules| {
      assert schedules[..n] == schedules;
    } else {
      assert schedules[..n + 1][..n] == schedules[..n];
      ClaimAmountFailsFrom(schedules, last, now, n + 1);
    }
  }

  method AssertVestingSchedules(schedules: seq<Schedule>) returns (r: Result<(), Error>)
    ensures r == if AllAcceptable(schedules) then Ok(()) else Err(BadSchedule)
  {
    for i := 0 to |schedules|
      invariant forall j | 0 <= j < i :: schedules[j].Acceptable()
    {
      var s := schedules[i];
      assert s in schedules;
      if s.start >= s.end {
        return Err(BadSchedule);
      }
      if s.start > s.cliff {
        return Err(BadSchedule);
      }
    }
    return Ok(());
  }

  method ComputeClaimAmount(now: nat, info: VestingInfo) returns (r: Result<nat, Error>)
    requires AllAcceptable(info.schedules)
    ensures r == ClaimAmount(info.schedules, info.last, now)
  {
    var claimable := 0;
    for i := 0 to |info.schedules|
      invariant ClaimAmount(info.schedules[..i], info.last, now) == Ok(claimable)
    {
      var s := info.schedules[i];
      assert s in info.schedules;
      assert info.schedules[..i + 1][..i] == info.schedules[..i];
      if s.start > now || s.end < info.last || s.cliff > now {
        continue;
      }
      var lo := Max(s.start, info.last);
      var hi := Min(s.end, now);
      if hi < lo {
        ClaimAmountFailsFrom(info.schedules, info.last, now, i + 1);
        return Err(Underflow);
      }
      var passed := hi - lo;
      if info.last < s.cliff && info.last > s.start {
        passed := passed + (info.last - s.start);
      }
      claimable := claimable + Scaled(FromRatio(s.amount, s.end - s.start), passed);
    }
    assert info.schedules[..|info.schedules|] == info.schedules;
    return Ok(claimable);
  }

  class Contract {
    const owner: Addr
    const genesis: nat
    var infos: map<Addr, VestingInfo>

    function State(): Storage
      reads this
    {
      Storage(owner, genesis, infos)
    }

    constructor (owner: Addr, genesis: nat)
      ensures State() == Storage(owner, genesis, map[]) && Valid(State())
    {
      this.owner, this.genesis, this.infos := owner, genesis, map[];
    }

    /** On a bad schedule the accounts before it are already written: the caller has to discard them. */
    method RegisterVestingAccounts(accounts: seq<Account>) returns (r: Result<(), Error>)
      modifies this
      ensures match r
              case Ok(_) => Registered(old(infos), genesis, accounts) == Ok(infos)
              case Err(e) => Registered(old(infos), genesis, accounts) == Err(e)
    {
      for i := 0 to |accounts|
        invariant Registered(old(infos), genesis, accounts[..i]) == Ok(infos)
      {
        var account := accounts[i];
        assert accounts[..i + 1][..i] == accounts[..i];
        var checked := AssertVestingSchedules(account.schedules);
        if checked.Err? {
          RegisteredFailsFrom(old(infos), genesis, accounts, i + 1);
          return Err(checked.error);
        }
        infos := infos[account.address := VestingInfo(genesis, account.schedules)];
      }
      assert accounts[..|accounts|] == accounts;
      return Ok(());
    }

    method Claim(now: nat, address: Addr) returns (r: Result<nat, Error>)
      requires Valid(State())
      modifies this
      ensures match Step(old(State()), now, Op.Claim(address))
              case Ok((st, amount)) => r == Ok(amount) && State() == st
              case Err(e) => r == Err(e) && State() == old(State())
    {
      if address !in infos {
        return Err(NotFound);
      }
      var info := infos[address];
      var amount :- ComputeClaimAmount(now, info);
      infos := infos[address := info.(last := now)];
      return Ok(amount);
    }

    /** A whole call: a failed one leaves no trace. The result is the amount transferred. */
    method Execute(now: nat, op: Op) returns (r: Result<nat, Error>)
      requires Valid(State())
      modifies this
      ensures match Step(old(State()), now, op)
              case Ok((st, amount)) => r == Ok(amount) && State() == st
              case Err(e) => r == Err(e) && State() == old(State())
      ensures Valid(State())
    {
      StepKeepsValid(State(), now, op);
      match op {
        case Claim(address) =>
          r := Claim(now, address);
        case Register(sender, accounts) =>
          if sender != owner {
            return Err(Unauthorized);
          }
          var saved := infos;
          var done := RegisterVestingAccounts(accounts);
          if done.Err? {
            infos := saved;
            return Err(done.error);
          }
          return Ok(0);
      }
    }
  }
}
