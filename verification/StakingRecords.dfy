/** Deleting empty staker records is invisible: a contract that keeps them all pays the same. */
module StakingRecords {
  import opened Outcomes
  import opened FixedPoint
  import opened Staking

  /** Same schedule, index and totals; the same bond and pending reward for every account; and the same
      settlement index wherever there is a bond for it to matter. */
  ghost predicate SameToStakers(st: Storage, kept: Storage) {
    && st.owner == kept.owner && st.token == kept.token && st.slots == kept.slots && st.state == kept.state
    && SameRecords(st.stakers, kept.stakers)
  }

  predicate SameRecord(info: Staker, kept: Staker) {
    && info.bond == kept.bond && info.pending == kept.pending
    && (info.bond > 0 ==> info.index == kept.index)
  }

  lemma SettleSame(index: nat, info: Staker, kept: Staker)
    requires SameRecord(info, kept)
    ensures Settle(index, info) == Settle(index, kept)
  {}

  ghost predicate SameRecords(stakers: map<Addr, Staker>, kept: map<Addr, Staker>) {
    forall a :: SameRecord(Read(stakers, a), Read(kept, a))
  }

  lemma SaveSame(stakers: map<Addr, Staker>, kept: map<Addr, Staker>, a: Addr, info: Staker, remove: bool)
    requires SameRecords(stakers, kept)
    requires remove ==> info.bond == 0 == info.pending
    ensures SameRecords(Save(stakers, a, info, remove), Save(kept, a, info, false))
  {
    forall b ensures SameRecord(Read(Save(stakers, a, info, remove), b), Read(Save(kept, a, info, false), b)) {
      assert SameRecord(Read(stakers, b), Read(kept, b));
    }
  }

  /** The two contracts answer a call alike: the same error, or the same transfer and like states. */
  ghost predicate Alike(st: Storage, kept: Storage, now: nat, op: Op) {
    match (StepWith(st, now, op, true), StepWith(kept, now, op, false))
    case (Ok((next, transfer)), Ok((next', transfer'))) => transfer == transfer' && SameToStakers(next, next')
    case (Err(e), Err(e')) => e == e'
    case _ => false
  }

  lemma BondSame(st: Storage, kept: Storage, now: nat, caller: Addr, a: Addr, amount: nat)
    requires SameToStakers(st, kept)
    ensures Alike(st, kept, now, Bond(caller, a, amount))
  {
    assert SameRecord(Read(st.stakers, a), Read(kept.stakers, a));
    if Accrue(st.slots, st.state, now).Ok? {
      var index := Accrue(st.slots, st.state, now).value.index;
      SettleSame(index, Read(st.stakers, a), Read(kept.stakers, a));
      if Settle(index, Read(st.stakers, a)).Ok? {
        var info := Settle(index, Read(st.stakers, a)).value;
        SaveSame(st.stakers, kept.stakers, a, info.(bond := info.bond + amount), false);
      }
    }
  }

  lemma UnbondSame(st: Storage, kept: Storage, now: nat, a: Addr, amount: nat)
    requires SameToStakers(st, kept)
    ensures Alike(st, kept, now, Unbond(a, amount))
  {
    assert SameRecord(Read(st.stakers, a), Read(kept.stakers, a));
    if Accrue(st.slots, st.state, now).Ok? {
      var index := Accrue(st.slots, st.state, now).value.index;
      SettleSame(index, Read(st.stakers, a), Read(kept.stakers, a));
      if Settle(index, Read(st.stakers, a)).Ok? && amount <= Read(st.stakers, a).bond {
        var info := Settle(index, Read(st.stakers, a)).value;
        var left := info.(bond := info.bond - amount);
        SaveSame(st.stakers, kept.stakers, a, left, left.pending == 0 && left.bond == 0);
      }
    }
  }

  lemma WithdrawSame(st: Storage, kept: Storage, now: nat, a: Addr)
    requires SameToStakers(st, kept)
    ensures Alike(st, kept, now, Withdraw(a))
  {
    assert SameRecord(Read(st.stakers, a), Read(kept.stakers, a));
    if Accrue(st.slots, st.state, now).Ok? {
      var index := Accrue(st.slots, st.state, now).value.index;
      SettleSame(index, Read(st.stakers, a), Read(kept.stakers, a));
      if Settle(index, Read(st.stakers, a)).Ok? {
        var info := Settle(index, Read(st.stakers, a)).value;
        SaveSame(st.stakers, kept.stakers, a, info.(pending := 0), info.bond == 0);
      }
    }
  }

  /** One call on either contract: the same outcome, the same transfer, and states that stay alike. */
  lemma StepSame(st: Storage, kept: Storage, now: nat, op: Op)
    requires SameToStakers(st, kept)
    ensures Alike(st, kept, now, op)
  {
    match op {
      case Bond(caller, a, amount) => BondSame(st, kept, now, caller, a, amount);
      case Unbond(a, amount) => UnbondSame(st, kept, now, a, amount);
      case Withdraw(a) => WithdrawSame(st, kept, now, a);
      case _ =>
    }
  }

  /** The transfers of a whole run. */
  function Transfers(st: Storage, calls: seq<(nat, Op)>, forget: bool): (Storage, seq<Transfer>) {
    if calls == [] then (st, [])
    else
      var (before, sent) := Transfers(st, calls[..|calls| - 1], forget);
      var (now, op) := calls[|calls| - 1];
      match StepWith(before, now, op, forget)
      case Ok((next, transfer)) => (next, sent + [transfer])
      case Err(_) => (before, sent)
  }

  /** On every run the contract makes exactly the payments of one that never deletes a record, and every
      account keeps the same bond and the same pending reward. */
  lemma {:induction false} DeletionInvisible(st: Storage, calls: seq<(nat, Op)>)
    ensures Transfers(st, calls, true).1 == Transfers(st, calls, false).1
    ensures SameToStakers(Transfers(st, calls, true).0, Transfers(st, calls, false).0)
  {
    if calls != [] {
      var before := calls[..|calls| - 1];
      DeletionInvisible(st, before);
      StepSame(Transfers(st, before, true).0, Transfers(st, before, false).0, calls[|calls| - 1].0, calls[|calls| - 1].1);
    }
  }
}
