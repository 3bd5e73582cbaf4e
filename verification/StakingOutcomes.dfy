/** Exactly what each call of the staking contract leaves behind and transfers. When it succeeds is the
    subject of StepSucceedsIff. */
module StakingOutcomes {
  import opened Outcomes
  import opened FixedPoint
  import opened Staking
  import opened StakingRuns

  // ----- emissions -----

  /** What one update releases from a slot of at most 10^18 seconds is its amount in proportion to the
      seconds charged, rounded down and then short of that by less than one more token. */
  lemma EmissionInProportion(s: Slot, last: nat, now: nat)
    requires s.Proper() && s.end - s.start <= SCALE && last <= now && s.start <= now && last <= s.end
    ensures var seconds, period, e := Min(s.end, now) - Max(s.start, last), s.end - s.start, SlotEmission(s, last, now);
            0 <= seconds && e * period <= s.amount * seconds < (e + 2) * period
  {
    var seconds, period := Min(s.end, now) - Max(s.start, last), s.end - s.start;
    TwiceRounded(s.amount, seconds, period);
  }

  /** Multiplying a rounded rate loses less than two. */
  lemma TwiceRounded(amount: nat, x: nat, period: nat)
    requires 0 < period <= SCALE && x <= period
    ensures var e := Scaled(FromRatio(amount, period), x); e * period <= amount * x < (e + 2) * period
  {
    var rate, e := FromRatio(amount, period), Scaled(FromRatio(amount, period), x);
    DivBounds(amount * SCALE, period);
    DivBounds(rate * x, SCALE);
    RateBelow(rate, amount, x, period, e);
    RateAbove(rate, amount, x, period, e);
  }

  lemma RateBelow(rate: nat, amount: nat, x: nat, period: nat, e: nat)
    requires rate * period <= amount * SCALE && e * SCALE <= rate * x && period > 0
    ensures e * period <= amount * x
  {
    MulMonotone(e * SCALE, rate * x, period);
    MulMonotone(rate * period, amount * SCALE, x);
    assert (e * period) * SCALE == (e * SCALE) * period;
    assert (rate * x) * period == (rate * period) * x;
    assert (amount * SCALE) * x == (amount * x) * SCALE;
  }

  lemma RateAbove(rate: nat, amount: nat, x: nat, period: nat, e: nat)
    requires amount * SCALE < rate * period + period && rate * x < e * SCALE + SCALE
    requires 0 < period <= SCALE && x <= period
    ensures amount * x < (e + 2) * period
  {
    if x == 0 {
      assert amount * 0 == 0;
    } else {
      MulMonotone(amount * SCALE + 1, rate * period + period, x);
      MulMonotone(rate * x + 1, e * SCALE + SCALE, period);
      MulMonotone(x, SCALE, period);
      assert (amount * SCALE) * x == (amount * x) * SCALE;
      assert (rate * period + period) * x == (rate * x) * period + period * x;
      assert (e * SCALE + SCALE) * period == ((e + 1) * period) * SCALE;
      assert ((e + 2) * period) * SCALE == ((e + 1) * period) * SCALE + period * SCALE;
      assert (amount * x) * SCALE < ((e + 2) * period) * SCALE;
    }
  }

  // ----- records -----

  /** Of the records only that of `a` may change, and nothing else but the reward state. */
  ghost predicate OnlyRecord(st: Storage, next: Storage, a: Addr) {
    && next == st.(state := next.state, stakers := next.stakers)
    && forall b | b != a :: (b in next.stakers <==> b in st.stakers) && Read(next.stakers, b) == Read(st.stakers, b)
  }

  /** A bond adds exactly its amount to the staker's bond and to the total, with all that was claimable
      now pending. */
  lemma BondOutcome(st: Storage, now: nat, caller: Addr, a: Addr, amount: nat)
    requires Balanced(st) && Step(st, now, Bond(caller, a, amount)).Ok?
    ensures Accrue(st.slots, st.state, now).Ok?
    ensures var (next, transfer) := Step(st, now, Bond(caller, a, amount)).value;
            var state, info := Accrue(st.slots, st.state, now).value, Read(st.stakers, a);
            && OnlyRecord(st, next, a) && a in next.stakers && transfer == NoTransfer
            && next.state == State(state.last, st.state.totalBond + amount, state.index)
            && next.stakers[a].index == state.index && next.stakers[a].bond == info.bond + amount
            && next.stakers[a].pending == Claimable(info, state.index)
  {
    SettlesAt(st, now, a);
    AccrueCovered(st, now);
  }

  /** An unbond takes exactly the amount from the staker's bond and from the total, and transfers it; what was
      claimable is pending, and an empty record is deleted. */
  lemma UnbondOutcome(st: Storage, now: nat, a: Addr, amount: nat)
    requires Balanced(st) && Step(st, now, Unbond(a, amount)).Ok?
    ensures Accrue(st.slots, st.state, now).Ok?
    ensures var (next, transfer) := Step(st, now, Unbond(a, amount)).value;
            var state, info := Accrue(st.slots, st.state, now).value, Read(st.stakers, a);
            && OnlyRecord(st, next, a) && transfer == Unbonded(a, amount)
            && next.state.last == state.last && next.state.index == state.index
            && next.state.totalBond == st.state.totalBond - amount
            && Read(next.stakers, a).bond == info.bond - amount
            && Read(next.stakers, a).pending == Claimable(info, state.index)
            && (a in next.stakers <==> info.bond > amount || Claimable(info, state.index) > 0)
            && (a in next.stakers ==> next.stakers[a].index == state.index)
  {
    SettlesAt(st, now, a);
    AccrueCovered(st, now);
  }

  /** A withdrawal transfers all that is claimable at the updated index, leaves nothing pending and the bond
      as it is, and deletes a record without a bond. */
  lemma WithdrawOutcome(st: Storage, now: nat, a: Addr)
    requires Balanced(st) && Step(st, now, Withdraw(a)).Ok?
    ensures Accrue(st.slots, st.state, now).Ok?
    ensures var (next, transfer) := Step(st, now, Withdraw(a)).value;
            var info := Read(st.stakers, a);
            && OnlyRecord(st, next, a) && next.state == Accrue(st.slots, st.state, now).value
            && Claimable(info, next.state.index) >= 0 && transfer == Reward(a, Claimable(info, next.state.index))
            && Read(next.stakers, a).bond == info.bond && Read(next.stakers, a).pending == 0
            && (a in next.stakers <==> info.bond > 0)
            && (a in next.stakers ==> next.stakers[a].index == next.state.index)
  {
    SettlesAt(st, now, a);
  }

  lemma SchedulesOutcome(st: Storage, now: nat, sender: Addr, added: seq<Slot>)
    requires Step(st, now, AddSchedules(sender, added)).Ok?
    ensures Step(st, now, AddSchedules(sender, added)).value == (st.(slots := st.slots + added), NoTransfer)
  {}

  /** The slot c is s as a migration at `now` leaves it: untouched if it is over, and otherwise ended now with
      its amount in proportion. */
  predicate IsCut(s: Slot, c: Slot, now: nat) {
    if s.end < now then c == s
    else
      var period := s.end - s.start;
      && c.start == s.start && c.end == now && c.amount * period <= s.amount * (now - s.start)
      && (period <= SCALE ==> s.amount * (now - s.start) < (c.amount + 2) * period)
  }

  lemma CutInProportion(s: Slot, now: nat)
    requires s.start < now
    ensures IsCut(s, Cut(s, now), now)
  {
    if now <= s.end {
      var period := s.end - s.start;
      DivBounds(s.amount * SCALE, period);
      DivBounds(s.Rate() * (now - s.start), SCALE);
      RateBelow(s.Rate(), s.amount, now - s.start, period, Cut(s, now).amount);
      if period <= SCALE {
        TwiceRounded(s.amount, now - s.start, period);
      }
    }
  }

  /** A migration keeps the slots that have started, each cut in proportion, and transfers the whole rest. */
  lemma MigrationOutcome(st: Storage, now: nat, sender: Addr, target: Addr)
    requires Step(st, now, Migrate(sender, target)).Ok?
    ensures var (next, transfer) := Step(st, now, Migrate(sender, target)).value;
            var started := Started(st.slots, now);
            && next == st.(slots := next.slots, state := next.state)
            && Accrue(st.slots, st.state, now) == Ok(next.state)
            && Total(next.slots) <= Total(st.slots)
            && transfer == Remaining(target, Total(st.slots) - Total(next.slots))
            && |next.slots| == |started| && forall i | 0 <= i < |started| :: IsCut(started[i], next.slots[i], now)
  {
    MigrationConserves(st.slots, now);
    CutInTwoPasses(st.slots, now);
    var started := Started(st.slots, now);
    KeptAt(started, now);
    forall i | 0 <= i < |started| ensures IsCut(started[i], Kept(started, now)[i], now) {
      CutInProportion(started[i], now);
    }
  }
}
