/** The staking contract: a global reward index over distribution slots, settled lazily per staker,
    and the migration that cuts the slots at the current time. */
module Staking {
  import opened Outcomes
  import opened FixedPoint

  type Addr = string

  datatype Slot = Slot(start: nat, end: nat, amount: nat) {
    predicate Proper() {
      start < end
    }

    function Rate(): nat {
      if Proper() then FromRatio(amount, end - start) else 0
    }

    /** Seconds of the slot that lie before t. */
    function Elapsed(t: nat): nat {
      if Proper() then Max(start, Min(end, t)) - start else 0
    }
  }

  datatype State = State(last: nat, totalBond: nat, index: nat)

  datatype Staker = Staker(index: nat, bond: nat, pending: nat)

  datatype Storage = Storage(owner: Addr, token: Addr, slots: seq<Slot>, state: State, stakers: map<Addr, Staker>)

  datatype Error = Unauthorized | BondTooSmall | StartsInThePast | Underflow | BadSlot

  datatype Transfer = NoTransfer | Reward(to: Addr, amount: nat) | Unbonded(to: Addr, amount: nat)
                    | Remaining(to: Addr, amount: nat)

  datatype Op =
    | Bond(caller: Addr, staker: Addr, amount: nat)
    | Unbond(sender: Addr, amount: nat)
    | Withdraw(sender: Addr)
    | AddSchedules(sender: Addr, slots: seq<Slot>)
    | Migrate(sender: Addr, target: Addr)

  const NO_STAKER := Staker(0, 0, 0)

  function Read(stakers: map<Addr, Staker>, a: Addr): Staker {
    if a in stakers then stakers[a] else NO_STAKER
  }

  // ----- the reward index -----

  predicate Skips(s: Slot, last: nat, now: nat) {
    s.start > now || s.end < last
  }

  /** A slot without a positive duration aborts every update in which it takes part. */
  predicate Aborts(s: Slot, last: nat, now: nat) {
    !Skips(s, last, now) && !s.Proper()
  }

  /** What one update of the index releases from a slot. */
  function SlotEmission(s: Slot, last: nat, now: nat): nat
    requires last <= now
  {
    if Skips(s, last, now) || !s.Proper() then 0
    else Scaled(s.Rate(), Min(s.end, now) - Max(s.start, last))
  }

  function Emission(slots: seq<Slot>, last: nat, now: nat): nat
    requires last <= now
  {
    if slots == [] then 0
    else Emission(slots[..|slots| - 1], last, now) + SlotEmission(slots[|slots| - 1], last, now)
  }

  /** compute_reward: bring the reward index up to `now`. */
  function Accrue(slots: seq<Slot>, st: State, now: nat): Result<State, Error> {
    if st.last >= now then Ok(st)
    else if st.totalBond == 0 then Ok(st.(last := now))
    else if exists s | s in slots :: Aborts(s, st.last, now) then Err(BadSlot)
    else Ok(State(now, st.totalBond, st.index + FromRatio(Emission(slots, st.last, now), st.totalBond)))
  }

  /** compute_staker_reward: move what the index has earned since the last settlement into pending. */
  function Settle(index: nat, info: Staker): Result<Staker, Error> {
    var earned, before := Scaled(index, info.bond), Scaled(info.index, info.bond);
    if earned < before then Err(Underflow)
    else Ok(Staker(index, info.bond, info.pending + (earned - before)))
  }

  // ----- the calls -----

  function Save(stakers: map<Addr, Staker>, a: Addr, info: Staker, remove: bool): map<Addr, Staker> {
    if remove then stakers - {a} else stakers[a := info]
  }

  /** Slots that have started, cut at `now`. */
  function Kept(slots: seq<Slot>, now: nat): seq<Slot> {
    if slots == [] then []
    else
      var s, rest := slots[|slots| - 1], Kept(slots[..|slots| - 1], now);
      if s.start < now then rest + [Cut(s, now)] else rest
  }

  function Cut(s: Slot, now: nat): Slot
    requires s.start < now
  {
    if s.end < now then s else Slot(s.start, now, Scaled(s.Rate(), now - s.start))
  }

  /** What migration counts as distributed. */
  function Distributed(slots: seq<Slot>, now: nat): nat {
    if slots == [] then 0
    else
      var s, rest := slots[|slots| - 1], Distributed(slots[..|slots| - 1], now);
      if s.start >= now then rest
      else if s.end < now then rest + s.amount
      else rest + Scaled(s.Rate(), now - s.start)
  }

  function Total(slots: seq<Slot>): nat {
    if slots == [] then 0 else Total(slots[..|slots| - 1]) + slots[|slots| - 1].amount
  }

  /** One call. `forget` says whether empty staker records are deleted, as the contract does. */
  function StepWith(st: Storage, now: nat, op: Op, forget: bool): Result<(Storage, Transfer), Error> {
    match op
    case Bond(caller, a, amount) =>
      if caller != st.token then Err(Unauthorized)
      else
        var state :- Accrue(st.slots, st.state, now);
        var info :- Settle(state.index, Read(st.stakers, a));
        Ok((st.(state := state.(totalBond := state.totalBond + amount),
                stakers := st.stakers[a := info.(bond := info.bond + amount)]), NoTransfer))
    case Unbond(a, amount) =>
      if Read(st.stakers, a).bond < amount then Err(BondTooSmall)
      else
        var state :- Accrue(st.slots, st.state, now);
        var info :- Settle(state.index, Read(st.stakers, a));
        if state.totalBond < amount || info.bond < amount then Err(Underflow)
        else
          var left := info.(bond := info.bond - amount);
          Ok((st.(state := state.(totalBond := state.totalBond - amount),
                  stakers := Save(st.stakers, a, left, forget && left.pending == 0 && left.bond == 0)),
              Unbonded(a, amount)))
    case Withdraw(a) =>
      var state :- Accrue(st.slots, st.state, now);
      var info :- Settle(state.index, Read(st.stakers, a));
      Ok((st.(state := state, stakers := Save(st.stakers, a, info.(pending := 0), forget && info.bond == 0)),
          Reward(a, info.pending)))
    case AddSchedules(sender, slots) =>
      if sender != st.owner then Err(Unauthorized)
      else if exists s | s in slots :: s.start < now then Err(StartsInThePast)
      else Ok((st.(slots := st.slots + slots), NoTransfer))
    case Migrate(sender, target) =>
      if sender != st.owner then Err(Unauthorized)
      else
        var state :- Accrue(st.slots, st.state, now);
        if Total(st.slots) < Distributed(st.slots, now) then Err(Underflow)
        else
          Ok((st.(slots := Kept(st.slots, now), state := state),
              Remaining(target, Total(st.slots) - Distributed(st.slots, now))))
  }

  function Step(st: Storage, now: nat, op: Op): Result<(Storage, Transfer), Error> {
    StepWith(st, now, op, true)
  }

  function Instantiated(owner: Addr, token: Addr, slots: seq<Slot>, now: nat): Storage {
    Storage(owner, token, slots, State(now, 0, 0), map[])
  }

  // ----- one slot over time -----

  /** The branches of the update charge exactly the seconds of the slot between the two updates. */
  lemma EmissionChargesElapsed(s: Slot, last: nat, now: nat)
    requires last <= now
    ensures s.Elapsed(last) <= s.Elapsed(now)
    ensures SlotEmission(s, last, now) == Scaled(s.Rate(), s.Elapsed(now) - s.Elapsed(last))
  {}

  /** Charging an interval in two parts loses at most one token against charging it at once. */
  lemma EmissionSplits(s: Slot, last: nat, mid: nat, now: nat)
    requires last <= mid <= now
    ensures SlotEmission(s, last, mid) + SlotEmission(s, mid, now) <= SlotEmission(s, last, now)
    ensures SlotEmission(s, last, now) <= SlotEmission(s, last, mid) + SlotEmission(s, mid, now) + 1
  {}

  /** Everything charged so far, plus one more charge, stays below one charge since the start. */
  lemma EmissionsAccumulate(s: Slot, emitted: nat, last: nat, now: nat)
    requires last <= now && emitted <= Scaled(s.Rate(), s.Elapsed(last))
    ensures emitted + SlotEmission(s, last, now) <= Scaled(s.Rate(), s.Elapsed(now))
  {}

  lemma ElapsedWithinAmount(s: Slot, t: nat)
    ensures Scaled(s.Rate(), s.Elapsed(t)) <= s.amount
  {}

  /** The emissions of one slot over consecutive updates, of which only some find a bond. */
  function Emitted(s: Slot, from: nat, updates: seq<(nat, bool)>): nat
    requires Forward(from, updates)
  {
    if updates == [] then 0
    else
      var before := updates[..|updates| - 1];
      var (now, bonded) := updates[|updates| - 1];
      Emitted(s, from, before) + if bonded then SlotEmission(s, LastUpdate(from, before), now) else 0
  }

  function LastUpdate(from: nat, updates: seq<(nat, bool)>): nat {
    if updates == [] then from else updates[|updates| - 1].0
  }

  predicate Forward(from: nat, updates: seq<(nat, bool)>) {
    updates == [] ||
    (Forward(from, updates[..|updates| - 1])
     && LastUpdate(from, updates[..|updates| - 1]) <= updates[|updates| - 1].0)
  }

  /** A slot never emits more than its amount, however its duration is cut into updates. */
  lemma {:induction false} EmissionCap(s: Slot, from: nat, updates: seq<(nat, bool)>)
    requires Forward(from, updates)
    ensures Emitted(s, from, updates) <= Scaled(s.Rate(), s.Elapsed(LastUpdate(from, updates))) <= s.amount
  {
    ElapsedWithinAmount(s, LastUpdate(from, updates));
    if updates != [] {
      var before := updates[..|updates| - 1];
      EmissionCap(s, from, before);
      EmissionsAccumulate(s, Emitted(s, from, before), LastUpdate(from, before), updates[|updates| - 1].0);
    }
  }

  // ----- splitting an update -----

  lemma {:induction false} EmissionSumSplits(slots: seq<Slot>, last: nat, mid: nat, now: nat)
    requires last <= mid <= now
    ensures Emission(slots, last, mid) + Emission(slots, mid, now) <= Emission(slots, last, now)
    ensures Emission(slots, last, now) <= Emission(slots, last, mid) + Emission(slots, mid, now) + |slots|
  {
    if slots != [] {
      EmissionSumSplits(slots[..|slots| - 1], last, mid, now);
      EmissionSplits(slots[|slots| - 1], last, mid, now);
    }
  }

  lemma IndexStepSplits(d1: nat, d2: nat, d: nat, n: nat, bond: nat)
    requires bond > 0 && d1 + d2 <= d <= d1 + d2 + n
    ensures FromRatio(d1, bond) + FromRatio(d2, bond) <= FromRatio(d, bond)
    ensures (FromRatio(d, bond) - FromRatio(d1, bond) - FromRatio(d2, bond)) * bond < n * SCALE + 2 * bond
  {
    var q1, q2, q := FromRatio(d1, bond), FromRatio(d2, bond), FromRatio(d, bond);
    DivBounds(d1 * SCALE, bond);
    DivBounds(d2 * SCALE, bond);
    DivBounds(d * SCALE, bond);
    assert (q1 + q2) * bond == q1 * bond + q2 * bond;
    DivBelow(d * SCALE, bond, q1 + q2);
    assert (q - q1 - q2) * bond == q * bond - q1 * bond - q2 * bond;
  }

  /** Updating the index at an intermediate time as well never raises it, and lowers it by less than
      n * SCALE / bond + 2 raw units, where n is the number of slots. */
  lemma SplitUpdateRefines(slots: seq<Slot>, st: State, t1: nat, t2: nat)
    requires st.last <= t1 <= t2
    requires Accrue(slots, st, t2).Ok?
    ensures Accrue(slots, st, t1).Ok? && Accrue(slots, Accrue(slots, st, t1).value, t2).Ok?
    ensures var one, two := Accrue(slots, st, t2).value, Accrue(slots, Accrue(slots, st, t1).value, t2).value;
            && two.last == one.last && two.totalBond == one.totalBond
            && two.index <= one.index
            && (st.totalBond > 0 ==>
                (one.index - two.index) * st.totalBond < |slots| * SCALE + 2 * st.totalBond)
  {
    if st.last < t1 < t2 && st.totalBond > 0 {
      forall s | s in slots ensures !Aborts(s, st.last, t1) && !Aborts(s, t1, t2) {
        assert !Aborts(s, st.last, t2);
      }
      EmissionSumSplits(slots, st.last, t1, t2);
      IndexStepSplits(Emission(slots, st.last, t1), Emission(slots, t1, t2), Emission(slots, st.last, t2),
                      |slots|, st.totalBond);
    }
  }

  // ----- migration -----

  lemma CutWithinAmount(s: Slot, now: nat)
    requires s.start < now
    ensures Cut(s, now).amount <= s.amount
    ensures now <= s.end ==> Cut(s, now).amount == Scaled(s.Rate(), s.Elapsed(now))
  {}

  /** Migration splits the old schedule total into what the kept slots now hold and what it sends away,
      so the subtraction never fails. */
  lemma {:induction false} MigrationConserves(slots: seq<Slot>, now: nat)
    ensures Distributed(slots, now) == Total(Kept(slots, now)) <= Total(slots)
    ensures forall s | s in Kept(slots, now) :: s.start < now && s.end <= now && (s.end == now ==> s.Proper())
  {
    if slots != [] {
      var s, rest := slots[|slots| - 1], slots[..|slots| - 1];
      MigrationConserves(rest, now);
      if s.start < now {
        CutWithinAmount(s, now);
        assert (Kept(rest, now) + [Cut(s, now)])[..|Kept(rest, now)|] == Kept(rest, now);
      }
    }
  }

  /** Slots that have started, before they are cut. */
  function Started(slots: seq<Slot>, now: nat): seq<Slot> {
    if slots == [] then []
    else
      var s, rest := slots[|slots| - 1], Started(slots[..|slots| - 1], now);
      if s.start < now then rest + [s] else rest
  }

  /** Dropping the slots that have not started, and then cutting the rest, in two passes. */
  lemma {:induction false} CutInTwoPasses(slots: seq<Slot>, now: nat)
    ensures Kept(Started(slots, now), now) == Kept(slots, now)
    ensures Distributed(Started(slots, now), now) == Distributed(slots, now)
    ensures forall s :: s in Started(slots, now) <==> s in slots && s.start < now
  {
    if slots != [] {
      var s, rest := slots[|slots| - 1], Started(slots[..|slots| - 1], now);
      CutInTwoPasses(slots[..|slots| - 1], now);
      assert (rest + [s])[..|rest|] == rest;
      assert slots == slots[..|slots| - 1] + [s];
    }
  }

  lemma {:induction false} KeptAt(started: seq<Slot>, now: nat)
    requires forall s | s in started :: s.start < now
    ensures |Kept(started, now)| == |started|
    ensures forall i | 0 <= i < |started| :: started[i].start < now && Kept(started, now)[i] == Cut(started[i], now)
  {
    if started != [] {
      assert started[|started| - 1] in started;
      KeptAt(started[..|started| - 1], now);
    }
  }

  /** The share of a slot that is lost when a slot already ending at `now` is cut there again. */
  predicate DividesEvenly(s: Slot)
    requires s.Proper()
  {
    s.amount * SCALE % (s.end - s.start) == 0
  }

  lemma RecutLosesIff(s: Slot, now: nat)
    requires s.Proper() && s.end == now
    ensures Cut(s, now).amount == s.amount <==> DividesEvenly(s)
  {}

  /** The loss of one such cut stays within one token, for slots of at most 10^18 seconds. */
  lemma RecutLosesAtMostOne(s: Slot, now: nat)
    requires s.Proper() && s.end == now && s.end - s.start <= SCALE
    ensures s.amount - 1 <= Cut(s, now).amount <= s.amount
  {
    var p := s.end - s.start;
    DivBounds(s.amount * SCALE, p);
    if s.amount > 0 {
      DivBelow(s.Rate() * p, SCALE, s.amount - 1);
    }
    CutWithinAmount(s, now);
  }

  /** All slots are behind the last update; nothing is left to emit. */
  predicate Spent(slots: seq<Slot>, last: nat) {
    forall s | s in slots :: s.end < last || (s.end == last && s.Proper())
  }

  lemma SpentEmitsNothing(slots: seq<Slot>, last: nat, now: nat)
    requires last <= now && Spent(slots, last)
    ensures Emission(slots, last, now) == 0
    ensures forall s | s in slots :: !Aborts(s, last, now)
  {}

  /** Total of what cutting slots that are already over takes away. */
  lemma {:induction false} KeptUnchangedIff(slots: seq<Slot>, now: nat)
    requires forall s | s in slots :: s.start < now && (s.end < now || (s.end == now && s.Proper()))
    ensures |Kept(slots, now)| == |slots|
    ensures Distributed(slots, now) <= Total(slots)
    ensures Distributed(slots, now) == Total(slots)
       <==> (forall s | s in slots && s.end == now :: DividesEvenly(s))
    ensures Distributed(slots, now) == Total(slots) ==> Kept(slots, now) == slots
  {
    if slots != [] {
      var s, rest := slots[|slots| - 1], slots[..|slots| - 1];
      assert s in slots;
      KeptUnchangedIff(rest, now);
      CutWithinAmount(s, now);
      assert slots == rest + [s];
      if s.end == now {
        RecutLosesIff(s, now);
      }
    }
  }

  /** Slots that were cut at t lose nothing in a later cut, and in one at t exactly when they divide evenly. */
  lemma CutAgainLosesIff(slots: seq<Slot>, t: nat, u: nat)
    requires forall s | s in slots :: s.start < t && s.end <= t && (s.end == t ==> s.Proper())
    requires t <= u
    ensures Distributed(slots, u) <= Total(slots)
    ensures Distributed(slots, u) == Total(slots)
       <==> t < u || forall s | s in slots && s.end == t :: s.Proper() && DividesEvenly(s)
  {
    forall s | s in slots ensures t < u ==> s.start < u && s.end < u {}
    KeptUnchangedIff(slots, u);
  }

  /** A migration at t keeps slots that started before t and are over. */
  lemma KeptAreSpent(slots: seq<Slot>, t: nat)
    ensures Spent(Kept(slots, t), t)
    ensures forall s | s in Kept(slots, t) :: s.start < t && s.end <= t && (s.end == t ==> s.Proper())
  {
    MigrationConserves(slots, t);
  }

  lemma MigrationEffect(st: Storage, t: nat, target: Addr)
    requires st.state.last <= t && Step(st, t, Migrate(st.owner, target)).Ok?
    ensures var st1 := Step(st, t, Migrate(st.owner, target)).value.0;
            st1.owner == st.owner && st1.slots == Kept(st.slots, t) && st1.state.last == t
  {}

  /** After a migration at t the contract holds only spent slots and sends nothing more: a second
      migration at a later time sends exactly 0, and one in the same second sends 0 exactly when every
      slot cut at t divides evenly. */
  lemma RemigrationSendsNothingIff(st: Storage, t: nat, u: nat, target: Addr)
    requires st.state.last <= t <= u
    requires Step(st, t, Migrate(st.owner, target)).Ok?
    ensures var st1 := Step(st, t, Migrate(st.owner, target)).value.0;
            && Spent(st1.slots, st1.state.last) && st1.state.last == t
            && Step(st1, u, Migrate(st1.owner, target)).Ok?
            && (Step(st1, u, Migrate(st1.owner, target)).value.1 == Remaining(target, 0)
                <==> t < u || forall s | s in st1.slots && s.end == t :: s.Proper() && DividesEvenly(s))
  {
    var st1 := Step(st, t, Migrate(st.owner, target)).value.0;
    MigrationEffect(st, t, target);
    KeptAreSpent(st.slots, t);
    SpentEmitsNothing(st1.slots, t, u);
    CutAgainLosesIff(st1.slots, t, u);
  }

  /** In the same second the loss is real: the slot below has emitted 5 by the time it is cut,
      and a second cut leaves it only 4. */
  lemma RemigrationCanLose()
    ensures SlotEmission(Slot(0, 7, 12), 0, 3) == 5
    ensures Kept([Slot(0, 7, 12)], 3) == [Slot(0, 3, 5)]
    ensures Kept([Slot(0, 3, 5)], 3) == [Slot(0, 3, 4)]
  {}

  /** Runs of calls that fail without effect. */
  function After(st: Storage, calls: seq<(nat, Op)>): Storage {
    if calls == [] then st
    else
      var before := After(st, calls[..|calls| - 1]);
      match Step(before, calls[|calls| - 1].0, calls[|calls| - 1].1)
      case Ok((next, _)) => next
      case Err(_) => before
  }

  lemma StepKeepsSpent(st: Storage, now: nat, op: Op)
    requires Spent(st.slots, st.state.last) && !op.AddSchedules?
    requires Step(st, now, op).Ok?
    ensures var next := Step(st, now, op).value.0;
            && Spent(next.slots, next.state.last) && next.state.index == st.state.index
            && st.state.last <= next.state.last
  {
    if st.state.last < now {
      SpentEmitsNothing(st.slots, st.state.last, now);
      assert 0 * SCALE == 0;
    }
    if op.Migrate? {
      MigrationConserves(st.slots, now);
      KeptOfSpent(st.slots, st.state.last, now);
    }
  }

  lemma {:induction false} KeptOfSpent(slots: seq<Slot>, last: nat, now: nat)
    requires Spent(slots, last)
    ensures forall s | s in Kept(slots, now) :: s.end < last || (s.end <= now && s.end <= last && s.Proper())
    ensures last <= now ==> Spent(Kept(slots, now), now)
    ensures now < last ==> Spent(Kept(slots, now), last)
  {
    if slots != [] {
      assert slots[|slots| - 1] in slots;
      KeptOfSpent(slots[..|slots| - 1], last, now);
    }
  }

  /** After a migration the reward index stands still until schedules are added, whatever else is called. */
  lemma {:induction false} IndexFrozenUntilSchedules(st: Storage, calls: seq<(nat, Op)>)
    requires Spent(st.slots, st.state.last)
    requires forall c | c in calls :: !c.1.AddSchedules?
    ensures After(st, calls).state.index == st.state.index
    ensures Spent(After(st, calls).slots, After(st, calls).state.last)
  {
    if calls != [] {
      var before, call := calls[..|calls| - 1], calls[|calls| - 1];
      IndexFrozenUntilSchedules(st, before);
      assert call in calls;
      if Step(After(st, before), call.0, call.1).Ok? {
        StepKeepsSpent(After(st, before), call.0, call.1);
      }
    }
  }
}
