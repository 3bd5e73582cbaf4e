/** Whole runs of the staking contract: what rounding adds to the payouts, and whether the funds suffice. */
module StakingRuns {
  import opened Outcomes
  import opened FixedPoint
  import opened MapSums
  import opened Staking

  /** The storage and the clock, with what an observer of the run has counted:
      emitted      what each current slot has released into the index,
      distributed  the sum of what all updates of the index have released,
      paid         rewards transferred to stakers,
      bondOps      successful bonds and unbonds,
      funded       amounts of all slots ever scheduled,
      migrated     tokens sent away by migrations,
      lastCut      time of the last migration, or -1,
      recuts       slots that a migration cut again in the second in which they had been cut,
      lost         tokens by which those slots shrank,
      rounding     the sum of the total bonds at all updates that released something. */
  datatype Tracked = Tracked(
    st: Storage, clock: nat, emitted: seq<nat>, distributed: nat, paid: nat, bondOps: nat,
    funded: nat, migrated: nat, lastCut: int, recuts: nat, lost: nat, rounding: nat)

  // ----- bookkeeping -----

  function SeqSum(s: seq<nat>): nat {
    if s == [] then 0 else SeqSum(s[..|s| - 1]) + s[|s| - 1]
  }

  function Zeros(n: nat): (z: seq<nat>)
    ensures |z| == n && forall i | 0 <= i < n :: z[i] == 0
  {
    seq(n, i => 0)
  }

  /** What the update of the index at `now` releases in total. */
  function Release(slots: seq<Slot>, st: State, now: nat): nat {
    if st.last < now && st.totalBond > 0 then Emission(slots, st.last, now) else 0
  }

  function Charged(slots: seq<Slot>, emitted: seq<nat>, st: State, now: nat): (r: seq<nat>)
    requires |slots| == |emitted|
    ensures |r| == |slots|
    ensures forall i | 0 <= i < |r| ::
              r[i] == emitted[i] + if st.last < now && st.totalBond > 0 then SlotEmission(slots[i], st.last, now) else 0
  {
    if st.last < now && st.totalBond > 0
    then seq(|slots|, i requires 0 <= i < |slots| && |slots| == |emitted| =>
      emitted[i] + SlotEmission(slots[i], st.last, now))
    else emitted
  }

  /** The counters of the slots that migration keeps. */
  function KeptCounters(slots: seq<Slot>, emitted: seq<nat>, now: nat): seq<nat>
    requires |slots| == |emitted|
  {
    if slots == [] then []
    else
      var n := |slots| - 1;
      var rest := KeptCounters(slots[..n], emitted[..n], now);
      if slots[n].start < now then rest + [emitted[n]] else rest
  }

  /** What an update may lose to the rounding of the index, in raw units, is less than this. */
  function Rounding(st: State, now: nat): nat {
    if st.last < now && st.totalBond > 0 then st.totalBond else 0
  }

  /** A slot that a cut at `now` shrinks although it ends there already. */
  predicate CutAgain(s: Slot, now: nat) {
    s.Proper() && s.end == now
  }

  function Recuts(slots: seq<Slot>, now: nat): nat {
    if slots == [] then 0
    else Recuts(slots[..|slots| - 1], now) + if CutAgain(slots[|slots| - 1], now) then 1 else 0
  }

  /** By how much the slots that end at `now` already shrink in a cut there. */
  function Lost(slots: seq<Slot>, now: nat): nat {
    if slots == [] then 0
    else
      var s, rest := slots[|slots| - 1], Lost(slots[..|slots| - 1], now);
      if CutAgain(s, now) then
        CutWithinAmount(s, now);
        rest + (s.amount - Cut(s, now).amount)
      else rest
  }

  /** One call. A failed one changes nothing but the clock. */
  function Track(t: Tracked, now: nat, op: Op): Tracked
    requires |t.st.slots| == |t.emitted|
  {
    match Step(t.st, now, op)
    case Err(_) => t.(clock := now)
    case Ok((st, transfer)) =>
      if op.AddSchedules?
      then t.(st := st, clock := now,
              emitted := t.emitted + Zeros(|op.slots|), funded := t.funded + Total(op.slots))
      else
        var charged := Charged(t.st.slots, t.emitted, t.st.state, now);
        t.(st := st, clock := now,
           emitted := if op.Migrate? then KeptCounters(t.st.slots, charged, now) else charged,
           distributed := t.distributed + Release(t.st.slots, t.st.state, now),
           paid := t.paid + (if transfer.Reward? then transfer.amount else 0),
           bondOps := t.bondOps + (if op.Bond? || op.Unbond? then 1 else 0),
           migrated := t.migrated + (if transfer.Remaining? then transfer.amount else 0),
           lastCut := if op.Migrate? then now else t.lastCut,
           recuts := t.recuts + (if op.Migrate? && now == t.lastCut then Recuts(t.st.slots, now) else 0),
           lost := t.lost + (if op.Migrate? && now == t.lastCut then Lost(t.st.slots, now) else 0),
           rounding := t.rounding + Rounding(t.st.state, now))
  }

  lemma {:induction false} KeptCountersMatch(slots: seq<Slot>, emitted: seq<nat>, now: nat)
    requires |slots| == |emitted|
    ensures |KeptCounters(slots, emitted, now)| == |Kept(slots, now)|
  {
    if slots != [] {
      KeptCountersMatch(slots[..|slots| - 1], emitted[..|slots| - 1], now);
    }
  }

  lemma TrackKeepsShape(t: Tracked, now: nat, op: Op)
    requires |t.st.slots| == |t.emitted|
    ensures |Track(t, now, op).st.slots| == |Track(t, now, op).emitted|
  {
    KeptCountersMatch(t.st.slots, Charged(t.st.slots, t.emitted, t.st.state, now), now);
  }

  function Run(t: Tracked, calls: seq<(nat, Op)>): (r: Tracked)
    requires |t.st.slots| == |t.emitted|
    ensures |r.st.slots| == |r.emitted|
  {
    if calls == [] then t
    else
      var before := Run(t, calls[..|calls| - 1]);
      var (now, op) := calls[|calls| - 1];
      TrackKeepsShape(before, now, op);
      Track(before, now, op)
  }

  function Start(owner: Addr, token: Addr, slots: seq<Slot>, now: nat): Tracked {
    Tracked(Instantiated(owner, token, slots, now), now, Zeros(|slots|), 0, 0, 0, Total(slots), 0, -1, 0, 0, 0)
  }

  ghost predicate ClockRuns(from: nat, calls: seq<(nat, Op)>) {
    && (forall i | 0 <= i < |calls| :: from <= calls[i].0)
    && (forall i, j | 0 <= i < j < |calls| :: calls[i].0 <= calls[j].0)
  }

  // ----- the books balance -----

  ghost function Bonds(stakers: map<Addr, Staker>): map<Addr, int> {
    map a | a in stakers :: stakers[a].bond
  }

  /** What a staker could withdraw at an index. */
  function Claimable(info: Staker, index: nat): int {
    info.pending + Scaled(index, info.bond) - Scaled(info.index, info.bond)
  }

  ghost function Claimables(stakers: map<Addr, Staker>, index: nat): map<Addr, int> {
    map a | a in stakers :: Claimable(stakers[a], index)
  }

  /** The claim of a staker in raw units, with the part earned since the settlement unrounded. */
  function Entitlement(info: Staker, index: nat): int {
    SCALE * info.pending + info.bond * index - SCALE * Scaled(info.index, info.bond)
  }

  ghost function Entitlements(stakers: map<Addr, Staker>, index: nat): map<Addr, int> {
    map a | a in stakers :: Entitlement(stakers[a], index)
  }

  /** Total bond is the sum of the bonds, and no staker was settled at an index beyond the global one. */
  ghost predicate Balanced(st: Storage) {
    && st.state.totalBond == Sum(Bonds(st.stakers))
    && (forall a | a in st.stakers :: st.stakers[a].index <= st.state.index)
  }

  /** By how much everything paid and everything owed, unrounded, exceeds everything released. */
  ghost function Excess(t: Tracked): int {
    SCALE * t.paid + Sum(Entitlements(t.st.stakers, t.st.state.index)) - SCALE * t.distributed
  }

  /** It is less than one token for each bond or unbond, and no shortfall is larger than that and the
      rounding of the index. */
  ghost predicate Covered(t: Tracked) {
    -((SCALE - 1) * t.bondOps) - t.rounding <= Excess(t) <= (SCALE - 1) * t.bondOps
  }

  /** Less than one token apart. */
  predicate Near(x: int, y: int) {
    x - y < SCALE && y - x < SCALE
  }

  lemma BondsPut(stakers: map<Addr, Staker>, a: Addr, info: Staker, remove: bool)
    requires remove ==> info.bond == 0
    ensures Sum(Bonds(Save(stakers, a, info, remove))) == Sum(Bonds(stakers)) - Read(stakers, a).bond + info.bond
    ensures 0 <= Read(stakers, a).bond <= Sum(Bonds(stakers))
  {
    if remove {
      assert Bonds(stakers - {a}) == Bonds(stakers) - {a};
      SumDrop(Bonds(stakers), a);
    } else {
      assert Bonds(stakers[a := info]) == Bonds(stakers)[a := info.bond];
      SumPut(Bonds(stakers), a, info.bond);
    }
    SumNonNegative(Bonds(stakers));
  }

  lemma EntitlementsPut(stakers: map<Addr, Staker>, index: nat, a: Addr, info: Staker, remove: bool)
    requires remove ==> info.bond == 0 && info.pending == 0
    ensures Sum(Entitlements(Save(stakers, a, info, remove), index))
         == Sum(Entitlements(stakers, index)) - Entitlement(Read(stakers, a), index) + Entitlement(info, index)
  {
    assert Entitlement(NO_STAKER, index) == 0;
    if remove {
      assert Entitlements(stakers - {a}, index) == Entitlements(stakers, index) - {a};
      SumDrop(Entitlements(stakers, index), a);
    } else {
      assert Entitlements(stakers[a := info], index) == Entitlements(stakers, index)[a := Entitlement(info, index)];
      SumPut(Entitlements(stakers, index), a, Entitlement(info, index));
    }
  }

  /** The rise of the index, in raw units for all stakers together. */
  function Credited(slots: seq<Slot>, st: State, now: nat): int {
    match Accrue(slots, st, now) case Ok(after) => (after.index - st.index) * st.totalBond case Err(_) => 0
  }

  /** An update credits all that was released, up to less than one raw unit for each bonded token, and moves
      the time of the last update forward, never back. */
  lemma AccrueExact(slots: seq<Slot>, st: State, now: nat)
    requires Accrue(slots, st, now).Ok?
    ensures var after := Accrue(slots, st, now).value;
            && after.last == Max(st.last, now) && after.totalBond == st.totalBond && after.index >= st.index
    ensures Credited(slots, st, now) <= SCALE * Release(slots, st, now)
    ensures Rounding(st, now) > 0 ==> SCALE * Release(slots, st, now) < Credited(slots, st, now) + Rounding(st, now)
    ensures Rounding(st, now) == 0 ==> Accrue(slots, st, now).value.index == st.index && Release(slots, st, now) == 0
  {
    if st.last < now && st.totalBond > 0 {
      DivBounds(Emission(slots, st.last, now) * SCALE, st.totalBond);
    }
  }

  /** Moving the index raises the unrounded claims together by exactly what is credited. */
  lemma AccrueCovered(st: Storage, now: nat)
    requires Balanced(st) && Accrue(st.slots, st.state, now).Ok?
    ensures var state := Accrue(st.slots, st.state, now).value;
            && st.state.index <= state.index && state.totalBond == st.state.totalBond
            && Sum(Entitlements(st.stakers, state.index))
               == Sum(Entitlements(st.stakers, st.state.index)) + Credited(st.slots, st.state, now)
  {
    AccrueExact(st.slots, st.state, now);
    var state := Accrue(st.slots, st.state, now).value;
    var rise := state.index - st.state.index;
    SumLinear(Entitlements(st.stakers, state.index), Entitlements(st.stakers, st.state.index), Bonds(st.stakers), rise)
      by {
        forall a | a in st.stakers
          ensures Entitlement(st.stakers[a], state.index)
               == Entitlement(st.stakers[a], st.state.index) + rise * st.stakers[a].bond
        {
          assert st.stakers[a].bond * (st.state.index + rise)
              == st.stakers[a].bond * st.state.index + rise * st.stakers[a].bond;
        }
      }
  }

  /** A settlement at the current index never fails and leaves the unrounded claim untouched:
      the credits at a constant bond telescope. */
  lemma SettleConserves(info: Staker, index: nat)
    requires info.index <= index
    ensures Settle(index, info).Ok?
    ensures Entitlement(Settle(index, info).value, index) == Entitlement(info, index)
    ensures Settle(index, info).value.pending == Claimable(info, index)
  {}

  /** The pending reward after settling at each index in turn. */
  function SettledAt(info: Staker, indexes: seq<nat>): Result<Staker, Error> {
    if indexes == [] then Ok(info)
    else
      var before :- SettledAt(info, indexes[..|indexes| - 1]);
      Settle(indexes[|indexes| - 1], before)
  }

  /** However often a staker with a constant bond is settled, the credits are those of one settlement. */
  lemma {:induction false} CreditsTelescope(info: Staker, indexes: seq<nat>)
    requires indexes != [] && info.index <= indexes[0]
    requires forall i, j | 0 <= i < j < |indexes| :: indexes[i] <= indexes[j]
    ensures SettledAt(info, indexes) == Settle(indexes[|indexes| - 1], info)
  {
    var before, last := indexes[..|indexes| - 1], indexes[|indexes| - 1];
    SettleConserves(info, last);
    if before == [] {
      assert SettledAt(info, before) == Ok(info);
    } else {
      CreditsTelescope(info, before);
      SettleConserves(info, before[|before| - 1]);
      SettleConserves(SettledAt(info, before).value, last);
    }
  }

  /** Changing the bond of a settled staker moves the unrounded claim by less than one token. */
  lemma RebondAddsLessThanOne(info: Staker, bond: nat)
    ensures SCALE * info.pending <= Entitlement(info, info.index) <= SCALE * info.pending + SCALE - 1
    ensures Near(Entitlement(info.(bond := bond), info.index), Entitlement(info, info.index))
  {}

  // ----- one call keeps the books -----

  ghost function Owed(st: Storage): int {
    Sum(Entitlements(st.stakers, st.state.index))
  }

  function PaidBy(transfer: Transfer): nat {
    if transfer.Reward? then transfer.amount else 0
  }

  function CreditedBy(st: Storage, now: nat, op: Op): int {
    if op.AddSchedules? then 0 else Credited(st.slots, st.state, now)
  }

  /** What a call does to the unrounded claims: they move exactly by what is paid and credited, but a change
      of bond may add or take less than one token. */
  ghost predicate Conserves(st: Storage, now: nat, op: Op) {
    match Step(st, now, op)
    case Err(_) => true
    case Ok((next, transfer)) =>
      var before, after := Owed(st) + CreditedBy(st, now, op), Owed(next) + SCALE * PaidBy(transfer);
      Balanced(next) && if op.Bond? || op.Unbond? then Near(before, after) else before == after
  }

  ghost function Rebonded(st: Storage, state: State, a: Addr, left: Staker, remove: bool, totalBond: nat): Storage {
    st.(state := state.(totalBond := totalBond), stakers := Save(st.stakers, a, left, remove))
  }

  /** The call settles a staker, sets a new bond and pays no reward. */
  ghost predicate Rebonds(st: Storage, now: nat, op: Op, a: Addr, left: Staker, remove: bool, totalBond: nat) {
    && Accrue(st.slots, st.state, now).Ok? && Step(st, now, op).Ok? && (op.Bond? || op.Unbond?)
    && left.index == Accrue(st.slots, st.state, now).value.index
    && left.pending == Claimable(Read(st.stakers, a), left.index)
    && (remove ==> left.pending == 0 && left.bond == 0)
    && totalBond == st.state.totalBond - Read(st.stakers, a).bond + left.bond
    && Step(st, now, op).value.0 == Rebonded(st, Accrue(st.slots, st.state, now).value, a, left, remove, totalBond)
    && !Step(st, now, op).value.1.Reward?
  }

  /** Settling a staker and setting a new bond keeps the books, but for less than one token. */
  lemma RebondKeepsBooks(st: Storage, now: nat, op: Op, a: Addr, left: Staker, remove: bool, totalBond: nat)
    requires Balanced(st) && Rebonds(st, now, op, a, left, remove, totalBond)
    ensures var next := Rebonded(st, Accrue(st.slots, st.state, now).value, a, left, remove, totalBond);
            Balanced(next) && Near(Owed(st) + Credited(st.slots, st.state, now), Owed(next))
  {
    AccrueCovered(st, now);
    SettleConserves(Read(st.stakers, a), left.index);
    var info := Settle(left.index, Read(st.stakers, a)).value;
    RebondAddsLessThanOne(info, left.bond);
    BondsPut(st.stakers, a, left, remove);
    EntitlementsPut(st.stakers, left.index, a, left, remove);
  }

  lemma RebondConserves(st: Storage, now: nat, op: Op, a: Addr, left: Staker, remove: bool, totalBond: nat)
    requires Balanced(st) && Rebonds(st, now, op, a, left, remove, totalBond)
    ensures Conserves(st, now, op)
  {
    RebondKeepsBooks(st, now, op, a, left, remove, totalBond);
  }

  /** A call that reaches the settlement settles the staker at the updated index. */
  lemma SettlesAt(st: Storage, now: nat, a: Addr)
    requires Balanced(st) && Accrue(st.slots, st.state, now).Ok?
    ensures var index, info := Accrue(st.slots, st.state, now).value.index, Read(st.stakers, a);
            Settle(index, info) == Ok(Staker(index, info.bond, Claimable(info, index)))
  {
    AccrueCovered(st, now);
    SettleConserves(Read(st.stakers, a), Accrue(st.slots, st.state, now).value.index);
  }

  lemma BondRebonds(st: Storage, now: nat, caller: Addr, a: Addr, amount: nat) returns (left: Staker)
    requires Balanced(st) && Step(st, now, Bond(caller, a, amount)).Ok?
    ensures Rebonds(st, now, Bond(caller, a, amount), a, left, false, st.state.totalBond + amount)
  {
    SettlesAt(st, now, a);
    var info := Settle(Accrue(st.slots, st.state, now).value.index, Read(st.stakers, a)).value;
    left := info.(bond := info.bond + amount);
  }

  lemma BondConserves(st: Storage, now: nat, caller: Addr, a: Addr, amount: nat)
    requires Balanced(st)
    ensures Conserves(st, now, Bond(caller, a, amount))
  {
    if Step(st, now, Bond(caller, a, amount)).Ok? {
      var left := BondRebonds(st, now, caller, a, amount);
      RebondConserves(st, now, Bond(caller, a, amount), a, left, false, st.state.totalBond + amount);
    }
  }

  lemma UnbondRebonds(st: Storage, now: nat, a: Addr, amount: nat) returns (left: Staker)
    requires Balanced(st) && Step(st, now, Unbond(a, amount)).Ok?
    ensures amount <= st.state.totalBond
    ensures Rebonds(st, now, Unbond(a, amount), a, left, left.pending == 0 && left.bond == 0, st.state.totalBond - amount)
  {
    SettlesAt(st, now, a);
    var info := Settle(Accrue(st.slots, st.state, now).value.index, Read(st.stakers, a)).value;
    left := info.(bond := info.bond - amount);
  }

  lemma UnbondConserves(st: Storage, now: nat, a: Addr, amount: nat)
    requires Balanced(st)
    ensures Conserves(st, now, Unbond(a, amount))
  {
    if Step(st, now, Unbond(a, amount)).Ok? {
      var left := UnbondRebonds(st, now, a, amount);
      RebondConserves(st, now, Unbond(a, amount), a, left, left.pending == 0 && left.bond == 0,
                      st.state.totalBond - amount);
    }
  }

  lemma WithdrawConserves(st: Storage, now: nat, a: Addr)
    requires Balanced(st)
    ensures Conserves(st, now, Withdraw(a))
  {
    if Step(st, now, Withdraw(a)).Ok? {
      AccrueCovered(st, now);
      var index := Accrue(st.slots, st.state, now).value.index;
      SettleConserves(Read(st.stakers, a), index);
      var info := Settle(index, Read(st.stakers, a)).value;
      BondsPut(st.stakers, a, info.(pending := 0), info.bond == 0);
      EntitlementsPut(st.stakers, index, a, info.(pending := 0), info.bond == 0);
    }
  }

  /** Every call conserves the unrounded claims. */
  lemma StepConserves(st: Storage, now: nat, op: Op)
    requires Balanced(st)
    ensures Conserves(st, now, op)
  {
    match op {
      case Bond(caller, a, amount) => BondConserves(st, now, caller, a, amount);
      case Unbond(a, amount) => UnbondConserves(st, now, a, amount);
      case Withdraw(a) => WithdrawConserves(st, now, a);
      case AddSchedules(_, _) =>
      case Migrate(_, _) => if Accrue(st.slots, st.state, now).Ok? { AccrueCovered(st, now); }
    }
  }

  function ReleasedBy(st: Storage, now: nat, op: Op): nat {
    if op.AddSchedules? then 0 else Release(st.slots, st.state, now)
  }

  function RoundedBy(st: Storage, now: nat, op: Op): nat {
    if op.AddSchedules? then 0 else Rounding(st.state, now)
  }

  lemma CreditNearRelease(st: Storage, now: nat, op: Op)
    requires Step(st, now, op).Ok?
    ensures CreditedBy(st, now, op) <= SCALE * ReleasedBy(st, now, op) <= CreditedBy(st, now, op) + RoundedBy(st, now, op)
  {
    if !op.AddSchedules? {
      AccrueExact(st.slots, st.state, now);
    }
  }

  /** What an observer counts in a successful call. */
  lemma TrackCounts(t: Tracked, now: nat, op: Op)
    requires |t.st.slots| == |t.emitted| && Step(t.st, now, op).Ok?
    ensures var t', (next, transfer) := Track(t, now, op), Step(t.st, now, op).value;
            && t'.st == next && t'.paid == t.paid + PaidBy(transfer)
            && t'.distributed == t.distributed + ReleasedBy(t.st, now, op)
            && t'.rounding == t.rounding + RoundedBy(t.st, now, op)
            && t'.bondOps == t.bondOps + if op.Bond? || op.Unbond? then 1 else 0
  {}

  /** What one call does to the excess. */
  lemma ExcessMoves(t: Tracked, now: nat, op: Op)
    requires |t.st.slots| == |t.emitted| && Balanced(t.st) && Step(t.st, now, op).Ok?
    ensures Balanced(Step(t.st, now, op).value.0)
    ensures var gap := if op.Bond? || op.Unbond? then SCALE - 1 else 0;
            -gap - RoundedBy(t.st, now, op) <= Excess(Track(t, now, op)) - Excess(t) <= gap
  {
    StepConserves(t.st, now, op);
    CreditNearRelease(t.st, now, op);
    TrackCounts(t, now, op);
    MulSplit(SCALE, t.paid, PaidBy(Step(t.st, now, op).value.1));
    MulSplit(SCALE, t.distributed, ReleasedBy(t.st, now, op));
  }

  lemma MulSplit(a: int, b: int, c: int)
    ensures a * (b + c) == a * b + a * c
  {}

  lemma TrackKeepsBooks(t: Tracked, now: nat, op: Op)
    requires |t.st.slots| == |t.emitted|
    requires Balanced(t.st) && Covered(t)
    ensures Balanced(Track(t, now, op).st) && Covered(Track(t, now, op))
  {
    if Step(t.st, now, op).Ok? {
      ExcessMoves(t, now, op);
      TrackCounts(t, now, op);
      MulSplit(SCALE - 1, t.bondOps, Track(t, now, op).bondOps - t.bondOps);
    }
  }

  lemma {:induction false} RunKeepsBooks(t: Tracked, calls: seq<(nat, Op)>)
    requires |t.st.slots| == |t.emitted|
    requires Balanced(t.st) && Covered(t)
    ensures Balanced(Run(t, calls).st) && Covered(Run(t, calls))
  {
    if calls != [] {
      var before := calls[..|calls| - 1];
      RunKeepsBooks(t, before);
      TrackKeepsBooks(Run(t, before), calls[|calls| - 1].0, calls[|calls| - 1].1);
    }
  }

  /** On every run, what has been paid and what could be withdrawn never exceed what the updates of the
      index released, plus one token for each bond or unbond; withdrawals add nothing. With at least one
      such call the bound is strict. */
  lemma PayoutsBounded(owner: Addr, token: Addr, slots: seq<Slot>, start: nat, calls: seq<(nat, Op)>)
    ensures var t := Run(Start(owner, token, slots, start), calls);
            var owed := Sum(Claimables(t.st.stakers, t.st.state.index));
            && t.paid + owed <= t.distributed + t.bondOps
            && (t.bondOps > 0 ==> t.paid + owed < t.distributed + t.bondOps)
            && 0 <= owed
  {
    var t0 := Start(owner, token, slots, start);
    assert Bonds(t0.st.stakers) == map[] && Entitlements(t0.st.stakers, 0) == map[];
    RunKeepsBooks(t0, calls);
    var t := Run(t0, calls);
    ClaimablesBounded(t.st);
    var owed := Sum(Claimables(t.st.stakers, t.st.state.index));
    assert SCALE * (t.paid + owed) <= SCALE * (t.distributed + t.bondOps) - t.bondOps;
  }

  /** Nor is anything withheld: what has been paid and what could be withdrawn fall short of what was
      released by less than one token for each bond, unbond and staker, and a raw unit for each token bonded
      at each update. */
  lemma PayoutsNearlyComplete(owner: Addr, token: Addr, slots: seq<Slot>, start: nat, calls: seq<(nat, Op)>)
    ensures var t := Run(Start(owner, token, slots, start), calls);
            var owed := Sum(Claimables(t.st.stakers, t.st.state.index));
            SCALE * t.distributed <= SCALE * (t.paid + owed) + (SCALE - 1) * (t.bondOps + |t.st.stakers|) + t.rounding
  {
    var t0 := Start(owner, token, slots, start);
    assert Bonds(t0.st.stakers) == map[] && Entitlements(t0.st.stakers, 0) == map[];
    RunKeepsBooks(t0, calls);
    ClaimablesBounded(Run(t0, calls).st);
  }

  lemma ClaimBounds(info: Staker, index: nat)
    requires info.index <= index
    ensures 0 <= SCALE * Claimable(info, index) <= Entitlement(info, index) <= SCALE * Claimable(info, index) + SCALE - 1
  {
    SettleConserves(info, index);
    DivBounds(index * info.bond, SCALE);
    assert SCALE * (info.pending + Scaled(index, info.bond) - Scaled(info.index, info.bond))
        == SCALE * info.pending + SCALE * Scaled(index, info.bond) - SCALE * Scaled(info.index, info.bond);
  }

  lemma ClaimablesBounded(st: Storage)
    requires Balanced(st)
    ensures SCALE * Sum(Claimables(st.stakers, st.state.index)) <= Sum(Entitlements(st.stakers, st.state.index))
    ensures Sum(Entitlements(st.stakers, st.state.index))
         <= SCALE * Sum(Claimables(st.stakers, st.state.index)) + (SCALE - 1) * |st.stakers|
    ensures 0 <= Sum(Claimables(st.stakers, st.state.index))
  {
    var c, e := Claimables(st.stakers, st.state.index), Entitlements(st.stakers, st.state.index);
    forall a | a in c ensures 0 <= SCALE * c[a] <= e[a] <= SCALE * c[a] + (SCALE - 1) && 0 <= c[a] {
      ClaimBounds(st.stakers[a], st.state.index);
    }
    ScaledSums(c, e, SCALE, SCALE - 1);
    assert c.Keys == st.stakers.Keys;
    SumNonNegative(c);
  }

  lemma ScaledSums<K(!new)>(c: map<K, int>, e: map<K, int>, f: int, gap: int)
    requires c.Keys == e.Keys && forall k :: k in c ==> f * c[k] <= e[k] <= f * c[k] + gap
    ensures f * Sum(c) <= Sum(e) <= f * Sum(c) + gap * |c.Keys|
  {
    var scaled := map k | k in c :: f * c[k];
    var above := map k | k in c :: f * c[k] + gap * 1;
    var zero, ones := map k | k in c :: 0, map k | k in c :: 1;
    SumLinear(zero, zero, zero, 1);
    SumLinear(scaled, zero, c, f);
    SumLinear(above, scaled, ones, gap);
    SumOnes(ones);
    assert ones.Keys == c.Keys;
    SumMonotone(scaled, e);
    SumMonotone(e, above);
  }

  // ----- when a call succeeds -----

  /** A bond is waiting for an update of the index in which a slot without duration takes part. */
  predicate Blocked(st: Storage, now: nat) {
    st.state.last < now && st.state.totalBond > 0 && exists s | s in st.slots :: Aborts(s, st.state.last, now)
  }

  /** What a caller has to check. */
  predicate Admissible(st: Storage, now: nat, op: Op) {
    match op
    case Bond(caller, _, _) => caller == st.token && !Blocked(st, now)
    case Unbond(sender, amount) => amount <= Read(st.stakers, sender).bond && !Blocked(st, now)
    case Withdraw(_) => !Blocked(st, now)
    case AddSchedules(sender, slots) => sender == st.owner && forall s | s in slots :: now <= s.start
    case Migrate(sender, _) => sender == st.owner && !Blocked(st, now)
  }

  /** In a balanced contract a call succeeds exactly when it is admissible: no checked subtraction, of a
      settlement, of the total bond or of a migration, ever fails. */
  lemma StepSucceedsIff(st: Storage, now: nat, op: Op)
    requires Balanced(st)
    ensures Step(st, now, op).Ok? <==> Admissible(st, now, op)
    ensures Step(st, now, op) != Err(Underflow)
    ensures (forall s | s in st.slots :: s.Proper()) ==> !Blocked(st, now)
  {
    if Accrue(st.slots, st.state, now).Ok? && (op.Bond? || op.Unbond? || op.Withdraw?) {
      AccrueCovered(st, now);
      var a := if op.Bond? then op.staker else op.sender;
      SettleConserves(Read(st.stakers, a), Accrue(st.slots, st.state, now).value.index);
      BondsPut(st.stakers, a, NO_STAKER, false);
    }
    MigrationConserves(st.slots, now);
  }

  /** The clock runs on from `now`. */
  ghost predicate Later(now: nat, calls: seq<(nat, Op)>) {
    forall c | c in calls :: now <= c.0
  }

  lemma BlockedCallFails(st: Storage, now: nat, op: Op)
    requires Blocked(st, now) && !op.AddSchedules?
    ensures Step(st, now, op).Err?
  {}

  lemma BlockedLater(st: Storage, now: nat, later: nat, more: seq<Slot>)
    requires Blocked(st, now) && now <= later
    ensures Blocked(st.(slots := st.slots + more), later)
  {
    var s :| s in st.slots && Aborts(s, st.state.last, now);
    assert s in st.slots + more && Aborts(s, st.state.last, later);
  }

  /** A blocked contract stays blocked for good: nothing but schedules can be added, and nobody's bond or
      rewards can be taken out. */
  lemma {:induction false} BlockedForGood(st: Storage, now: nat, calls: seq<(nat, Op)>, later: nat, op: Op)
    requires Blocked(st, now) && Later(now, calls) && now <= later
    ensures After(st, calls).stakers == st.stakers && After(st, calls).state == st.state
    ensures Blocked(After(st, calls), later)
    ensures !op.AddSchedules? ==> Step(After(st, calls), later, op).Err?
  {
    if calls == [] {
      BlockedLater(st, now, later, []);
      assert st.slots + [] == st.slots;
    } else {
      var before, call := calls[..|calls| - 1], calls[|calls| - 1];
      assert call in calls;
      BlockedForGood(st, now, before, call.0, call.1);
      BlockedForGood(st, now, before, later, op);
      if Step(After(st, before), call.0, call.1).Ok? {
        BlockedLater(After(st, before), later, later, call.1.slots);
      }
    }
    if !op.AddSchedules? {
      BlockedCallFails(After(st, calls), later, op);
    }
  }

  /** This comes about: a slot from 5 to 5 blocks a contract with a bond at 5. */
  lemma SlotWithoutDurationBlocks(owner: Addr)
    ensures var st := Step(Instantiated(owner, "lp", [Slot(5, 5, 7)], 0), 0, Bond("lp", "alice", 1));
            st.Ok? && Blocked(st.value.0, 5)
  {
    assert Slot(5, 5, 7) in [Slot(5, 5, 7)] && Aborts(Slot(5, 5, 7), 0, 5);
    assert Scaled(0, 0) == 0;
  }
}
