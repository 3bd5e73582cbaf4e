/** Do the scheduled tokens suffice? What each slot has emitted against what it still holds, over runs
    that bond, unbond, withdraw, add schedules and migrate in any order. */
module StakingFunds {
  import opened Outcomes
  import opened FixedPoint
  import opened MapSums
  import opened Staking
  import opened StakingRuns

  /** A slot that the last cut left running has emitted no more than one charge since its start would; a
      slot already behind it has emitted no more than the amount left in it. */
  predicate SlotCovered(s: Slot, emitted: nat, last: nat, lastCut: int) {
    && (!s.Proper() ==> emitted == 0)
    && (if s.end > lastCut then emitted <= Scaled(s.Rate(), s.Elapsed(last)) else emitted <= s.amount)
  }

  /** The same, short of some tokens if the slot was cut again. */
  predicate SlotBacked(s: Slot, emitted: nat, last: nat, lastCut: int) {
    && (!s.Proper() ==> emitted == 0)
    && (s.end > lastCut ==> emitted <= Scaled(s.Rate(), s.Elapsed(last)))
  }

  ghost predicate AllBacked(slots: seq<Slot>, emitted: seq<nat>, last: nat, lastCut: int) {
    && |slots| == |emitted|
    && forall i | 0 <= i < |slots| :: SlotBacked(slots[i], emitted[i], last, lastCut)
  }

  /** By how much slots have emitted more than they hold. */
  function Shortage(slots: seq<Slot>, emitted: seq<nat>): nat
    requires |slots| == |emitted|
  {
    if slots == [] then 0
    else
      var n := |slots| - 1;
      Shortage(slots[..n], emitted[..n]) + Max(0, emitted[n] - slots[n].amount)
  }

  ghost predicate Funded(t: Tracked) {
    && AllBacked(t.st.slots, t.emitted, t.st.state.last, t.lastCut)
    && Shortage(t.st.slots, t.emitted) <= t.lost
    && t.lastCut <= t.st.state.last <= t.clock
    && t.distributed == SeqSum(t.emitted)
    && t.funded == t.migrated + Total(t.st.slots)
  }

  // ----- one slot -----

  /** A charge keeps a running slot covered, and charges nothing to a slot behind the last cut. */
  lemma ChargeBacked(s: Slot, emitted: nat, last: nat, now: nat, lastCut: int, charge: nat)
    requires SlotBacked(s, emitted, last, lastCut) && lastCut <= last <= now
    requires charge == 0 || charge == SlotEmission(s, last, now)
    ensures SlotBacked(s, emitted + charge, now, lastCut)
    ensures Max(0, emitted + charge - s.amount) == Max(0, emitted - s.amount)
  {
    EmissionChargesElapsed(s, last, now);
    if s.end > lastCut {
      EmissionsAccumulate(s, emitted, last, now);
      ElapsedWithinAmount(s, now);
    }
  }

  /** The new amount of a kept slot covers everything the index ever emitted from it, exactly unless the
      slot is cut again in the second of the last cut and does not divide evenly. */
  lemma CutCoversIff(s: Slot, now: nat, lastCut: int)
    requires lastCut <= now && s.start < now
    ensures (forall emitted: nat | SlotCovered(s, emitted, now, lastCut) :: emitted <= Cut(s, now).amount)
       <==> (s.Proper() && s.end == now == lastCut ==> DividesEvenly(s))
  {
    ElapsedWithinAmount(s, now);
    CutWithinAmount(s, now);
    if s.Proper() && s.end == now {
      RecutLosesIff(s, now);
      assert now == lastCut ==> SlotCovered(s, s.amount, now, lastCut);
    }
  }

  /** What a cut may take from a slot that has emitted it: only a slot cut again, and only its loss. */
  lemma CutBacked(s: Slot, emitted: nat, now: nat, lastCut: int)
    requires SlotBacked(s, emitted, now, lastCut) && lastCut <= now && s.start < now
    ensures SlotBacked(Cut(s, now), emitted, now, now)
    ensures Max(0, emitted - Cut(s, now).amount)
         <= Max(0, emitted - s.amount)
            + if now == lastCut && CutAgain(s, now) then s.amount - Cut(s, now).amount else 0
  {
    ElapsedWithinAmount(s, now);
    CutWithinAmount(s, now);
  }

  /** A dropped slot emitted nothing. */
  lemma DroppedEmittedNothing(s: Slot, emitted: nat, now: nat, lastCut: int)
    requires SlotBacked(s, emitted, now, lastCut) && lastCut <= now <= s.start
    ensures emitted == 0
  {}

  // ----- all slots -----

  lemma {:induction false} KeptBacked(slots: seq<Slot>, emitted: seq<nat>, now: nat, lastCut: int)
    requires AllBacked(slots, emitted, now, lastCut) && lastCut <= now
    ensures AllBacked(Kept(slots, now), KeptCounters(slots, emitted, now), now, now)
    ensures Shortage(Kept(slots, now), KeptCounters(slots, emitted, now))
         <= Shortage(slots, emitted) + if now == lastCut then Lost(slots, now) else 0
    ensures SeqSum(KeptCounters(slots, emitted, now)) == SeqSum(emitted)
  {
    if slots != [] {
      var n := |slots| - 1;
      var s := slots[n];
      assert AllBacked(slots[..n], emitted[..n], now, lastCut);
      KeptBacked(slots[..n], emitted[..n], now, lastCut);
      var rest, kept := KeptCounters(slots[..n], emitted[..n], now), Kept(slots[..n], now);
      assert SlotBacked(s, emitted[n], now, lastCut);
      if s.start < now {
        CutBacked(s, emitted[n], now, lastCut);
        assert (rest + [emitted[n]])[..|rest|] == rest;
        assert (kept + [Cut(s, now)])[..|kept|] == kept;
      } else {
        DroppedEmittedNothing(s, emitted[n], now, lastCut);
      }
    }
  }

  lemma {:induction false} ChargedSums(slots: seq<Slot>, emitted: seq<nat>, st: State, now: nat)
    requires |slots| == |emitted|
    ensures SeqSum(Charged(slots, emitted, st, now)) == SeqSum(emitted) + Release(slots, st, now)
  {
    if slots != [] {
      var n := |slots| - 1;
      ChargedSums(slots[..n], emitted[..n], st, now);
      assert Charged(slots, emitted, st, now)[..n] == Charged(slots[..n], emitted[..n], st, now);
    }
  }

  lemma {:induction false} AppendSums(slots: seq<Slot>, emitted: seq<nat>, more: seq<Slot>)
    ensures SeqSum(emitted + Zeros(|more|)) == SeqSum(emitted)
    ensures Total(slots + more) == Total(slots) + Total(more)
    ensures |slots| == |emitted| ==> Shortage(slots + more, emitted + Zeros(|more|)) == Shortage(slots, emitted)
  {
    if more == [] {
      assert slots + more == slots && emitted + Zeros(0) == emitted;
    } else {
      var n := |more| - 1;
      AppendSums(slots, emitted, more[..n]);
      assert (slots + more)[..|slots| + n] == slots + more[..n];
      assert (emitted + Zeros(n + 1))[..|emitted| + n] == emitted + Zeros(n);
    }
  }

  lemma AccrueMovesLast(slots: seq<Slot>, st: State, now: nat)
    requires st.last <= now && Accrue(slots, st, now).Ok?
    ensures Accrue(slots, st, now).value.last == now
  {}

  lemma {:induction false} ChargedBacked(slots: seq<Slot>, emitted: seq<nat>, st: State, now: nat, lastCut: int)
    requires AllBacked(slots, emitted, st.last, lastCut) && lastCut <= st.last <= now
    ensures AllBacked(slots, Charged(slots, emitted, st, now), now, lastCut)
    ensures Shortage(slots, Charged(slots, emitted, st, now)) == Shortage(slots, emitted)
  {
    if slots != [] {
      var n := |slots| - 1;
      var charged := Charged(slots, emitted, st, now);
      assert charged[..n] == Charged(slots[..n], emitted[..n], st, now);
      assert AllBacked(slots[..n], emitted[..n], st.last, lastCut);
      ChargedBacked(slots[..n], emitted[..n], st, now, lastCut);
      ChargeBacked(slots[n], emitted[n], st.last, now, lastCut, charged[n] - emitted[n]);
      forall i | 0 <= i < |slots| ensures SlotBacked(slots[i], charged[i], now, lastCut) {
        assert i < n ==> slots[..n][i] == slots[i] && charged[..n][i] == charged[i];
      }
    }
  }

  lemma TrackKeepsFunded(t: Tracked, now: nat, op: Op)
    requires Funded(t) && t.clock <= now
    ensures Funded(Track(t, now, op))
  {
    if Step(t.st, now, op).Ok? {
      if op.AddSchedules? {
        AddKeepsFunded(t, now, op);
      } else {
        AccrueMovesLast(t.st.slots, t.st.state, now);
        ChargedBacked(t.st.slots, t.emitted, t.st.state, now, t.lastCut);
        ChargedSums(t.st.slots, t.emitted, t.st.state, now);
        if op.Migrate? {
          KeptBacked(t.st.slots, Charged(t.st.slots, t.emitted, t.st.state, now), now, t.lastCut);
          MigrationConserves(t.st.slots, now);
        }
      }
    }
  }

  lemma AddKeepsFunded(t: Tracked, now: nat, op: Op)
    requires Funded(t) && t.clock <= now && op.AddSchedules? && Step(t.st, now, op).Ok?
    ensures Funded(Track(t, now, op))
  {
    AppendSums(t.st.slots, t.emitted, op.slots);
  }

  lemma {:induction false} RunKeepsFunded(t: Tracked, calls: seq<(nat, Op)>)
    requires Funded(t) && ClockRuns(t.clock, calls)
    ensures Funded(Run(t, calls))
    ensures Run(t, calls).clock == if calls == [] then t.clock else calls[|calls| - 1].0
  {
    if calls != [] {
      var before := calls[..|calls| - 1];
      RunKeepsFunded(t, before);
      TrackKeepsFunded(Run(t, before), calls[|calls| - 1].0, calls[|calls| - 1].1);
    }
  }

  lemma {:induction false} EmittedWithinTotal(slots: seq<Slot>, emitted: seq<nat>)
    requires |slots| == |emitted|
    ensures SeqSum(emitted) <= Total(slots) + Shortage(slots, emitted)
  {
    if slots != [] {
      EmittedWithinTotal(slots[..|slots| - 1], emitted[..|slots| - 1]);
    }
  }

  lemma StartFunded(owner: Addr, token: Addr, slots: seq<Slot>, start: nat)
    ensures Funded(Start(owner, token, slots, start))
  {
    AppendSums([], [], slots);
    assert [] + Zeros(|slots|) == Zeros(|slots|) && [] + slots == slots;
  }

  // ----- the funds -----

  /** On every run, what the index released never exceeds what the current slots hold by more than the
      tokens that cutting slots again has lost; and the rewards paid, the rewards still owed and the tokens
      migrated away together never exceed the amounts ever scheduled by more than those tokens and one
      token for each bond or unbond. */
  lemma FundsSuffice(owner: Addr, token: Addr, slots: seq<Slot>, start: nat, calls: seq<(nat, Op)>)
    requires ClockRuns(start, calls)
    ensures var t := Run(Start(owner, token, slots, start), calls);
            && Total(t.st.slots) == t.funded - t.migrated
            && t.distributed <= Total(t.st.slots) + t.lost
            && t.paid + Sum(Claimables(t.st.stakers, t.st.state.index)) + t.migrated
               <= t.funded + t.bondOps + t.lost
  {
    var t0 := Start(owner, token, slots, start);
    StartFunded(owner, token, slots, start);
    RunKeepsFunded(t0, calls);
    var t := Run(t0, calls);
    EmittedWithinTotal(t.st.slots, t.emitted);
    PayoutsBounded(owner, token, slots, start, calls);
  }

  // ----- what cutting again loses -----

  /** A migration in the second of the previous one loses nothing if and only if all slots cut then divide
      evenly. */
  lemma {:induction false} NothingLostIff(slots: seq<Slot>, now: nat)
    ensures Lost(slots, now) == 0 <==> forall s | s in slots && s.Proper() && s.end == now :: DividesEvenly(s)
  {
    if slots != [] {
      var s, rest := slots[|slots| - 1], slots[..|slots| - 1];
      NothingLostIff(rest, now);
      assert slots == rest + [s];
      if CutAgain(s, now) {
        RecutLosesIff(s, now);
        CutWithinAmount(s, now);
      }
    }
  }

  /** The caller's guard for a migration: not again in the second of the previous one, unless the slots
      cut then divide evenly. */
  ghost predicate CutsSafely(t: Tracked, now: nat, op: Op) {
    op.Migrate? && now == t.lastCut ==>
      forall s | s in t.st.slots && s.Proper() && s.end == now :: DividesEvenly(s)
  }

  ghost predicate CutsSafelyThroughout(t: Tracked, calls: seq<(nat, Op)>)
    requires |t.st.slots| == |t.emitted|
  {
    calls == [] ||
    (CutsSafelyThroughout(t, calls[..|calls| - 1])
     && (Step(Run(t, calls[..|calls| - 1]).st, calls[|calls| - 1].0, calls[|calls| - 1].1).Ok? ==>
           CutsSafely(Run(t, calls[..|calls| - 1]), calls[|calls| - 1].0, calls[|calls| - 1].1)))
  }

  /** A run loses nothing if and only if each of its migrations is guarded so. */
  lemma {:induction false} LosesNothingIff(t: Tracked, calls: seq<(nat, Op)>)
    requires |t.st.slots| == |t.emitted|
    ensures t.lost <= Run(t, calls).lost
    ensures Run(t, calls).lost == t.lost <==> CutsSafelyThroughout(t, calls)
  {
    if calls != [] {
      var before := calls[..|calls| - 1];
      LosesNothingIff(t, before);
      NothingLostIff(Run(t, before).st.slots, calls[|calls| - 1].0);
    }
  }

  /** The bounds without slack for cuts, for runs whose migrations are all guarded. */
  lemma GuardedFundsSuffice(owner: Addr, token: Addr, slots: seq<Slot>, start: nat, calls: seq<(nat, Op)>)
    requires ClockRuns(start, calls)
    requires CutsSafelyThroughout(Start(owner, token, slots, start), calls)
    ensures var t := Run(Start(owner, token, slots, start), calls);
            && t.distributed <= Total(t.st.slots)
            && t.paid + Sum(Claimables(t.st.stakers, t.st.state.index)) + t.migrated <= t.funded + t.bondOps
  {
    FundsSuffice(owner, token, slots, start, calls);
    LosesNothingIff(Start(owner, token, slots, start), calls);
  }

  predicate AllShort(slots: seq<Slot>) {
    forall s | s in slots :: s.end - s.start <= SCALE
  }

  lemma {:induction false} LostWithinRecuts(slots: seq<Slot>, now: nat)
    requires AllShort(slots)
    ensures Lost(slots, now) <= Recuts(slots, now)
    ensures AllShort(Kept(slots, now))
  {
    if slots != [] {
      var s, rest := slots[|slots| - 1], slots[..|slots| - 1];
      assert s in slots;
      LostWithinRecuts(rest, now);
      if CutAgain(s, now) {
        RecutLosesAtMostOne(s, now);
      }
    }
  }

  /** With slots of at most 10^18 seconds, every cut again loses at most one token. */
  lemma {:induction false} LossesBounded(t: Tracked, calls: seq<(nat, Op)>)
    requires |t.st.slots| == |t.emitted| && AllShort(t.st.slots) && t.lost <= t.recuts
    requires forall c | c in calls && c.1.AddSchedules? :: AllShort(c.1.slots)
    ensures Run(t, calls).lost <= Run(t, calls).recuts && AllShort(Run(t, calls).st.slots)
  {
    if calls != [] {
      var before, call := calls[..|calls| - 1], calls[|calls| - 1];
      assert call in calls;
      LossesBounded(t, before);
      LostWithinRecuts(Run(t, before).st.slots, call.0);
    }
  }

  /** Every run, whatever its migrations: one more token for each cut again. */
  lemma FundsSufficeButForRecuts(owner: Addr, token: Addr, slots: seq<Slot>, start: nat, calls: seq<(nat, Op)>)
    requires ClockRuns(start, calls) && AllShort(slots)
    requires forall c | c in calls && c.1.AddSchedules? :: AllShort(c.1.slots)
    ensures var t := Run(Start(owner, token, slots, start), calls);
            t.paid + Sum(Claimables(t.st.stakers, t.st.state.index)) + t.migrated <= t.funded + t.bondOps + t.recuts
  {
    FundsSuffice(owner, token, slots, start, calls);
    LossesBounded(Start(owner, token, slots, start), calls);
  }

  // ----- a run that falls short -----

  /** The contract with one slot, when alice alone has bonded, and bonded 1. */
  function Lone(owner: Addr, slot: Slot, last: nat, index: nat, emitted: nat, migrated: nat, lastCut: int,
                lost: nat, rounding: nat): Tracked {
    Tracked(Storage(owner, "lp", [slot], State(last, 1, index), map["alice" := Staker(0, 1, 0)]),
            last, [emitted], emitted, 0, 1, 12, migrated, lastCut, lost, lost, rounding)
  }

  lemma SingleSlot(s: Slot, now: nat)
    requires s.start < now
    ensures Total([s]) == s.amount && Kept([s], now) == [Cut(s, now)] && Distributed([s], now) == Cut(s, now).amount
    ensures Lost([s], now) == (if CutAgain(s, now) then s.amount - Cut(s, now).amount else 0)
    ensures Recuts([s], now) == if CutAgain(s, now) then 1 else 0
    ensures forall emitted: nat :: KeptCounters([s], [emitted], now) == [emitted]
  {
    assert [s][..0] == [] && Kept([], now) == [];
    forall emitted: nat ensures KeptCounters([s], [emitted], now) == [emitted] {
      assert [emitted][..0] == [] && KeptCounters([], [], now) == [];
    }
  }

  lemma FirstCut(owner: Addr)
    ensures Track(Lone(owner, Slot(0, 7, 12), 0, 0, 0, 0, -1, 0, 0), 3, Migrate(owner, "new"))
         == Lone(owner, Slot(0, 3, 5), 3, 5 * SCALE, 5, 7, 3, 0, 1)
  {
    var s, st := Slot(0, 7, 12), State(0, 1, 0);
    RemigrationCanLose();
    SingleSlot(s, 3);
    assert [s][..0] == [] && Emission([s], 0, 3) == 5;
    assert Accrue([s], st, 3) == Ok(State(3, 1, 5 * SCALE));
    assert Charged([s], [0], st, 3) == [5];
    assert Cut(s, 3) == Slot(0, 3, 5);
  }

  lemma SecondCut(owner: Addr)
    ensures Track(Lone(owner, Slot(0, 3, 5), 3, 5 * SCALE, 5, 7, 3, 0, 1), 3, Migrate(owner, "new"))
         == Lone(owner, Slot(0, 3, 4), 3, 5 * SCALE, 5, 8, 3, 1, 1)
  {
    RemigrationCanLose();
    SingleSlot(Slot(0, 3, 5), 3);
    assert Cut(Slot(0, 3, 5), 3) == Slot(0, 3, 4) by { assert [Cut(Slot(0, 3, 5), 3)][0] == [Slot(0, 3, 4)][0]; }
  }

  lemma LoneBond(owner: Addr)
    ensures Track(Start(owner, "lp", [Slot(0, 7, 12)], 0), 0, Bond("lp", "alice", 1))
         == Lone(owner, Slot(0, 7, 12), 0, 0, 0, 0, -1, 0, 0)
  {
    SingleSlot(Slot(0, 7, 12), 1);
  }

  lemma RunNext(t: Tracked, calls: seq<(nat, Op)>)
    requires |t.st.slots| == |t.emitted| && calls != []
    ensures Run(t, calls) == Track(Run(t, calls[..|calls| - 1]), calls[|calls| - 1].0, calls[|calls| - 1].1)
  {}

  lemma LoneClaim(owner: Addr)
    ensures var t := Lone(owner, Slot(0, 3, 4), 3, 5 * SCALE, 5, 8, 3, 1, 1);
            Total(t.st.slots) == 4 && Sum(Claimables(t.st.stakers, t.st.state.index)) == 5
  {
    var t := Lone(owner, Slot(0, 3, 4), 3, 5 * SCALE, 5, 8, 3, 1, 1);
    SingleSlot(Slot(0, 3, 4), 3);
    SumPut(map[], "alice", 5);
    assert Claimables(t.st.stakers, t.st.state.index) == map[]["alice" := 5];
  }

  /** The shortage is reached: a slot of 12 over 7 seconds emits 5 in 3 seconds, and two migrations in the
      third second leave 4 in it and send 8 away, so that 13 tokens are owed or gone of 12 ever scheduled. */
  lemma CutAgainFallsShort(owner: Addr)
    ensures var calls := [(0, Bond("lp", "alice", 1)), (3, Migrate(owner, "new")), (3, Migrate(owner, "new"))];
            var t := Run(Start(owner, "lp", [Slot(0, 7, 12)], 0), calls);
            && t.distributed == 5 && Total(t.st.slots) == 4
            && Sum(Claimables(t.st.stakers, t.st.state.index)) + t.migrated == 13 && t.funded == 12
            && t.lost == 1 && t.recuts == 1
  {
    LoneBond(owner);
    FirstCut(owner);
    SecondCut(owner);
    LoneClaim(owner);
    var t0 := Start(owner, "lp", [Slot(0, 7, 12)], 0);
    var b: (nat, Op), m: (nat, Op) := (0, Bond("lp", "alice", 1)), (3, Migrate(owner, "new"));
    assert [b][..0] == [] && [b, m][..1] == [b] && [b, m, m][..2] == [b, m];
    RunNext(t0, [b]);
    RunNext(t0, [b, m]);
    RunNext(t0, [b, m, m]);
  }
}
