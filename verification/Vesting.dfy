/** Vesting schedules with cliffs: what one claim counts, and what any sequence of claims adds up to. */
module Vesting {
  import opened Outcomes
  import opened FixedPoint

  datatype Schedule = Schedule(start: nat, end: nat, cliff: nat, amount: nat) {
    /** What registration accepts. The cliff may lie beyond the end. */
    predicate Acceptable() {
      start < end && start <= cliff
    }

    function Rate(): nat
      requires start < end
    {
      FromRatio(amount, end - start)
    }
  }

  datatype Error = Unauthorized | BadSchedule | NotFound | Underflow

  predicate AllAcceptable(schedules: seq<Schedule>) {
    forall s | s in schedules :: s.Acceptable()
  }

  predicate Skipped(s: Schedule, last: nat, now: nat) {
    s.start > now || s.end < last || s.cliff > now
  }

  /** The seconds a claim at `now` counts for a schedule last claimed at `last`; the subtraction
      of unsigned times aborts when it would go below zero. */
  function Seconds(s: Schedule, last: nat, now: nat): Result<nat, Error> {
    if Skipped(s, last, now) then Ok(0)
    else if Min(s.end, now) < Max(s.start, last) then Err(Underflow)
    else
      var passed := Min(s.end, now) - Max(s.start, last);
      Ok(if s.start < last < s.cliff then passed + (last - s.start) else passed)
  }

  /** The amount one claim releases, over all schedules of an account. */
  function ClaimAmount(schedules: seq<Schedule>, last: nat, now: nat): Result<nat, Error>
    requires AllAcceptable(schedules)
  {
    if schedules == [] then Ok(0)
    else
      var s := schedules[|schedules| - 1];
      assert s in schedules;
      var amount :- ClaimAmount(schedules[..|schedules| - 1], last, now);
      var seconds :- Seconds(s, last, now);
      Ok(amount + Scaled(s.Rate(), seconds))
  }

  // ----- one schedule, any sequence of claims -----

  /** Claim times that never go back. The first may lie before the genesis time. */
  ghost predicate Ascending(times: seq<nat>) {
    forall i, j | 0 <= i < j < |times| :: times[i] <= times[j]
  }

  function LastOf(from: nat, times: seq<nat>): nat {
    if times == [] then from else times[|times| - 1]
  }

  /** Seconds counted by one claim that does not go back in time. */
  function Count(s: Schedule, last: nat, now: nat): nat {
    match Seconds(s, last, now) case Ok(n) => n case Err(_) => 0
  }

  /** Seconds counted for one schedule by a whole sequence of claims. */
  function Counted(s: Schedule, from: nat, times: seq<nat>): nat {
    if times == [] then 0
    else Counted(s, from, times[..|times| - 1]) + Count(s, LastOf(from, times[..|times| - 1]), LastOf(from, times))
  }

  /** What is due at time t: nothing before the cliff, everything since the start after it. */
  function Due(s: Schedule, t: nat): nat
    requires s.Acceptable()
  {
    if t < s.cliff then 0 else Min(s.end, t) - s.start
  }

  /** The catch-up branch makes each claim count exactly what has become due since the last one.
      The cliff may even lie one second past the end. */
  lemma ClaimCountsTheDifference(s: Schedule, last: nat, now: nat)
    requires s.Acceptable() && s.cliff <= s.end + 1
    requires last <= now || Due(s, last) == 0 == Due(s, now)
    ensures Seconds(s, last, now).Ok? || now < last
    ensures Count(s, last, now) == Due(s, now) - Due(s, last)
  {}

  /** Unsigned subtraction aborts only for a claim dated before the recorded last claim. */
  lemma UnderflowsIffTimeRunsBack(s: Schedule, last: nat, now: nat)
    requires s.Acceptable()
    ensures Seconds(s, last, now).Err? <==> now < last <= s.end && s.cliff <= now
  {}

  /** The genesis time a registration records does not cut into what the schedule owes. */
  predicate GenesisFits(s: Schedule, genesis: nat) {
    genesis <= s.start || genesis < s.cliff
  }

  /** Any sequence of claims adds up to one claim made at its last time. */
  lemma {:induction false} ClaimsTelescope(s: Schedule, genesis: nat, times: seq<nat>)
    requires s.Acceptable() && s.cliff <= s.end + 1 && GenesisFits(s, genesis)
    requires Ascending(times)
    ensures Counted(s, genesis, times) == Due(s, LastOf(genesis, times))
  {
    if times != [] {
      var before := times[..|times| - 1];
      ClaimsTelescope(s, genesis, before);
      ClaimCountsTheDifference(s, LastOf(genesis, before), LastOf(genesis, times));
    }
  }

  /** No schedule that registration accepts ever counts a second twice, whatever its cliff and genesis. */
  lemma {:induction false} NothingCountedTwice(s: Schedule, genesis: nat, times: seq<nat>)
    requires s.Acceptable() && Ascending(times)
    ensures Counted(s, genesis, times) <= Due(s, LastOf(genesis, times))
  {
    if times != [] {
      NothingCountedTwice(s, genesis, times[..|times| - 1]);
    }
  }

  /** No sequence of claims loses seconds, whatever its times. */
  ghost predicate NeverLoses(s: Schedule, genesis: nat)
    requires s.Acceptable()
  {
    forall times: seq<nat> | times != [] && Ascending(times) ::
      Counted(s, genesis, times) == Due(s, LastOf(genesis, times))
  }

  lemma CountTwo(s: Schedule, from: nat, t: nat, u: nat)
    requires t <= u
    ensures Ascending([t]) && Ascending([t, u])
    ensures LastOf(from, [t]) == t && LastOf(from, [t, u]) == u
    ensures Counted(s, from, [t]) == Count(s, from, t)
    ensures Counted(s, from, [t, u]) == Count(s, from, t) + Count(s, t, u)
  {}

  /** Exactly when a registered schedule is safe from its own claims: the cliff is at most one second
      past the end, and the genesis time recorded at registration is not after both start and cliff. */
  lemma NeverLosesIff(s: Schedule, genesis: nat)
    requires s.Acceptable()
    ensures NeverLoses(s, genesis) <==> s.cliff <= s.end + 1 && GenesisFits(s, genesis)
  {
    if s.cliff <= s.end + 1 && GenesisFits(s, genesis) {
      forall times: seq<nat> | times != [] && Ascending(times)
        ensures Counted(s, genesis, times) == Due(s, LastOf(genesis, times))
      {
        ClaimsTelescope(s, genesis, times);
      }
    } else if s.cliff > s.end + 1 && genesis < s.cliff {
      CountTwo(s, genesis, s.end + 1, s.cliff);
      assert Counted(s, genesis, [s.end + 1, s.cliff]) != Due(s, LastOf(genesis, [s.end + 1, s.cliff]));
    } else {
      var late := Max(genesis, s.end);
      CountTwo(s, genesis, late, late);
      assert Counted(s, genesis, [late]) != Due(s, LastOf(genesis, [late]));
    }
  }

  // ----- amounts -----

  function Paid(s: Schedule, from: nat, times: seq<nat>): nat
    requires s.start < s.end
  {
    if times == [] then 0
    else
      Paid(s, from, times[..|times| - 1])
      + Scaled(s.Rate(), Count(s, LastOf(from, times[..|times| - 1]), LastOf(from, times)))
  }

  /** The number of claims that counted seconds for the schedule. */
  function CountingClaims(s: Schedule, from: nat, times: seq<nat>): nat {
    if times == [] then 0
    else
      CountingClaims(s, from, times[..|times| - 1])
      + if Count(s, LastOf(from, times[..|times| - 1]), LastOf(from, times)) > 0 then 1 else 0
  }

  lemma PaymentTracksSeconds(rate: nat, before: nat, n: nat)
    ensures SCALE * Scaled(rate, n) <= rate * n <= SCALE * Scaled(rate, n) + if n > 0 then SCALE - 1 else 0
    ensures rate * (before + n) == rate * before + rate * n
  {}

  /** Rounding keeps every payment below its exact value, by less than one token a counting claim. */
  lemma {:induction false} PaidTracksSeconds(s: Schedule, from: nat, times: seq<nat>)
    requires s.start < s.end
    ensures SCALE * Paid(s, from, times) <= s.Rate() * Counted(s, from, times)
    ensures s.Rate() * Counted(s, from, times)
         <= SCALE * Paid(s, from, times) + (SCALE - 1) * CountingClaims(s, from, times)
  {
    if times != [] {
      var before := times[..|times| - 1];
      PaidTracksSeconds(s, from, before);
      PaymentTracksSeconds(s.Rate(), Counted(s, from, before), Count(s, LastOf(from, before), LastOf(from, times)));
    }
  }

  /** Whatever is claimed and whenever, a schedule never pays more than its amount. */
  lemma PaidAtMostAmount(s: Schedule, genesis: nat, times: seq<nat>)
    requires s.Acceptable() && Ascending(times)
    ensures Paid(s, genesis, times) <= s.amount
  {
    PaidTracksSeconds(s, genesis, times);
    NothingCountedTwice(s, genesis, times);
    var n := Counted(s, genesis, times);
    DivBounds(s.amount * SCALE, s.end - s.start);
    MulMonotone(n, s.end - s.start, s.Rate());
    DivBelow(SCALE * Paid(s, genesis, times), SCALE, s.amount + 1);
  }

  /** What a schedule of at most 10^18 seconds still keeps back is less than one token, one more for each
      claim that counted seconds, and the worth of the seconds that were not counted. */
  lemma UnpaidAtMostLost(s: Schedule, genesis: nat, times: seq<nat>)
    requires s.start < s.end && s.end - s.start <= SCALE
    ensures SCALE * (s.amount - Paid(s, genesis, times) - CountingClaims(s, genesis, times) - 1)
          < s.Rate() * (s.end - s.start - Counted(s, genesis, times))
  {
    PaidTracksSeconds(s, genesis, times);
    DivBounds(s.amount * SCALE, s.end - s.start);
    Shortfall(s.Rate(), s.end - s.start, Counted(s, genesis, times));
  }

  lemma Shortfall(rate: int, period: int, counted: int)
    ensures rate * (period - counted) == rate * period - rate * counted
  {}

  /** Once the schedule is over, a claim leaves at most one token unpaid for each claim that counted
      seconds, if no seconds were lost. */
  lemma PaidInFull(s: Schedule, genesis: nat, times: seq<nat>)
    requires s.Acceptable() && s.cliff <= s.end + 1 && s.end - s.start <= SCALE
    requires GenesisFits(s, genesis) && Ascending(times)
    requires s.end <= LastOf(genesis, times) && s.cliff <= LastOf(genesis, times)
    ensures s.amount - CountingClaims(s, genesis, times) <= Paid(s, genesis, times)
  {
    UnpaidAtMostLost(s, genesis, times);
    ClaimsTelescope(s, genesis, times);
    assert s.Rate() * 0 == 0;
  }

  // ----- the contract -----

  type Addr = string

  datatype VestingInfo = VestingInfo(last: nat, schedules: seq<Schedule>)

  datatype Account = Account(address: Addr, schedules: seq<Schedule>)

  datatype Storage = Storage(owner: Addr, genesis: nat, infos: map<Addr, VestingInfo>)

  datatype Op = Register(sender: Addr, accounts: seq<Account>) | Claim(address: Addr)

  predicate Valid(st: Storage) {
    forall a | a in st.infos :: AllAcceptable(st.infos[a].schedules)
  }

  /** The stored records after accounts have been registered in order; one bad schedule fails them all. */
  function Registered(infos: map<Addr, VestingInfo>, genesis: nat, accounts: seq<Account>):
    Result<map<Addr, VestingInfo>, Error>
  {
    if accounts == [] then Ok(infos)
    else
      var account := accounts[|accounts| - 1];
      var before :- Registered(infos, genesis, accounts[..|accounts| - 1]);
      if AllAcceptable(account.schedules)
      then Ok(before[account.address := VestingInfo(genesis, account.schedules)])
      else Err(BadSchedule)
  }

  lemma RegisteredKeepsValid(infos: map<Addr, VestingInfo>, genesis: nat, accounts: seq<Account>)
    requires forall a | a in infos :: AllAcceptable(infos[a].schedules)
    requires Registered(infos, genesis, accounts).Ok?
    ensures forall a | a in Registered(infos, genesis, accounts).value ::
              AllAcceptable(Registered(infos, genesis, accounts).value[a].schedules)
  {}

  /** One call: the new storage and the amount transferred to the claimant. */
  function Step(st: Storage, now: nat, op: Op): Result<(Storage, nat), Error>
    requires Valid(st)
  {
    match op
    case Register(sender, accounts) =>
      if sender != st.owner then Err(Unauthorized)
      else
        var infos :- Registered(st.infos, st.genesis, accounts);
        Ok((st.(infos := infos), 0))
    case Claim(address) =>
      if address !in st.infos then Err(NotFound)
      else
        var info := st.infos[address];
        var amount :- ClaimAmount(info.schedules, info.last, now);
        Ok((st.(infos := st.infos[address := info.(last := now)]), amount))
  }

  /** What the outside world has seen of an account since its latest registration: the schedules it was
      registered with, the times of its claims and what they paid. */
  datatype Record = Record(genesis: nat, schedules: seq<Schedule>, times: seq<nat>, paid: nat)

  /** The storage, the clock, and the records kept for the theorems about whole runs. */
  datatype Tracked = Tracked(st: Storage, clock: nat, records: map<Addr, Record>)

  function PaidTotal(schedules: seq<Schedule>, genesis: nat, times: seq<nat>): nat
    requires AllAcceptable(schedules)
  {
    if schedules == [] then 0
    else
      var s := schedules[|schedules| - 1];
      assert s in schedules;
      PaidTotal(schedules[..|schedules| - 1], genesis, times) + Paid(s, genesis, times)
  }

  function AmountTotal(schedules: seq<Schedule>): nat {
    if schedules == [] then 0
    else AmountTotal(schedules[..|schedules| - 1]) + schedules[|schedules| - 1].amount
  }

  function CountingTotal(schedules: seq<Schedule>, genesis: nat, times: seq<nat>): nat {
    if schedules == [] then 0
    else
      CountingTotal(schedules[..|schedules| - 1], genesis, times)
      + CountingClaims(schedules[|schedules| - 1], genesis, times)
  }

  /** A record agrees with storage: same last claim time, and the tokens sent are exactly the
      payments of the recorded claims, schedule by schedule. */
  ghost predicate Agrees(info: VestingInfo, r: Record, clock: nat) {
    && AllAcceptable(info.schedules) && info.schedules == r.schedules
    && Ascending(r.times)
    && (forall t | t in r.times :: t <= clock)
    && info.last == LastOf(r.genesis, r.times)
    && r.paid == PaidTotal(r.schedules, r.genesis, r.times)
  }

  ghost predicate Inv(t: Tracked) {
    && t.st.infos.Keys == t.records.Keys
    && (forall a | a in t.records :: Agrees(t.st.infos[a], t.records[a], t.clock))
  }

  ghost function Addresses(accounts: seq<Account>): set<Addr> {
    set i | 0 <= i < |accounts| :: accounts[i].address
  }

  /** The schedules that a list of accounts gives an address: those of the last entry for it. */
  function LatestSchedules(accounts: seq<Account>, a: Addr): seq<Schedule> {
    if accounts == [] then []
    else if accounts[|accounts| - 1].address == a then accounts[|accounts| - 1].schedules
    else LatestSchedules(accounts[..|accounts| - 1], a)
  }

  lemma {:induction false} LatestIsLast(accounts: seq<Account>, i: nat)
    requires i < |accounts| && forall j | i < j < |accounts| :: accounts[j].address != accounts[i].address
    ensures LatestSchedules(accounts, accounts[i].address) == accounts[i].schedules
  {
    if i < |accounts| - 1 {
      LatestIsLast(accounts[..|accounts| - 1], i);
    }
  }

  /** One call at a time no earlier than the clock. A failed call changes nothing but the clock. */
  ghost function Track(t: Tracked, now: nat, op: Op): Tracked
    requires Valid(t.st)
  {
    match Step(t.st, now, op)
    case Err(_) => t.(clock := now)
    case Ok((st, paid)) =>
      var updates: map<Addr, Record> :=
        if op.Register? then 
          map a | a in Addresses(op.accounts) :: Record(t.st.genesis, LatestSchedules(op.accounts, a), [], 0)
        else if op.address in t.records
        then
          var r := t.records[op.address];
          map[op.address := r.(times := r.times + [now], paid := r.paid + paid)]
        else map[];
      Tracked(st, now, t.records + updates)
  }

  ghost function Run(t: Tracked, calls: seq<(nat, Op)>): Tracked
    requires Valid(t.st)
    ensures Valid(Run(t, calls).st)
  {
    if calls == [] then t
    else
      var before := Run(t, calls[..|calls| - 1]);
      var (now, op) := calls[|calls| - 1];
      StepKeepsValid(before.st, now, op);
      Track(before, now, op)
  }

  lemma StepKeepsValid(st: Storage, now: nat, op: Op)
    requires Valid(st)
    ensures Step(st, now, op).Ok? ==> Valid(Step(st, now, op).value.0)
  {
    if op.Register? && op.sender == st.owner && Registered(st.infos, st.genesis, op.accounts).Ok? {
      RegisteredKeepsValid(st.infos, st.genesis, op.accounts);
    }
  }

  /** A registration is accepted exactly when every schedule in it is acceptable. It then gives each address
      in it the schedules of its last entry and the genesis time, and leaves the other records alone. */
  lemma {:induction false} RegisteredResets(infos: map<Addr, VestingInfo>, genesis: nat, accounts: seq<Account>)
    ensures Registered(infos, genesis, accounts).Ok? <==> forall account | account in accounts :: AllAcceptable(account.schedules)
    ensures Registered(infos, genesis, accounts).Ok? ==>
              var after := Registered(infos, genesis, accounts).value;
              && after.Keys == infos.Keys + Addresses(accounts)
              && (forall a | a in Addresses(accounts) ::
                    after[a] == VestingInfo(genesis, LatestSchedules(accounts, a)) && AllAcceptable(after[a].schedules))
              && (forall a | a in infos && a !in Addresses(accounts) :: after[a] == infos[a])
  {
    if accounts != [] {
      var before, account := accounts[..|accounts| - 1], accounts[|accounts| - 1];
      RegisteredResets(infos, genesis, before);
      assert accounts == before + [account];
      AddressesGrow(before, account);
    }
  }

  lemma AddressesGrow(before: seq<Account>, account: Account)
    ensures Addresses(before + [account]) == Addresses(before) + {account.address}
  {
    var accounts := before + [account];
    forall a | a in Addresses(before) + {account.address} ensures a in Addresses(accounts) {
      if a in Addresses(before) {
        var i :| 0 <= i < |before| && before[i].address == a;
        assert accounts[i].address == a;
      } else {
        assert accounts[|before|].address == a;
      }
    }
    forall a | a in Addresses(accounts) ensures a in Addresses(before) + {account.address} {
      var i :| 0 <= i < |accounts| && accounts[i].address == a;
      assert i < |before| ==> before[i].address == a;
    }
  }

  /** One more claim extends the payments of the recorded ones. */
  lemma ClaimExtendsPayments(schedules: seq<Schedule>, genesis: nat, times: seq<nat>, now: nat)
    requires AllAcceptable(schedules)
    requires ClaimAmount(schedules, LastOf(genesis, times), now).Ok?
    ensures PaidTotal(schedules, genesis, times + [now])
         == PaidTotal(schedules, genesis, times) + ClaimAmount(schedules, LastOf(genesis, times), now).value
  {
    if schedules != [] {
      assert schedules[|schedules| - 1] in schedules;
      ClaimExtendsPayments(schedules[..|schedules| - 1], genesis, times, now);
      assert (times + [now])[..|times + [now]| - 1] == times;
    }
  }

  lemma NothingPaidYet(schedules: seq<Schedule>, genesis: nat)
    requires AllAcceptable(schedules)
    ensures PaidTotal(schedules, genesis, []) == 0
  {}

  lemma RegisterKeepsInv(t: Tracked, now: nat, sender: Addr, accounts: seq<Account>)
    requires Valid(t.st) && Inv(t) && t.clock <= now
    ensures Inv(Track(t, now, Register(sender, accounts)))
  {
    var t' := Track(t, now, Register(sender, accounts));
    if Step(t.st, now, Register(sender, accounts)).Ok? {
      RegisteredResets(t.st.infos, t.st.genesis, accounts);
      forall a | a in t'.records ensures Agrees(t'.st.infos[a], t'.records[a], now) {
        if a in Addresses(accounts) {
          NothingPaidYet(t'.records[a].schedules, t.st.genesis);
        } else {
          assert Agrees(t.st.infos[a], t.records[a], t.clock);
        }
      }
    } else {
      forall a | a in t'.records ensures Agrees(t'.st.infos[a], t'.records[a], now) {
        assert Agrees(t.st.infos[a], t.records[a], t.clock);
      }
    }
  }

  lemma ClaimAgrees(info: VestingInfo, r: Record, clock: nat, now: nat)
    requires Agrees(info, r, clock) && clock <= now
    requires ClaimAmount(info.schedules, info.last, now).Ok?
    ensures Agrees(info.(last := now),
                   r.(times := r.times + [now], paid := r.paid + ClaimAmount(info.schedules, info.last, now).value), now)
  {
    ClaimExtendsPayments(info.schedules, r.genesis, r.times, now);
    var times := r.times + [now];
    assert forall i | 0 <= i < |r.times| :: times[i] == r.times[i] && r.times[i] in r.times;
    assert forall t | t in times :: t in r.times || t == now;
  }

  lemma ClaimKeepsInv(t: Tracked, now: nat, address: Addr)
    requires Valid(t.st) && Inv(t) && t.clock <= now
    ensures Inv(Track(t, now, Claim(address)))
  {
    var t' := Track(t, now, Claim(address));
    forall a | a in t'.records ensures Agrees(t'.st.infos[a], t'.records[a], now) {
      assert Agrees(t.st.infos[a], t.records[a], t.clock);
      if a == address && Step(t.st, now, Claim(address)).Ok? {
        ClaimAgrees(t.st.infos[a], t.records[a], t.clock, now);
      }
    }
  }

  ghost predicate ClockRuns(from: nat, calls: seq<(nat, Op)>) {
    && (forall i | 0 <= i < |calls| :: from <= calls[i].0)
    && (forall i, j | 0 <= i < j < |calls| :: calls[i].0 <= calls[j].0)
  }

  lemma {:induction false} RunKeepsInv(t: Tracked, calls: seq<(nat, Op)>)
    requires Valid(t.st) && Inv(t) && ClockRuns(t.clock, calls)
    ensures Inv(Run(t, calls))
    ensures Run(t, calls).clock == if calls == [] then t.clock else calls[|calls| - 1].0
  {
    if calls != [] {
      var before := calls[..|calls| - 1];
      RunKeepsInv(t, before);
      var (now, op) := calls[|calls| - 1];
      match op {
        case Register(sender, accounts) => RegisterKeepsInv(Run(t, before), now, sender, accounts);
        case Claim(address) => ClaimKeepsInv(Run(t, before), now, address);
      }
    }
  }

  predicate Sound(schedules: seq<Schedule>, genesis: nat) {
    forall s | s in schedules :: s.Acceptable() && s.cliff <= s.end + 1 && GenesisFits(s, genesis)
  }

  lemma {:induction false} TotalsBounded(schedules: seq<Schedule>, genesis: nat, times: seq<nat>)
    requires AllAcceptable(schedules) && Ascending(times)
    ensures PaidTotal(schedules, genesis, times) <= AmountTotal(schedules)
    ensures Sound(schedules, genesis) && AllOver(schedules, LastOf(genesis, times)) ==>
              AmountTotal(schedules) - CountingTotal(schedules, genesis, times)
              <= PaidTotal(schedules, genesis, times)
  {
    if schedules != [] {
      var s := schedules[|schedules| - 1];
      assert s in schedules;
      TotalsBounded(schedules[..|schedules| - 1], genesis, times);
      PaidAtMostAmount(s, genesis, times);
      if Sound(schedules, genesis) && AllOver(schedules, LastOf(genesis, times)) {
        PaidInFull(s, genesis, times);
      }
    }
  }

  /** Every schedule has ended, cliff included, and none lasted more than 10^18 seconds. */
  predicate AllOver(schedules: seq<Schedule>, last: nat) {
    forall s | s in schedules :: s.end - s.start <= SCALE && s.end <= last && s.cliff <= last
  }

  /** On every run, no account is ever paid more than the schedules it was registered with add up to. If
      these lose no seconds, a claim past all their ends leaves at most one token for each counting claim.
      And once an account has claimed, or if the genesis time fits its schedules, its claims succeed. */
  lemma PaymentsBoundedOnRuns(owner: Addr, genesis: nat, start: nat, calls: seq<(nat, Op)>, a: Addr)
    requires ClockRuns(start, calls)
    requires a in Run(Fresh(owner, genesis, start), calls).records
    ensures a in Run(Fresh(owner, genesis, start), calls).st.infos
    ensures var t := Run(Fresh(owner, genesis, start), calls);
            var r := t.records[a];
            && AllAcceptable(r.schedules) && t.st.infos[a].schedules == r.schedules
            && r.paid <= AmountTotal(r.schedules)
            && (Sound(r.schedules, r.genesis) && AllOver(r.schedules, LastOf(r.genesis, r.times)) ==>
                  AmountTotal(r.schedules) - CountingTotal(r.schedules, r.genesis, r.times) <= r.paid)
            && (r.times != [] || (forall s | s in r.schedules :: GenesisFits(s, r.genesis)) ==>
                  forall now | now >= t.clock :: Step(t.st, now, Claim(a)).Ok?)
  {
    RunKeepsInv(Fresh(owner, genesis, start), calls);
    var t := Run(Fresh(owner, genesis, start), calls);
    var r := t.records[a];
    TotalsBounded(r.schedules, r.genesis, r.times);
    if r.times != [] || forall s | s in r.schedules :: GenesisFits(s, r.genesis) {
      forall now | now >= t.clock ensures Step(t.st, now, Claim(a)).Ok? {
        ClaimsDoNotAbort(r.schedules, r, now);
      }
    }
  }

  // ----- what a call leaves -----

  /** Only the owner registers, and only acceptable schedules; nothing is paid. */
  lemma RegistrationOutcome(st: Storage, now: nat, sender: Addr, accounts: seq<Account>)
    requires Valid(st)
    ensures Step(st, now, Register(sender, accounts)).Ok? <==>
              sender == st.owner && forall account | account in accounts :: AllAcceptable(account.schedules)
    ensures Step(st, now, Register(sender, accounts)).Ok? ==>
              var (next, paid) := Step(st, now, Register(sender, accounts)).value;
              && paid == 0 && next == st.(infos := next.infos)
              && next.infos.Keys == st.infos.Keys + Addresses(accounts)
              && (forall a | a in next.infos ::
                    next.infos[a] == if a in Addresses(accounts) then VestingInfo(st.genesis, LatestSchedules(accounts, a))
                                     else st.infos[a])
  {
    RegisteredResets(st.infos, st.genesis, accounts);
  }

  /** A claim is made for a registered account, pays what it adds to the payments of its schedules, moves its
      last claim time, and touches nothing else. */
  lemma ClaimOutcome(st: Storage, now: nat, address: Addr)
    requires Valid(st)
    ensures Step(st, now, Claim(address)).Ok? <==>
              address in st.infos && forall s | s in st.infos[address].schedules ::
                !(now < st.infos[address].last <= s.end && s.cliff <= now)
    ensures Step(st, now, Claim(address)).Ok? ==>
              var (next, paid), info := Step(st, now, Claim(address)).value, st.infos[address];
              && next == st.(infos := st.infos[address := VestingInfo(now, info.schedules)])
              && paid == PaidTotal(info.schedules, info.last, [now])
  {
    if address in st.infos {
      var info := st.infos[address];
      ClaimAbortsIff(info.schedules, info.last, now);
      if ClaimAmount(info.schedules, info.last, now).Ok? {
        NothingPaidYet(info.schedules, info.last);
        ClaimExtendsPayments(info.schedules, info.last, [], now);
        assert [] + [now] == [now];
      }
    }
  }

  lemma {:induction false} ClaimAbortsIff(schedules: seq<Schedule>, last: nat, now: nat)
    requires AllAcceptable(schedules)
    ensures ClaimAmount(schedules, last, now).Ok? <==>
              forall s | s in schedules :: !(now < last <= s.end && s.cliff <= now)
  {
    if schedules != [] {
      var s := schedules[|schedules| - 1];
      assert s in schedules && schedules == schedules[..|schedules| - 1] + [s];
      ClaimAbortsIff(schedules[..|schedules| - 1], last, now);
      UnderflowsIffTimeRunsBack(s, last, now);
    }
  }

  ghost function Fresh(owner: Addr, genesis: nat, start: nat): Tracked {
    Tracked(Storage(owner, genesis, map[]), start, map[])
  }

  /** A later claim never meets an unsigned subtraction below zero; a first one does not if the genesis
      time fits. */
  lemma {:induction false} ClaimsDoNotAbort(schedules: seq<Schedule>, r: Record, now: nat)
    requires AllAcceptable(schedules)
    requires r.times != [] || forall s | s in schedules :: GenesisFits(s, r.genesis)
    requires forall t | t in r.times :: t <= now
    ensures ClaimAmount(schedules, LastOf(r.genesis, r.times), now).Ok?
  {
    if schedules != [] {
      var s := schedules[|schedules| - 1];
      assert s in schedules;
      ClaimsDoNotAbort(schedules[..|schedules| - 1], r, now);
      assert r.times != [] ==> LastOf(r.genesis, r.times) in r.times;
      UnderflowsIffTimeRunsBack(s, LastOf(r.genesis, r.times), now);
    }
  }
}
