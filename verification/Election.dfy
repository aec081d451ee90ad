/** One participant's election: each operation is a sequence of critical sections
    on the election and on the lease manager, and leases may end in between. */
module Election {
  import opened LockSpec
  import Lease

  datatype Role = Follower | Candidate | Leader | Resigned

  /** What the operation in progress does next. */
  datatype Pc =
    | Idle
    | Revoking(lease: LeaseID)
    | RevokingFor(lease: LeaseID, newName: string)
    | Creating(newName: string)
    | Finishing(newName: string)
    | Failing
    | Renewing(lease: LeaseID, at: int)
    | Renewed(at: int)
    | SteppingDown

  /** `alive` are the leases in the lease manager and `mine` those among them that
      this election created. */
  datatype ElectionState = ElectionState(
    name: string, role: Role, term: nat, leaderName: string, leaderLease: LeaseID, lastHeartbeat: int,
    pc: Pc, mine: set<LeaseID>, alive: set<LeaseID>)

  function LeadershipLease(name: string): LeaseID {
    "election/leader/" + name
  }

  datatype Command = Campaign | Handoff(newTerm: nat, newName: string) | Resign | Heartbeat(at: int) | StepDown | Follow

  function ClearLeader(s: ElectionState): ElectionState {
    s.(leaderName := "", leaderLease := "")
  }

  function ThenRevoke(s: ElectionState, lease: LeaseID): ElectionState {
    s.(pc := if lease != "" then Revoking(lease) else Idle)
  }

  /** The first critical section of each operation. */
  function Begin(s: ElectionState, c: Command): ElectionState {
    match c
    case Campaign =>
      if s.role == Leader then s
      else s.(term := s.term + 1, role := Candidate, pc := Creating(s.name))
    case Handoff(newTerm, newName) =>
      ClearLeader(s).(term := newTerm, role := Candidate,
        pc := if s.leaderLease != "" then RevokingFor(s.leaderLease, newName) else Creating(newName))
    case Resign => ThenRevoke(ClearLeader(s).(role := Resigned), s.leaderLease)
    case Heartbeat(at) => if s.role == Leader then s.(pc := Renewing(s.leaderLease, at)) else s
    case StepDown => s.(pc := SteppingDown)
    case Follow => if s.role == Candidate || s.role == Resigned then s.(role := Follower) else s
  }

  function Drop(s: ElectionState, lease: LeaseID): ElectionState {
    s.(mine := s.mine - {lease}, alive := s.alive - {lease})
  }

  /** The next critical section; `timely` says whether a lease that is renewed has
      not reached its deadline, and `now` is the heartbeat clock. */
  function Advance(s: ElectionState, timely: bool, now: int): ElectionState {
    match s.pc
    case Idle => s
    case Revoking(lease) => Drop(s, lease).(pc := Idle)
    case RevokingFor(lease, newName) =>
      if lease in s.alive then Drop(s, lease).(pc := Creating(newName)) else s.(pc := Idle)
    case Creating(newName) =>
      var lease := LeadershipLease(newName);
      if lease in s.alive then s.(pc := Failing)
      else s.(mine := s.mine + {lease}, alive := s.alive + {lease}, pc := Finishing(newName))
    case Finishing(newName) =>
      s.(role := Leader, leaderName := newName, leaderLease := LeadershipLease(newName),
         lastHeartbeat := now, pc := Idle)
    case Failing => s.(role := Follower, pc := Idle)
    case Renewing(lease, at) =>
      if lease in s.alive && timely then s.(pc := Renewed(at)) else Drop(s, lease).(pc := SteppingDown)
    case Renewed(at) => s.(lastHeartbeat := at, pc := Idle)
    case SteppingDown =>
      ThenRevoke(ClearLeader(s).(role := if s.role == Leader then Resigned else s.role), s.leaderLease)
  }

  /** Operations follow one another; between any two critical sections leases may
      end or be created by others, and an expiry notice may arrive for any lease. */
  datatype Move =
    | Start(c: Command)
    | Next(timely: bool, now: int)
    | LeaseEnds(lease: LeaseID)
    | OthersCreate(lease: LeaseID)
    | OnLeaseExpired(lease: LeaseID)

  function Do(s: ElectionState, m: Move): ElectionState {
    match m
    case Start(c) => if s.pc == Idle then Begin(s, c) else s
    case Next(timely, now) => Advance(s, timely, now)
    case LeaseEnds(lease) => Drop(s, lease)
    case OthersCreate(lease) => s.(alive := s.alive + {lease})
    case OnLeaseExpired(lease) =>
      if s.leaderLease == lease then ClearLeader(s).(role := Resigned) else s
  }

  function DoAll(s: ElectionState, moves: seq<Move>): ElectionState {
    if moves == [] then s else Do(DoAll(s, moves[..|moves| - 1]), moves[|moves| - 1])
  }

  function New(name: string, alive: set<LeaseID>): ElectionState {
    ElectionState(name, Follower, 0, "", "", 0, Idle, {}, alive)
  }

  // ---------- at most one leadership lease ----------

  /** The one lease of its own the election may have alive at this point. */
  function Only(s: ElectionState): set<LeaseID> {
    match s.pc
    case Revoking(lease) => {lease}
    case RevokingFor(lease, newName) => {lease}
    case Creating(newName) => {}
    case Finishing(newName) => {LeadershipLease(newName)}
    case Failing => {}
    case _ => if s.leaderLease == "" then {} else {s.leaderLease}
  }

  predicate Busy(pc: Pc) {
    pc.Revoking? || pc.RevokingFor? || pc.Creating? || pc.Finishing? || pc.Failing?
  }

  predicate ElectionInv(s: ElectionState) {
    && s.mine <= Only(s) && s.mine <= s.alive && "" !in s.mine
    && (s.role == Leader <==> s.leaderLease != "")
    && (Busy(s.pc) ==> s.leaderLease == "")
    && (s.pc.Renewing? ==> s.leaderLease == "" || s.leaderLease == s.pc.lease)
  }

  /** A notice of expiry for the current leadership lease, while the lease this
      election created is alive after all: it speaks of an earlier one. */
  predicate LateNotice(s: ElectionState, m: Move) {
    m.OnLeaseExpired? && m.lease == s.leaderLease && m.lease in s.mine
  }

  predicate NoneLate(s: ElectionState, moves: seq<Move>) {
    moves != [] ==>
      && NoneLate(s, moves[..|moves| - 1])
      && !LateNotice(DoAll(s, moves[..|moves| - 1]), moves[|moves| - 1])
  }

  lemma DoKeeps(s: ElectionState, m: Move)
    requires ElectionInv(s) && !LateNotice(s, m)
    ensures ElectionInv(Do(s, m))
  {
    assert forall n :: LeadershipLease(n) != "";
  }

  lemma {:induction false} DoAllKeeps(s: ElectionState, moves: seq<Move>)
    requires ElectionInv(s) && NoneLate(s, moves)
    ensures ElectionInv(DoAll(s, moves))
  {
    if moves != [] {
      DoAllKeeps(s, moves[..|moves| - 1]);
      DoKeeps(DoAll(s, moves[..|moves| - 1]), moves[|moves| - 1]);
    }
  }

  /** Whatever notices arrive, a participant with no operation in progress is a
      leader exactly when it names a leadership lease. */
  lemma {:induction false} LeaderNamesALease(name: string, alive: set<LeaseID>, moves: seq<Move>)
    ensures var s := DoAll(New(name, alive), moves);
      && (s.role == Leader <==> s.leaderLease != "")
      && (Busy(s.pc) ==> s.leaderLease == "")
  {
    assert forall n :: LeadershipLease(n) != "";
    if moves != [] {
      LeaderNamesALease(name, alive, moves[..|moves| - 1]);
    }
  }

  lemma AtMostOne(small: set<LeaseID>, x: LeaseID)
    requires small <= {x}
    ensures |small| <= 1
  {
    if small != {} {
      assert small == {x};
    }
  }

  lemma OneAtMost(s: ElectionState)
    requires ElectionInv(s)
    ensures |s.mine| <= 1
  {
    if Only(s) == {} {
      assert s.mine == {};
    } else {
      var x :| x in Only(s);
      AtMostOne(s.mine, x);
    }
  }

  /** Between any two critical sections, whatever leases end meanwhile, at most one
      leadership lease this election created is alive, as long as no late notice
      arrives. Whenever no operation is in progress any alive lease it created is
      the one it names. */
  lemma OneLeadershipLease(name: string, alive: set<LeaseID>, moves: seq<Move>)
    requires NoneLate(New(name, alive), moves)
    ensures var s := DoAll(New(name, alive), moves);
      && |s.mine| <= 1
      && (s.pc == Idle ==> forall lease :: lease in s.mine ==> lease == s.leaderLease)
  {
    DoAllKeeps(New(name, alive), moves);
    OneAtMost(DoAll(New(name, alive), moves));
  }

  lemma {:induction false} DoSplit(s: ElectionState, first: seq<Move>, rest: seq<Move>)
    ensures DoAll(s, first + rest) == DoAll(DoAll(s, first), rest)
  {
    if rest == [] {
      assert first + rest == first;
    } else {
      assert (first + rest)[..|first + rest| - 1] == first + rest[..|rest| - 1];
      DoSplit(s, first, rest[..|rest| - 1]);
    }
  }

  lemma DoTwo(s: ElectionState, a: Move, b: Move)
    ensures DoAll(s, [a, b]) == Do(Do(s, a), b)
  {
    hide Do;
    assert [a, b][..1] == [a] && DoAll(s, [a]) == Do(s, a);
  }

  lemma DoThree(s: ElectionState, a: Move, b: Move, c: Move)
    ensures DoAll(s, [a, b, c]) == Do(Do(Do(s, a), b), c)
  {
    hide Do;
    DoTwo(s, a, b);
    assert [a, b, c][..2] == [a, b];
  }

  lemma DoFive(s: ElectionState, a: Move, b: Move, c: Move, d: Move, e: Move)
    ensures DoAll(s, [a, b, c, d, e]) == Do(Do(Do(Do(Do(s, a), b), c), d), e)
  {
    hide Do;
    DoSplit(s, [a, b, c], [d, e]);
    assert [a, b, c] + [d, e] == [a, b, c, d, e];
    DoThree(s, a, b, c);
    DoTwo(DoAll(s, [a, b, c]), d, e);
  }

  lemma {:induction false} NoNoticeNoneLate(s: ElectionState, moves: seq<Move>)
    requires forall m :: m in moves ==> !m.OnLeaseExpired?
    ensures NoneLate(s, moves)
  {
    if moves != [] {
      NoNoticeNoneLate(s, moves[..|moves| - 1]);
    }
  }

  /** Lets the operation in progress finish, then hands off to `newName`. */
  function HandoffAway(newName: string): seq<Move> {
    [Next(true, 0), Next(true, 0), LeaseEnds(LeadershipLease(newName)),
     Start(Command.Handoff(0, newName)), Next(true, 0)]
  }

  lemma HandoffAwaySteps(s: ElectionState, newName: string)
    ensures NoneLate(s, HandoffAway(newName))
    ensures DoAll(s, HandoffAway(newName)) ==
            Advance(Do(Drop(Advance(Advance(s, true, 0), true, 0), LeadershipLease(newName)),
                       Start(Command.Handoff(0, newName))), true, 0)
  {
    NoNoticeNoneLate(s, HandoffAway(newName));
    DoFive(s, Next(true, 0), Next(true, 0), LeaseEnds(LeadershipLease(newName)),
           Start(Command.Handoff(0, newName)), Next(true, 0));
  }

  /** After a late notice the operation in progress ends without touching the lease. */
  lemma LateNoticeSettles(s: ElectionState, m: Move)
    requires ElectionInv(s) && LateNotice(s, m)
    ensures var s' := Advance(Advance(Do(s, m), true, 0), true, 0);
      s'.pc == Idle && s'.leaderLease == "" && s'.mine == {m.lease}
  {
    assert s.mine == {m.lease} && !Busy(s.pc);
    assert Do(s, m).mine == s.mine && Do(s, m).alive == s.alive;
  }

  lemma HandoffAdds(s: ElectionState, lease: LeaseID, newName: string)
    requires s.pc == Idle && s.leaderLease == "" && s.mine == {lease} && LeadershipLease(newName) != lease
    ensures var other := LeadershipLease(newName);
      |Advance(Do(Drop(s, other), Start(Command.Handoff(0, newName))), true, 0).mine| == 2
  {
    var other := LeadershipLease(newName);
    var s1 := Do(Drop(s, other), Start(Command.Handoff(0, newName)));
    assert s1.pc == Creating(newName) && other !in s1.alive && s1.mine == {lease};
    assert Advance(s1, true, 0).mine == {lease, other};
  }

  lemma LateNoticeThenHandoff(s: ElectionState, m: Move, newName: string)
    requires ElectionInv(s) && LateNotice(s, m) && LeadershipLease(newName) != m.lease
    ensures |DoAll(Do(s, m), HandoffAway(newName)).mine| == 2
  {
    hide ElectionInv, Do, DoAll, Advance;
    HandoffAwaySteps(Do(s, m), newName);
    LateNoticeSettles(s, m);
    HandoffAdds(Advance(Advance(Do(s, m), true, 0), true, 0), m.lease, newName);
  }

  function CampaignMoves(now: int): seq<Move> {
    [Start(Command.Campaign), Next(true, now), Next(true, now)]
  }

  lemma CampaignWins(s: ElectionState, now: int)
    requires s.pc == Idle && s.role != Leader && LeadershipLease(s.name) !in s.alive
    ensures var lease := LeadershipLease(s.name);
      DoAll(s, CampaignMoves(now)) ==
      s.(term := s.term + 1, role := Leader, leaderName := s.name, leaderLease := lease, lastHeartbeat := now,
         mine := s.mine + {lease}, alive := s.alive + {lease})
  {
    DoThree(s, Start(Command.Campaign), Next(true, now), Next(true, now));
  }

  /** The leadership lease ends and the next heartbeat notices. */
  function HeartbeatFails(lease: LeaseID, now: int): seq<Move> {
    [LeaseEnds(lease), Start(Command.Heartbeat(now)), Next(true, now), Next(true, now), Next(true, now)]
  }

  lemma HeartbeatStepsDown(s: ElectionState, now: int)
    requires s.pc == Idle && s.role == Leader && s.leaderLease != ""
    ensures DoAll(s, HeartbeatFails(s.leaderLease, now)) == Drop(ClearLeader(s).(role := Resigned), s.leaderLease)
  {
    DoFive(s, LeaseEnds(s.leaderLease), Start(Command.Heartbeat(now)),
           Next(true, now), Next(true, now), Next(true, now));
  }

  /** A late notice does happen: a leader loses its lease, notices, wins again, and
      only then is told of the lease it lost. Handing off then makes a second one. */
  lemma TwoLeadershipLeases(name: string, other: string)
    requires name != other
    ensures var lease := LeadershipLease(name);
      var s := DoAll(New(name, {}), CampaignMoves(0) + HeartbeatFails(lease, 1) + CampaignMoves(2));
      && LateNotice(s, OnLeaseExpired(lease))
      && |DoAll(Do(s, OnLeaseExpired(lease)), HandoffAway(other)).mine| == 2
  {
    hide DoAll, CampaignMoves, HeartbeatFails, HandoffAway;
    var s0, lease := New(name, {}), LeadershipLease(name);
    DoSplit(s0, CampaignMoves(0) + HeartbeatFails(lease, 1), CampaignMoves(2));
    DoSplit(s0, CampaignMoves(0), HeartbeatFails(lease, 1));
    CampaignWins(s0, 0);
    var s1 := DoAll(s0, CampaignMoves(0));
    HeartbeatStepsDown(s1, 1);
    var s2 := DoAll(s1, HeartbeatFails(lease, 1));
    CampaignWins(s2, 2);
    assert LeadershipLease(other)[|LeadershipLease("")|..] == other && lease[|LeadershipLease("")|..] == name;
    LateNoticeThenHandoff(DoAll(s2, CampaignMoves(2)), OnLeaseExpired(lease), other);
  }

  /** The condition is exact: after a move, every course of events without a late
      notice keeps to one alive leadership lease if and only if the move itself is
      not a late notice. */
  lemma LateNoticesDecide(s: ElectionState, m: Move)
    requires ElectionInv(s)
    ensures (forall moves :: NoneLate(Do(s, m), moves) ==> |DoAll(Do(s, m), moves).mine| <= 1) <==> !LateNotice(s, m)
  {
    if LateNotice(s, m) {
      var newName := if LeadershipLease("a") == m.lease then "b" else "a";
      assert LeadershipLease("a")[|LeadershipLease("")|] == 'a' && LeadershipLease("b")[|LeadershipLease("")|] == 'b';
      LateNoticeThenHandoff(s, m, newName);
      HandoffAwaySteps(Do(s, m), newName);
    } else {
      DoKeeps(s, m);
      forall moves | NoneLate(Do(s, m), moves)
        ensures |DoAll(Do(s, m), moves).mine| <= 1
      {
        DoAllKeeps(Do(s, m), moves);
        OneAtMost(DoAll(Do(s, m), moves));
      }
    }
  }

  lemma BeginKeeps(s: ElectionState, c: Command)
    requires s.pc == Idle
    ensures ElectionInv(s) ==> ElectionInv(Begin(s, c))
  {
    hide ElectionInv, Begin;
    if ElectionInv(s) {
      DoKeeps(s, Start(c));
    }
  }

  lemma AdvanceKeeps(s: ElectionState, timely: bool, now: int)
    ensures ElectionInv(s) ==> ElectionInv(Advance(s, timely, now))
  {
    hide ElectionInv, Advance;
    if ElectionInv(s) {
      DoKeeps(s, Next(timely, now));
    }
  }

  lemma CreatingKeeps(s: ElectionState, newName: string)
    requires s.pc == Idle && s.leaderLease == ""
    ensures ElectionInv(s) ==> ElectionInv(s.(pc := Creating(newName)))
  {
  }

  /** One move lowers the term exactly when a handoff to a smaller term begins. */
  lemma TermStep(s: ElectionState, m: Move)
    ensures Do(s, m).term < s.term <==> HandsBack(s, m)
  {
  }

  predicate HandsBack(s: ElectionState, m: Move) {
    s.pc == Idle && m.Start? && m.c.Handoff? && m.c.newTerm < s.term
  }

  /** Every handoff of a run names a term at least the current one. */
  predicate HandoffsForward(s: ElectionState, moves: seq<Move>) {
    moves != [] ==>
      && HandoffsForward(s, moves[..|moves| - 1])
      && !HandsBack(DoAll(s, moves[..|moves| - 1]), moves[|moves| - 1])
  }

  predicate TermsRise(s: ElectionState, moves: seq<Move>) {
    forall i, j :: 0 <= i <= j <= |moves| ==> DoAll(s, moves[..i]).term <= DoAll(s, moves[..j]).term
  }

  lemma TermsRiseOne(s: ElectionState, most: seq<Move>, last: Move)
    ensures TermsRise(s, most + [last]) <==>
            TermsRise(s, most) && DoAll(s, most).term <= DoAll(s, most + [last]).term
  {
    hide DoAll;
    var moves := most + [last];
    assert forall i :: 0 <= i <= |most| ==> moves[..i] == most[..i];
    assert moves[..|moves|] == moves && most[..|most|] == most && moves[..|most|] == most;
    if TermsRise(s, most) && DoAll(s, most).term <= DoAll(s, moves).term {
      forall i, j | 0 <= i <= j <= |moves|
        ensures DoAll(s, moves[..i]).term <= DoAll(s, moves[..j]).term
      {
        assert i <= |most| ==> DoAll(s, most[..i]).term <= DoAll(s, most[..|most|]).term;
      }
    }
    if TermsRise(s, moves) {
      assert DoAll(s, moves[..|most|]).term <= DoAll(s, moves[..|moves|]).term;
    }
  }

  /** The term never falls over a run if and only if every handoff goes forward. */
  lemma {:induction false} TermMonotone(s: ElectionState, moves: seq<Move>)
    ensures TermsRise(s, moves) <==> HandoffsForward(s, moves)
  {
    hide Do, HandsBack, TermsRise;
    if moves == [] {
      NoMoves(s);
    } else {
      var most, last := moves[..|moves| - 1], moves[|moves| - 1];
      assert moves == most + [last];
      TermMonotone(s, most);
      TermStep(DoAll(s, most), last);
      TermsRiseOne(s, most, last);
    }
  }

  lemma NoMoves(s: ElectionState)
    ensures TermsRise(s, [])
  {
  }

  // ---------- what each operation leaves behind ----------

  /** What is left of the leases once one's own leadership lease is revoked. */
  function Rest(s: ElectionState): set<LeaseID> {
    if s.leaderLease == "" then s.alive else s.alive - {s.leaderLease}
  }

  /** A participant that leads does so under the name and in the term it was given,
      with a new leadership lease for that name. */
  ghost predicate Leads(s: ElectionState, term: nat, newName: string, now: int) {
    && s.pc == Idle && s.role == Leader && s.term == term && s.lastHeartbeat == now
    && s.leaderName == newName && s.leaderLease == "election/leader/" + newName
  }

  ghost predicate NamesNobody(s: ElectionState) {
    s.pc == Idle && s.role != Leader && s.leaderName == "" && s.leaderLease == ""
  }

  /** The end of a handoff when nothing else happens to the leases meanwhile. */
  function HandedOff(s: ElectionState, newTerm: nat, newName: string, now: int): ElectionState {
    var s0 := Begin(s, Command.Handoff(newTerm, newName));
    var s1 := if s0.pc.RevokingFor? then Advance(s0, true, now) else s0;
    Advance(Advance(s1, true, now), true, now)
  }

  /** A handoff succeeds exactly when the old leadership lease, if there was one, is
      still there to revoke and the new one is free after that. Then the participant
      leads as the new name in the new term and only the new lease has been added;
      otherwise it names nobody. Either way the old lease is gone. */
  lemma HandoffEnds(s: ElectionState, newTerm: nat, newName: string, now: int)
    requires s.pc == Idle
    ensures var e := HandedOff(s, newTerm, newName, now); var lease := "election/leader/" + newName;
      && e.term == newTerm && e.name == s.name
      && (e.role == Leader <==> (s.leaderLease == "" || s.leaderLease in s.alive) && lease !in Rest(s))
      && (e.role == Leader ==> Leads(e, newTerm, newName, now) && e.alive == Rest(s) + {lease})
      && (e.role != Leader ==>
            && NamesNobody(e) && e.alive == Rest(s)
            && e.role == if s.leaderLease == "" || s.leaderLease in s.alive then Follower else Candidate)
  {
  }

  lemma CreatingEnds(s: ElectionState, newName: string, now: int)
    requires s.pc == Idle
    ensures var lease := LeadershipLease(newName);
      Advance(Advance(s.(pc := Creating(newName)), true, now), true, now) ==
      if lease in s.alive then s.(role := Follower)
      else s.(role := Leader, leaderName := newName, leaderLease := lease, lastHeartbeat := now,
              mine := s.mine + {lease}, alive := s.alive + {lease})
  {
  }

  /** A campaign changes nothing for a leader. Anyone else enters a new term, and
      wins exactly when the leadership lease for its own name is free. */
  lemma CampaignEnds(s: ElectionState, now: int)
    requires s.pc == Idle
    ensures s.role == Leader ==> Begin(s, Command.Campaign) == s
    ensures s.role != Leader ==>
      var e := Advance(Advance(Begin(s, Command.Campaign), true, now), true, now);
      var lease := "election/leader/" + s.name;
      && e.term == s.term + 1 && (e.role == Leader <==> lease !in s.alive)
      && (e.role == Leader ==> Leads(e, s.term + 1, s.name, now) && e.alive == s.alive + {lease})
      && (e.role != Leader ==> e == s.(term := s.term + 1, role := Follower))
  {
  }

  /** Resigning and stepping down leave nobody named and the leadership lease gone;
      one who only steps down and did not lead keeps its role. */
  lemma LeadershipEnds(s: ElectionState, timely: bool, now: int)
    requires s.pc == Idle
    ensures var e := Advance(Begin(s, Command.Resign), timely, now);
      NamesNobody(e) && e.role == Resigned && e.term == s.term && e.alive == Rest(s)
    ensures var e := Advance(Advance(Begin(s, Command.StepDown), timely, now), timely, now);
      && NamesNobody(e) && e.term == s.term && e.alive == Rest(s)
      && e.role == if s.role == Leader then Resigned else s.role
  {
  }

  /** A leader's heartbeat renews its lease while that is alive and not overdue, and
      otherwise ends the leadership; anyone else's changes nothing. */
  lemma HeartbeatEnds(s: ElectionState, at: int, timely: bool, now: int)
    requires s.pc == Idle
    ensures s.role != Leader ==> Begin(s, Command.Heartbeat(at)) == s
    ensures s.role == Leader && timely && s.leaderLease in s.alive ==>
      Advance(Advance(Begin(s, Command.Heartbeat(at)), timely, now), true, now) == s.(lastHeartbeat := at)
    ensures s.role == Leader && s.leaderLease != "" && !(timely && s.leaderLease in s.alive) ==>
      var e := Advance(Advance(Advance(Begin(s, Command.Heartbeat(at)), timely, now), true, now), true, now);
      NamesNobody(e) && e.role == Resigned && e.term == s.term && e.alive == s.alive - {s.leaderLease}
  {
  }

  /** Until an operation that is to make `newName` leader has ended. */
  predicate IsFor(pc: Pc, newName: string) {
    pc == Failing || pc == Creating(newName) || pc == Finishing(newName)
    || (pc.RevokingFor? && pc.newName == newName)
  }

  lemma ForStep(s: ElectionState, m: Move, newName: string)
    requires IsFor(s.pc, newName) && s.role != Leader
    ensures var s' := Do(s, m);
      && s'.term == s.term && s'.name == s.name
      && (s'.pc != Idle ==> IsFor(s'.pc, newName) && s'.role != Leader)
      && (s'.pc == Idle && s'.role == Leader ==>
            s'.leaderName == newName && s'.leaderLease == "election/leader/" + newName)
  {
  }

  /** Whatever leases end or are created and whatever notices arrive while a handoff
      or a campaign is in progress: if the participant leads when it ends, it leads as
      the name and in the term that were asked for. */
  lemma {:induction false} LeadsAsAsked(s: ElectionState, c: Command, moves: seq<Move>)
    requires s.pc == Idle && (c.Handoff? || (c == Command.Campaign && s.role != Leader))
    requires forall i :: 0 <= i < |moves| ==> DoAll(Begin(s, c), moves[..i]).pc != Idle
    ensures var e := DoAll(Begin(s, c), moves);
      var newName := if c.Handoff? then c.newName else s.name;
      && e.term == (if c.Handoff? then c.newTerm else s.term + 1)
      && (e.pc != Idle ==> IsFor(e.pc, newName) && e.role != Leader)
      && (e.pc == Idle && e.role == Leader ==>
            e.leaderName == newName && e.leaderLease == "election/leader/" + newName)
  {
    if moves != [] {
      var last := |moves| - 1;
      assert forall i :: 0 <= i < last ==> moves[..last][..i] == moves[..i];
      LeadsAsAsked(s, c, moves[..last]);
      ForStep(DoAll(Begin(s, c), moves[..last]), moves[last], if c.Handoff? then c.newName else s.name);
    }
  }

  // ---------- the participant ----------

  class Participant {
    const name: string
    const leases: Lease.Manager
    const leaseTtl: int
    var role: Role
    var term: nat
    var leaderName: string
    var leaderLease: LeaseID
    var lastHeartbeat: int
    // The creations this election has made, by their number.
    ghost var made: set<nat>

    ghost function Mine(): set<LeaseID>
      reads this, leases
    {
      set id | id in leases.leases && id in leases.born && leases.born[id] in made
    }

    /** Between operations, with `mine` the alive leases this election created. */
    ghost function State(): ElectionState
      reads this, leases
    {
      ElectionState(name, role, term, leaderName, leaderLease, lastHeartbeat, Idle,
                    Mine(), leases.leases.Keys)
    }

    ghost predicate Valid()
      reads this, leases
    {
      && leases.Valid() && (role == Leader <==> leaderLease != "")
      && forall b :: b in made ==> b <= leases.births
    }

    /** Leads as `newName`, with a leadership lease created for it at time `now`. */
    ghost predicate LeadsAs(newName: string, now: int, hbNow: int)
      reads this, leases
    {
      && role == Leader && leaderName == newName && leaderLease == "election/leader/" + newName
      && lastHeartbeat == hbNow && leaderLease in leases.leases
      && leases.leases[leaderLease].expiresAt == now + leaseTtl && leases.leases[leaderLease].holder == newName
    }

    constructor (name: string, leases: Lease.Manager, leaseTtl: int)
      requires leases.Valid()
      ensures Valid() && this.leases == leases && this.name == name
      ensures State() == New(name, leases.leases.Keys)
      ensures role == Follower && term == 0 && leaderName == "" && leaderLease == "" && Mine() == {}
    {
      this.name, this.leases, this.leaseTtl := name, leases, leaseTtl;
      role, term, leaderName, leaderLease, lastHeartbeat, made := Follower, 0, "", "", 0, {};
    }

    /** Takes the leadership lease and leads; with the lease taken it follows. */
    method Campaign(now: int, hbNow: int) returns (ok: bool)
      requires Valid()
      modifies this, leases
      ensures Valid()
      ensures old(role) == Leader ==> ok && State() == old(State())
      ensures old(role) != Leader ==>
        State() == Advance(Advance(Begin(old(State()), Command.Campaign), true, hbNow), true, hbNow)
        && (ok <==> LeadershipLease(name) !in old(leases.leases))
      ensures old(role) != Leader ==> term == old(term) + 1
      ensures old(role) != Leader ==> if ok then LeadsAs(name, now, hbNow) else role == Follower
      ensures old(ElectionInv(State())) ==> ElectionInv(State())
    {
      hide ElectionInv, LeadsAs;
      BeginKeeps(State(), Command.Campaign);
      ghost var s0 := Begin(State(), Command.Campaign);
      AdvanceKeeps(s0, true, hbNow);
      AdvanceKeeps(Advance(s0, true, hbNow), true, hbNow);
      if role == Leader {
        return true;
      }
      term := term + 1;
      role := Candidate;
      ok := TakeLease(name, now, hbNow);
    }

    /** Creates the leadership lease for a name; leads if that works, else follows. */
    method TakeLease(newName: string, now: int, hbNow: int) returns (ok: bool)
      requires Valid() && role == Candidate
      modifies this, leases
      ensures Valid()
      ensures State() == Advance(Advance(old(State()).(pc := Creating(newName)), true, hbNow), true, hbNow)
      ensures ok <==> role == Leader
      ensures ok <==> LeadershipLease(newName) !in old(leases.leases)
      ensures term == old(term)
      ensures if ok then LeadsAs(newName, now, hbNow) else role == Follower
      ensures old(ElectionInv(State())) ==> ElectionInv(State())
    {
      hide ElectionInv, Advance;
      ghost var s0 := State().(pc := Creating(newName));
      CreatingKeeps(State(), newName);
      CreatingEnds(State(), newName, hbNow);
      AdvanceKeeps(s0, true, hbNow);
      AdvanceKeeps(Advance(s0, true, hbNow), true, hbNow);
      ok := leases.Create(LeadershipLease(newName), leaseTtl, newName, now);
      if !ok {
        role := Follower;
        return;
      }
      made := made + {leases.births};
      assert Mine() == s0.mine + {LeadershipLease(newName)};
      role, leaderName, leaderLease, lastHeartbeat := Leader, newName, LeadershipLease(newName), hbNow;
    }

    /** Revokes the old leadership lease first, then creates the new one. */
    method Handoff(newTerm: nat, newName: string, now: int, hbNow: int) returns (ok: bool)
      requires Valid()
      modifies this, leases
      ensures Valid()
      ensures State() == HandedOff(old(State()), newTerm, newName, hbNow) && (ok <==> role == Leader)
      ensures term == newTerm
      ensures var rest := Rest(old(State()));
        && (ok <==>
              && (old(leaderLease) == "" || old(leaderLease) in old(leases.leases))
              && "election/leader/" + newName !in rest)
        && leases.leases.Keys == (if ok then rest + {"election/leader/" + newName} else rest)
      ensures if ok then LeadsAs(newName, now, hbNow) else leaderName == "" && leaderLease == ""
      ensures old(ElectionInv(State())) ==> ElectionInv(State())
    {
      hide ElectionInv, LeadsAs;
      HandoffEnds(State(), newTerm, newName, hbNow);
      ghost var s0 := Begin(State(), Command.Handoff(newTerm, newName));
      ghost var s1 := if s0.pc.RevokingFor? then Advance(s0, true, hbNow) else s0;
      BeginKeeps(State(), Command.Handoff(newTerm, newName));
      AdvanceKeeps(s0, true, hbNow);
      AdvanceKeeps(s1, true, hbNow);
      AdvanceKeeps(Advance(s1, true, hbNow), true, hbNow);
      var oldLease := leaderLease;
      term, role, leaderName, leaderLease := newTerm, Candidate, "", "";
      if oldLease != "" {
        var revoked := leases.Revoke(oldLease);
        if !revoked {
          return false;
        }
        assert State().mine == Drop(s0, oldLease).mine;
      }
      ok := TakeLease(newName, now, hbNow);
    }

    /** Steps down and revokes the leadership lease. */
    method Resign()
      requires Valid()
      modifies this, leases
      ensures Valid()
      ensures State() == Advance(Begin(old(State()), Command.Resign), true, 0)
      ensures role == Resigned && leaderName == "" && leaderLease == "" && term == old(term)
      ensures leases.leases.Keys == Rest(old(State()))
      ensures old(ElectionInv(State())) ==> ElectionInv(State())
    {
      hide ElectionInv;
      LeadershipEnds(State(), true, 0);
      BeginKeeps(State(), Command.Resign);
      AdvanceKeeps(Begin(State(), Command.Resign), true, 0);
      var lease := leaderLease;
      role, leaderName, leaderLease := Resigned, "", "";
      if lease != "" {
        var _ := leases.Revoke(lease);
      }
    }

    /** Renews the leadership lease on the heartbeat clock; a failed renewal ends
        the leadership. */
    method Heartbeat(hbNow: int) returns (ok: bool)
      requires Valid()
      modifies this, leases
      ensures Valid()
      ensures old(role) != Leader ==> ok && State() == old(State())
      ensures old(role) == Leader ==>
        var timely := old(leaderLease) in old(leases.leases) && old(leases.leases)[old(leaderLease)].expiresAt > hbNow;
        var s1 := Advance(Begin(old(State()), Command.Heartbeat(hbNow)), timely, hbNow);
        State() == (if timely then Advance(s1, true, hbNow) else Advance(Advance(s1, true, hbNow), true, hbNow))
        && (ok <==> timely)
      ensures old(role) == Leader && ok ==>
        && State() == old(State()).(lastHeartbeat := hbNow) && leaderLease in leases.leases
        && leases.leases[leaderLease].expiresAt == hbNow + old(leases.leases)[leaderLease].ttl
      ensures old(role) == Leader && !ok ==>
        && role == Resigned && leaderName == "" && leaderLease == "" && term == old(term)
        && leases.leases.Keys == old(leases.leases).Keys - {old(leaderLease)}
      ensures old(ElectionInv(State())) ==> ElectionInv(State())
    {
      hide ElectionInv;
      if role != Leader {
        return true;
      }
      ghost var s0 := Begin(State(), Command.Heartbeat(hbNow));
      BeginKeeps(State(), Command.Heartbeat(hbNow));
      ghost var timely := leaderLease in leases.leases && leases.leases[leaderLease].expiresAt > hbNow;
      ghost var s1 := Advance(s0, timely, hbNow);
      AdvanceKeeps(s0, timely, hbNow);
      AdvanceKeeps(s1, true, hbNow);
      AdvanceKeeps(Advance(s1, true, hbNow), true, hbNow);
      ok := leases.Renew(leaderLease, hbNow);
      if !ok {
        EndLeadership();
        return;
      }
      lastHeartbeat := hbNow;
    }

    method EndLeadership()
      requires Valid()
      modifies this, leases
      ensures Valid()
      ensures State() == Advance(Advance(Begin(old(State()), Command.StepDown), true, 0), true, 0)
      ensures role == (if old(role) == Leader then Resigned else old(role))
      ensures leaderName == "" && leaderLease == "" && term == old(term)
      ensures leases.leases.Keys == Rest(old(State()))
      ensures old(ElectionInv(State())) ==> ElectionInv(State())
    {
      hide ElectionInv;
      LeadershipEnds(State(), true, 0);
      ghost var s0 := Begin(State(), Command.StepDown);
      BeginKeeps(State(), Command.StepDown);
      AdvanceKeeps(s0, true, 0);
      AdvanceKeeps(Advance(s0, true, 0), true, 0);
      var lease := leaderLease;
      if role == Leader {
        role := Resigned;
      }
      leaderName, leaderLease := "", "";
      if lease != "" {
        var _ := leases.Revoke(lease);
      }
    }

    /** Steps aside when told that the leadership lease has ended. */
    method OnLeaseExpired(lease: LeaseID)
      requires Valid()
      modifies this
      ensures Valid()
      ensures State() == Do(old(State()), Move.OnLeaseExpired(lease))
      ensures if old(leaderLease) == lease
              then role == Resigned && leaderName == "" && leaderLease == "" && term == old(term)
              else State() == old(State())
      ensures old(ElectionInv(State())) && !LateNotice(old(State()), Move.OnLeaseExpired(lease)) ==>
        ElectionInv(State())
    {
      if leaderLease == lease {
        role, leaderName, leaderLease := Resigned, "", "";
      }
    }

    /** Anyone but a leader becomes a follower. */
    method Follow()
      requires Valid()
      modifies this
      ensures Valid()
      ensures State() == Begin(old(State()), Command.Follow)
      ensures State() == old(State()).(role := if old(role) == Leader then Leader else Follower)
      ensures old(ElectionInv(State())) ==> ElectionInv(State())
    {
      if role != Leader {
        role := Follower;
      }
    }
  }
}
