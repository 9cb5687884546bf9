/** When the source table tells the timer that an active member has left, and what the timer makes of it. */
module TimerCalls {
  import opened Bytes
  import opened SourceStats
  import D = SourceData
  import F = RtcpFormat
  import opened SourceTable
  import T = SourceTableRuns
  import H = SourceTableHistory
  import opened CompoundActions
  import S = Scheduler

  // ---------------------------------------------------------------- goodbyes

  /** A goodbye that is taken up is told, with the active members that are left. */
  function AfterAction(sched: S.State, before: Table, a: Action, after: Table, clock: int): S.State {
    if a.1.Bye? && |after.log| > |before.log| && after.log[|after.log| - 1].ByeHeard?
    then S.MembersLeft(sched, after.active, clock) else sched
  }

  /** The timer after the actions, up to the first that is an error. */
  function TimerAfter(t: Table, sched: S.State, actions: seq<Action>, now: RtpTime, clock: int, from: Option<D.Address>): S.State {
    if actions == [] then sched
    else
      var front, last := actions[..|actions| - 1], actions[|actions| - 1];
      var (u, status) := Perform(t, front, now, from);
      var before := TimerAfter(t, sched, front, now, clock, from);
      if status != Done then before else AfterAction(before, u, last, RtcpIn(u, last.0, last.1, now, from).0, clock)
  }

  /** A compound packet from elsewhere counts for the average size, and then come its goodbyes. */
  function TimerHears(t: Table, sched: S.State, ps: seq<Part>, size: nat, now: RtpTime, clock: int, from: Option<D.Address>): S.State {
    TimerAfter(t, if from.Some? then S.Incoming(sched, IsGoodbye(ps), size) else sched, AllActions(ps, t.own), now, clock, from)
  }

  lemma {:induction false} TimerConcat(t: Table, sched: S.State, a: seq<Action>, b: seq<Action>, now: RtpTime, clock: int, from: Option<D.Address>)
    ensures var (u, status) := Perform(t, a, now, from);
            var mid := TimerAfter(t, sched, a, now, clock, from);
            TimerAfter(t, sched, a + b, now, clock, from) == if status != Done then mid else TimerAfter(u, mid, b, now, clock, from)
    decreases |b|
  {
    hide RtcpIn, Perform, AfterAction;
    if b == [] {
      assert a + b == a;
    } else {
      var front := b[..|b| - 1];
      TimerConcat(t, sched, a, front, now, clock, from);
      PerformConcat(t, a, front, now, from);
      assert (a + b)[..|a + b| - 1] == a + front;
    }
  }

  /** Only goodbyes are told. */
  lemma {:induction false} NoByesNoCalls(t: Table, sched: S.State, actions: seq<Action>, now: RtpTime, clock: int, from: Option<D.Address>)
    requires forall i :: 0 <= i < |actions| ==> !actions[i].1.Bye?
    ensures TimerAfter(t, sched, actions, now, clock, from) == sched
  {
    hide RtcpIn, Perform;
    if actions != [] {
      NoByesNoCalls(t, sched, actions[..|actions| - 1], now, clock, from);
    }
  }

  lemma {:induction false} ItemsHaveNoByes(ssrc: u32, items: seq<F.Item>)
    ensures forall i :: 0 <= i < |ItemActions(ssrc, items)| ==> !ItemActions(ssrc, items)[i].1.Bye?
  {
    if items != [] {
      ItemsHaveNoByes(ssrc, items[..|items| - 1]);
    }
  }

  lemma {:induction false} ChunksHaveNoByes(chunks: seq<F.Chunk>)
    ensures forall i :: 0 <= i < |ChunksActions(chunks)| ==> !ChunksActions(chunks)[i].1.Bye?
  {
    if chunks != [] {
      ChunksHaveNoByes(chunks[..|chunks| - 1]);
      ItemsHaveNoByes(chunks[|chunks| - 1].ssrc, chunks[|chunks| - 1].items);
    }
  }

  lemma {:induction false} PacketHasNoByes(p: F.Packet, own: Option<u32>)
    requires !p.BYE?
    ensures forall i :: 0 <= i < |Actions(p, own)| ==> !Actions(p, own)[i].1.Bye?
  {
    if p.SDES? {
      ChunksHaveNoByes(p.chunks);
    }
  }

  lemma {:induction false} OneByeTold(t: Table, sched: S.State, ssrcs: seq<u32>, reason: bytes, i: nat, now: RtpTime, clock: int, from: Option<D.Address>)
    requires i < |ssrcs| && Perform(t, ByeActions(ssrcs[..i], reason), now, from).1 == Done
    ensures var u, mid := Perform(t, ByeActions(ssrcs[..i], reason), now, from).0, TimerAfter(t, sched, ByeActions(ssrcs[..i], reason), now, clock, from);
            TimerAfter(t, sched, ByeActions(ssrcs[..i + 1], reason), now, clock, from)
            == AfterAction(mid, u, (ssrcs[i], Report.Bye(reason)), RtcpIn(u, ssrcs[i], Report.Bye(reason), now, from).0, clock)
  {
    hide RtcpIn, Perform, AfterAction;
    assert ssrcs[..i + 1][..i] == ssrcs[..i];
    var actions, last := ByeActions(ssrcs[..i], reason), (ssrcs[i], Report.Bye(reason));
    assert ByeActions(ssrcs[..i + 1], reason) == actions + [last];
    assert (actions + [last])[..|actions|] == actions;
  }

  lemma {:induction false} OnePacketTold(t: Table, sched: S.State, ps: seq<Part>, own: Option<u32>, i: nat, now: RtpTime, clock: int, from: Option<D.Address>)
    requires i < |ps| && Perform(t, AllActions(ps[..i], own), now, from).1 == Done
    ensures var u, mid := Perform(t, AllActions(ps[..i], own), now, from).0, TimerAfter(t, sched, AllActions(ps[..i], own), now, clock, from);
            TimerAfter(t, sched, AllActions(ps[..i + 1], own), now, clock, from) == TimerAfter(u, mid, PartActions(ps[i], own), now, clock, from)
  {
    hide RtcpIn, Perform, PartActions, TimerAfter;
    assert ps[..i + 1][..i] == ps[..i];
    TimerConcat(t, sched, AllActions(ps[..i], own), PartActions(ps[i], own), now, clock, from);
  }

  /** After an error the timer is told nothing more. */
  lemma {:induction false} PacketsCutShort(t: Table, sched: S.State, ps: seq<Part>, own: Option<u32>, i: nat, now: RtpTime, clock: int, from: Option<D.Address>)
    requires i <= |ps| && Perform(t, AllActions(ps[..i], own), now, from).1 != Done
    ensures TimerAfter(t, sched, AllActions(ps, own), now, clock, from) == TimerAfter(t, sched, AllActions(ps[..i], own), now, clock, from)
    decreases |ps| - i
  {
    hide RtcpIn, Perform, PartActions, TimerAfter;
    if i < |ps| {
      assert ps[..i + 1][..i] == ps[..i];
      TimerConcat(t, sched, AllActions(ps[..i], own), PartActions(ps[i], own), now, clock, from);
      OnePacketMore(t, ps, own, i, now, from);
      PacketsCutShort(t, sched, ps, own, i + 1, now, clock, from);
    } else {
      assert ps[..i] == ps;
    }
  }

  // ---------------------------------------------------------------- timeouts

  /** The active members that are left at each timeout of a pass, and at its end. */
  function Leavings(ss: seq<D.Source>, pass: D.Source -> Fate, active: int): (seq<int>, int) {
    if ss == [] then ([], active)
    else
      var (counts, a) := Leavings(ss[..|ss| - 1], pass, active);
      var last := ss[|ss| - 1];
      match pass(last)
      case Keep(_, _) => (counts, a)
      case Drop(said) =>
        var b := a - One(last.Active());
        (if said != [] && said[0].TimedOut? then counts + [b] else counts, b)
  }

  function LeaveAll(sched: S.State, counts: seq<int>, clock: int): S.State {
    if counts == [] then sched else S.MembersLeft(LeaveAll(sched, counts[..|counts| - 1], clock), counts[|counts| - 1], clock)
  }

  /** The timer after a timeout pass over the table. */
  function TimerSwept(t: Table, sched: S.State, pass: D.Source -> Fate, clock: int): S.State {
    LeaveAll(sched, Leavings(t.sources, pass, t.active).0, clock)
  }

  lemma {:induction false} LeavingsStep(ss: seq<D.Source>, n: nat, pass: D.Source -> Fate, active: int, sched: S.State, clock: int)
    requires n < |ss|
    ensures var (counts, a) := Leavings(ss[..n], pass, active);
            var (more, b) := Leavings(ss[..n + 1], pass, active);
            match pass(ss[n])
            case Keep(_, _) => more == counts && b == a
            case Drop(said) =>
              && b == a - One(ss[n].Active())
              && LeaveAll(sched, more, clock)
                 == if said != [] && said[0].TimedOut? then S.MembersLeft(LeaveAll(sched, counts, clock), b, clock) else LeaveAll(sched, counts, clock)
  {
    assert ss[..n + 1][..n] == ss[..n];
    var (counts, a) := Leavings(ss[..n], pass, active);
    var b := a - One(ss[n].Active());
    assert (counts + [b])[..|counts|] == counts;
  }

  /** A pass that does not change whether an entry is active, but for dropping it. */
  ghost predicate KeepsActive(pass: D.Source -> Fate) {
    forall s {:trigger pass(s)} :: pass(s).Keep? ==> pass(s).source.Active() == s.Active()
  }

  lemma {:induction false} LeavingsExact(ss: seq<D.Source>, pass: D.Source -> Fate, active: int)
    requires KeepsActive(pass)
    ensures Leavings(ss, pass, active).1 == active - (ActiveCount(ss) - ActiveCount(Kept(ss, pass)))
  {
    if ss != [] {
      var front, last := ss[..|ss| - 1], ss[|ss| - 1];
      LeavingsExact(front, pass, active);
      assert ss == front + [last];
      T.CountsAppend(front, last);
      if pass(last).Keep? {
        T.CountsAppend(Kept(front, pass), pass(last).source);
      } else {
        assert Kept(front, pass) + [] == Kept(front, pass);
      }
    }
  }

  /**
   During the fused pass the timer is told counts that come down to the new active count, less what the old
   one had missed.
   */
  lemma {:induction false} FusedLeavings(t: Table, now: RtpTime, sender: RtpTime, bye: RtpTime, general: RtpTime, note: RtpTime)
    ensures var pass := FusedPass(t.own, TimeMinus(now, sender), TimeMinus(now, bye), TimeMinus(now, general), TimeMinus(now, note));
            Leavings(t.sources, pass, t.active).1 == MultipleTimeouts(t, now, sender, bye, general, note).active - H.Gap(t)
  {
    hide D.Source.Item, NoteOld;
    var pass := FusedPass(t.own, TimeMinus(now, sender), TimeMinus(now, bye), TimeMinus(now, general), TimeMinus(now, note));
    assert KeepsActive(pass);
    LeavingsExact(t.sources, pass, t.active);
  }
}
