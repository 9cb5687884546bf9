/** Source tables by the roles of their entries, and what single packets from one address do to the roles. */
module MissedScene {
  import opened Bytes
  import opened RtpPacket
  import opened SourceStats
  import opened SourceData
  import opened SourceTable
  import opened SourceTableRuns

  /** A silent entry is known only from control packets; one that is gone has said goodbye. */
  datatype Role = Own | Silent | Live | Gone

  type Roles = seq<(u32, Role)>

  predicate Fits(s: Source, a: Address) {
    (s.rtp == Unset || s.rtp == Known(Some(a))) && (s.rtcp == Unset || s.rtcp == Known(Some(a)))
  }

  predicate Plays(s: Source, own: Option<u32>, part: (u32, Role), a: Address) {
    && s.ssrc == part.0 && (part.1 == Own <==> own == Some(s.ssrc))
    && match part.1
       case Own => true
       case Silent => !s.validated && !s.receivedBye && Fits(s, a)
       case Live => s.validated && !s.receivedBye && Fits(s, a)
       case Gone => s.receivedBye && Fits(s, a)
  }

  predicate Scene(t: Table, roles: Roles, a: Address) {
    && Sound(t) && t.own.Some? && t.probationType == NoProbation && |t.sources| == |roles|
    && forall i :: 0 <= i < |roles| ==> Plays(t.sources[i], t.own, roles[i], a)
  }

  function OnStage(roles: Roles): nat {
    if roles == [] then 0 else (if roles[0].1 == Own || roles[0].1 == Live then 1 else 0) + OnStage(roles[1..])
  }

  lemma {:induction false} SceneActive(ss: seq<Source>, own: Option<u32>, roles: Roles, a: Address)
    requires |ss| == |roles| && forall i :: 0 <= i < |ss| ==> EntryOk(own, ss[i]) && Plays(ss[i], own, roles[i], a)
    ensures ActiveCount(ss) == OnStage(roles)
  {
    hide QueueOk, AddressesFit;
    if ss != [] {
      SceneActive(ss[1..], own, roles[1..], a);
    }
  }

  /** A packet about an entry that fits its address finds the entry, and does not collide with it. */
  lemma {:induction false} Cast(t: Table, roles: Roles, k: nat, a: Address)
    requires Scene(t, roles, a) && k < |roles| && roles[k].1 != Own
    ensures Find(t.sources, roles[k].0) == k && !Collides(t.sources[k], Some(a), true) && !Collides(t.sources[k], Some(a), false)
    ensures Fits(t.sources[k], a) && !IsOwn(t, t.sources[k]) && !t.sources[k].own
    ensures forall isRtp :: Fits(Bound(t.sources[k], Some(a), isRtp), a)
  {
    hide QueueOk;
    EntryAt(t, k);
    Present(t.sources, k, roles[k].0);
  }

  /** One entry changes its part. */
  lemma {:induction false} Recast(t: Table, u: Table, roles: Roles, k: nat, role: Role, a: Address)
    requires Scene(t, roles, a) && k < |roles| && roles[k].1 != Own && role != Own && Sound(u)
    requires |u.sources| == |t.sources| && u.own == t.own && u.probationType == t.probationType
    requires forall i :: 0 <= i < |t.sources| && i != k ==> u.sources[i] == t.sources[i]
    requires Plays(u.sources[k], u.own, (roles[k].0, role), a)
    ensures Scene(u, roles[k := (roles[k].0, role)], a)
  {
    hide Sound;
  }

  lemma {:induction false} Enters(t: Table, u: Table, roles: Roles, ssrc: u32, role: Role, a: Address)
    requires Scene(t, roles, a) && role != Own && Sound(u)
    requires |u.sources| == |t.sources| + 1 && u.own == t.own && u.probationType == t.probationType
    requires forall i :: 0 <= i < |t.sources| ==> u.sources[i] == t.sources[i]
    requires Plays(u.sources[|t.sources|], u.own, (ssrc, role), a)
    ensures Scene(u, roles + [(ssrc, role)], a)
  {
    hide Sound;
  }

  lemma {:induction false} NotIn(t: Table, roles: Roles, ssrc: u32, a: Address)
    requires Scene(t, roles, a) && forall i :: 0 <= i < |roles| ==> roles[i].0 != ssrc
    ensures !Has(t, ssrc) && Find(t.sources, ssrc) == |t.sources| && t.own != Some(ssrc)
  {
    hide QueueOk, EntryOk;
    forall k | 0 <= k < |t.sources|
      ensures t.sources[k].ssrc != ssrc
    {
      assert Plays(t.sources[k], t.own, roles[k], a);
    }
    OwnHas(t);
  }

  /** A control packet from a source that is not known yet. */
  lemma {:induction false} AliveNew(t: Table, roles: Roles, ssrc: u32, a: Address)
    requires Scene(t, roles, a) && forall i :: 0 <= i < |roles| ==> roles[i].0 != ssrc
    ensures var (v, status) := RtcpIn(t, ssrc, Alive, 0, Some(a));
            && status == Done && Scene(v, roles + [(ssrc, Silent)], a) && v.active == t.active && v.log == t.log + [IsNew(ssrc)]
  {
    hide Sound;
    NotIn(t, roles, ssrc, a);
    RtcpSound(t, ssrc, Alive, 0, Some(a));
    Enters(t, RtcpIn(t, ssrc, Alive, 0, Some(a)).0, roles, ssrc, Silent, a);
  }

  lemma {:induction false} AliveKnown(t: Table, roles: Roles, k: nat, a: Address)
    requires Scene(t, roles, a) && k < |roles| && roles[k].1 != Own
    ensures var (v, status) := RtcpIn(t, roles[k].0, Alive, 0, Some(a));
            && status == Done && Scene(v, roles, a) && v.active == t.active && v.log == t.log
  {
    hide Sound, Collides;
    Cast(t, roles, k, a);
    RtcpSound(t, roles[k].0, Alive, 0, Some(a));
    assert t.log + [] == t.log;
    Recast(t, RtcpIn(t, roles[k].0, Alive, 0, Some(a)).0, roles, k, roles[k].1, a);
    assert roles[k := (roles[k].0, roles[k].1)] == roles;
  }

  /** A goodbye of an active entry. */
  lemma {:induction false} ByeLive(t: Table, roles: Roles, k: nat, a: Address)
    requires Scene(t, roles, a) && k < |roles| && roles[k].1 == Live
    ensures var (v, status) := RtcpIn(t, roles[k].0, Bye([]), 0, Some(a));
            && status == Done && Scene(v, roles[k := (roles[k].0, Gone)], a) && v.active == t.active - 1
            && v.log == t.log + [ByeHeard(roles[k].0)]
  {
    hide Sound, Collides;
    Cast(t, roles, k, a);
    RtcpSound(t, roles[k].0, Bye([]), 0, Some(a));
    Recast(t, RtcpIn(t, roles[k].0, Bye([]), 0, Some(a)).0, roles, k, Gone, a);
  }

  /** A silent entry is named as a contributing source, and becomes active without being counted. */
  lemma {:induction false} MarkSilent(t: Table, roles: Roles, k: nat, a: Address)
    requires Scene(t, roles, a) && k < |roles| && roles[k].1 == Silent
    ensures var v := MarkCsrc(t, roles[k].0, Some(a));
            Scene(v, roles[k := (roles[k].0, Live)], a) && v.active == t.active && v.log == t.log
  {
    hide Sound, Collides;
    Cast(t, roles, k, a);
    CsrcSound(t, roles[k].0, Some(a));
    Recast(t, MarkCsrc(t, roles[k].0, Some(a)), roles, k, Live, a);
  }

  /** The first data packet of a source, without probation. */
  lemma {:induction false} PacketNew(t: Table, roles: Roles, p: Packet, a: Address)
    requires Scene(t, roles, a) && forall i :: 0 <= i < |roles| ==> roles[i].0 != p.ssrc
    ensures var (u, stored, csrcs) := PacketOnly(t, p, 0, 0.0, Some(a));
            && csrcs && Scene(u, roles + [(p.ssrc, Live)], a) && u.active == t.active + 1 && u.log == t.log + [IsNew(p.ssrc)]
  {
    hide Sound;
    NotIn(t, roles, p.ssrc, a);
    var s := Bound(NewSource(p.ssrc, NoProbation), Some(a), true);
    FirstReceived(s, p);
    var u := PacketOnly(t, p, 0, 0.0, Some(a)).0;
    NewPacketSound(t, p, a);
    Enters(t, u, roles, p.ssrc, Live, a);
  }

  lemma {:induction false} NewPacketSound(t: Table, p: Packet, a: Address)
    requires Sound(t) && !Has(t, p.ssrc)
    ensures Sound(PacketOnly(t, p, 0, 0.0, Some(a)).0)
  {
    hide Sound, Deliver, Collides, Bound;
    OpenedSound(t, p.ssrc, Some(a), true);
    var k := Obtain(t, p.ssrc).1;
    DeliverSound(Opened(t, p.ssrc, Some(a), true), k, p, 0, 0.0);
    var w := Deliver(Opened(t, p.ssrc, Some(a), true), k, p, 0, 0.0).0;
    SoundIgnoresLog(w, w.log + [IsNew(p.ssrc)]);
  }

  lemma {:induction false} FirstReceived(s: Source, p: Packet)
    requires s.stats == FRESH && !s.own && !s.validated && !s.receivedBye && s.probationType == NoProbation
    ensures var r := Received(s, p, 0, 0.0).0;
            r.validated && !r.receivedBye && r.ssrc == s.ssrc && r.rtp == s.rtp && r.rtcp == s.rtcp && r.Active() && !s.Active()
  {
  }
}
