/**
 What a compound packet, as the bytes that it is, means for the life of every source: who is heard by it, and who
 says goodbye.
 */
module CompoundLives {
  import opened Bytes
  import F = RtcpFormat
  import opened SourceStats
  import D = SourceData
  import opened SourceTable
  import opened SourceTableRuns
  import opened SourceLives
  import opened CompoundActions
  import H = SourceTableHistory

  /** The packet is a sign of life of the source: its own report, a chunk about it, or its goodbye. */
  predicate Heard(p: F.Packet, own: Option<u32>, x: u32) {
    match p
    case SR(ssrc, _, _) => ssrc == x
    case RR(ssrc, _) => ssrc == x
    case SDES(chunks) => exists i :: 0 <= i < |chunks| && chunks[i].ssrc == x
    case BYE(ssrcs, _) => x in ssrcs && own != Some(x)
    case APP(_, _, _, _) => false
  }

  predicate Leaving(p: F.Packet, own: Option<u32>, x: u32) {
    p.BYE? && x in p.ssrcs && own != Some(x)
  }

  predicate HeardIn(ps: seq<Part>, own: Option<u32>, x: u32) {
    exists i :: 0 <= i < |ps| && ps[i].Known? && Heard(ps[i].packet, own, x)
  }

  predicate LeavingIn(ps: seq<Part>, own: Option<u32>, x: u32) {
    exists i :: 0 <= i < |ps| && ps[i].Known? && Leaving(ps[i].packet, own, x)
  }

  // ---------------------------------------------------------------- one action after the other

  /** The action is a sign of life of the source. */
  predicate Sign(a: Action, own: Option<u32>, x: u32) {
    a.0 == x && !(a.1.Bye? && own == Some(x))
  }

  predicate SomeSign(actions: seq<Action>, own: Option<u32>, x: u32) {
    exists i :: 0 <= i < |actions| && Sign(actions[i], own, x)
  }

  predicate SomeBye(actions: seq<Action>, own: Option<u32>, x: u32) {
    exists i :: 0 <= i < |actions| && Sign(actions[i], own, x) && actions[i].1.Bye?
  }

  /** What these signs make of what is known of the source. */
  predicate Changed(l: Life, m: Life, now: RtpTime, from: Option<D.Address>, sign: bool, bye: bool) {
    && m.heard == (if sign then now else l.heard) && m.rtcp == (if sign then D.Known(from) else l.rtcp)
    && m.gone == (l.gone || bye) && m.goneAt == (if bye then now else l.goneAt)
    && m.rtp == l.rtp && m.sends == l.sends && m.data == l.data
  }

  lemma {:induction false} ClashByControl(s: D.Source, r: D.Source, from: Option<D.Address>)
    requires r.rtp == s.rtp
    ensures r.rtcp == s.rtcp ==> (Clash(r, from, false) <==> Clash(s, from, false))
    ensures r.rtcp == D.Known(from) && !Clash(s, from, false) ==> !Clash(r, from, false)
  {
    hide AddressesFit;
    FitBySlots(WithAddress(s, from, false), WithAddress(r, from, false));
  }

  lemma {:induction false} OneReport(l: Life, r: Report, now: RtpTime, from: Option<D.Address>)
    ensures Changed(l, ReportLived(l.(rtcp := D.Known(from)), r, now), now, from, true, r.Bye?)
  {
  }

  lemma {:induction false} NothingChanged(l: Life, now: RtpTime, from: Option<D.Address>)
    ensures Changed(l, l, now, from, false, false)
  {
  }

  /** One control packet's word about one source. */
  lemma {:induction false} ActionLife(t: Table, a: Action, now: RtpTime, from: Option<D.Address>, x: u32)
    requires Sound(t) && CnamesValid(t) && RtcpIn(t, a.0, a.1, now, from).1 == Done
    ensures var u := RtcpIn(t, a.0, a.1, now, from).0;
            var sign := Sign(a, t.own, x) && Welcome(t, x, from, false);
            && Sound(u) && CnamesValid(u) && u.own == t.own
            && (Has(u, x) <==> Has(t, x) || sign)
            && (Welcome(u, x, from, false) <==> Welcome(t, x, from, false))
            && Changed(LifeIn(H.EntryOf(t, x)), LifeIn(H.EntryOf(u, x)), now, from, sign, sign && a.1.Bye?)
  {
    hide Sound, CnamesValid, Collides, Bound, Clash, Apply, LifeIn, Changed, ReportLived, Lived, Makes;
    var e := Event.Rtcp(a.0, a.1, now, from);
    var u := RtcpIn(t, a.0, a.1, now, from).0;
    OwnHas(t);
    assert Step(t, e) == u;
    RtcpKeepsOwn(t, a.0, a.1, now, from);
    RtcpSound(t, a.0, a.1, now, from);
    StepNamed(t, e);
    NamedEntry(t, a.0);
    RtcpLife(t, e, x);
    LivedByReport(LifeIn(H.EntryOf(t, x)), t, e, x);
    OneReport(LifeIn(H.EntryOf(t, x)), a.1, now, from);
    NothingChanged(LifeIn(H.EntryOf(t, x)), now, from);
    SlotsOf(H.EntryOf(t, x));
    SlotsOf(H.EntryOf(u, x));
    if Has(u, x) {
      ReportSlots(LifeIn(H.EntryOf(t, x)).(rtcp := D.Known(from)), a.1, now);
      ClashByControl(H.EntryOf(t, x), H.EntryOf(u, x), from);
      if !Has(t, x) {
        FreshWelcome(x, t.probationType, from);
      }
    } else {
      FreshLife(t, x);
      FreshLife(u, x);
    }
  }

  lemma {:induction false} FreshLife(t: Table, x: u32)
    requires !Has(t, x)
    ensures LifeIn(H.EntryOf(t, x)) == UNKNOWN
  {
  }

  lemma {:induction false} NamedEntry(t: Table, x: u32)
    requires CnamesValid(t)
    ensures LifeIn(H.EntryOf(t, x)).cname != [] ==> LifeIn(H.EntryOf(t, x)).valid
  {
  }

  lemma {:induction false} SlotsOf(s: D.Source)
    ensures LifeIn(s).rtp == s.rtp && LifeIn(s).rtcp == s.rtcp
  {
  }

  lemma {:induction false} ReportSlots(l: Life, r: Report, now: RtpTime)
    ensures ReportLived(l, r, now).rtp == l.rtp && ReportLived(l, r, now).rtcp == l.rtcp
  {
  }

  lemma {:induction false} FreshWelcome(x: u32, probationType: D.ProbationType, from: Option<D.Address>)
    ensures !Clash(D.NewSource(x, probationType), from, false)
  {
  }

  lemma {:induction false} ChangedTwice(l: Life, m: Life, n: Life, now: RtpTime, from: Option<D.Address>, sign: bool, bye: bool, sign2: bool, bye2: bool)
    requires Changed(l, m, now, from, sign, bye) && Changed(m, n, now, from, sign2, bye2)
    ensures Changed(l, n, now, from, sign || sign2, bye || bye2)
  {
  }

  lemma {:induction false} PerformLife(t: Table, actions: seq<Action>, now: RtpTime, from: Option<D.Address>, x: u32)
    requires Sound(t) && CnamesValid(t) && Perform(t, actions, now, from).1 == Done
    ensures var u := Perform(t, actions, now, from).0;
            var welcome := Welcome(t, x, from, false);
            var sign := welcome && SomeSign(actions, t.own, x);
            && Sound(u) && CnamesValid(u) && u.own == t.own && (Has(u, x) <==> Has(t, x) || sign)
            && (Welcome(u, x, from, false) <==> welcome)
            && Changed(LifeIn(H.EntryOf(t, x)), LifeIn(H.EntryOf(u, x)), now, from, sign, welcome && SomeBye(actions, t.own, x))
  {
    hide Sound, CnamesValid, Welcome, RtcpIn, Changed, Sign, LifeIn;
    if actions == [] {
      NothingChanged(LifeIn(H.EntryOf(t, x)), now, from);
    } else {
      var front, last := actions[..|actions| - 1], actions[|actions| - 1];
      PerformLife(t, front, now, from, x);
      var u := Perform(t, front, now, from).0;
      ActionLife(u, last, now, from, x);
      SignsAppend(front, last, t.own, x);
      assert actions == front + [last];
      var v := RtcpIn(u, last.0, last.1, now, from).0;
      var w := Welcome(t, x, from, false);
      ChangedTwice(LifeIn(H.EntryOf(t, x)), LifeIn(H.EntryOf(u, x)), LifeIn(H.EntryOf(v, x)), now, from,
                   w && SomeSign(front, t.own, x), w && SomeBye(front, t.own, x),
                   w && Sign(last, t.own, x), w && Sign(last, t.own, x) && last.1.Bye?);
    }
  }

  lemma {:induction false} SignsAppend(actions: seq<Action>, a: Action, own: Option<u32>, x: u32)
    ensures SomeSign(actions + [a], own, x) <==> SomeSign(actions, own, x) || Sign(a, own, x)
    ensures SomeBye(actions + [a], own, x) <==> SomeBye(actions, own, x) || (Sign(a, own, x) && a.1.Bye?)
  {
    SignsConcat(actions, [a], own, x);
    assert [a][0] == a;
  }

  lemma {:induction false} SignsConcat(a: seq<Action>, b: seq<Action>, own: Option<u32>, x: u32)
    ensures SomeSign(a + b, own, x) <==> SomeSign(a, own, x) || SomeSign(b, own, x)
    ensures SomeBye(a + b, own, x) <==> SomeBye(a, own, x) || SomeBye(b, own, x)
  {
    hide Sign;
    var c := a + b;
    forall i | 0 <= i < |a|
      ensures c[i] == a[i]
    {
    }
    forall i | 0 <= i < |b|
      ensures c[|a| + i] == b[i]
    {
    }
    assert forall i :: |a| <= i < |c| ==> c[i] == b[i - |a|];
  }

  // ---------------------------------------------------------------- from packets to actions

  lemma {:induction false} NoSigns(own: Option<u32>, x: u32)
    ensures !SomeSign([], own, x) && !SomeBye([], own, x)
  {
  }

  lemma {:induction false} AliveSigns(ssrc: u32, n: nat, own: Option<u32>, x: u32)
    requires n > 0
    ensures (SomeSign(Signs(ssrc, n), own, x) <==> ssrc == x) && !SomeBye(Signs(ssrc, n), own, x)
  {
    assert Signs(ssrc, n)[0] == (ssrc, Report.Alive);
  }

  lemma {:induction false} ItemsSigns(ssrc: u32, items: seq<F.Item>, own: Option<u32>, x: u32)
    ensures (SomeSign(ItemActions(ssrc, items), own, x) <==> items != [] && ssrc == x) && !SomeBye(ItemActions(ssrc, items), own, x)
  {
    hide SomeSign, SomeBye;
    if items == [] {
      NoSigns(own, x);
    } else {
      ItemsSigns(ssrc, items[..|items| - 1], own, x);
      SignsAppend(ItemActions(ssrc, items[..|items| - 1]), ItemAction(ssrc, items[|items| - 1]), own, x);
    }
  }

  lemma {:induction false} ChunksSigns(chunks: seq<F.Chunk>, own: Option<u32>, x: u32)
    ensures SomeSign(ChunksActions(chunks), own, x) <==> exists i :: 0 <= i < |chunks| && chunks[i].ssrc == x
    ensures !SomeBye(ChunksActions(chunks), own, x)
  {
    hide SomeSign, SomeBye;
    if chunks == [] {
      NoSigns(own, x);
    } else {
      var front, last := chunks[..|chunks| - 1], chunks[|chunks| - 1];
      ChunksSigns(front, own, x);
      ItemsSigns(last.ssrc, last.items, own, x);
      AliveSigns(last.ssrc, 1, own, x);
      assert Signs(last.ssrc, 1) == [(last.ssrc, Report.Alive)];
      SignsConcat(ChunksActions(front), ChunkActions(last), own, x);
      assert (exists i :: 0 <= i < |chunks| && chunks[i].ssrc == x) <==> (exists i :: 0 <= i < |front| && front[i].ssrc == x) || last.ssrc == x;
    }
  }

  lemma {:induction false} ByesSigns(ssrcs: seq<u32>, reason: bytes, own: Option<u32>, x: u32)
    ensures SomeSign(ByeActions(ssrcs, reason), own, x) <==> x in ssrcs && own != Some(x)
    ensures SomeBye(ByeActions(ssrcs, reason), own, x) <==> x in ssrcs && own != Some(x)
  {
    hide SomeSign, SomeBye;
    if ssrcs == [] {
      NoSigns(own, x);
    } else {
      var front, last := ssrcs[..|ssrcs| - 1], ssrcs[|ssrcs| - 1];
      ByesSigns(front, reason, own, x);
      SignsAppend(ByeActions(front, reason), (last, Report.Bye(reason)), own, x);
      assert ssrcs == front + [last];
    }
  }

  lemma {:induction false} PacketSigns(p: F.Packet, own: Option<u32>, x: u32)
    ensures SomeSign(Actions(p, own), own, x) <==> Heard(p, own, x)
    ensures SomeBye(Actions(p, own), own, x) <==> Leaving(p, own, x)
  {
    hide SomeSign, SomeBye, Signs;
    match p
    case SR(ssrc, _, blocks) =>
      var n := BlocksFor(blocks, own);
      AliveSigns(ssrc, 1, own, x);
      OneAlive(ssrc);
      AliveSigns(ssrc, if n == 0 then 1 else n, own, x);
      SignsConcat(Signs(ssrc, 1), AboutUs(ssrc, blocks, own), own, x);
    case RR(ssrc, blocks) =>
      var n := BlocksFor(blocks, own);
      AliveSigns(ssrc, if n == 0 then 1 else n, own, x);
    case SDES(chunks) => ChunksSigns(chunks, own, x);
    case BYE(ssrcs, reason) => ByesSigns(ssrcs, reason, own, x);
    case APP(_, _, _, _) => NoSigns(own, x);
  }

  lemma {:induction false} OneAlive(ssrc: u32)
    ensures Signs(ssrc, 1) == [(ssrc, Report.Alive)]
  {
  }

  lemma {:induction false} AllSigns(ps: seq<Part>, own: Option<u32>, x: u32)
    ensures SomeSign(AllActions(ps, own), own, x) <==> HeardIn(ps, own, x)
    ensures SomeBye(AllActions(ps, own), own, x) <==> LeavingIn(ps, own, x)
  {
    hide SomeSign, SomeBye, Heard, Leaving, Actions;
    NoSigns(own, x);
    if ps != [] {
      var front, last := ps[..|ps| - 1], ps[|ps| - 1];
      AllSigns(front, own, x);
      if last.Known? {
        PacketSigns(last.packet, own, x);
      }
      SignsConcat(AllActions(front, own), PartActions(last, own), own, x);
      PartsAppend(ps, own, x);
    }
  }

  lemma {:induction false} PartsAppend(ps: seq<Part>, own: Option<u32>, x: u32)
    requires ps != []
    ensures var front, last := ps[..|ps| - 1], ps[|ps| - 1];
            && (HeardIn(ps, own, x) <==> HeardIn(front, own, x) || (last.Known? && Heard(last.packet, own, x)))
            && (LeavingIn(ps, own, x) <==> LeavingIn(front, own, x) || (last.Known? && Leaving(last.packet, own, x)))
  {
    hide Heard, Leaving;
    var front := ps[..|ps| - 1];
    assert forall i :: 0 <= i < |front| ==> front[i] == ps[i];
  }

  /**
   A compound packet that ends without an error: a source is in the table after it if it was, or if it is heard by it
   from an address that is no collision; then it was last heard now, from this address; and it is gone if it was, or
   if a BYE names it. Of a source that is not heard by it, or that collides, nothing of this changes.
   */
  lemma {:induction false} CompoundHeard(t: Table, ps: seq<Part>, now: RtpTime, from: Option<D.Address>, x: u32)
    requires Sound(t) && CnamesValid(t) && Perform(t, AllActions(ps, t.own), now, from).1 == Done
    ensures var u := Perform(t, AllActions(ps, t.own), now, from).0;
            var l, m := LifeIn(H.EntryOf(t, x)), LifeIn(H.EntryOf(u, x));
            var heard := Welcome(t, x, from, false) && HeardIn(ps, t.own, x);
            && (Has(u, x) <==> Has(t, x) || heard)
            && m.heard == (if heard then now else l.heard) && m.rtcp == (if heard then D.Known(from) else l.rtcp)
            && m.gone == (l.gone || (heard && LeavingIn(ps, t.own, x)))
            && m.goneAt == (if heard && LeavingIn(ps, t.own, x) then now else l.goneAt)
            && m.rtp == l.rtp && m.sends == l.sends && m.data == l.data
  {
    hide Perform, AllActions, Sound, CnamesValid, Welcome, LifeIn, SomeSign, SomeBye, HeardIn, LeavingIn;
    PerformLife(t, AllActions(ps, t.own), now, from, x);
    AllSigns(ps, t.own, x);
    LeavingIsHeard(ps, t.own, x);
  }

  lemma {:induction false} LeavingIsHeard(ps: seq<Part>, own: Option<u32>, x: u32)
    ensures LeavingIn(ps, own, x) ==> HeardIn(ps, own, x)
  {
    if i :| 0 <= i < |ps| && ps[i].Known? && Leaving(ps[i].packet, own, x) {
      assert Heard(ps[i].packet, own, x);
    }
  }

  // ---------------------------------------------------------------- description items

  /** The items of these actions that are about the source. */
  function ItemsOf(actions: seq<Action>, x: u32): seq<(nat, bytes)> {
    if actions == [] then []
    else
      var last := actions[|actions| - 1];
      ItemsOf(actions[..|actions| - 1], x) + if last.0 == x && last.1.Item? then [(last.1.id, last.1.data)] else []
  }

  /** The items of a chunk, without those of the private type 8. */
  function Public(items: seq<F.Item>): seq<(nat, bytes)> {
    if items == [] then [] else Public(items[..|items| - 1]) + Told(items[|items| - 1])
  }

  function Told(item: F.Item): seq<(nat, bytes)> {
    if item.id == 8 then [] else [(item.id as nat, item.data)]
  }

  /** The items that the chunks have for the source. */
  function InChunks(chunks: seq<F.Chunk>, x: u32): seq<(nat, bytes)> {
    if chunks == [] then []
    else
      var last := chunks[|chunks| - 1];
      InChunks(chunks[..|chunks| - 1], x) + if last.ssrc == x then Public(last.items) else []
  }

  function InParts(ps: seq<Part>, x: u32): seq<(nat, bytes)> {
    if ps == [] then []
    else
      var last := ps[|ps| - 1];
      InParts(ps[..|ps| - 1], x) + if last.Known? && last.packet.SDES? then InChunks(last.packet.chunks, x) else []
  }

  lemma {:induction false} ItemsConcat(a: seq<Action>, b: seq<Action>, x: u32)
    ensures ItemsOf(a + b, x) == ItemsOf(a, x) + ItemsOf(b, x)
    decreases |b|
  {
    if b == [] {
      assert a + b == a;
    } else {
      ItemsConcat(a, b[..|b| - 1], x);
      assert (a + b)[..|a + b| - 1] == a + b[..|b| - 1];
    }
  }

  lemma {:induction false} OneItem(a: Action, x: u32)
    ensures ItemsOf([a], x) == if a.0 == x && a.1.Item? then [(a.1.id, a.1.data)] else []
  {
    assert [a][..0] == [];
  }

  lemma {:induction false} NoItems(actions: seq<Action>, x: u32)
    requires forall i :: 0 <= i < |actions| ==> !actions[i].1.Item?
    ensures ItemsOf(actions, x) == []
  {
    if actions != [] {
      NoItems(actions[..|actions| - 1], x);
    }
  }

  lemma {:induction false} ChunkItems(ssrc: u32, items: seq<F.Item>, x: u32)
    ensures ItemsOf(ItemActions(ssrc, items), x) == if ssrc == x then Public(items) else []
  {
    if items != [] {
      ChunkItems(ssrc, items[..|items| - 1], x);
      ItemsConcat(ItemActions(ssrc, items[..|items| - 1]), [ItemAction(ssrc, items[|items| - 1])], x);
      OneItem(ItemAction(ssrc, items[|items| - 1]), x);
    }
  }

  lemma {:induction false} ChunksItems(chunks: seq<F.Chunk>, x: u32)
    ensures ItemsOf(ChunksActions(chunks), x) == InChunks(chunks, x)
  {
    hide ItemsOf;
    if chunks == [] {
      NoItems([], x);
    } else {
      var front, last := chunks[..|chunks| - 1], chunks[|chunks| - 1];
      ChunksItems(front, x);
      ItemsConcat(ChunksActions(front), ChunkActions(last), x);
      ChunkItems(last.ssrc, last.items, x);
      OneItem((last.ssrc, Report.Alive), x);
    }
  }

  lemma {:induction false} ByesItems(ssrcs: seq<u32>, reason: bytes)
    ensures forall i :: 0 <= i < |ByeActions(ssrcs, reason)| ==> !ByeActions(ssrcs, reason)[i].1.Item?
  {
    if ssrcs != [] {
      ByesItems(ssrcs[..|ssrcs| - 1], reason);
    }
  }

  /** The table is told of a source exactly the items of its chunks, in their order, but for the private ones. */
  lemma {:induction false} ItemsForwarded(ps: seq<Part>, own: Option<u32>, x: u32)
    ensures ItemsOf(AllActions(ps, own), x) == InParts(ps, x)
  {
    hide ItemsOf, Signs, InChunks;
    NoItems([], x);
    if ps != [] {
      var front, last := ps[..|ps| - 1], ps[|ps| - 1];
      ItemsForwarded(front, own, x);
      ItemsConcat(AllActions(front, own), PartActions(last, own), x);
      if last.Known? {
        match last.packet
        case SR(ssrc, _, blocks) => NoItems([(ssrc, Report.Alive)] + AboutUs(ssrc, blocks, own), x) by { OnlyAlive(ssrc, BlocksFor(blocks, own)); }
        case RR(ssrc, blocks) => NoItems(AboutUs(ssrc, blocks, own), x) by { OnlyAlive(ssrc, BlocksFor(blocks, own)); }
        case SDES(chunks) => ChunksItems(chunks, x);
        case BYE(ssrcs, reason) => NoItems(ByeActions(ssrcs, reason), x) by { ByesItems(ssrcs, reason); }
        case APP(_, _, _, _) =>
      }
    }
  }

  lemma {:induction false} OnlyAlive(ssrc: u32, n: nat)
    ensures var signs := Signs(ssrc, if n == 0 then 1 else n); forall i :: 0 <= i < |signs| ==> signs[i] == (ssrc, Report.Alive)
  {
  }
}
