/**
 One entry of the source table: its receive statistics, its queue of packets, its flags, its addresses
 and the description items it has sent.
 */
module SourceData {
  import opened Bytes
  import opened RtpPacket
  import opened SourceStats

  const MAX_PROBATION_PACKETS := 32
  const MAX_ITEM_LENGTH := 255

  const CNAME := 1
  const NAME := 2
  const EMAIL := 3
  const PHONE := 4
  const LOC := 5
  const TOOL := 6
  const NOTE := 7

  datatype ProbationType = NoProbation | ProbationDiscard | ProbationStore

  datatype Address = Address(host: int, port: int)

  /** A transport address of a source; no address, once set, stands for the local participant. */
  datatype Slot = Unset | Known(from: Option<Address>)

  datatype Source = Source(
    ssrc: u32, probationType: ProbationType, own: bool, csrc: bool, validated: bool, sender: bool,
    receivedBye: bool, byeTime: RtpTime, byeReason: bytes, stats: Stats, queue: seq<Packet>,
    rtp: Slot, rtcp: Slot, sdes: map<nat, bytes>)
  {
    predicate Active() { validated && !receivedBye }

    function Item(id: nat): bytes { if id in sdes then sdes[id] else [] }
  }

  function NewSource(ssrc: u32, probationType: ProbationType): Source {
    Source(ssrc, probationType, false, false, false, false, false, 0, [], FRESH, [], Unset, Unset, map[])
  }

  // ---------------------------------------------------------------- the packet queue

  predicate Ascending(q: seq<Packet>) {
    forall i, j :: 0 <= i < j < |q| ==> q[i].seqNr < q[j].seqNr
  }

  /** Behind every packet with a smaller number, unless its number is there already. */
  function Insert(q: seq<Packet>, p: Packet): seq<Packet> {
    if q == [] then [p]
    else
      var last := q[|q| - 1];
      if last.seqNr > p.seqNr then Insert(q[..|q| - 1], p) + [last]
      else if last.seqNr < p.seqNr then q + [p]
      else q
  }

  predicate HasNumber(q: seq<Packet>, n: u32) {
    exists i :: 0 <= i < |q| && q[i].seqNr == n
  }

  /** While a source is on probation, a full queue loses its first packet. */
  function Evicted(q: seq<Packet>, validated: bool): seq<Packet> {
    if !validated && |q| == MAX_PROBATION_PACKETS then q[1..] else q
  }

  /** The packet with its extended number. */
  function Extend(p: Packet, n: u32): Packet {
    p.(seqNr := n)
  }

  function AsArrival(s: Source, p: Packet, now: RtpTime, tsUnit: real): Arrival {
    Arrival(p.seqNr % 0x1_0000, p.timestamp, now, tsUnit, s.own, !s.validated && s.probationType != NoProbation)
  }

  /** Whether the statistics' verdict lets a packet into the queue. */
  predicate Admitted(t: ProbationType, accept: bool, onProbation: bool) {
    accept || (onProbation && t == ProbationStore)
  }

  /** An admitted packet validates its source, unless it is kept while probation lasts. */
  function Judged(s: Source, accept: bool): Source {
    s.(validated := s.validated || accept, sender := s.sender || ((s.validated || accept) && !s.own))
  }

  function Enqueued(s: Source, p: Packet): (Source, bool) {
    var q := Evicted(s.queue, s.validated);
    (s.(queue := Insert(q, p)), !HasNumber(q, p.seqNr))
  }

  function Received(s: Source, p: Packet, now: RtpTime, tsUnit: real): (r: (Source, bool)) {
    var o := Processed(s.stats, AsArrival(s, p, now, tsUnit));
    var counted := s.(stats := o.stats);
    if Admitted(s.probationType, o.accept, o.onProbation) then Enqueued(Judged(counted, o.accept), Extend(p, o.seqNr))
    else (counted, false)
  }

  /** The invariant of the queue. */
  predicate QueueOk(s: Source) {
    Ascending(s.queue) && (!s.validated ==> |s.queue| <= MAX_PROBATION_PACKETS)
  }

  /** The packet goes behind position k, if everything behind has larger numbers and it is itself larger than what is before. */
  lemma {:induction false} InsertAt(q: seq<Packet>, p: Packet, k: nat)
    requires k <= |q| && forall i :: k <= i < |q| ==> q[i].seqNr > p.seqNr
    requires k > 0 ==> q[k - 1].seqNr <= p.seqNr
    ensures Insert(q, p) == if k > 0 && q[k - 1].seqNr == p.seqNr then q else q[..k] + [p] + q[k..]
  {
    if k < |q| {
      var front, last := q[..|q| - 1], q[|q| - 1];
      InsertAt(front, p, k);
      Rejoined(q, p, k);
    } else {
      assert q[..k] == q && q[k..] == [];
    }
  }

  lemma {:induction false} Rejoined(q: seq<Packet>, p: Packet, k: nat)
    requires k < |q|
    ensures var front := q[..|q| - 1];
            front[..k] + [p] + front[k..] + [q[|q| - 1]] == q[..k] + [p] + q[k..] && front + [q[|q| - 1]] == q
  {
    hide Insert;
    var front, last := q[..|q| - 1], q[|q| - 1];
    assert front[..k] == q[..k] && front[k..] + [last] == q[k..];
    assert front[..k] + [p] + front[k..] + [last] == front[..k] + [p] + (front[k..] + [last]);
  }

  /** The position that the insertion finds. */
  lemma {:induction false} Place(q: seq<Packet>, n: u32) returns (k: nat)
    requires Ascending(q)
    ensures k <= |q| && (forall i :: k <= i < |q| ==> q[i].seqNr > n) && (k > 0 ==> q[k - 1].seqNr <= n)
    ensures forall i :: 0 <= i < k - 1 ==> q[i].seqNr < n
    ensures HasNumber(q, n) <==> k > 0 && q[k - 1].seqNr == n
  {
    k := |q|;
    while k > 0 && q[k - 1].seqNr > n
      invariant k <= |q| && forall i :: k <= i < |q| ==> q[i].seqNr > n
    {
      k := k - 1;
    }
  }

  /** The insertion keeps the order, adds the packet exactly if its number is new, and touches nothing else. */
  lemma {:induction false} InsertKeeps(q: seq<Packet>, p: Packet)
    requires Ascending(q)
    ensures Ascending(Insert(q, p))
    ensures multiset(Insert(q, p)) == multiset(q) + if HasNumber(q, p.seqNr) then multiset{} else multiset{p}
    ensures HasNumber(Insert(q, p), p.seqNr)
    ensures |Insert(q, p)| == |q| + if HasNumber(q, p.seqNr) then 0 else 1
    ensures HasNumber(q, p.seqNr) ==> Insert(q, p) == q
  {
    var k := Place(q, p.seqNr);
    InsertAt(q, p, k);
    if !HasNumber(q, p.seqNr) {
      SpliceKeeps(q, p, k);
    }
  }

  lemma {:induction false} SpliceKeeps(q: seq<Packet>, p: Packet, k: nat)
    requires Ascending(q) && k <= |q| && (forall i :: k <= i < |q| ==> q[i].seqNr > p.seqNr)
    requires forall i :: 0 <= i < k ==> q[i].seqNr < p.seqNr
    ensures var r := q[..k] + [p] + q[k..];
            Ascending(r) && HasNumber(r, p.seqNr) && multiset(r) == multiset(q) + multiset{p}
  {
    var r := q[..k] + [p] + q[k..];
    assert r[k] == p;
    assert multiset(q) == multiset(q[..k]) + multiset(q[k..]) by {
      assert q == q[..k] + q[k..];
    }
  }

  /** The queue without its lowest number, if it is that of a source on probation and has 32 packets already. */
  ghost predicate MakesRoom(q: seq<Packet>, validated: bool, kept: seq<Packet>) {
    if validated || |q| < 32 then kept == q
    else
      exists lost: Packet :: multiset(q) == multiset(kept) + multiset{lost} && !HasNumber(kept, lost.seqNr)
        && forall i :: 0 <= i < |kept| ==> lost.seqNr < kept[i].seqNr
  }

  lemma {:induction false} EvictedMakesRoom(q: seq<Packet>, validated: bool)
    requires Ascending(q) && (!validated ==> |q| <= 32)
    ensures MakesRoom(q, validated, Evicted(q, validated)) && Ascending(Evicted(q, validated))
  {
    if !validated && |q| == 32 {
      assert q == [q[0]] + q[1..];
      assert multiset(q) == multiset(q[1..]) + multiset{q[0]};
      forall i | 0 <= i < |q[1..]|
        ensures q[0].seqNr < q[1..][i].seqNr
      {
        assert q[1..][i] == q[i + 1];
      }
    }
  }

  /** How a packet changes the flags: an accepted one shows that the source is real, and one that is kept, once that is shown, that it sends. */
  predicate FlagsAfter(s: Source, r: Source, accept: bool, onProbation: bool) {
    && r.validated == (s.validated || accept)
    && r.sender == (s.sender || (r.validated && (accept || (onProbation && s.probationType == ProbationStore)) && !s.own))
  }

  lemma {:induction false} ReceivedFlags(s: Source, p: Packet, now: RtpTime, tsUnit: real)
    ensures var o := Processed(s.stats, AsArrival(s, p, now, tsUnit));
            FlagsAfter(s, Received(s, p, now, tsUnit).0, o.accept, o.onProbation)
  {
    hide Processed, Insert, Evicted, HasNumber;
  }

  /** Receiving keeps the invariant, and stores the packet exactly if it says so. */
  lemma {:induction false} ReceivedKeepsQueue(s: Source, p: Packet, now: RtpTime, tsUnit: real)
    requires QueueOk(s)
    ensures var (t, stored) := Received(s, p, now, tsUnit);
            var o := Processed(s.stats, AsArrival(s, p, now, tsUnit));
            var kept := Evicted(s.queue, t.validated);
            && QueueOk(t) && (Admitted(s.probationType, o.accept, o.onProbation) ==> MakesRoom(s.queue, t.validated, kept))
            && (stored <==> Admitted(s.probationType, o.accept, o.onProbation) && !HasNumber(kept, o.seqNr))
            && (stored ==> multiset(t.queue) == multiset(kept) + multiset{Extend(p, o.seqNr)})
            && (!stored && Admitted(s.probationType, o.accept, o.onProbation) ==> t.queue == kept)
            && (!Admitted(s.probationType, o.accept, o.onProbation) ==> t.queue == s.queue)
  {
    hide Processed;
    var o := Processed(s.stats, AsArrival(s, p, now, tsUnit));
    if Admitted(s.probationType, o.accept, o.onProbation) {
      var kept := Evicted(s.queue, s.validated || o.accept);
      EvictedMakesRoom(s.queue, s.validated || o.accept);
      InsertKeeps(kept, Extend(p, o.seqNr));
    }
  }

  // ---------------------------------------------------------------- the other changes

  /** These items keep their first value; the others take the latest. */
  predicate SetOnce(id: nat) {
    id == CNAME || id == NAME || id == EMAIL || id == TOOL
  }

  function WithItem(s: Source, id: nat, data: bytes): Source {
    if |data| > MAX_ITEM_LENGTH then s else s.(sdes := s.sdes[id := data])
  }

  /** A description item comes in; the second part tells of a conflicting CNAME. */
  function Described(s: Source, id: nat, data: bytes, now: RtpTime): (Source, bool) {
    var t := s.(stats := s.stats.(lastMsgTime := now, lastNoteTime := if id == NOTE then now else s.stats.lastNoteTime));
    if !(CNAME <= id <= NOTE) then (t, false)
    else if SetOnce(id) && s.Item(id) != [] then (t, id == CNAME && data != s.Item(id))
    else (WithItem(t.(validated := t.validated || id == CNAME), id, data), false)
  }

  /** Too long an item is an error, except for a CNAME, whose result nobody looks at. */
  predicate ItemRefused(s: Source, id: nat, data: bytes) {
    |data| > MAX_ITEM_LENGTH && NAME <= id <= NOTE && !(SetOnce(id) && s.Item(id) != [])
  }

  function SaidBye(s: Source, reason: bytes, now: RtpTime): Source {
    s.(receivedBye := true, byeTime := now, byeReason := reason, stats := s.stats.(lastMsgTime := now))
  }

  function Heard(s: Source, now: RtpTime): Source {
    s.(stats := s.stats.(lastMsgTime := now))
  }

  function Sent(s: Source, now: RtpTime): Source {
    if s.own then s.(sender := true, stats := s.stats.(lastRtpTime := now, lastMsgTime := now)) else s
  }

  /** Items that are set once never change again. */
  lemma {:induction false} NamesStay(s: Source, id: nat, data: bytes, now: RtpTime, other: nat)
    requires SetOnce(other) && s.Item(other) != []
    ensures Described(s, id, data, now).0.Item(other) == s.Item(other)
  {
  }

  /** A description item that comes in. */
  datatype ItemIn = ItemIn(id: nat, data: bytes, now: RtpTime)

  function DescribedBy(s: Source, items: seq<ItemIn>): Source {
    if items == [] then s
    else
      var last := items[|items| - 1];
      Described(DescribedBy(s, items[..|items| - 1]), last.id, last.data, last.now).0
  }

  /** Whatever items follow: what was set once, or any more items before them set, is the same after them. */
  lemma {:induction false} NamesNeverChange(s: Source, items: seq<ItemIn>, n: nat, other: nat)
    requires SetOnce(other) && n <= |items| && DescribedBy(s, items[..n]).Item(other) != []
    ensures DescribedBy(s, items).Item(other) == DescribedBy(s, items[..n]).Item(other)
    decreases |items| - n, |items|
  {
    hide Described;
    if n < |items| {
      var front, last := items[..|items| - 1], items[|items| - 1];
      assert front[..n] == items[..n];
      NamesNeverChange(s, front, n, other);
      NamesStay(DescribedBy(s, front), last.id, last.data, last.now, other);
    } else {
      assert items[..n] == items;
    }
  }

  /** The first text of at most 255 bytes, and not empty, among the items of this kind. */
  function FirstText(items: seq<ItemIn>, id: nat): bytes {
    if items == [] then []
    else
      var first, last := FirstText(items[..|items| - 1], id), items[|items| - 1];
      if first == [] && last.id == id && |last.data| <= 255 then last.data else first
  }

  /** The last text of at most 255 bytes among the items of this kind. */
  function LastText(items: seq<ItemIn>, id: nat): bytes {
    if items == [] then []
    else
      var last := items[|items| - 1];
      if last.id == id && |last.data| <= 255 then last.data else LastText(items[..|items| - 1], id)
  }

  /**
   What is known of a source after any items: of CNAME, name, e-mail and tool the first text that is not too long,
   of phone, location and note the last.
   */
  lemma {:induction false} ItemExact(ssrc: u32, probationType: ProbationType, items: seq<ItemIn>, id: nat)
    requires 1 <= id <= 7
    ensures DescribedBy(NewSource(ssrc, probationType), items).Item(id)
         == if id == 1 || id == 2 || id == 3 || id == 6 then FirstText(items, id) else LastText(items, id)
  {
    if items != [] {
      ItemExact(ssrc, probationType, items[..|items| - 1], id);
      var s, last := DescribedBy(NewSource(ssrc, probationType), items[..|items| - 1]), items[|items| - 1];
      ItemStep(s, last, id);
    }
  }

  lemma {:induction false} ItemStep(s: Source, i: ItemIn, id: nat)
    requires 1 <= id <= 7
    ensures Described(s, i.id, i.data, i.now).0.Item(id)
         == if i.id != id || |i.data| > 255 || ((id == 1 || id == 2 || id == 3 || id == 6) && s.Item(id) != []) then s.Item(id) else i.data
  {
  }

  lemma {:induction false} PlaceFound(q: seq<Packet>, p: Packet, it: nat)
    requires Ascending(q) && it < |q| && forall k :: it < k < |q| ==> q[k].seqNr > p.seqNr
    requires q[it].seqNr > p.seqNr ==> it == 0
    ensures HasNumber(q, p.seqNr) <==> q[it].seqNr == p.seqNr
    ensures Insert(q, p) == if q[it].seqNr > p.seqNr then [p] + q
                            else if q[it].seqNr < p.seqNr then q[..it + 1] + [p] + q[it + 1..] else q
  {
    if q[it].seqNr > p.seqNr {
      InsertAt(q, p, 0);
      assert q[..0] == [] && q[0..] == q && [] + [p] + q == [p] + q;
    } else {
      InsertAt(q, p, it + 1);
    }
  }

  class RtpSourceData {
    const ssrc: u32
    const probationType: ProbationType
    const stats: RtpSourceStats
    var ownSsrc: bool
    var isCsrc: bool
    var validated: bool
    var isSender: bool
    var receivedBye: bool
    var byeTime: RtpTime
    var byeReason: bytes
    var packetList: seq<Packet>
    var rtpAddr: Slot
    var rtcpAddr: Slot
    var sdes: map<nat, bytes>

    ghost function State(): Source
      reads this, stats
    {
      Source(ssrc, probationType, ownSsrc, isCsrc, validated, isSender, receivedBye, byeTime, byeReason,
             stats.State(), packetList, rtpAddr, rtcpAddr, sdes)
    }

    constructor (id: u32, probation: ProbationType)
      ensures State() == NewSource(id, probation) && fresh(stats)
    {
      ssrc, probationType := id, probation;
      ownSsrc, isCsrc, validated, isSender, receivedBye := false, false, false, false, false;
      byeTime, byeReason, packetList, rtpAddr, rtcpAddr, sdes := 0, [], [], Unset, Unset, map[];
      stats := new RtpSourceStats();
    }

    predicate IsActive()
      reads this
    {
      validated && !receivedBye
    }

    /** The walk from the back of the queue to the place of the new packet. */
    method InsertPacket(p: Packet) returns (stored: bool)
      requires Ascending(packetList)
      modifies `packetList
      ensures packetList == Insert(old(packetList), p) && stored == !HasNumber(old(packetList), p.seqNr)
    {
      ghost var q := packetList;
      if packetList == [] {
        packetList := [p];
        return true;
      }
      var it := |packetList| - 1;
      while packetList[it].seqNr > p.seqNr && it != 0
        invariant 0 <= it < |q|
        invariant forall k :: it < k < |q| ==> q[k].seqNr > p.seqNr
        decreases it
      {
        it := it - 1;
      }
      PlaceFound(q, p, it);
      if packetList[it].seqNr > p.seqNr {
        packetList := [p] + packetList;
        stored := true;
      } else if packetList[it].seqNr < p.seqNr {
        packetList := packetList[..it + 1] + [p] + packetList[it + 1..];
        stored := true;
      } else {
        stored := false;
      }
    }

    method ProcessRTPPacket(p: Packet, now: RtpTime, tsUnit: real) returns (stored: bool)
      requires QueueOk(State())
      modifies this, stats
      ensures (State(), stored) == Received(old(State()), p, now, tsUnit) && QueueOk(State())
      ensures var o := Processed(old(State()).stats, AsArrival(old(State()), p, now, tsUnit));
              FlagsAfter(old(State()), State(), o.accept, o.onProbation)
    {
      hide Processed, RtpSourceStats.State, HasNumber, Insert;
      ReceivedKeepsQueue(State(), p, now, tsUnit);
      ReceivedFlags(State(), p, now, tsUnit);
      stored := false;
      var applyProbation := !validated && probationType != NoProbation;
      var seqNr, accept, onProbation :=
        stats.ProcessPacket(Arrival(p.seqNr % 0x1_0000, p.timestamp, now, tsUnit, ownSsrc, applyProbation));
      if probationType == ProbationStore {
        if !(onProbation || accept) {
          return;
        }
      } else {
        if !accept {
          return;
        }
      }
      Judge(accept);
      stored := Enqueue(Extend(p, seqNr));
    }

    method Judge(accept: bool)
      modifies `validated, `isSender
      ensures State() == Judged(old(State()), accept)
    {
      if accept {
        validated := true;
      }
      if validated && !ownSsrc {
        isSender := true;
      }
    }

    method Enqueue(p: Packet) returns (stored: bool)
      requires Ascending(packetList)
      modifies `packetList
      ensures (State(), stored) == Enqueued(old(State()), p)
    {
      if !validated && |packetList| == MAX_PROBATION_PACKETS {
        packetList := packetList[1..];
      }
      stored := InsertPacket(p);
    }

    method GetNextPacket() returns (p: Option<Packet>)
      modifies `packetList
      ensures p == if validated && old(packetList) != [] then Some(old(packetList)[0]) else None
      ensures packetList == if p.Some? then old(packetList)[1..] else old(packetList)
    {
      if !validated || packetList == [] {
        return None;
      }
      p := Some(packetList[0]);
      packetList := packetList[1..];
    }

    method ProcessSDESItem(id: nat, data: bytes, now: RtpTime) returns (error: bool, cnameCollision: bool)
      modifies this, stats
      ensures (State(), cnameCollision) == Described(old(State()), id, data, now) && error == old(ItemRefused(State(), id, data))
    {
      hide RtpSourceStats.State;
      error, cnameCollision := false, false;
      stats.SetLastMessageTime(now);
      var current := if id in sdes then sdes[id] else [];
      if id == CNAME {
        if current == [] {
          var ignored := Store(id, data);
          validated := true;
        } else {
          cnameCollision := current != data;
        }
      } else if id == NAME || id == EMAIL || id == TOOL {
        if current == [] {
          error := Store(id, data);
        }
      } else if id == PHONE || id == LOC {
        error := Store(id, data);
      } else if id == NOTE {
        stats.SetLastNoteTime(now);
        error := Store(id, data);
      }
    }

    method Store(id: nat, data: bytes) returns (error: bool)
      modifies `sdes
      ensures error == (|data| > MAX_ITEM_LENGTH) && sdes == if error then old(sdes) else old(sdes)[id := data]
    {
      error := |data| > MAX_ITEM_LENGTH;
      if !error {
        sdes := sdes[id := data];
      }
    }

    method ProcessBYEPacket(reason: bytes, now: RtpTime)
      modifies this, stats
      ensures State() == SaidBye(old(State()), reason, now)
    {
      hide RtpSourceStats.State;
      byeTime, byeReason, receivedBye := now, reason, true;
      stats.SetLastMessageTime(now);
    }

    method UpdateMessageTime(now: RtpTime)
      modifies stats
      ensures State() == Heard(old(State()), now)
    {
      stats.SetLastMessageTime(now);
    }

    method SentRTPPacket(now: RtpTime)
      modifies this, stats
      ensures State() == Sent(old(State()), now)
    {
      hide RtpSourceStats.State;
      if !ownSsrc {
        return;
      }
      isSender := true;
      stats.SetLastRTPPacketTime(now);
      stats.SetLastMessageTime(now);
    }

    /** The addresses of the own entry are set, to none, and it needs no probation. */
    method SetOwnSSRC()
      modifies this
      ensures State() == old(State()).(own := true, validated := true)
    {
      ownSsrc, validated := true, true;
    }

    method SetCSRC()
      modifies this
      ensures State() == old(State()).(csrc := true, validated := true)
    {
      isCsrc, validated := true, true;
    }

    method SetRTPDataAddress(from: Option<Address>)
      modifies this
      ensures State() == old(State()).(rtp := Known(from))
    {
      rtpAddr := Known(from);
    }

    method SetRTCPDataAddress(from: Option<Address>)
      modifies this
      ensures State() == old(State()).(rtcp := Known(from))
    {
      rtcpAddr := Known(from);
    }

    method ClearSenderFlag()
      modifies this
      ensures State() == old(State()).(sender := false)
    {
      isSender := false;
    }

    method ClearNote()
      modifies this
      ensures State() == old(State()).(sdes := old(State()).sdes[NOTE := []])
    {
      sdes := sdes[NOTE := []];
    }
  }
}
