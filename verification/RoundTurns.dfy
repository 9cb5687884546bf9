/** Over all rounds: which description items the packets of which round carry. */
module RoundTurns {
  import opened Bytes
  import opened RtcpFormat
  import opened RtcpSdes
  import opened RtcpBuild
  import opened RtcpBuildRuns
  import opened PacketRound
  import opened PacketRoundRuns

  /** An item that went out, and the number of its round. */
  datatype Carried = Carried(round: nat, id: byte)

  function Labelled(round: nat, ids: seq<byte>): seq<Carried> {
    if ids == [] then [] else [Carried(round, ids[0])] + Labelled(round, ids[1..])
  }

  /** The items of a packet's own chunk, but for the CNAME. */
  function Extras(c: Content): seq<Item> {
    if c.chunks != [] && c.chunks[0].items != [] then c.chunks[0].items[1..] else []
  }

  /** A run of packets, with whatever is to be said in each: what is kept after it, and the items that went out. */
  function Sending(max: nat, r: Round, run: seq<Situation>): (Round, seq<Carried>)
    requires forall i :: 0 <= i < |run| ==> SituationOk(run[i])
  {
    if run == [] then (r, [])
    else
      var (q, log) := Sending(max, r, run[..|run| - 1]);
      match BuildNext(max, q, run[|run| - 1])
      case Filled(next, content) => (next, log + Labelled(next.count, Ids(Extras(content))))
      case FilledTooSoon => (q, log)
  }

  /** It is the item's turn in this round. */
  predicate Turn(intervals: map<ItemType, int>, t: ItemType, k: nat) {
    t in intervals && intervals[t] > 0 && k % intervals[t] == 0
  }

  /** How often the item should have gone out in round k. */
  function Due(r: Round, t: ItemType, k: nat): nat {
    if k == 0 || k > r.count || !Turn(r.intervals, t, k) then 0
    else if k == r.count && r.ongoing && t in PendingOf(r) then 0
    else 1
  }

  // ---------------------------------------------------------------- items of a packet

  lemma {:induction false} PendingIs(due: set<ItemType>, sent: set<ItemType>, order: seq<ItemType>, t: ItemType)
    requires Distinct(order)
    ensures t in Pending(due, sent, order) <==> t in order && t in due && t !in sent
    ensures Distinct(Pending(due, sent, order))
  {
    if order != [] {
      var rest := order[1..];
      PendingIs(due, sent, rest, t);
      PendingFrom(due, sent, rest);
      assert order == [order[0]] + rest;
      PendingIs(due, sent, rest, order[0]);
    }
  }

  lemma {:induction false} LabelledNumber(round: nat, types: seq<ItemType>, t: ItemType, k: nat)
    requires Distinct(types) && t in ORDER && forall i :: 0 <= i < |types| ==> types[i] in ORDER
    ensures multiset(Labelled(round, TypeIds(types)))[Carried(k, IdOfType(t))] == if k == round && t in types then 1 else 0
  {
    if types != [] {
      var rest := types[1..];
      assert types == [types[0]] + rest;
      LabelledNumber(round, rest, t, k);
      IdsDiffer(types[0], t);
    }
  }

  lemma {:induction false} IdsDiffer(t: ItemType, u: ItemType)
    requires t in ORDER && u in ORDER
    ensures IdOfType(t) == IdOfType(u) <==> t == u
  {
  }

  /** What the first n pending items add. */
  lemma {:induction false} AddedNumber(r: Round, n: nat, s: Situation, c: Content, t: ItemType, k: nat)
    requires n <= |PendingOf(r)| && OwnChunk(c, s, ItemsFor(PendingOf(r)[..n], s.texts)) && t in ORDER
    ensures multiset(Labelled(r.count, Ids(Extras(c))))[Carried(k, IdOfType(t))] == if k == r.count && t in PendingOf(r)[..n] then 1 else 0
    ensures Distinct(PendingOf(r)) && (t in PendingOf(r) <==> t in r.due && t !in r.sent)
  {
    hide Pending;
    var types := PendingOf(r)[..n];
    OrderFacts(r);
    PendingIs(r.due, r.sent, ORDER, t);
    PendingFrom(r.due, r.sent, ORDER);
    assert ([Item(1, s.cname)] + ItemsFor(types, s.texts))[1..] == ItemsFor(types, s.texts);
    IdsOfItems(types, s.texts);
    LabelledNumber(r.count, types, t, k);
  }

  // ---------------------------------------------------------------- single packets

  /** What a packet leaves of the round that goes on. */
  lemma {:induction false} GoingOnKeeps(max: nat, r: Round, s: Situation)
    requires SituationOk(s) && r.ongoing && BuildNext(max, r, s).Filled?
    ensures var next := BuildNext(max, r, s).round; next.count == r.count && next.intervals == r.intervals && next.due == r.due
  {
    hide Size, Step, AddItems, AddBlocks, PendingOf, ContentOk;
  }

  /** What a packet outside a round leaves: the numbers go up by one at most. */
  lemma {:induction false} OpeningKeeps(max: nat, r: Round, s: Situation, t: ItemType)
    requires SituationOk(s) && !r.ongoing && BuildNext(max, r, s).Filled?
    ensures var next := BuildNext(max, r, s).round;
            && (next.count == r.count || next.count == r.count + 1) && next.intervals == r.intervals
            && (next.count == r.count ==> next == r.(firstPacket := false))
            && (next.count != r.count ==> (t in next.due <==> Turn(r.intervals, t, next.count)))
  {
    hide Size, Step, AddItems, AddBlocks, PendingOf, ContentOk;
  }

  /** An item whose turn it is waits, or has gone out; nothing else waits. */
  predicate Waits(r: Round, t: ItemType) {
    RoundOk(r) && (r.ongoing ==> (t in r.due <==> Turn(r.intervals, t, r.count)) && r.count > 0)
  }

  lemma {:induction false} GoingOnTurn(max: nat, r: Round, s: Situation, t: ItemType, k: nat)
    requires max >= MIN_PACKET_SIZE && SituationOk(s) && Waits(r, t) && t in ORDER && r.ongoing
    ensures var o := BuildNext(max, r, s);
            && o.Filled? && Waits(o.round, t) && o.round.intervals == r.intervals
            && multiset(Labelled(o.round.count, Ids(Extras(o.content))))[Carried(k, IdOfType(t))] == Due(o.round, t, k) - Due(r, t, k)
  {
    hide BuildNext, PendingOf, Size, Turn, Labelled, Extras;
    GoesOn(max, r, s);
    GoingOnKeeps(max, r, s);
    var o, p := BuildNext(max, r, s), PendingOf(r);
    var n := if o.round.ongoing then |p| - |PendingOf(o.round)| else |p|;
    AddedNumber(r, n, s, o.content, t, k);
    Parted(p, n, t);
  }

  lemma {:induction false} OpeningTurn(max: nat, r: Round, s: Situation, t: ItemType, k: nat)
    requires max >= MIN_PACKET_SIZE && SituationOk(s) && Waits(r, t) && t in ORDER && !r.ongoing
    ensures var o := BuildNext(max, r, s);
            && o.Filled? && Waits(o.round, t) && o.round.intervals == r.intervals
            && multiset(Labelled(o.round.count, Ids(Extras(o.content))))[Carried(k, IdOfType(t))] == Due(o.round, t, k) - Due(r, t, k)
  {
    hide BuildNext, PendingOf, Size, Turn, DueIn, Labelled, Extras;
    Opens(max, r, s);
    OpeningKeeps(max, r, s, t);
    var o := BuildNext(max, r, s);
    if o.round.count == r.count {
      NoExtras(o.content, s, r.count);
    } else {
      var q := r.(count := r.count + 1, due := DueIn(r.intervals, r.count + 1), firstPacket := false);
      var p := PendingOf(q);
      var n := if o.round.ongoing then |p| - |PendingOf(o.round)| else |p|;
      AddedNumber(q, n, s, o.content, t, k);
      Parted(p, n, t);
      DueIsTurn(r.intervals, t, q.count);
    }
  }

  lemma {:induction false} PacketTurn(max: nat, r: Round, s: Situation, t: ItemType, k: nat)
    requires max >= MIN_PACKET_SIZE && SituationOk(s) && Waits(r, t) && t in ORDER
    ensures var o := BuildNext(max, r, s);
            && o.Filled? && Waits(o.round, t) && o.round.intervals == r.intervals
            && multiset(Labelled(o.round.count, Ids(Extras(o.content))))[Carried(k, IdOfType(t))] == Due(o.round, t, k) - Due(r, t, k)
  {
    hide BuildNext, Due, Waits, Labelled, Extras;
    if r.ongoing {
      GoingOnTurn(max, r, s, t, k);
    } else {
      OpeningTurn(max, r, s, t, k);
    }
  }

  lemma {:induction false} DueIsTurn(intervals: map<ItemType, int>, t: ItemType, k: nat)
    ensures t in DueIn(intervals, k) <==> Turn(intervals, t, k)
  {
  }

  lemma {:induction false} Parted(p: seq<ItemType>, n: nat, t: ItemType)
    requires Distinct(p) && n <= |p|
    ensures t in p <==> t in p[..n] || t in p[n..]
    ensures !(t in p[..n] && t in p[n..])
  {
    assert p == p[..n] + p[n..];
  }

  lemma {:induction false} NoExtras(c: Content, s: Situation, k: nat)
    requires OwnChunk(c, s, [])
    ensures Labelled(k, Ids(Extras(c))) == []
  {
  }

  // ---------------------------------------------------------------- all rounds

  /**
   Over every run of packets from the start: in every round that is over, an item with interval n has gone out exactly
   once if n divides the number of the round, and not at all otherwise; in the round that goes on, it has gone out if
   its turn has come and it is not pending any more.
   */
  lemma {:induction false} TurnsExact(max: nat, r: Round, run: seq<Situation>, t: ItemType, k: nat)
    requires max >= MIN_PACKET_SIZE && r.count == 0 && r.sent == {} && !r.ongoing && t in ORDER
    requires forall i :: 0 <= i < |run| ==> SituationOk(run[i])
    ensures var (q, log) := Sending(max, r, run);
            && q.intervals == r.intervals && Waits(q, t)
            && multiset(log)[Carried(k, IdOfType(t))] == Due(q, t, k)
  {
    hide BuildNext, PendingOf, Size, Turn;
    if run != [] {
      var front, last := run[..|run| - 1], run[|run| - 1];
      TurnsExact(max, r, front, t, k);
      PacketTurn(max, Sending(max, r, front).0, last, t, k);
    }
  }
}
