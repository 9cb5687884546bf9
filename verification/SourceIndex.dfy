/**
 The hash table below the source table: what the source table asks of its list of entries, done on the two
 kinds of linked lists.
 */
module SourceIndex {
  import opened Bytes
  import opened SourceData
  import opened SourceTable
  import opened Sources
  import H = KeyHashTable

  const HASH_SIZE := 8317

  /** The entries on the nodes, in the order of insertion. */
  ghost function Elements(nodes: seq<H.HashElement<u32, RtpSourceData>>): (r: Entries)
    ensures |r| == |nodes| && forall i :: 0 <= i < |r| ==> r[i] == nodes[i].element
  {
    seq(|nodes|, i requires 0 <= i < |nodes| => nodes[i].element)
  }

  lemma {:induction false} ElementsWithout(nodes: seq<H.HashElement<u32, RtpSourceData>>, k: nat)
    requires k < |nodes|
    ensures Elements(H.Without(nodes, k)) == Removed(Elements(nodes), k)
  {
  }

  class SourceList {
    const list: H.Table<u32, RtpSourceData>

    ghost predicate Valid()
      reads this, list, list.table, list.order
    {
      && list.Valid() && list.hashSize == HASH_SIZE && (forall k: u32 :: list.getIndex(k) == k % HASH_SIZE)
      && forall i :: 0 <= i < |list.order| ==> list.order[i].key == list.order[i].element.ssrc
    }

    ghost function Held(): Entries
      reads this, list
    {
      Elements(list.order)
    }

    constructor ()
      ensures Valid() && Held() == [] && fresh(list) && fresh(list.table)
    {
      list := new H.Table<u32, RtpSourceData>(HASH_SIZE, k => k % HASH_SIZE);
    }

    /** The cursor is on the entry at position k, or past the last one. */
    ghost predicate At(k: nat)
      reads this, list
    {
      k <= |list.order| && list.curHashElem == list.NodeAt(k)
    }

    /** The search down one bucket finds the entry that the search from the first one finds. */
    method FindEntry(ssrc: u32) returns (d: RtpSourceData?)
      requires Valid()
      modifies list`curHashElem
      ensures Valid() && Held() == old(Held())
      ensures var k := Find(States(Held()), ssrc); At(k) && d == if k < |Held()| then Held()[k] else null
    {
      hide H.Table.Valid, States, Find;
      var status := list.GotoElement(ssrc);
      d := null;
      ghost var k := |Held()|;
      if status == H.Ok {
        k :| 0 <= k < |list.order| && list.order[k] == list.curHashElem;
        d := list.curHashElem.element;
        KeysDiffer(k);
      } else {
        NoKey(ssrc);
      }
      FindIs(States(Held()), ssrc, k);
    }

    lemma KeysDiffer(k: nat)
      requires Valid() && k < |list.order|
      ensures forall i :: 0 <= i < k ==> Held()[i].ssrc != Held()[k].ssrc
    {
    }

    lemma NoKey(ssrc: u32)
      requires Valid() && !list.HasKey(ssrc)
      ensures forall i :: 0 <= i < |Held()| ==> Held()[i].ssrc != ssrc
    {
      forall i | 0 <= i < |Held()|
        ensures Held()[i].ssrc != ssrc
      {
        assert list.order[i].key == Held()[i].ssrc;
      }
    }

    /** A new entry goes to the end of the list. */
    method AddEntry(d: RtpSourceData)
      requires Valid() && forall i :: 0 <= i < |Held()| ==> Held()[i].ssrc != d.ssrc
      modifies list, list.table, list.order
      ensures Valid() && Held() == old(Held()) + [d]
    {
      hide H.Table.Valid;
      ghost var before := list.order;
      forall i | 0 <= i < |list.order|
        ensures list.order[i].key != d.ssrc
      {
        assert list.order[i].key == Held()[i].ssrc;
      }
      var status := list.AddElement(d.ssrc, d);
      AddedLast(before, list.order, d);
    }

    method First()
      requires Valid()
      modifies list`curHashElem
      ensures Valid() && Held() == old(Held()) && At(0)
    {
      hide H.Table.Valid;
      list.GotoFirstElement();
    }

    method Next(ghost k: nat)
      requires Valid() && At(k) && k < |Held()|
      modifies list`curHashElem
      ensures Valid() && Held() == old(Held()) && At(k + 1)
    {
      CursorIs(k);
      hide H.Table.Valid;
      list.GotoNextElement();
    }

    /** The entry under the cursor leaves the list, and the cursor is on the one after it. */
    method DeleteCurrent(ghost k: nat)
      requires Valid() && At(k) && k < |Held()|
      modifies list, list.table, list.order
      ensures Valid() && Held() == Removed(old(Held()), k) && At(k)
    {
      CursorIs(k);
      ElementsWithout(list.order, k);
      hide H.Table.Valid;
      var status := list.DeleteCurrentElement();
    }

    lemma CursorIs(k: nat)
      requires Valid() && At(k) && k < |Held()|
      ensures list.CursorValid() && list.curHashElem != null && list.CursorIndex() == k
    {
      H.OnlyPlace(list, k);
    }
  }

  lemma {:induction false} AddedLast(before: seq<H.HashElement<u32, RtpSourceData>>, after: seq<H.HashElement<u32, RtpSourceData>>, d: RtpSourceData)
    requires H.Pairs(after) == H.Pairs(before) + [(d.ssrc, d)]
    ensures Elements(after) == Elements(before) + [d] && |after| == |before| + 1
    ensures forall i :: 0 <= i < |after| ==> (after[i].key, after[i].element) == if i < |before| then (before[i].key, before[i].element) else (d.ssrc, d)
  {
    assert |H.Pairs(after)| == |after| && |H.Pairs(before)| == |before|;
    forall i | 0 <= i < |after|
      ensures (after[i].key, after[i].element) == if i < |before| then (before[i].key, before[i].element) else (d.ssrc, d)
    {
      assert H.Pairs(after)[i] == (after[i].key, after[i].element);
    }
  }
}
