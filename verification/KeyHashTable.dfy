/**
 RTPKeyHashTable: every element sits on two doubly linked lists at once, the one of its hash bucket and
 the one that keeps the order of insertion; a cursor walks over the latter.
 */
module KeyHashTable {

  class HashElement<K, V> {
    const hashIndex: nat
    const key: K
    const element: V
    var hashPrev: HashElement?<K, V>
    var hashNext: HashElement?<K, V>
    var listPrev: HashElement?<K, V>
    var listNext: HashElement?<K, V>

    constructor (k: K, e: V, index: nat)
      ensures key == k && element == e && hashIndex == index
      ensures hashPrev == null && hashNext == null && listPrev == null && listNext == null
    {
      hashIndex, key, element := index, k, e;
      hashPrev, hashNext, listPrev, listNext := null, null, null, null;
    }
  }

  ghost predicate Distinct<T>(s: seq<T>) {
    forall i, j :: 0 <= i < j < |s| ==> s[i] != s[j]
  }

  /** The nodes of order are linked up, in this order, by the list fields. */
  ghost predicate ListOk<K, V>(order: seq<HashElement<K, V>>, first: HashElement?<K, V>, last: HashElement?<K, V>)
    reads order`listPrev, order`listNext
  {
    && Distinct(order)
    && first == (if order == [] then null else order[0])
    && last == (if order == [] then null else order[|order| - 1])
    && (forall i {:trigger order[i].listPrev} :: 0 <= i < |order| ==> order[i].listPrev == if i == 0 then null else order[i - 1])
    && (forall i {:trigger order[i].listNext} :: 0 <= i < |order| ==> order[i].listNext == if i + 1 == |order| then null else order[i + 1])
  }

  /** The nodes of bucket are linked up, in this order, by the hash fields. */
  ghost predicate ChainOk<K, V>(bucket: seq<HashElement<K, V>>, head: HashElement?<K, V>)
    reads bucket`hashPrev, bucket`hashNext
  {
    && Distinct(bucket)
    && head == (if bucket == [] then null else bucket[0])
    && (forall i {:trigger bucket[i].hashPrev} :: 0 <= i < |bucket| ==> bucket[i].hashPrev == if i == 0 then null else bucket[i - 1])
    && (forall i {:trigger bucket[i].hashNext} :: 0 <= i < |bucket| ==> bucket[i].hashNext == if i + 1 == |bucket| then null else bucket[i + 1])
  }

  function Without<T>(s: seq<T>, k: nat): seq<T>
    requires k < |s|
  {
    s[..k] + s[k + 1..]
  }

  method AppendToList<K, V>(ghost order: seq<HashElement<K, V>>, first: HashElement?<K, V>, last: HashElement?<K, V>, e: HashElement<K, V>)
    returns (newFirst: HashElement?<K, V>, newLast: HashElement?<K, V>)
    requires ListOk(order, first, last) && e !in order && e.listPrev == null && e.listNext == null
    modifies order`listNext, e`listPrev
    ensures ListOk(order + [e], newFirst, newLast)
  {
    newFirst, newLast := first, last;
    if first == null {
      newFirst := e;
      newLast := e;
    } else {
      assert last == order[|order| - 1];
      last.listNext := e;
      e.listPrev := last;
      newLast := e;
    }
  }

  method UnlinkFromList<K, V>(ghost order: seq<HashElement<K, V>>, first: HashElement?<K, V>, last: HashElement?<K, V>,
                              e: HashElement<K, V>, ghost k: nat)
    returns (newFirst: HashElement?<K, V>, newLast: HashElement?<K, V>, next: HashElement?<K, V>)
    requires ListOk(order, first, last) && k < |order| && order[k] == e
    modifies order`listPrev, order`listNext
    ensures ListOk(Without(order, k), newFirst, newLast)
    ensures next == if k + 1 == |order| then null else order[k + 1]
  {
    newFirst, newLast := first, last;
    var tmp1 := e.listPrev;
    var tmp2 := e.listNext;
    assert order[k].listPrev == tmp1 && order[k].listNext == tmp2;
    assert tmp1 != null ==> k > 0 && tmp1 == order[k - 1];
    assert tmp2 != null ==> k + 1 < |order| && tmp2 == order[k + 1];
    if tmp1 == null {
      newFirst := tmp2;
      if tmp2 != null {
        tmp2.listPrev := null;
      } else {
        newLast := null;
      }
    } else {
      tmp1.listNext := tmp2;
      if tmp2 != null {
        tmp2.listPrev := tmp1;
      } else {
        newLast := tmp1;
      }
    }
    next := tmp2;
  }

  method PrependToBucket<K, V>(ghost bucket: seq<HashElement<K, V>>, head: HashElement?<K, V>, e: HashElement<K, V>)
    requires ChainOk(bucket, head) && e !in bucket && e.hashPrev == null
    modifies bucket`hashPrev, e`hashNext
    ensures ChainOk([e] + bucket, e)
  {
    e.hashNext := head;
    if head != null {
      assert head == bucket[0];
      head.hashPrev := e;
    }
  }

  method UnlinkFromBucket<K, V>(ghost bucket: seq<HashElement<K, V>>, head: HashElement?<K, V>, e: HashElement<K, V>, ghost k: nat)
    returns (newHead: HashElement?<K, V>)
    requires ChainOk(bucket, head) && k < |bucket| && bucket[k] == e
    modifies bucket`hashPrev, bucket`hashNext
    ensures ChainOk(Without(bucket, k), newHead)
  {
    newHead := head;
    var tmp1 := e.hashPrev;
    var tmp2 := e.hashNext;
    assert bucket[k].hashPrev == tmp1 && bucket[k].hashNext == tmp2;
    assert tmp1 != null ==> k > 0 && tmp1 == bucket[k - 1];
    assert tmp2 != null ==> k + 1 < |bucket| && tmp2 == bucket[k + 1];
    if tmp1 == null {
      newHead := tmp2;
      if tmp2 != null {
        tmp2.hashPrev := null;
      }
    } else {
      tmp1.hashNext := tmp2;
      if tmp2 != null {
        tmp2.hashPrev := tmp1;
      }
    }
  }

  /** The nodes of a family of buckets, for the frames below. */
  ghost function NodesOf<K, V>(buckets: seq<seq<HashElement<K, V>>>): set<HashElement<K, V>> {
    set b, i | 0 <= b < |buckets| && 0 <= i < |buckets[b]| :: buckets[b][i]
  }

  /** Every bucket is linked up from its head, and holds only nodes that belong into it. */
  ghost predicate ChainsOk<K, V>(buckets: seq<seq<HashElement<K, V>>>, heads: seq<HashElement?<K, V>>)
    reads NodesOf(buckets)`hashPrev, NodesOf(buckets)`hashNext
  {
    && |heads| == |buckets|
    && (forall b, i :: 0 <= b < |buckets| && 0 <= i < |buckets[b]| ==> buckets[b][i].hashIndex == b)
    && (forall b :: 0 <= b < |buckets| ==> ChainOk(buckets[b], heads[b]))
  }

  method LinkIntoBucket<K, V>(ghost buckets: seq<seq<HashElement<K, V>>>, ghost heads: seq<HashElement?<K, V>>,
                              index: nat, head: HashElement?<K, V>, e: HashElement<K, V>)
    requires ChainsOk(buckets, heads) && index < |buckets| && head == heads[index]
    requires e.hashIndex == index && e !in buckets[index] && e.hashPrev == null
    modifies buckets[index]`hashPrev, e`hashNext
    ensures ChainsOk(buckets[index := [e] + buckets[index]], heads[index := e])
  {
    PrependToBucket(buckets[index], head, e);
    forall b | 0 <= b < |buckets| && b != index
      ensures ChainOk(buckets[b], heads[b])
    {
      assert forall i :: 0 <= i < |buckets[b]| ==> buckets[b][i].hashIndex == b;
    }
  }

  method UnlinkFromBuckets<K, V>(ghost buckets: seq<seq<HashElement<K, V>>>, ghost heads: seq<HashElement?<K, V>>,
                                 index: nat, head: HashElement?<K, V>, e: HashElement<K, V>, ghost k: nat)
    returns (newHead: HashElement?<K, V>)
    requires ChainsOk(buckets, heads) && index < |buckets| && head == heads[index]
    requires k < |buckets[index]| && buckets[index][k] == e
    modifies buckets[index]`hashPrev, buckets[index]`hashNext
    ensures ChainsOk(buckets[index := Without(buckets[index], k)], heads[index := newHead])
  {
    newHead := UnlinkFromBucket(buckets[index], head, e, k);
    forall b | 0 <= b < |buckets| && b != index
      ensures ChainOk(buckets[b], heads[b])
    {
      assert forall i :: 0 <= i < |buckets[b]| ==> buckets[b][i].hashIndex == b;
    }
  }

  /** The key and element of each node. */
  function Pairs<K, V>(nodes: seq<HashElement<K, V>>): (r: seq<(K, V)>)
    ensures |r| == |nodes| && forall i :: 0 <= i < |nodes| ==> r[i] == (nodes[i].key, nodes[i].element)
  {
    seq(|nodes|, i requires 0 <= i < |nodes| => (nodes[i].key, nodes[i].element))
  }

  /** The buckets hold exactly the nodes of order, each in the bucket of its key, and no key twice. */
  ghost predicate IndexOk<K, V>(order: seq<HashElement<K, V>>, buckets: seq<seq<HashElement<K, V>>>, getIndex: K -> nat) {
    && NodesOf(buckets) == (set e | e in order)
    && (forall i :: 0 <= i < |order| ==> InBucket(order[i], buckets, getIndex))
    && (forall i, j :: 0 <= i < j < |order| ==> order[i].key != order[j].key)
  }

  ghost predicate InBucket<K, V>(e: HashElement<K, V>, buckets: seq<seq<HashElement<K, V>>>, getIndex: K -> nat) {
    e.hashIndex == getIndex(e.key) && e.hashIndex < |buckets| && e in buckets[e.hashIndex]
  }

  lemma {:induction false} NodeInBucket<K, V>(buckets: seq<seq<HashElement<K, V>>>, b: nat, i: nat)
    requires b < |buckets| && i < |buckets[b]|
    ensures buckets[b][i] in NodesOf(buckets)
  {
  }

  lemma {:induction false} BucketWithinOrder<K, V>(order: seq<HashElement<K, V>>, buckets: seq<seq<HashElement<K, V>>>,
                                                   getIndex: K -> nat, b: nat)
    requires IndexOk(order, buckets, getIndex) && b < |buckets|
    ensures forall i :: 0 <= i < |buckets[b]| ==> buckets[b][i] in order
    ensures forall e :: e in buckets[b] ==> e in order
  {
    forall i | 0 <= i < |buckets[b]|
      ensures buckets[b][i] in order
    {
      NodeInBucket(buckets, b, i);
    }
  }

  lemma {:induction false} IndexAdd<K, V>(order: seq<HashElement<K, V>>, buckets: seq<seq<HashElement<K, V>>>,
                                          getIndex: K -> nat, e: HashElement<K, V>)
    requires IndexOk(order, buckets, getIndex) && e.hashIndex == getIndex(e.key) && e.hashIndex < |buckets|
    requires forall i :: 0 <= i < |order| ==> order[i].key != e.key
    ensures IndexOk(order + [e], buckets[e.hashIndex := [e] + buckets[e.hashIndex]], getIndex)
  {
    var x := e.hashIndex;
    var now := buckets[x := [e] + buckets[x]];
    assert now[x][0] == e;
    forall n | n in NodesOf(now)
      ensures n in order + [e]
    {
      var b, i :| 0 <= b < |now| && 0 <= i < |now[b]| && now[b][i] == n;
      if b != x {
        NodeInBucket(buckets, b, i);
      } else if i > 0 {
        NodeInBucket(buckets, x, i - 1);
      }
    }
    forall n | n in order + [e]
      ensures n in NodesOf(now) && InBucket(n, now, getIndex)
    {
      if n != e {
        assert InBucket(n, buckets, getIndex);
        var i :| 0 <= i < |buckets[n.hashIndex]| && buckets[n.hashIndex][i] == n;
        NodeInBucket(now, n.hashIndex, if n.hashIndex == x then i + 1 else i);
      } else {
        NodeInBucket(now, x, 0);
      }
    }
  }

  lemma {:induction false} IndexRemove<K, V>(order: seq<HashElement<K, V>>, buckets: seq<seq<HashElement<K, V>>>,
                                             getIndex: K -> nat, k: nat, n: nat)
    requires IndexOk(order, buckets, getIndex) && k < |order|
    requires forall b, i :: 0 <= b < |buckets| && 0 <= i < |buckets[b]| ==> buckets[b][i].hashIndex == b
    requires var e := order[k]; n < |buckets[e.hashIndex]| && buckets[e.hashIndex][n] == e && Distinct(buckets[e.hashIndex])
    ensures IndexOk(Without(order, k), buckets[order[k].hashIndex := Without(buckets[order[k].hashIndex], n)], getIndex)
  {
    var e, x := order[k], order[k].hashIndex;
    var now := buckets[x := Without(buckets[x], n)];
    var rest := Without(order, k);
    forall m | m in NodesOf(now)
      ensures m in rest
    {
      var b, i :| 0 <= b < |now| && 0 <= i < |now[b]| && now[b][i] == m;
      var j := if b == x && i >= n then i + 1 else i;
      assert buckets[b][j] == m;
      NodeInBucket(buckets, b, j);
      var q :| 0 <= q < |order| && order[q] == m;
      assert m != e;
      assert rest[if q < k then q else q - 1] == m;
    }
    forall q | 0 <= q < |rest|
      ensures InBucket(rest[q], now, getIndex) && rest[q] in NodesOf(now)
    {
      var m, p := rest[q], if q < k then q else q + 1;
      assert order[p] == m && p != k && m.key != e.key;
      assert InBucket(order[p], buckets, getIndex);
      var i :| 0 <= i < |buckets[m.hashIndex]| && buckets[m.hashIndex][i] == m;
      var j := if m.hashIndex == x && i > n then i - 1 else i;
      assert now[m.hashIndex][j] == m;
      NodeInBucket(now, m.hashIndex, j);
    }
  }

  datatype Status = Ok | InvalidHashIndex | KeyAlreadyExists | KeyNotFound | NoCurrentElement

  class Table<K(==), V> {
    const hashSize: nat
    const getIndex: K -> nat
    const table: array<HashElement?<K, V>>
    var firstHashElem: HashElement?<K, V>
    var lastHashElem: HashElement?<K, V>
    var curHashElem: HashElement?<K, V>
    ghost var order: seq<HashElement<K, V>>
    ghost var buckets: seq<seq<HashElement<K, V>>>

    /** Both kinds of lists are intact, and they hold the same nodes, each in the bucket of its key. */
    ghost predicate Valid()
      reads this, table, order
    {
      && table.Length == hashSize == |buckets|
      && IndexOk(order, buckets, getIndex)
      && ListOk(order, firstHashElem, lastHashElem)
      && ChainsOk(buckets, table[..])
    }

    /** The cursor is on an element of the table, or past its end. */
    ghost predicate CursorValid()
      reads this
    {
      curHashElem == null || curHashElem in order
    }

    ghost function CursorIndex(): (k: nat)
      reads this
      requires CursorValid() && curHashElem != null
      ensures k < |order| && order[k] == curHashElem
    {
      var k :| 0 <= k < |order| && order[k] == curHashElem;
      k
    }

    /** The node at position k of the list; null stands for the end. */
    ghost function NodeAt(k: int): HashElement?<K, V>
      reads this
    {
      if 0 <= k < |order| then order[k] else null
    }

    /** The contents, in the order of insertion. */
    ghost function Entries(): seq<(K, V)>
      reads this
    {
      Pairs(order)
    }

    ghost predicate HasKey(k: K)
      reads this
    {
      exists i :: 0 <= i < |order| && order[i].key == k
    }

    constructor (size: nat, index: K -> nat)
      ensures Valid() && fresh(table) && order == [] && hashSize == size && getIndex == index
    {
      hashSize, getIndex := size, index;
      table := new HashElement?<K, V>[size](_ => null);
      firstHashElem, lastHashElem, curHashElem := null, null, null;
      order, buckets := [], seq(size, _ => []);
    }

    /** The search that four of the operations share: down the bucket of the key. */
    method Find(k: K, index: nat) returns (e: HashElement?<K, V>)
      requires Valid() && index < hashSize && index == getIndex(k)
      ensures e == null <==> !HasKey(k)
      ensures e != null ==> e in order && e.key == k
    {
      e := table[index];
      var found := false;
      ghost var n := 0;
      while !found && e != null
        invariant 0 <= n <= |buckets[index]|
        invariant e == if n == |buckets[index]| then null else buckets[index][n]
        invariant forall i :: 0 <= i < n ==> buckets[index][i].key != k
        invariant found ==> e != null && e.key == k
        decreases !found, |buckets[index]| - n
      {
        if e.key == k {
          found := true;
        } else {
          assert buckets[index][n].hashNext == e.hashNext;
          e := e.hashNext;
          n := n + 1;
        }
      }
      if e == null {
        forall i | 0 <= i < |order|
          ensures order[i].key != k
        {
          assert InBucket(order[i], buckets, getIndex);
        }
      } else {
        NodeInBucket(buckets, index, n);
        assert buckets[index][n] in NodesOf(buckets);
      }
    }

    method HasElement(k: K) returns (r: bool)
      requires Valid()
      ensures r <==> HasKey(k)
    {
      var index := getIndex(k);
      if index >= hashSize {
        assert forall i :: 0 <= i < |order| ==> InBucket(order[i], buckets, getIndex);
        return false;
      }
      var e := Find(k, index);
      return e != null;
    }

    method GotoElement(k: K) returns (status: Status)
      requires Valid()
      modifies `curHashElem
      ensures Valid()
      ensures status == if getIndex(k) >= hashSize then InvalidHashIndex else if HasKey(k) then Ok else KeyNotFound
      ensures status == Ok ==> curHashElem != null && curHashElem in order && curHashElem.key == k
      ensures status == KeyNotFound ==> curHashElem == null
      ensures status == InvalidHashIndex ==> curHashElem == old(curHashElem)
    {
      var index := getIndex(k);
      if index >= hashSize {
        return InvalidHashIndex;
      }
      curHashElem := Find(k, index);
      if curHashElem == null {
        return KeyNotFound;
      }
      return Ok;
    }

    method GotoFirstElement()
      requires Valid()
      modifies `curHashElem
      ensures Valid() && CursorValid()
      ensures curHashElem == if order == [] then null else order[0]
    {
      curHashElem := firstHashElem;
    }

    method GotoLastElement()
      requires Valid()
      modifies `curHashElem
      ensures Valid() && CursorValid()
      ensures curHashElem == if order == [] then null else order[|order| - 1]
    {
      curHashElem := lastHashElem;
    }

    method GotoNextElement()
      requires Valid() && CursorValid()
      modifies `curHashElem
      ensures Valid() && CursorValid()
      ensures curHashElem == if old(curHashElem) == null then null else NodeAt(old(CursorIndex()) + 1)
    {
      if curHashElem != null {
        ghost var k := CursorIndex();
        assert order[k].listNext == curHashElem.listNext;
        curHashElem := curHashElem.listNext;
      }
    }

    method GotoPreviousElement()
      requires Valid() && CursorValid()
      modifies `curHashElem
      ensures Valid() && CursorValid()
      ensures curHashElem == if old(curHashElem) == null then null else NodeAt(old(CursorIndex()) - 1)
    {
      if curHashElem != null {
        ghost var k := CursorIndex();
        assert order[k].listPrev == curHashElem.listPrev;
        curHashElem := curHashElem.listPrev;
      }
    }

    /** The new element goes to the front of its bucket and to the end of the list. */
    method Link(e: HashElement<K, V>, index: nat)
      requires Valid() && index < hashSize && e.hashIndex == index == getIndex(e.key) && !HasKey(e.key)
      requires e.hashPrev == null && e.hashNext == null && e.listPrev == null && e.listNext == null
      modifies `firstHashElem, `lastHashElem, `order, `buckets, table, order, e
      ensures Valid() && order == old(order) + [e]
    {
      hide IndexOk, ChainsOk, ListOk;
      BucketWithinOrder(order, buckets, getIndex, index);
      IndexAdd(order, buckets, getIndex, e);
      ghost var heads := table[..];
      LinkIntoBucket(buckets, heads, index, table[index], e);
      firstHashElem, lastHashElem := AppendToList(order, firstHashElem, lastHashElem, e);
      table[index] := e;
      assert table[..] == heads[index := e];
      order := order + [e];
      buckets := buckets[index := [e] + buckets[index]];
    }

    method AddElement(k: K, elem: V) returns (status: Status)
      requires Valid()
      modifies this`firstHashElem, this`lastHashElem, this`order, this`buckets, table, order
      ensures Valid()
      ensures status == if getIndex(k) >= hashSize then InvalidHashIndex
                        else if old(HasKey(k)) then KeyAlreadyExists else Ok
      ensures status != Ok ==> order == old(order)
      ensures status == Ok ==> |order| == |old(order)| + 1 && order[..|old(order)|] == old(order)
                               && fresh(order[|old(order)|]) && Entries() == old(Entries()) + [(k, elem)]
    {
      var index := getIndex(k);
      if index >= hashSize {
        return InvalidHashIndex;
      }
      var e := Find(k, index);
      if e != null {
        return KeyAlreadyExists;
      }
      var newElem := new HashElement(k, elem, index);
      hide ListOk, ChainsOk, IndexOk;
      Link(newElem, index);
      return Ok;
    }

    /** The current element leaves both lists, and the cursor moves on to the one after it. */
    method DeleteCurrentElement() returns (status: Status)
      requires Valid() && CursorValid()
      modifies this, table, order
      ensures Valid() && CursorValid()
      ensures status == if old(curHashElem) == null then NoCurrentElement else Ok
      ensures status != Ok ==> order == old(order) && curHashElem == null
      ensures status == Ok ==> order == Without(old(order), old(CursorIndex())) && curHashElem == NodeAt(old(CursorIndex()))
    {
      if curHashElem == null {
        return NoCurrentElement;
      }
      Unlink(curHashElem, CursorIndex());
      return Ok;
    }

    method Unlink(e: HashElement<K, V>, ghost k: nat)
      requires Valid() && k < |order| && order[k] == e
      modifies this, table, order
      ensures Valid() && order == Without(old(order), k)
      ensures curHashElem == NodeAt(k)
    {
      hide ChainsOk, ListOk, IndexOk, Distinct;
      var index := e.hashIndex;
      ghost var heads := table[..];
      ghost var n := IndexAfter(order, buckets, heads, getIndex, k);
      var newHead := UnlinkFromBuckets(buckets, heads, index, table[index], e, n);
      table[index] := newHead;
      assert table[..] == heads[index := newHead];
      buckets := buckets[index := Without(buckets[index], n)];
      ghost var newBuckets, newHeads := buckets, table[..];
      assert forall o :: o in NodesOf(newBuckets) ==> allocated(o);
      var next;
      firstHashElem, lastHashElem, next := UnlinkFromList(order, firstHashElem, lastHashElem, e, k);
      assert ChainsOk(newBuckets, newHeads);
      order := Without(order, k);
      assert table[..] == newHeads;
      curHashElem := next;
    }

    method DeleteElement(k: K) returns (status: Status)
      requires Valid()
      modifies this, table, order
      ensures Valid()
      ensures status == if getIndex(k) >= hashSize then InvalidHashIndex else if old(HasKey(k)) then Ok else KeyNotFound
      ensures status != Ok ==> order == old(order)
      ensures status == Ok ==>
                CursorValid()
                && (exists i :: 0 <= i < |old(order)| && old(order)[i].key == k && order == Without(old(order), i) && curHashElem == NodeAt(i))
    {
      status := GotoElement(k);
      if status != Ok {
        return;
      }
      ghost var i := CursorIndex();
      status := DeleteCurrentElement();
      assert old(order)[i].key == k && order == Without(old(order), i);
    }

    /** All buckets and the list become empty; the cursor is left where it was. */
    method Clear()
      requires Valid()
      modifies `firstHashElem, `lastHashElem, `order, `buckets, table
      ensures Valid() && order == []
    {
      var i := 0;
      while i < hashSize
        invariant 0 <= i <= hashSize && table.Length == hashSize
        invariant forall b :: 0 <= b < i ==> table[b] == null
      {
        table[i] := null;
        i := i + 1;
      }
      firstHashElem := null;
      lastHashElem := null;
      order, buckets := [], seq(hashSize, _ => []);
    }
  }

  lemma {:induction false} BucketFacts<K, V>(buckets: seq<seq<HashElement<K, V>>>, heads: seq<HashElement?<K, V>>)
    requires ChainsOk(buckets, heads)
    ensures forall b :: 0 <= b < |buckets| ==> Distinct(buckets[b])
    ensures forall c, i :: 0 <= c < |buckets| && 0 <= i < |buckets[c]| ==> buckets[c][i].hashIndex == c
  {
    forall b | 0 <= b < |buckets|
      ensures Distinct(buckets[b])
    {
      assert ChainOk(buckets[b], heads[b]);
    }
  }

  lemma {:induction false} PlaceInBucket<K, V>(order: seq<HashElement<K, V>>, buckets: seq<seq<HashElement<K, V>>>,
                                               getIndex: K -> nat, k: nat) returns (n: nat)
    requires IndexOk(order, buckets, getIndex) && k < |order|
    ensures var x := order[k].hashIndex; x < |buckets| && n < |buckets[x]| && buckets[x][n] == order[k]
  {
    assert InBucket(order[k], buckets, getIndex);
    n :| 0 <= n < |buckets[order[k].hashIndex]| && buckets[order[k].hashIndex][n] == order[k];
  }

  /** What the removal of the node at position k does to the buckets. */
  lemma {:induction false} IndexAfter<K, V>(order: seq<HashElement<K, V>>, buckets: seq<seq<HashElement<K, V>>>,
                                            heads: seq<HashElement?<K, V>>, getIndex: K -> nat, k: nat) returns (n: nat)
    requires IndexOk(order, buckets, getIndex) && ChainsOk(buckets, heads) && k < |order|
    ensures var x := order[k].hashIndex;
            x < |buckets| && n < |buckets[x]| && buckets[x][n] == order[k] && Within(buckets[x], order)
            && IndexOk(Without(order, k), buckets[x := Without(buckets[x], n)], getIndex)
  {
    hide IndexOk, ChainsOk, ChainOk, Distinct, Without;
    BucketFacts(buckets, heads);
    n := PlaceInBucket(order, buckets, getIndex, k);
    BucketWithinOrder(order, buckets, getIndex, order[k].hashIndex);
    IndexRemove(order, buckets, getIndex, k, n);
  }

  /** A key is reachable through its bucket exactly when it is on the list, and then once on each. */
  lemma {:induction false} BucketAndListAgree<K, V>(t: Table<K, V>, k: K)
    requires t.Valid() && t.getIndex(k) < t.hashSize
    ensures t.HasKey(k) <==> exists n :: 0 <= n < |t.buckets[t.getIndex(k)]| && t.buckets[t.getIndex(k)][n].key == k
    ensures forall m, n :: 0 <= m < n < |t.buckets[t.getIndex(k)]| ==> t.buckets[t.getIndex(k)][m].key != t.buckets[t.getIndex(k)][n].key
    ensures forall m, n :: 0 <= m < n < |t.order| ==> t.order[m].key != t.order[n].key
  {
    var b := t.getIndex(k);
    BucketWithinOrder(t.order, t.buckets, t.getIndex, b);
    BucketFacts(t.buckets, t.table[..]);
    if t.HasKey(k) {
      var i :| 0 <= i < |t.order| && t.order[i].key == k;
      assert InBucket(t.order[i], t.buckets, t.getIndex);
    }
    forall m, n | 0 <= m < n < |t.buckets[b]|
      ensures t.buckets[b][m].key != t.buckets[b][n].key
    {
      assert t.buckets[b][m] in t.order && t.buckets[b][n] in t.order;
    }
  }

  lemma {:induction false} OnlyPlace<K, V>(t: Table<K, V>, k: nat)
    requires t.Valid() && t.CursorValid() && k < |t.order| && t.order[k] == t.curHashElem
    ensures t.CursorIndex() == k
  {
  }

  lemma {:induction false} StepLemma<T>(kept: seq<T>, before: seq<T>, n: nat)
    requires n < |before|
    ensures kept + before[n..] == kept + [before[n]] + before[n + 1..]
    ensures Without(kept + before[n..], |kept|) == kept + before[n + 1..]
  {
  }

  /** The entries that satisfy keep, in their order. */
  function Filter<T>(s: seq<T>, keep: T -> bool): seq<T> {
    if s == [] then [] else (if keep(s[0]) then [s[0]] else []) + Filter(s[1..], keep)
  }

  lemma {:induction false} FilterNone<T>(keep: T -> bool)
    ensures Filter([], keep) == []
  {
  }

  lemma {:induction false} FilterAppend<T>(s: seq<T>, x: T, keep: T -> bool)
    ensures Filter(s + [x], keep) == Filter(s, keep) + if keep(x) then [x] else []
    decreases |s|
  {
    if s == [] {
      assert [] + [x] == [x] && Filter([x], keep) == (if keep(x) then [x] else []) + Filter([], keep);
    } else {
      assert (s + [x])[1..] == s[1..] + [x];
      FilterAppend(s[1..], x, keep);
    }
  }

  /** A walk that has passed n of the elements in before, and has kept those in kept. */
  ghost predicate Walking<K, V>(t: Table<K, V>, before: seq<HashElement<K, V>>, kept: seq<HashElement<K, V>>, n: nat)
    reads t, t.table, t.order
  {
    && t.Valid() && t.CursorValid() && n <= |before|
    && Within(t.order, before)
    && t.order == kept + before[n..] && t.curHashElem == t.NodeAt(|kept|)
  }

  ghost predicate Within<T>(s: seq<T>, all: seq<T>) {
    forall i :: 0 <= i < |s| ==> s[i] in all
  }

  lemma {:induction false} StillWithin<T>(kept: seq<T>, before: seq<T>, n: nat, still: seq<T>)
    requires n < |before| && Within(kept + before[n..], before)
    requires still == kept || still == kept + [before[n]]
    ensures Within(still + before[n + 1..], before)
  {
    var s, rest := kept + before[n..], still + before[n + 1..];
    forall i | 0 <= i < |rest|
      ensures rest[i] in before
    {
      if i < |kept| {
        assert s[i] == kept[i] && kept[i] in before;
      }
    }
  }

  method SweepStep<K(==), V>(t: Table<K, V>, keep: ((K, V)) -> bool,
                             ghost before: seq<HashElement<K, V>>, ghost kept: seq<HashElement<K, V>>, ghost n: nat)
    returns (x: (K, V), ghost still: seq<HashElement<K, V>>)
    requires Walking(t, before, kept, n) && t.curHashElem != null
    modifies t, t.table, t.order
    ensures n < |before| && x == (before[n].key, before[n].element)
    ensures still == if keep(x) then kept + [before[n]] else kept
    ensures Walking(t, before, still, n + 1)
  {
    hide Table.Valid, Distinct, Without;
    var e := t.curHashElem;
    OnlyPlace(t, |kept|);
    StepLemma(kept, before, n);
    x := (e.key, e.element);
    still := if keep(x) then kept + [before[n]] else kept;
    StillWithin(kept, before, n, still);
    if keep(x) {
      t.GotoNextElement();
    } else {
      var status := t.DeleteCurrentElement();
    }
    assert t.order == still + before[n + 1..];
  }

  lemma {:induction false} SweptOne<K, V>(kept: seq<HashElement<K, V>>, before: seq<HashElement<K, V>>, n: nat, keep: ((K, V)) -> bool)
    requires n < |before| && Pairs(kept) == Filter(Pairs(before[..n]), keep)
    ensures Pairs(before[..n + 1]) == Pairs(before[..n]) + [(before[n].key, before[n].element)]
    ensures Pairs(if keep((before[n].key, before[n].element)) then kept + [before[n]] else kept)
         == Filter(Pairs(before[..n + 1]), keep)
  {
    var x := (before[n].key, before[n].element);
    FilterAppend(Pairs(before[..n]), x, keep);
    assert Pairs(before[..n + 1]) == Pairs(before[..n]) + [x];
    assert Pairs(kept + [before[n]]) == Pairs(kept) + [x];
  }

  lemma {:induction false} StartWalk<K, V>(t: Table<K, V>)
    requires t.Valid() && t.CursorValid() && t.curHashElem == t.NodeAt(0)
    ensures Walking(t, t.order, [], 0)
    ensures t.order[..0] == []
  {
    hide Table.Valid;
    assert [] + t.order[0..] == t.order;
  }

  lemma {:induction false} WalkFacts<K, V>(t: Table<K, V>, before: seq<HashElement<K, V>>, kept: seq<HashElement<K, V>>, n: nat)
    requires Walking(t, before, kept, n)
    ensures n <= |before| && t.Valid()
    ensures forall i :: 0 <= i < |t.order| ==> t.order[i] in before
  {
    hide Table.Valid;
  }

  lemma {:induction false} WalkEnds<K, V>(t: Table<K, V>, before: seq<HashElement<K, V>>, kept: seq<HashElement<K, V>>, n: nat)
    requires Walking(t, before, kept, n) && t.curHashElem == null
    ensures n == |before| && t.order == kept && before[..n] == before
  {
    hide Table.Valid;
    assert t.order == kept + before[n..];
    assert |kept| >= |t.order|;
  }

  /**
   The walk of the source table's timeout passes: every element is visited once, in the order of
   insertion, while the ones that are not kept are deleted under the cursor.
   */
  method Sweep<K(==), V>(t: Table<K, V>, keep: ((K, V)) -> bool) returns (visited: seq<(K, V)>)
    requires t.Valid()
    modifies t, t.table, t.order
    ensures t.Valid()
    ensures visited == old(t.Entries()) && t.Entries() == Filter(old(t.Entries()), keep)
  {
    hide Table.Valid, Filter, Walking, Pairs;
    visited := [];
    ghost var before := t.order;
    ghost var kept: seq<HashElement<K, V>> := [];
    ghost var n := 0;
    t.GotoFirstElement();
    StartWalk(t);
    assert Filter(Pairs(kept), keep) == [] by { FilterNone<(K, V)>(keep); }
    while t.curHashElem != null
      invariant Walking(t, before, kept, n)
      invariant forall i :: 0 <= i < |t.order| ==> t.order[i] in before
      invariant n <= |before|
      invariant visited == Pairs(before[..n]) && Pairs(kept) == Filter(visited, keep)
      decreases |before| - n
    {
      WalkFacts(t, before, kept, n);
      var x;
      ghost var still;
      x, still := SweepStep(t, keep, before, kept, n);
      SweptOne(kept, before, n, keep);
      visited := visited + [x];
      kept := still;
      n := n + 1;
      WalkFacts(t, before, kept, n);
    }
    WalkEnds(t, before, kept, n);
    WalkFacts(t, before, kept, n);
  }
}
