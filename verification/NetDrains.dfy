/**
 What one interrupt makes of the network driver's used rings: which results it
 posts, in which order, and when it ends the driver.
 */
module NetDrains {
  import opened Base
  import opened PendingTable
  import opened VirtQueues
  import opened Nets
  import Rings

  /** The used elements not taken yet, oldest first. */
  function Unread(q: VQ): seq<UsedElem>
    requires |q.used| > 0
  {
    Rings.Contents(q.used, q.lastUsed, q.usedIdx)
  }

  /**
   The results for a list of used elements: none for an id without a request,
   0 for a transmission, and for a reception the length without the ten header
   bytes, as 32 bits with sign.  An id behind the table ends the driver.
   */
  function Results(elems: seq<UsedElem>, pending: seq<Option<Pending>>, side: Side): seq<Cqe>
    requires |pending| == 128
  {
    if elems == [] then []
    else
      var id, len := elems[0].id, elems[0].len;
      if id >= 128 then []
      else if pending[id].None? then Results(elems[1..], pending, side)
      else
        var received := if len < 10 then 0 else if len - 10 < 0x8000_0000 then len - 10 else len - 10 - 0x1_0000_0000;
        [Cqe(pending[id].value.ud, if side == Rx then received else 0)]
        + Results(elems[1..], pending[id := None], side)
  }

  /** Some id is no index of the pending table. */
  predicate Wild(elems: seq<UsedElem>) {
    exists i :: 0 <= i < |elems| && elems[i].id >= 128
  }

  function Other(side: Side): Side {
    if side == Rx then Tx else Rx
  }

  /** Taking one element: the results are its own, then those of the rest. */
  lemma PopOnePosts(n: Net, side: Side)
    requires n.Wf() && !n.crashed && CanPop(PortOf(n, side).q)
    ensures var p, n' := PortOf(n, side), PopOne(n, side);
            var p', elems := PortOf(n', side), Unread(PortOf(n, side).q);
            && elems != [] && Unread(p'.q) == elems[1..]
            && PortOf(n', Other(side)) == PortOf(n, Other(side)) && n'.crashed == (elems[0].id >= 128)
            && (!n'.crashed ==>
                  && n'.cq + Results(elems[1..], p'.pending, side) == n.cq + Results(elems, p.pending, side)
                  && Count(p'.pending) - |Results(elems[1..], p'.pending, side)|
                     == Count(p.pending) - |Results(elems, p.pending, side)|)
            && (n'.crashed ==> n'.cq == n.cq && p'.pending == p.pending)
            && p'.rejected == p.rejected
  {
    var q := PortOf(n, side).q;
    Rings.TakeDropsFirst(q.used, q.lastUsed, q.usedIdx);
    var elem, rest := q.used[q.lastUsed % |q.used|], Rings.Contents(q.used, Rings.Succ(q.lastUsed), q.usedIdx);
    assert Unread(q) == [elem] + rest;
    assert ([elem] + rest)[1..] == rest;
    PopOneShows(n, side, elem);
    if elem.id < 128 {
      PostsFirst(n.cq, elem, rest, PortOf(n, side).pending, side);
    }
    if elem.id < 128 && PortOf(n, side).pending[elem.id].Some? {
      SetSlotCount(PortOf(n, side).pending, elem.id, None);
    }
  }

  /** What shows of one element taken. */
  lemma PopOneShows(n: Net, side: Side, elem: UsedElem)
    requires n.Wf() && CanPop(PortOf(n, side).q)
    requires var q := PortOf(n, side).q; elem == q.used[q.lastUsed % |q.used|]
    ensures var p, n', p' := PortOf(n, side), PopOne(n, side), PortOf(PopOne(n, side), side);
            && p'.q.used == p.q.used && p'.q.usedIdx == p.q.usedIdx && p'.q.lastUsed == Rings.Succ(p.q.lastUsed)
            && p'.rejected == p.rejected && PortOf(n', Other(side)) == PortOf(n, Other(side))
            && n'.crashed == (n.crashed || elem.id >= 128)
            && if elem.id < 128 && p.pending[elem.id].Some?
               then p'.pending == p.pending[elem.id := None]
                    && n'.cq == n.cq + [Cqe(p.pending[elem.id].value.ud, ResultOf(side, elem.len))]
               else p'.pending == p.pending && n'.cq == n.cq
  {
  }

  lemma PostsFirst(cq: seq<Cqe>, e: UsedElem, rest: seq<UsedElem>, pending: seq<Option<Pending>>, side: Side)
    requires |pending| == 128 && e.id < 128
    ensures pending[e.id].None? ==> Results([e] + rest, pending, side) == Results(rest, pending, side)
    ensures pending[e.id].Some? ==>
              cq + Results([e] + rest, pending, side)
              == cq + [Cqe(pending[e.id].value.ud, ResultOf(side, e.len))] + Results(rest, pending[e.id := None], side)
  {
    assert ([e] + rest)[1..] == rest;
  }

  lemma WildCons(e: UsedElem, rest: seq<UsedElem>)
    ensures Wild([e] + rest) <==> e.id >= 128 || Wild(rest)
  {
    if e.id >= 128 {
      assert ([e] + rest)[0].id >= 128;
    } else if Wild(rest) {
      var i :| 0 <= i < |rest| && rest[i].id >= 128;
      assert ([e] + rest)[i + 1].id >= 128;
    }
  }

  /** A whole drain: the results of all unread elements in ring order, or up to the first that ends the driver. */
  lemma {:induction false} PopAllPosts(n: Net, side: Side)
    requires n.Wf() && !n.crashed
    ensures var p, n' := PortOf(n, side), PopAll(n, side);
            var elems, results := Unread(p.q), Results(Unread(p.q), p.pending, side);
            && n'.cq == n.cq + results && n'.crashed == Wild(elems)
            && (!n'.crashed ==> !CanPop(PortOf(n', side).q))
            && PortOf(n', Other(side)) == PortOf(n, Other(side))
            && Count(PortOf(n', side).pending) == Count(p.pending) - |results|
            && PortOf(n', side).rejected == p.rejected
    decreases Rings.Outstanding(PortOf(n, side).q.lastUsed, PortOf(n, side).q.usedIdx)
  {
    PopAllStep(n, side);
    var p := PortOf(n, side);
    if CanPop(p.q) {
      var next, elems := PopOne(n, side), Unread(p.q);
      PopOnePosts(n, side);
      assert elems == [elems[0]] + elems[1..];
      WildCons(elems[0], elems[1..]);
      if next.crashed {
        PopAllStep(next, side);
      } else {
        PopOneAdvances(n, side);
        PopAllPosts(next, side);
      }
    } else {
      assert Rings.Outstanding(p.q.lastUsed, p.q.usedIdx) == 0;
      assert Unread(p.q) == [];
    }
  }

  /** The results of the unread receive elements in ring order, then those of the transmit elements. */
  function Posted(n: Net): seq<Cqe>
    requires n.Wf()
  {
    var rx := Unread(n.rx.q);
    Results(rx, n.rx.pending, Rx) + (if Wild(rx) then [] else Results(Unread(n.tx.q), n.tx.pending, Tx))
  }

  lemma PostedAppends(n: Net)
    requires n.Wf()
    ensures var rx, tx := Unread(n.rx.q), Unread(n.tx.q);
            n.cq + Posted(n)
            == n.cq + Results(rx, n.rx.pending, Rx) + (if Wild(rx) then [] else Results(tx, n.tx.pending, Tx))
  {
  }

  /**
   One interrupt.  Acknowledged, it drains both queues, the receive queue
   first: the results of its elements in ring order, then those of the transmit
   queue's; the driver has ended if there was an id behind the table, and
   otherwise neither ring has anything left.  Not acknowledged, nothing happens.
   */
  lemma HandleIrqPosts(n: Net, acknowledged: bool)
    requires n.Wf() && !n.crashed
    ensures !acknowledged ==> HandleIrq(n, acknowledged) == n
    ensures acknowledged ==>
              var n', rx, tx := HandleIrq(n, acknowledged), Unread(n.rx.q), Unread(n.tx.q);
              && n'.cq == n.cq + Results(rx, n.rx.pending, Rx)
                          + (if Wild(rx) then [] else Results(tx, n.tx.pending, Tx))
              && n'.crashed == (Wild(rx) || Wild(tx))
              && (!n'.crashed ==> !CanPop(n'.rx.q) && !CanPop(n'.tx.q))
  {
    if acknowledged {
      var n1 := PopAll(n, Rx);
      PopAllPosts(n, Rx);
      PopAllStep(n1, Tx);
      assert n1.tx == PortOf(n1, Other(Rx));
      if !n1.crashed {
        PopAllPosts(n1, Tx);
        assert PopAll(n1, Tx).rx == PortOf(PopAll(n1, Tx), Other(Tx));
      }
    }
  }

  /** Each result posted has freed the two descriptors of its request. */
  lemma ResultsFreePairs(n: Net, rx: Ledger, tx: Ledger)
    requires Inv(n, rx, tx) && !n.crashed && !Wild(Unread(n.rx.q)) && !Wild(Unread(n.tx.q))
    ensures var n' := HandleIrq(n, true);
            && n'.rx.q.numFree == n.rx.q.numFree + 2 * |Results(Unread(n.rx.q), n.rx.pending, Rx)|
            && n'.tx.q.numFree == n.tx.q.numFree + 2 * |Results(Unread(n.tx.q), n.tx.pending, Tx)|
  {
    var n1 := PopAll(n, Rx);
    var n' := PopAll(n1, Tx);
    PopAllPosts(n, Rx);
    assert n1.tx == PortOf(n1, Other(Rx));
    PopAllPosts(n1, Tx);
    assert n'.rx == PortOf(n', Other(Tx));
    var steps := HandleIrqIsRun(n, true);
    var rx', tx' := RunKeeps(n, steps, n', rx, tx);
    TwoPerChain(n.rx, rx);
    TwoPerChain(n.tx, tx);
    TwoPerChain(n'.rx, rx');
    TwoPerChain(n'.tx, tx');
  }
}
