/**
 The tables in which the virtio drivers keep their requests in flight, and the
 tags by which a client recognises its requests.
 */
module PendingTable {
  import opened Base

  /** A request in flight: the client's tag and the head of its chain. */
  datatype Pending = Pending(ud: u64, head: u16)

  datatype Outcome = Submitted | Failed(error: Error)

  function Count(pending: seq<Option<Pending>>): (n: nat)
    ensures n <= |pending|
  {
    if pending == [] then 0 else (if pending[0].Some? then 1 else 0) + Count(pending[1..])
  }

  function TagsOf(sqes: seq<Sqe>): seq<u64> {
    seq(|sqes|, i requires 0 <= i < |sqes| => sqes[i].ud)
  }

  function DoneTags(cqes: seq<Cqe>): seq<u64> {
    seq(|cqes|, i requires 0 <= i < |cqes| => cqes[i].ud)
  }

  function Tag(p: Option<Pending>): multiset<u64> {
    if p.Some? then multiset{p.value.ud} else multiset{}
  }

  function PendingTags(pending: seq<Option<Pending>>): multiset<u64> {
    if pending == [] then multiset{} else Tag(pending[0]) + PendingTags(pending[1..])
  }

  lemma AddLeft(a: multiset<u64>, x: multiset<u64>, y: multiset<u64>, z: multiset<u64>, w: multiset<u64>)
    requires x + y == z + w
    ensures (a + x) + y == (a + z) + w
  {
    assert (a + x) + y == a + (x + y);
    assert (a + z) + w == a + (z + w);
  }

  lemma Exchange(a: multiset<u64>, b: multiset<u64>, c: multiset<u64>)
    ensures (a + b) + c == (c + b) + a
  {
  }

  lemma {:induction false} SetSlotCount(pending: seq<Option<Pending>>, i: nat, v: Option<Pending>)
    requires i < |pending|
    ensures Count(pending[i := v]) == Count(pending) - (if pending[i].Some? then 1 else 0) + (if v.Some? then 1 else 0)
  {
    if i > 0 {
      assert pending[i := v][1..] == pending[1..][i - 1 := v];
      SetSlotCount(pending[1..], i - 1, v);
    } else {
      assert pending[i := v][1..] == pending[1..];
    }
  }

  lemma {:induction false} SetSlotTags(pending: seq<Option<Pending>>, i: nat, v: Option<Pending>)
    requires i < |pending|
    ensures PendingTags(pending[i := v]) + Tag(pending[i]) == PendingTags(pending) + Tag(v)
  {
    var p', rest := pending[i := v], pending[1..];
    if i > 0 {
      assert p'[1..] == rest[i - 1 := v] && p'[0] == pending[0] && rest[i - 1] == pending[i];
      SetSlotTags(rest, i - 1, v);
      AddLeft(Tag(pending[0]), PendingTags(p'[1..]), Tag(pending[i]), PendingTags(rest), Tag(v));
    } else {
      assert p'[1..] == rest && p'[0] == v;
      Exchange(Tag(v), PendingTags(rest), Tag(pending[0]));
    }
  }

  lemma MoreTags(sqes: seq<Sqe>, x: Sqe)
    ensures multiset(TagsOf(sqes + [x])) == multiset(TagsOf(sqes)) + multiset{x.ud}
    ensures multiset(TagsOf([x] + sqes)) == multiset(TagsOf(sqes)) + multiset{x.ud}
  {
    assert TagsOf(sqes + [x]) == TagsOf(sqes) + [x.ud];
    assert TagsOf([x] + sqes) == [x.ud] + TagsOf(sqes);
  }

  lemma MoreDone(cqes: seq<Cqe>, x: Cqe)
    ensures multiset(DoneTags(cqes + [x])) == multiset(DoneTags(cqes)) + multiset{x.ud}
  {
    assert DoneTags(cqes + [x]) == DoneTags(cqes) + [x.ud];
  }

  lemma {:induction false} EmptyTable(pending: seq<Option<Pending>>)
    requires forall i :: 0 <= i < |pending| ==> pending[i].None?
    ensures Count(pending) == 0 && PendingTags(pending) == multiset{}
  {
    if pending != [] {
      EmptyTable(pending[1..]);
    }
  }

  lemma MoveTag(done: multiset<u64>, pending: multiset<u64>, x: multiset<u64>, rest: multiset<u64>)
    ensures done + (pending + x) + rest == (done + x) + pending + rest
  {
  }
}
