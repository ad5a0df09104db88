/** The two ring buffers of the observation owner, in place (bridge_sdk_observations.cpp). */
module ObservationRings {
  import opened Bytes
  import B = BridgeOutput
  import O = Observations

  /** Position `i` after `head` on a ring of 64. */
  function Place(head: nat, i: nat): (r: nat)
    ensures r < 64
  {
    (head + i) % 64
  }

  /** Within one turn of the ring positions are distinct. */
  lemma PlacesDiffer(head: nat, i: nat, j: nat)
    requires head < 64 && i < j < 64
    ensures Place(head, i) != Place(head, j)
  {
  }

  lemma PlaceShifts(head: nat, i: nat)
    requires head < 64
    ensures Place(Place(head, 1), i) == Place(head, i + 1)
  {
  }

  class Ring<T> {
    const items: array<T>
    const blank: T
    var head: nat
    var used: nat

    ghost predicate Valid()
      reads this
    {
      items.Length == 64 && head < 64 && used <= 64
    }

    ghost function Contents(): (s: seq<T>)
      requires Valid()
      reads this, items
      ensures |s| == used
    {
      seq(used, i requires 0 <= i < used && Valid() reads this, items => items[Place(head, i)])
    }

    constructor (nothing: T)
      ensures Valid() && fresh(items) && Contents() == []
    {
      items := new T[64](i => nothing);
      blank := nothing;
      head, used := 0, 0;
    }

    /** Into the place behind the last item. */
    method Put(item: T)
      requires Valid() && used < 64
      modifies this`used, items
      ensures Valid() && Contents() == old(Contents()) + [item]
    {
      ghost var before := Contents();
      items[Place(head, used)] := item;
      forall i | 0 <= i < used ensures items[Place(head, i)] == before[i] { PlacesDiffer(head, i, used); }
      used := used + 1;
    }

    /** The oldest item leaves and its place is cleared. */
    method Get() returns (item: T)
      requires Valid() && used > 0
      modifies this, items
      ensures Valid() && old(Contents()) == [item] + Contents()
    {
      ghost var before := Contents();
      item := items[head];
      items[head] := blank;
      ghost var first := head;
      head := Place(head, 1);
      used := used - 1;
      assert Place(first, 0) == first;
      forall i | 0 <= i < used ensures items[Place(head, i)] == before[i + 1] {
        PlaceShifts(first, i);
        PlacesDiffer(first, 0, i + 1);
      }
    }

    method Clear()
      requires Valid()
      modifies this`used, items
      ensures Valid() && Contents() == []
    {
      var i := 0;
      while i < 64
        invariant 0 <= i <= 64
      {
        items[i] := blank;
        i := i + 1;
      }
      used := 0;
    }
  }

  const NO_WORK: O.Work := O.Work(0, 0, B.Ticket(0, 0))

  class Delivery {
    const queue: Ring<O.Work>
    const publications: Ring<O.Publication>
    var started: bool
    var stopping: bool

    ghost predicate Valid()
      reads this, queue, publications
    {
      queue.Valid() && publications.Valid()
    }

    constructor ()
      ensures Valid() && fresh(queue) && fresh(publications) && fresh(queue.items) && fresh(publications.items)
      ensures queue.Contents() == [] && publications.Contents() == [] && !started && !stopping
    {
      queue := new Ring(NO_WORK);
      publications := new Ring(O.Publication(NO_WORK, O.Refused));
      started, stopping := false, false;
    }

    /** The state of the machine that these fields hold. */
    ghost predicate Mirrors(s: O.System)
      requires Valid()
      reads this, queue, queue.items, publications, publications.items
    {
      && s.queue == queue.Contents() && s.published == publications.Contents()
      && s.started == started && s.stopping == stopping
    }

    /** `Submit`, given what the output owner says to a reservation. */
    method Submit(valid: bool, generation: nat, id: nat, admission: B.Admission, ticket: B.Ticket, ghost s: O.System)
      returns (accepted: bool)
      requires Valid() && Mirrors(s) && O.Sized(O.Output(s))
      requires (admission, ticket) == (B.Reserve(O.Output(s).value).1, B.Reserve(O.Output(s).value).2)
      modifies queue`used, queue.items
      ensures Valid() && Mirrors(O.Submit(s, valid, generation, id))
      ensures accepted <==> O.Submit(s, valid, generation, id).queue != s.queue
    {
      hide B.Reserve;
      if !valid || id == 0 || !started || stopping || queue.used == 64 { return false; }
      if admission != B.Accepted { return false; }
      queue.Put(O.Work(generation, id, ticket));
      return true;
    }

    /** First section of `ApplyOne`. */
    method Begin(ghost s: O.System) returns (work: Option<O.Work>)
      requires Valid() && Mirrors(s) && s.working == []
      modifies queue, queue.items
      ensures Valid() && Mirrors(O.Begin(s))
      ensures work.Some? <==> O.Begin(s).working != []
      ensures work.Some? ==> O.Begin(s).working == [work.value]
    {
      if stopping || queue.used == 0 { return None; }
      var first := queue.Get();
      return Some(first);
    }

    /** Second section of `ApplyOne`, for whatever custody said; in a state that a run reaches the ring is not full. */
    method Complete(work: O.Work, sample: O.Sample, ghost encode: O.Encoder, ghost s: O.System) returns (failed: bool)
      requires Valid() && Mirrors(s) && O.Inv(encode, s) && s.working == [work]
      modifies publications`used, publications.items
      ensures Valid() && Mirrors(O.Complete(s, sample)) && !O.Complete(s, sample).exited
      ensures failed <==> sample == O.Rejected
    {
      O.RoomToPublish(encode, s);
      assert !s.exited;
      hide O.Inv;
      match sample
      case Closed => return false;
      case Rejected => return true;
      case Sampled(outcome) =>
        if stopping { return false; }
        publications.Put(O.Publication(work, outcome));
        return false;
    }

    /** The worker's section: the oldest publication, if any. */
    method TakePublication(ghost s: O.System) returns (publication: Option<O.Publication>)
      requires Valid() && Mirrors(s) && s.committing == []
      modifies publications, publications.items
      ensures Valid() && Mirrors(O.Publish(s))
      ensures publication.Some? <==> O.Publish(s).committing != []
      ensures publication.Some? ==> O.Publish(s).committing == [publication.value]
    {
      if stopping || publications.used == 0 { return None; }
      var first := publications.Get();
      return Some(first);
    }

    /** `Stop` after the worker has been joined. */
    method Clear(ghost s: O.System)
      requires Valid() && Mirrors(s) && stopping
      modifies queue`used, queue.items, publications`used, publications.items
      ensures Valid() && Mirrors(s.(queue := [], published := []))
    {
      queue.Clear();
      publications.Clear();
    }
  }
}
