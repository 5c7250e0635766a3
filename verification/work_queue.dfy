/**
 The rate-limited work queue of client-go (`util/workqueue`), as far as both loops use it.
 A rate-limited item waits for an unspecified time and is then added.
 */
module WorkQueue {

  /** `waiting` is the delay heap; a dirty item is queued, or will be when its processing is done. */
  datatype Queue<T(==,!new)> = Queue(queue: seq<T>, dirty: set<T>, processing: set<T>, waiting: set<T>) {

    function Add(x: T): Queue<T> {
      if x in dirty then this
      else if x in processing then this.(dirty := dirty + {x})
      else this.(dirty := dirty + {x}, queue := queue + [x])
    }

    function AddRateLimited(x: T): Queue<T> {
      this.(waiting := waiting + {x})
    }

    /** The delay of a waiting item is over. */
    function Expire(x: T): Queue<T> {
      this.(waiting := waiting - {x}).Add(x)
    }

    /** Take the head of the queue. */
    function Get(): Queue<T>
      requires queue != []
    {
      this.(queue := queue[1..], processing := processing + {queue[0]}, dirty := dirty - {queue[0]})
    }

    function Done(x: T): Queue<T> {
      this.(processing := processing - {x}, queue := if x in dirty then queue + [x] else queue)
    }

    /** Everything the queue still has to deliver. */
    ghost function Pending(): set<T> {
      waiting + dirty + processing
    }

    /** Between two iterations of the loop that serves the queue. */
    ghost predicate Idle() {
      && processing == {}
      && (forall x :: x in queue <==> x in dirty)
      && (forall i, j | 0 <= i < j < |queue| :: queue[i] != queue[j])
      && waiting !! dirty
    }
  }

  function Empty<T(!new)>(): (q: Queue<T>)
    ensures q.Idle() && q.Pending() == {}
  {
    Queue([], {}, {}, {})
  }

  lemma ArriveIdle<T(!new)>(q: Queue<T>, x: T)
    requires q.Idle() && x !in q.Pending()
    ensures q.AddRateLimited(x).Idle() && q.AddRateLimited(x).Pending() == q.Pending() + {x}
    ensures q.Add(x).Idle() && q.Add(x).Pending() == q.Pending() + {x}
  {
  }

  lemma ExpireIdle<T(!new)>(q: Queue<T>, x: T)
    requires q.Idle() && x in q.waiting
    ensures q.Expire(x).Idle() && q.Expire(x).Pending() == q.Pending()
  {
  }

  /** One iteration that drops its item from the queue. */
  lemma ServeIdle<T(!new)>(q: Queue<T>)
    requires q.Idle() && q.queue != []
    ensures var x := q.queue[0];
            var served := q.Get().Done(x);
            x in q.Pending() && served.Idle() && served.Pending() == q.Pending() - {x}
  {
    var x := q.queue[0];
    var served := q.Get().Done(x);
    forall y ensures y in served.queue <==> y in served.dirty {
      assert y in q.queue <==> y == x || y in q.queue[1..];
    }
  }

  /** An item that is added while it is served, however often, is queued once more when it is done. */
  lemma AddedWhileServed<T(!new)>(q: Queue<T>)
    requires q.Idle() && q.queue != []
    ensures var x := q.queue[0];
            var again := q.Get().Add(x).Add(x).Done(x);
            again.Idle() && again.Pending() == q.Pending() && again.queue == q.queue[1..] + [x]
  {
    var x := q.queue[0];
    var again := q.Get().Add(x).Add(x).Done(x);
    forall y ensures y in again.queue <==> y in again.dirty {
      assert y in q.queue <==> y == x || y in q.queue[1..];
    }
  }

  /** One iteration that puts its item, and new ones, back into the delay heap. */
  lemma RetryIdle<T(!new)>(q: Queue<T>, more: set<T>)
    requires q.Idle() && q.queue != [] && more !! q.Pending()
    ensures var x := q.queue[0];
            var got := q.Get();
            var served := got.(waiting := got.waiting + {x} + more).Done(x);
            served.Idle() && served.Pending() == q.Pending() + more
            && served == q.Get().Done(x).(waiting := got.waiting + {x} + more)
  {
    ServeIdle(q);
  }
}
