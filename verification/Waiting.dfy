/** Threads waiting on one condition variable, as the lock protocols see them. */
module Waiting {

  type Tid = nat

  /** The threads in the wait loop of one operation: blocked, awake (signalled or spuriously), expired. */
  datatype Queue = Queue(blocked: set<Tid>, awake: set<Tid>, expired: set<Tid>) {
    function All(): set<Tid> { blocked + awake + expired }
    function Size(): nat { |blocked| + |awake| + |expired| }
    ghost predicate Valid() { blocked !! awake !! expired }
    function Block(t: Tid): Queue { this.(blocked := blocked + {t}) }
    function Wake(t: Tid): Queue { this.(blocked := blocked - {t}, awake := awake + {t}) }
    function Expire(t: Tid): Queue { this.(blocked := blocked - {t}, expired := expired + {t}) }
    function WakeAll(): Queue { this.(blocked := {}, awake := awake + blocked) }
    function Leave(t: Tid): Queue { Queue(blocked - {t}, awake - {t}, expired - {t}) }

    /** A signal wakes one blocked thread, if there is one. */
    ghost predicate Signalled(q: Queue) {
      if blocked == {} then q == this else exists t | t in blocked :: q == Wake(t)
    }
  }

  const IDLE := Queue({}, {}, {})

  lemma QueueLeave(q: Queue, t: Tid)
    requires q.Valid() && t in q.All()
    ensures q.Leave(t).Valid() && q.Leave(t).All() == q.All() - {t}
    ensures q.Leave(t).Size() == q.Size() - 1
  {
  }

  lemma QueueMove(q: Queue, t: Tid)
    requires q.Valid() && t in q.blocked
    ensures q.Wake(t).Valid() && q.Wake(t).All() == q.All()
    ensures q.Expire(t).Valid() && q.Expire(t).All() == q.All()
    ensures q.Wake(t).Size() == q.Expire(t).Size() == q.Size()
  {
  }

  lemma QueueBlock(q: Queue, t: Tid)
    requires q.Valid() && t !in q.All()
    ensures q.Block(t).Valid() && q.Block(t).All() == q.All() + {t} && q.Block(t).Size() == q.Size() + 1
  {
  }

  /** A signal or a broadcast moves threads from blocked to awake and changes nothing else; if some
      thread stays blocked, some thread is awake. */
  lemma QueueWoken(q: Queue, p: Queue)
    requires q.Valid() && (q.Signalled(p) || p == q.WakeAll())
    ensures p.Valid() && p.All() == q.All() && p.Size() == q.Size() && p.expired == q.expired
    ensures p.blocked <= q.blocked && (p.blocked != {} ==> p.awake != {})
  {
    if q.blocked != {} && q.Signalled(p) {
      var t :| t in q.blocked && p == q.Wake(t);
      QueueMove(q, t);
    }
  }

  lemma QueueEmpty(q: Queue)
    ensures q.Size() == 0 <==> q.All() == {}
  {
  }
}
