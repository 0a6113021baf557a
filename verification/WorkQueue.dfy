/**
 * The rate-limited work queue of client-go by its contract: keys are queued once, a key added while it is
 * processed is queued again when processing ends, delayed keys come back, and retries are counted per key.
 */
module WorkQueue {

  datatype ObjectKey = ObjectKey(namespace: string, name: string)

  datatype Queue = Queue(
    order: seq<ObjectKey>,
    dirty: set<ObjectKey>,
    processing: set<ObjectKey>,
    delayed: set<ObjectKey>,
    requeues: multiset<ObjectKey>)

  const EMPTY_QUEUE := Queue([], {}, {}, {}, multiset{})

  ghost predicate Distinct(s: seq<ObjectKey>) {
    forall i, j :: 0 <= i < j < |s| ==> s[i] != s[j]
  }

  /** What is queued is what is dirty and not in work, each key once. */
  ghost predicate WellFormed(q: Queue) {
    Distinct(q.order) && forall k :: k in q.order <==> k in q.dirty && k !in q.processing
  }

  function Add(q: Queue, k: ObjectKey): Queue {
    if k in q.dirty then q
    else if k in q.processing then q.(dirty := q.dirty + {k})
    else q.(dirty := q.dirty + {k}, order := q.order + [k])
  }

  function Get(q: Queue): (ObjectKey, Queue)
    requires q.order != []
  {
    var k := q.order[0];
    (k, q.(order := q.order[1..], processing := q.processing + {k}, dirty := q.dirty - {k}))
  }

  function Finish(q: Queue, k: ObjectKey): Queue {
    var rest := q.(processing := q.processing - {k});
    if k in q.dirty && k in q.processing then rest.(order := q.order + [k]) else rest
  }

  function NumRequeues(q: Queue, k: ObjectKey): nat {
    q.requeues[k]
  }

  function Forget(q: Queue, k: ObjectKey): Queue {
    q.(requeues := q.requeues[k := 0])
  }

  function AddRateLimited(q: Queue, k: ObjectKey): Queue {
    q.(delayed := q.delayed + {k}, requeues := q.requeues + multiset{k})
  }

  /** The back-off of `k` has run out. */
  function Ready(q: Queue, k: ObjectKey): Queue {
    Add(q.(delayed := q.delayed - {k}), k)
  }

  lemma AddKeepsWellFormed(q: Queue, k: ObjectKey)
    requires WellFormed(q)
    ensures WellFormed(Add(q, k)) && k in Add(q, k).dirty
  {
  }

  lemma GetKeepsWellFormed(q: Queue)
    requires WellFormed(q) && q.order != []
    ensures var (k, r) := Get(q); WellFormed(r) && k in q.dirty && k !in r.dirty && k in r.processing
  {
  }

  /** First in, first out: what is added goes behind what waits, and what is taken is what waited longest. */
  lemma QueueIsFair(q: Queue, k: ObjectKey)
    ensures q.order <= Add(q, k).order
    ensures q.order != [] ==> Get(q).0 == q.order[0] && Get(q).1.order == q.order[1..]
    ensures q.order <= Finish(q, k).order && q.order <= Ready(q, k).order
  {
  }
}
