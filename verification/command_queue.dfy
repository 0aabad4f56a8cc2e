/** The command channel from callers to the worker: one bounded queue
    (`msgQCreate` with CANJAGSERVER_MESSAGEQUEUE_LENGTH slots) whose
    messages are sent either urgent or normal. A normal message joins the
    tail; an urgent one is put at the head, so it is the next one received.
    The queue is kept as the run of messages that entered at the head,
    newest first, followed by those that entered at the tail. Blocking and
    timeouts are the caller's business (see the server). */
module CommandQueue {
  import opened Wrappers

  /** MSG_PRI_URGENT and MSG_PRI_NORMAL. */
  datatype Priority = Urgent | Normal

  datatype Queue<T> = Queue(urgent: seq<T>, normal: seq<T>, capacity: nat)

  function Count<T>(q: Queue<T>): nat
  {
    |q.urgent| + |q.normal|
  }

  ghost predicate WithinCapacity<T>(q: Queue<T>)
  {
    Count(q) <= q.capacity
  }

  /** The queued messages in the order `Receive` hands them out. */
  function Contents<T>(q: Queue<T>): seq<T>
  {
    q.urgent + q.normal
  }

  /** `msgQCreate`: an empty queue. */
  function Create<T>(capacity: nat): (q: Queue<T>)
    ensures WithinCapacity(q) && Contents(q) == [] && q.capacity == capacity
  {
    Queue([], [], capacity)
  }

  /** `msgQSend`: `None` when the queue is full. An urgent message goes
      ahead of every queued message; a normal message goes last. */
  function Send<T>(q: Queue<T>, m: T, p: Priority): (r: Option<Queue<T>>)
    requires WithinCapacity(q)
    ensures r.None? <==> Count(q) == q.capacity
    ensures r.Some? ==> WithinCapacity(r.value) && r.value.capacity == q.capacity
    ensures r.Some? ==> |Contents(r.value)| == |Contents(q)| + 1
    ensures r.Some? && p == Urgent ==> Contents(r.value) == [m] + Contents(q)
    ensures r.Some? && p == Normal ==> Contents(r.value) == Contents(q) + [m]
  {
    if Count(q) == q.capacity then None
    else if p == Urgent then Some(q.(urgent := [m] + q.urgent))
    else Some(q.(normal := q.normal + [m]))
  }

  /** `msgQReceive`: the next message, or `None` when nothing is queued. */
  function Receive<T>(q: Queue<T>): (r: Option<(T, Queue<T>)>)
    requires WithinCapacity(q)
    ensures r.None? <==> Contents(q) == []
    ensures r.Some? ==> WithinCapacity(r.value.1) && r.value.1.capacity == q.capacity
    ensures r.Some? ==> [r.value.0] + Contents(r.value.1) == Contents(q)
  {
    if q.urgent != [] then
      assert Contents(q) == [q.urgent[0]] + (q.urgent[1..] + q.normal);
      Some((q.urgent[0], q.(urgent := q.urgent[1..])))
    else if q.normal != [] then
      assert Contents(q) == [q.normal[0]] + q.normal[1..];
      Some((q.normal[0], q.(normal := q.normal[1..])))
    else None
  }

  /** An urgent message is the next one received, ahead of everything
      already waiting. */
  lemma UrgentOvertakesNormal<T>(q: Queue<T>, m: T)
    requires WithinCapacity(q) && Send(q, m, Urgent).Some?
    ensures Receive(Send(q, m, Urgent).value).Some?
    ensures var (first, rest) := Receive(Send(q, m, Urgent).value).value;
      first == m && Contents(rest) == Contents(q)
  {
  }

  /** Two normal sends are received in the order they were sent, after
      everything already waiting; two urgent sends are received in the
      reverse order, ahead of everything already waiting. */
  lemma OrderWithinClass<T>(q: Queue<T>, a: T, b: T, p: Priority)
    requires WithinCapacity(q) && Count(q) + 2 <= q.capacity
    ensures Send(q, a, p).Some? && Send(Send(q, a, p).value, b, p).Some?
    ensures var c := Contents(Send(Send(q, a, p).value, b, p).value);
      && (p == Urgent ==> c == [b, a] + Contents(q))
      && (p == Normal ==> c == Contents(q) + [a, b])
  {
    var q1 := Send(q, a, p).value;
    var q2 := Send(q1, b, p).value;
    if p == Urgent {
      assert Contents(q2) == [b] + ([a] + Contents(q));
    } else {
      assert Contents(q2) == Contents(q) + [a, b];
    }
  }
}
