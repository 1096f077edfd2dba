/** `process_gui_tasks`: the GUI thread drains the request queue, running each
    task once, and publishes what the tasks return on the response queue. */
module Sequencer {
  import opened Values

  /** What running a task does, abstractly: it returns a value (WNone for
      Python's None) or raises an exception with a message. */
  datatype TaskOutcome = Returns(value: Wire) | Raises(message: string)

  const UnhandledPrefix := "Unhandled exception in GUI task: "

  /** What one task puts on the response queue: nothing for None, the value
      otherwise, and one error text for an exception. */
  function Publish(t: TaskOutcome): (r: seq<Wire>)
    ensures |r| <= 1
    ensures r == [] <==> t == Returns(WNone)
  {
    match t
    case Returns(v) => if v == WNone then [] else [v]
    case Raises(m) => [WStr(UnhandledPrefix + m)]
  }

  /** Everything a run of tasks publishes, in task order. */
  function Published(ts: seq<TaskOutcome>): seq<Wire>
  {
    if ts == [] then [] else Publish(ts[0]) + Published(ts[1..])
  }

  /** The reply a caller blocked on the response queue receives for a task
      it queued alone, when the task publishes one. */
  function Reply(t: TaskOutcome): (r: Option<Wire>)
    ensures r.Some? <==> t != Returns(WNone)
    ensures t.Raises? ==> r == Some(WStr(UnhandledPrefix + t.message))
    ensures t.Returns? && t.value != WNone ==> r == Some(t.value)
  {
    var p := Publish(t);
    if p == [] then None else Some(p[0])
  }

  /** What the RPC thread receives for a task that does not return None. */
  function Answer(t: TaskOutcome): (r: Wire)
    requires t != Returns(WNone)
    ensures Reply(t) == Some(r)
  {
    match t
    case Returns(v) => v
    case Raises(m) => WStr(UnhandledPrefix + m)
  }

  /** Draining in two parts publishes the first part's responses, then the second's. */
  lemma {:induction false} PublishedAppend(a: seq<TaskOutcome>, b: seq<TaskOutcome>)
    ensures Published(a + b) == Published(a) + Published(b)
  {
    if a == [] {
      assert a + b == b;
    } else {
      assert (a + b)[0] == a[0];
      assert (a + b)[1..] == a[1..] + b;
      PublishedAppend(a[1..], b);
    }
  }

  /** Tasks that never return None publish exactly one response each, the
      i-th response being the i-th task's: replies pair up with requests. */
  lemma {:induction false} PublishedOneToOne(ts: seq<TaskOutcome>)
    requires forall i :: 0 <= i < |ts| ==> ts[i] != Returns(WNone)
    ensures |Published(ts)| == |ts|
    ensures forall i :: 0 <= i < |ts| ==> Reply(ts[i]) == Some(Published(ts)[i])
  {
    if ts != [] {
      var rest := ts[1..];
      assert forall i :: 0 <= i < |rest| ==> rest[i] == ts[i + 1];
      PublishedOneToOne(rest);
      assert Published(ts) == Publish(ts[0]) + Published(rest);
      forall i | 0 <= i < |ts| ensures Reply(ts[i]) == Some(Published(ts)[i]) {
        if i > 0 {
          assert ts[i] == rest[i - 1];
        }
      }
    }
  }

  /** A raising task does not stop the drain: its error text is published in
      its place and the tasks after it still publish theirs. */
  lemma RaiseContinues(before: seq<TaskOutcome>, m: string, after: seq<TaskOutcome>)
    ensures Published(before + [Raises(m)] + after) ==
      Published(before) + [WStr(UnhandledPrefix + m)] + Published(after)
  {
    PublishedAppend(before + [Raises(m)], after);
    PublishedAppend(before, [Raises(m)]);
    assert Published([Raises(m)]) == [WStr(UnhandledPrefix + m)] + Published([]);
  }

  /** The request and response queues shared by the RPC thread and the GUI thread. */
  class GuiTaskQueue {
    var requests: seq<TaskOutcome>
    var responses: seq<Wire>
    /** The tasks run so far, in the order they ran. */
    ghost var executed: seq<TaskOutcome>

    constructor()
      ensures requests == [] && responses == [] && executed == []
    {
      requests := [];
      responses := [];
      executed := [];
    }

    /** `rpc_request_queue.put(task)`. */
    method Submit(t: TaskOutcome)
      modifies this
      ensures requests == old(requests) + [t]
      ensures responses == old(responses) && executed == old(executed)
    {
      requests := requests + [t];
    }

    /** One pass of process_gui_tasks: every queued task runs once, in FIFO
        order, until the request queue is empty. */
    method ProcessGuiTasks()
      modifies this
      ensures requests == []
      ensures executed == old(executed) + old(requests)
      ensures responses == old(responses) + Published(old(requests))
    {
      ghost var pending := requests;
      ghost var i := 0;
      while requests != []
        invariant 0 <= i <= |pending|
        invariant requests == pending[i..]
        invariant executed == old(executed) + pending[..i]
        invariant responses == old(responses) + Published(pending[..i])
        decreases |requests|
      {
        var task := requests[0];
        assert task == pending[i] && pending[i..][1..] == pending[i + 1..];
        requests := requests[1..];
        match task {
          case Returns(res) =>
            if res != WNone {
              responses := responses + [res];
            }
          case Raises(m) =>
            responses := responses + [WStr(UnhandledPrefix + m)];
        }
        executed := executed + [task];
        PublishedAppend(pending[..i], [task]);
        assert pending[..i + 1] == pending[..i] + [task];
        assert Published([task]) == Publish(task) + Published([]);
        i := i + 1;
      }
      assert pending[..i] == pending;
    }

    /** `rpc_response_queue.get()`: the oldest response, None when there is
        none (where the RPC thread would wait). */
    method TakeResponse() returns (r: Option<Wire>)
      modifies this
      ensures old(responses) == [] ==> r == None && responses == []
      ensures old(responses) != [] ==> r == Some(old(responses)[0]) && responses == old(responses)[1..]
      ensures requests == old(requests) && executed == old(executed)
    {
      if responses == [] {
        r := None;
      } else {
        r := Some(responses[0]);
        responses := responses[1..];
      }
    }
  }

  /** One RPC call on idle queues: queue the task, let the GUI thread drain,
      take the reply. The reply is the task's Reply. */
  method RoundTrip(q: GuiTaskQueue, t: TaskOutcome) returns (r: Option<Wire>)
    requires q.requests == [] && q.responses == []
    modifies q
    ensures r == Reply(t)
    ensures q.requests == [] && q.responses == []
    ensures q.executed == old(q.executed) + [t]
  {
    q.Submit(t);
    q.ProcessGuiTasks();
    assert Published([t]) == Publish(t) + Published([]);
    r := q.TakeResponse();
  }
}
