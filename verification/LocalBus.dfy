/** The in-process bus: one FIFO queue per key, created by the first client with that key. */
module LocalBus {
  import opened Wrappers
  import opened CodeUnits

  datatype Packet = Packet(from: Text, body: Text)

  /** `got` records what each inbox has handed out. */
  datatype State = State(queues: map<Text, seq<Packet>>, got: map<Text, seq<Packet>>)

  /** One client operation; any number of clients interleave. */
  datatype Event = Open(key: Text) | Send(from: Text, to: Text, body: Text) | Receive(key: Text)

  const NO_INBOXES: State := State(map[], map[])

  function Step(s: State, e: Event): State {
    match e
    case Open(key) => if key in s.queues then s else State(s.queues[key := []], s.got[key := []])
    case Send(from, to, body) =>
      if to !in s.queues then s else s.(queues := s.queues[to := s.queues[to] + [Packet(from, body)]])
    case Receive(key) =>
      if key !in s.queues || key !in s.got || s.queues[key] == [] then s
      else State(s.queues[key := s.queues[key][1..]], s.got[key := s.got[key] + [s.queues[key][0]]])
  }

  function Run(es: seq<Event>): State {
    if es == [] then NO_INBOXES else Step(Run(es[..|es| - 1]), es[|es| - 1])
  }

  /** The packets sent to an inbox since it was opened, read off the schedule. */
  function SentTo(es: seq<Event>, key: Text): seq<Packet> {
    if es == [] then []
    else
      var last := es[|es| - 1];
      SentTo(es[..|es| - 1], key)
      + (if last.Send? && last.to == key && Open(key) in es[..|es| - 1] then [Packet(last.from, last.body)] else [])
  }

  /** Inbox `key` is open or not, and what went in is what came out and what waits. */
  predicate InOrder(s: State, key: Text, open: bool, sent: seq<Packet>) {
    && (key in s.queues <==> open) && (key in s.got <==> open)
    && (open ==> s.got[key] + s.queues[key] == sent)
    && (!open ==> sent == [])
  }

  lemma StepInOrder(s: State, e: Event, key: Text, open: bool, sent: seq<Packet>)
    requires InOrder(s, key, open, sent)
    ensures InOrder(Step(s, e), key, open || e == Open(key),
                    sent + if e.Send? && e.to == key && open then [Packet(e.from, e.body)] else [])
  {
    match e
    case Open(k) => assert sent + [] == sent;
    case Send(from, to, body) =>
      assert sent + [] == sent;
      if to == key && open {
        assert s.got[key] + (s.queues[key] + [Packet(from, body)]) == sent + [Packet(from, body)];
      }
    case Receive(k) =>
      assert sent + [] == sent;
      if k == key && open && s.queues[key] != [] {
        assert s.queues[key] == [s.queues[key][0]] + s.queues[key][1..];
      }
  }

  lemma {:induction false} RunInOrder(es: seq<Event>, key: Text)
    ensures InOrder(Run(es), key, Open(key) in es, SentTo(es, key))
  {
    if es != [] {
      var front, last := es[..|es| - 1], es[|es| - 1];
      RunInOrder(front, key);
      StepInOrder(Run(front), last, key, Open(key) in front, SentTo(front, key));
      assert es == front + [last];
    }
  }

  /** What has been received and what is still queued make up exactly what was sent, in order. */
  lemma Fifo(es: seq<Event>, key: Text)
    ensures var s := Run(es);
      && (key in s.queues <==> Open(key) in es) && (key in s.queues <==> key in s.got)
      && (key in s.queues ==> s.got[key] + s.queues[key] == SentTo(es, key))
      && (key !in s.queues ==> SentTo(es, key) == [])
  {
    RunInOrder(es, key);
  }

  /** What an inbox has handed out, and whether nothing is waiting in it. */
  function GotBy(es: seq<Event>, key: Text): seq<Packet> {
    if key in Run(es).got then Run(es).got[key] else []
  }

  predicate Drained(es: seq<Event>, key: Text) {
    key in Run(es).queues && Run(es).queues[key] == []
  }

  // ---- The object ----

  class Bus {
    var queues: map<Text, seq<Packet>>
    ghost var got: map<Text, seq<Packet>>

    ghost function Abs(): State
      reads this
    {
      State(queues, got)
    }

    constructor ()
      ensures Abs() == NO_INBOXES
    {
      queues, got := map[], map[];
    }

    method NewClient(key: Text)
      modifies this
      ensures Abs() == Step(old(Abs()), Event.Open(key))
    {
      if key !in queues {
        queues := queues[key := []];
        got := got[key := []];
      }
    }

    /** Refused when there is no such inbox. */
    method SendTo(from: Text, to: Text, body: Text) returns (ok: bool)
      modifies this
      ensures Abs() == Step(old(Abs()), Event.Send(from, to, body))
      ensures ok <==> to in old(queues)
    {
      if to !in queues {
        return false;
      }
      queues := queues[to := queues[to] + [Packet(from, body)]];
      ok := true;
    }

    method RecvOnce(key: Text) returns (p: Option<Packet>)
      requires key in queues ==> key in got
      modifies this
      ensures Abs() == Step(old(Abs()), Event.Receive(key))
      ensures p == if key in old(queues) && old(queues)[key] != [] then Some(old(queues)[key][0]) else None
    {
      if key !in queues || |queues[key]| == 0 {
        return None;
      }
      var first := queues[key][0];
      queues := queues[key := queues[key][1..]];
      got := got[key := got[key] + [first]];
      p := Some(first);
    }
  }
}
