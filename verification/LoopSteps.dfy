/**
 * A turn of the client's transfer loop, as the loop's methods compute it, is a run of the
 * composed system: deliveries of what it reads, a timer check and a send, with the server free
 * to take deliveries in between.
 */
module LoopSteps {
  import opened Types
  import opened Codec
  import opened Windows
  import opened WindowProperties
  import opened Sending
  import opened Servers
  import opened Clients
  import opened Systems
  import opened Progress
  import opened Turns

  /** Everything read is something the server has sent. */
  ghost predicate ReadFrom(arrivals: seq<Arrival>, replies: seq<Datagram>) {
    forall i: nat | i < |arrivals| :: arrivals[i].datagram in replies
  }

  /** The client is in its transfer loop. */
  ghost predicate Looping(c: Config, s: System) {
    Runnable(c) && SystemOk(c, s) && s.client.Transferring?
  }

  /** Steps of the client while transferring. */
  predicate ClientSteps(steps: seq<Step>) {
    forall i: nat | i < |steps| :: steps[i].ToClient? || steps[i].CheckTimers? || steps[i].SendData?
  }

  predicate ServerSteps(steps: seq<Step>) {
    forall i: nat | i < |steps| :: steps[i].ToServer?
  }

  /** Between the two states only the client and the clock have moved, and nothing was sent. */
  ghost predicate OnlyRead(s: System, t: System) {
    && t == s.(client := t.client, clock := t.clock)
    && s.client.Transferring? && t.client.Transferring?
    && t.client.sending.log == s.client.sending.log
  }

  /** The client can read these datagrams of the server, from this time on. */
  ghost predicate CanRead(c: Config, s: System, arrivals: seq<Arrival>, from: int) {
    Looping(c, s) && ReadFrom(arrivals, s.toClient) && s.clock <= from && InOrder(from, arrivals)
  }

  /** It has read, by client steps alone, up to this time at most. */
  ghost predicate HasRead(c: Config, s: System, steps: seq<Step>, t: System, time: int) {
    && Looping(c, s) && Looping(c, t)
    && Reaches(c, s, steps, t) && ClientSteps(steps) && OnlyRead(s, t) && t.clock <= time
  }

  lemma SingleStep(c: Config, s: System, step: Step)
    requires Runnable(c) && SystemOk(c, s) && Enabled(s, step)
    ensures Reaches(c, s, [step], Apply(c, s, step))
  {
    hide Apply;
    assert [step][1..] == [];
    assert Reaches(c, Apply(c, s, step), [], Apply(c, s, step));
  }

  /** Reading one datagram is one delivery. */
  lemma ArrivalIsStep(c: Config, s: System, a: Arrival) returns (steps: seq<Step>, t: System)
    requires Looping(c, s) && a.datagram in s.toClient && s.clock <= a.time
    ensures HasRead(c, s, steps, t, a.time) && t.clock == a.time
    ensures t.client.sending.window == Absorbed(c.session, s.client.sending.window, a)
  {
    hide DecodePacket, ProcessAck;
    var k: nat :| k < |s.toClient| && s.toClient[k] == a.datagram;
    SingleStep(c, s, ToClient(k, a.time));
    steps, t := [ToClient(k, a.time)], Apply(c, s, ToClient(k, a.time));
  }

  /** Draining is one delivery after the other. */
  lemma {:induction false} DrainIsSteps(c: Config, s: System, arrivals: seq<Arrival>, from: int)
    returns (steps: seq<Step>, t: System)
    requires CanRead(c, s, arrivals, from)
    ensures HasRead(c, s, steps, t, EndTime(from, arrivals))
    ensures t.client.sending.window == Drained(c.session, s.client.sending.window, arrivals)
  {
    hide Apply, Absorbed, Reaches, Runnable, Total;
    if arrivals == [] {
      StandStill(c, s);
      steps, t := [], s;
    } else {
      var n := |arrivals| - 1;
      var a, m := DrainIsSteps(c, s, arrivals[..n], from);
      assert arrivals[n].datagram in s.toClient;
      var b, u := ArrivalIsStep(c, m, arrivals[n]);
      ReachesJoin(c, s, a, m, b, u);
      steps, t := a + b, u;
    }
  }

  lemma StandStill(c: Config, s: System)
    requires Runnable(c) && SystemOk(c, s)
    ensures Reaches(c, s, [], s)
  {
  }

  /** Waiting for an ACK delivers what it reads, and leaves the rest for later. */
  lemma {:induction false} WaitIsSteps(c: Config, s: System, arrivals: seq<Arrival>, from: int)
    returns (steps: seq<Step>, t: System)
    requires CanRead(c, s, arrivals, from)
    ensures HasRead(c, s, steps, t, EndTime(from, arrivals))
    ensures t.client.sending.window == Awaited(c.session, s.client.sending.window, arrivals)
  {
    hide Apply, Absorbed, Reaches, WaitEnded, Runnable, Total;
    if arrivals == [] {
      StandStill(c, s);
      steps, t := [], s;
    } else {
      var n := |arrivals| - 1;
      InOrderEnds(from, arrivals[..n]);
      if WaitEnded(c.session, arrivals[..n]) {
        steps, t := WaitIsSteps(c, s, arrivals[..n], from);
      } else {
        assert arrivals[n].datagram in s.toClient;
        steps, t := ArrivalIsStep(c, s, arrivals[n]);
      }
    }
  }

  /** The state after the first half of a turn: drained, timers checked, one packet sent if any. */
  ghost function HalfTurn(c: Config, s: System, t: Turn): System
    requires Looping(c, s)
  {
    var x := s.client.sending;
    var timed := CheckTimeouts(Drained(c.session, x.window, t.before), t.checked, RTO);
    var (y, sent) := ClientSend(c, Sending(timed, t.checked, x.log), t.sentAt);
    s.(client := Transferring(y), toServer := s.toServer + sent, clock := t.sentAt)
  }

  lemma CheckIsStep(c: Config, s: System, now: int) returns (t: System)
    requires Looping(c, s) && s.clock <= now
    ensures Looping(c, t) && Reaches(c, s, [CheckTimers(now)], t)
    ensures t == s.(client := Transferring(Sending(CheckTimeouts(s.client.sending.window, now, RTO),
                                                   now, s.client.sending.log)), clock := now)
  {
    hide CheckTimeouts;
    SingleStep(c, s, CheckTimers(now));
    t := Apply(c, s, CheckTimers(now));
  }

  lemma SendIsStep(c: Config, s: System, now: int) returns (t: System)
    requires Looping(c, s) && s.clock <= now
    ensures Looping(c, t) && Reaches(c, s, [SendData(now)], t)
    ensures t == s.(client := Transferring(ClientSend(c, s.client.sending, now).0),
                    toServer := s.toServer + ClientSend(c, s.client.sending, now).1, clock := now)
  {
    hide ClientSend;
    SingleStep(c, s, SendData(now));
    t := Apply(c, s, SendData(now));
  }

  /** The last two steps are the turn's timer check and its send. */
  predicate EndsInCheckAndSend(steps: seq<Step>, t: Turn) {
    && |steps| >= 2
    && steps[|steps| - 2] == CheckTimers(t.checked) && steps[|steps| - 1] == SendData(t.sentAt)
  }

  lemma FirstHalfIsSteps(c: Config, s: System, t: Turn) returns (steps: seq<Step>)
    requires Looping(c, s) && ReadFrom(t.before, s.toClient) && TurnInOrder(s.clock, t)
    ensures Looping(c, HalfTurn(c, s, t)) && Reaches(c, s, steps, HalfTurn(c, s, t))
    ensures ClientSteps(steps) && EndsInCheckAndSend(steps, t)
  {
    hide Apply, Reaches, ClientSend, CheckTimeouts, Drained, InOrder, EndTime, Runnable, Total;
    var a, m := DrainIsSteps(c, s, t.before, s.clock);
    var n := CheckIsStep(c, m, t.checked);
    var o := SendIsStep(c, n, t.sentAt);
    assert o == HalfTurn(c, s, t);
    ReachesJoin(c, m, [CheckTimers(t.checked)], n, [SendData(t.sentAt)], o);
    ReachesJoin(c, s, a, m, [CheckTimers(t.checked)] + [SendData(t.sentAt)], o);
    steps := a + ([CheckTimers(t.checked)] + [SendData(t.sentAt)]);
  }

  /** Deliveries to the server leave the client and its log alone, and only add replies. */
  lemma {:induction false} ServerStepsKeepClient(c: Config, s: System, steps: seq<Step>, t: System)
    requires Looping(c, s) && Reaches(c, s, steps, t) && ServerSteps(steps)
    ensures Looping(c, t) && t.client == s.client && t.toServer == s.toServer && s.clock <= t.clock
    decreases |steps|
  {
    hide ServerReceive;
    if steps != [] {
      assert steps[0].ToServer?;
      ToServerEffect(c, s, steps[0].k, steps[0].now);
      ServerStepsKeepClient(c, Apply(c, s, steps[0]), steps[1..], t);
    }
  }

  /** The client can take this turn from `s`, with the server getting from the half turn to `m`. */
  ghost predicate Interleaved(c: Config, s: System, t: Turn, serving: seq<Step>, m: System) {
    && Looping(c, s) && ReadFrom(t.before, s.toClient) && TurnInOrder(s.clock, t)
    && SystemOk(c, HalfTurn(c, s, t))
    && Reaches(c, HalfTurn(c, s, t), serving, m) && ServerSteps(serving)
    && ReadFrom(t.after, m.toClient) && InOrder(m.clock, t.after)
  }

  /** The client's window and requests are those the loop computes; the server's side is that of `m`. */
  ghost predicate TurnDone(c: Config, s: System, t: Turn, m: System, u: System) {
    && Looping(c, s) && Looping(c, u)
    && u.client.sending.window == Turned(c, s.client.sending.window, t).0
    && u.toServer == s.toServer + Turned(c, s.client.sending.window, t).1
    && u.server == m.server && u.toClient == m.toClient
  }

  /**
   * A whole turn: the client reads and sends, the server takes any deliveries meanwhile, the
   * client reads again. The system gets from `s` to a state whose window and whose requests are
   * exactly those the loop computes, by client steps around the server's.
   */
  lemma TurnIsSteps(c: Config, s: System, t: Turn, serving: seq<Step>, m: System)
    returns (before: seq<Step>, after: seq<Step>, u: System)
    requires Interleaved(c, s, t, serving, m)
    ensures Reaches(c, s, before + (serving + after), u) && TurnDone(c, s, t, m, u)
    ensures ClientSteps(before) && EndsInCheckAndSend(before, t) && ClientSteps(after)
  {
    hide Apply, Reaches, Transmit, CheckTimeouts, Drained, Awaited, InOrder, DataDatagram, Runnable,
         Total;
    before := FirstHalfIsSteps(c, s, t);
    var h := HalfTurn(c, s, t);
    ServerStepsKeepClient(c, h, serving, m);
    var x := s.client.sending;
    var timed := CheckTimeouts(Drained(c.session, x.window, t.before), t.checked, RTO);
    if Transmit(timed, t.sentAt).1.None? {
      after, u := WaitIsSteps(c, m, t.after, m.clock);
    } else {
      after, u := DrainIsSteps(c, m, t.after, m.clock);
    }
    ReachesJoin(c, h, serving, m, after, u);
    ReachesJoin(c, s, before, h, serving + after, u);
  }
}
