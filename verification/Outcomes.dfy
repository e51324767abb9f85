/**
 * How runs may end for every choice of options with which both programs start: the transfer can
 * finish exactly when the MTUs agree and the pacing rate is not cut down to zero, and the client
 * can fail exactly when one of the two is not so.
 */
module Outcomes {
  import opened Types
  import opened Chunks
  import opened Codec
  import opened Receivers
  import opened Servers
  import opened Clients
  import opened Systems
  import opened SystemInvariant
  import opened Delivery
  import opened Progress

  const REFUSED: StartAckPayload := StartAckPayload(STATUS_INVALID_REQUEST, 0, 0, 0)

  function Refusal(c: Config): Datagram {
    StartAckDatagram(c.session, REFUSED)
  }

  /** Nothing but STARTs and refusals; the server still listens, the client starts or has failed. */
  ghost predicate Refusing(c: Config, s: System)
    requires Runnable(c)
  {
    && s.server == Listening
    && (s.client.Starting? || s.client.Failed?)
    && (forall k: nat | k < |s.toServer| :: s.toServer[k] == StartDatagram(c))
    && (forall k: nat | k < |s.toClient| :: s.toClient[k] == Refusal(c))
  }

  /** A server with another chunk size refuses the client's START, and goes on listening. */
  lemma StartIsRefused(c: Config, now: int)
    requires Runnable(c) && !Matched(c)
    ensures Listen(c.serverMtu, StartDatagram(c), now) == (Listening, [Refusal(c)])
  {
    hide DecodePacket, StartDatagram, StartAckDatagram, DecodeStart, Total, WindowChunks, ChunkCount;
    StartDecodes(c);
  }

  /** The refusal ends the client. */
  lemma RefusalFails(c: Config, now: int)
    requires Runnable(c)
    ensures ClientReceive(c, Starting, Refusal(c), now) == Failed
    ensures ClientReceive(c, Failed, Refusal(c), now) == Failed
  {
    hide DecodePacket, EncodePacket;
    PayloadWidths();
    PackDecodes(START_ACK, c.session, 0, 0, EncodeStartAck(REFUSED));
    StartAckRoundTrip(REFUSED);
  }

  lemma RefusingStep(c: Config, s: System, step: Step)
    requires Runnable(c) && !Matched(c) && SystemOk(c, s) && Refusing(c, s) && Enabled(s, step)
    ensures Refusing(c, Apply(c, s, step))
  {
    hide Listen, ClientReceive, StartDatagram, Refusal;
    if step.ToServer? {
      StartIsRefused(c, step.now);
    } else if step.ToClient? {
      RefusalFails(c, step.now);
    }
  }

  /** With different MTUs no run ever leaves START: nothing is transferred. */
  lemma {:induction false} MismatchNeverTransfers(c: Config, s: System, steps: seq<Step>, t: System)
    requires Runnable(c) && !Matched(c) && SystemOk(c, s) && Refusing(c, s)
    requires Reaches(c, s, steps, t)
    ensures Refusing(c, t)
    decreases |steps|
  {
    hide Apply, Refusing;
    if steps != [] {
      RefusingStep(c, s, steps[0]);
      MismatchNeverTransfers(c, Apply(c, s, steps[0]), steps[1..], t);
    }
  }

  // ---------------------------------------------------------------- a rate of zero

  function Welcome(c: Config): Datagram
    requires Runnable(c)
  {
    StartAckDatagram(c.session, Accept(StartOf(c)))
  }

  /** The server waits for a START, or for data of which none has come. */
  ghost predicate Untouched(c: Config, s: Server)
    requires Runnable(c)
  {
    || s.Listening?
    || (&& s.Receiving?
        && s.transfer.session == c.session && s.transfer.start == StartOf(c)
        && s.transfer.accepted == Accept(StartOf(c))
        && s.transfer.tracker == NewReceiver(Total(c)) && s.transfer.output == Zeros(|c.input|))
  }

  /** Nothing but STARTs and their answers; the client starts or has failed. */
  ghost predicate Unpaced(c: Config, s: System)
    requires Runnable(c)
  {
    && Untouched(c, s.server)
    && (s.client.Starting? || s.client.Failed?)
    && (forall k: nat | k < |s.toServer| :: s.toServer[k] == StartDatagram(c))
    && (forall k: nat | k < |s.toClient| :: s.toClient[k] == Welcome(c))
  }

  /** A server of the same MTU welcomes the client, first and again, and stays as it is. */
  lemma StartIsWelcome(c: Config, s: Server, now: int)
    requires Runnable(c) && Matched(c) && ServerOk(s) && Untouched(c, s)
    ensures var (v, sent) := ServerReceive(c.serverMtu, s, StartDatagram(c), now);
      v.Receiving? && Untouched(c, v) && sent == [Welcome(c)]
  {
    hide DecodePacket, StartDatagram, StartAckDatagram, DecodeStart, StartOf, Total, ValidStart,
         Tracks;
    StartDecodes(c);
    if s.Listening? {
      FirstStart(c, StartDatagram(c), now);
      FreshFields(c, now);
    }
  }

  lemma FreshFields(c: Config, now: int)
    requires Runnable(c)
    ensures Untouched(c, Receiving(NewTransfer(c.session, StartOf(c), now)))
  {
  }

  /** Without a pacer the welcome ends the client. */
  lemma WelcomeFails(c: Config, now: int)
    requires Runnable(c) && c.rateBps == 0
    ensures ClientReceive(c, Starting, Welcome(c), now) == Failed
    ensures ClientReceive(c, Failed, Welcome(c), now) == Failed
  {
    hide DecodePacket, EncodePacket, StartOf;
    PayloadWidths();
    PackDecodes(START_ACK, c.session, 0, 0, EncodeStartAck(Accept(StartOf(c))));
    StartAckRoundTrip(Accept(StartOf(c)));
  }

  lemma UnpacedStep(c: Config, s: System, step: Step)
    requires Runnable(c) && Matched(c) && c.rateBps == 0
    requires SystemOk(c, s) && Unpaced(c, s) && Enabled(s, step)
    ensures Unpaced(c, Apply(c, s, step))
  {
    hide ServerReceive, ClientReceive, StartDatagram, Welcome, Untouched;
    if step.ToServer? {
      StartIsWelcome(c, s.server, step.now);
    } else if step.ToClient? {
      WelcomeFails(c, step.now);
    }
  }

  /** With a rate of zero no run ever sends a byte of the file, although the server is ready for it. */
  lemma {:induction false} ZeroRateNeverTransfers(c: Config, s: System, steps: seq<Step>, t: System)
    requires Runnable(c) && Matched(c) && c.rateBps == 0 && SystemOk(c, s) && Unpaced(c, s)
    requires Reaches(c, s, steps, t)
    ensures Unpaced(c, t)
    decreases |steps|
  {
    hide Apply, Unpaced;
    if steps != [] {
      UnpacedStep(c, s, steps[0]);
      ZeroRateNeverTransfers(c, Apply(c, s, steps[0]), steps[1..], t);
    }
  }

  // ---------------------------------------------------------------- both refusals

  /** START out, the server's answer back: the client fails, whichever option is wrong. */
  lemma IncompatibleFails(c: Config, start: int) returns (steps: seq<Step>, t: System)
    requires Runnable(c) && !Compatible(c)
    ensures Reaches(c, Initial(start), steps, t) && t.client.Failed?
    ensures if Matched(c) then t.server.Receiving? else t.server.Listening?
  {
    hide ServerReceive, ClientReceive, StartDatagram, Refusal, Welcome;
    var s := Initial(start);
    var a := Apply(c, s, SendStart(start));
    if Matched(c) {
      StartIsWelcome(c, Listening, start);
      WelcomeFails(c, start);
    } else {
      ListeningRefuses(c, start);
      RefusalFails(c, start);
    }
    ToServerEffect(c, a, 0, start);
    var b := Apply(c, a, ToServer(0, start));
    t := Apply(c, b, ToClient(0, start));
    steps := [SendStart(start), ToServer(0, start), ToClient(0, start)];
    assert Reaches(c, t, [], t);
    assert steps[1..][1..] == [ToClient(0, start)] && [ToClient(0, start)][1..] == [];
    assert Reaches(c, b, [ToClient(0, start)], t);
    assert Reaches(c, a, steps[1..], t);
  }

  lemma ListeningRefuses(c: Config, now: int)
    requires Runnable(c) && !Matched(c)
    ensures ServerReceive(c.serverMtu, Listening, StartDatagram(c), now) == (Listening, [Refusal(c)])
  {
    hide Listen, StartDatagram, Refusal;
    StartIsRefused(c, now);
  }

  /** What is so in every run of an incompatible pair. */
  lemma IncompatibleRuns(c: Config, start: int, steps: seq<Step>, t: System)
    requires Runnable(c) && !Compatible(c) && Reaches(c, Initial(start), steps, t)
    ensures if Matched(c) then Unpaced(c, t) else Refusing(c, t)
  {
    hide Apply, StartDatagram, Refusal, Welcome;
    if Matched(c) {
      ZeroRateNeverTransfers(c, Initial(start), steps, t);
    } else {
      MismatchNeverTransfers(c, Initial(start), steps, t);
    }
  }

  /** In every such run the first reply that reaches the client ends it. */
  lemma FirstReplyFails(c: Config, start: int, steps: seq<Step>, s: System, k: nat, now: int)
    requires Runnable(c) && !Compatible(c) && Reaches(c, Initial(start), steps, s)
    requires SystemOk(c, s) && s.client.Starting? && Enabled(s, ToClient(k, now))
    ensures Apply(c, s, ToClient(k, now)).client == Failed
  {
    hide Reaches, ClientReceive, StartDatagram, Refusal, Welcome;
    IncompatibleRuns(c, start, steps, s);
    if Matched(c) {
      WelcomeFails(c, now);
    } else {
      RefusalFails(c, now);
    }
  }

  ghost predicate CanFinish(c: Config, start: int)
    requires Runnable(c)
  {
    exists steps: seq<Step>, t: System :: Reaches(c, Initial(start), steps, t) && t.client.Finished?
  }

  ghost predicate CanFail(c: Config, start: int)
    requires Runnable(c)
  {
    exists steps: seq<Step>, t: System :: Reaches(c, Initial(start), steps, t) && t.client.Failed?
  }

  /**
   * For all inputs with which both programs start: some run finishes exactly when the MTUs are
   * the same and the rate is at least one bit per second, and some run ends in an exception of
   * the client exactly when that is not so.
   */
  lemma OptionsDecide(c: Config, start: int)
    requires Runnable(c)
    ensures CanFinish(c, start) <==> Compatible(c)
    ensures CanFail(c, start) <==> !Compatible(c)
  {
    hide SystemInv, Apply, Refusal, Welcome, StartDatagram, Compatible;
    if Compatible(c) {
      var more, t := CompletionStaysReachable(c, start, [], Initial(start));
      forall steps: seq<Step>, u: System | Reaches(c, Initial(start), steps, u)
        ensures !u.client.Failed?
      {
        NobodyFails(c, start, steps, u);
      }
    } else {
      var steps, t := IncompatibleFails(c, start);
      forall more: seq<Step>, u: System | Reaches(c, Initial(start), more, u)
        ensures !u.client.Finished?
      {
        IncompatibleRuns(c, start, more, u);
      }
    }
  }
}
