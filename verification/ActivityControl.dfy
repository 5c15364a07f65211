/** The interruption gate between speech synthesis and the transport. */
module ActivityControl {
  datatype Event =
    | SpeakingStarted
    | SpeakingEnded
    | ResponseStarted
    | Audio(duration: real)  // a synthesized chunk, with its length in seconds
    | InterruptionSuspected
    | InterruptionConfirmed
    | OtherEvent

  datatype Destination = NextService | TopService
  datatype Packet = Packet(event: Event, destination: Destination, uid: int)

  // ---------- The gate on values ----------

  /** Handler fields, the packets it has sent, and the runtime's side: `timer` is the
      handler's own reference, `armed` the timers still counting, `due` those that
      have gone off but whose callback has not run yet, `token` the one-slot resume
      channel, `nextTimer` a fresh timer name. */
  datatype Gate = Gate(
    cache: seq<Packet>, suspended: bool, speaking: bool, sentDuration: real, sent: seq<Packet>,
    timer: nat, armed: set<nat>, due: set<nat>, token: bool, nextTimer: nat)

  const NO_TIMER: nat := 0
  const BROADCAST_UID := 0

  function InitialGate(): Gate { Gate([], false, false, 0.0, [], NO_TIMER, {}, {}, false, 1) }

  function EndedBroadcast(): Packet { Packet(SpeakingEnded, TopService, BROADCAST_UID) }

  function Handle(g: Gate, p: Packet): Gate {
    match p.event
    case SpeakingStarted => g.(sentDuration := 0.0, speaking := true, sent := g.sent + [p])
    case SpeakingEnded => g.(speaking := false, sent := g.sent + [p])
    case ResponseStarted => g.(cache := [], sentDuration := 0.0, sent := g.sent + [p])
    case Audio(duration) =>
      if g.suspended then g.(cache := g.cache + [p])
      else g.(sentDuration := g.sentDuration + duration, sent := g.sent + [p])
    case InterruptionSuspected =>
      if g.suspended then g.(sent := g.sent + [p])
      else g.(suspended := true, timer := g.nextTimer, armed := g.armed + {g.nextTimer},
              nextTimer := g.nextTimer + 1, sent := g.sent + [p])
    case InterruptionConfirmed =>
      g.(timer := NO_TIMER, armed := g.armed - {g.timer},
         cache := [], suspended := false, speaking := false, sentDuration := 0.0,
         sent := g.sent + (if g.speaking then [EndedBroadcast()] else []) + [p])
    case OtherEvent => g.(sent := g.sent + [p])
  }

  function Durations(packets: seq<Packet>): real {
    if packets == [] then 0.0
    else
      var last := packets[|packets| - 1];
      Durations(packets[..|packets| - 1]) + (if last.event.Audio? then last.event.duration else 0.0)
  }

  /** The confirmation timer fired without a confirmation. */
  function FalsePositive(g: Gate): Gate {
    g.(cache := [], suspended := false, sentDuration := g.sentDuration + Durations(g.cache), sent := g.sent + g.cache)
  }

  /** What can happen next: a packet arrives, an armed timer goes off, its callback
      runs, or the event loop takes the resume token. Stopping a timer that has gone
      off does not stop its callback. A step that is not possible changes nothing. */
  datatype Label = Arrive(packet: Packet) | Expire(timer: nat) | Fire(timer: nat) | Resume

  function Step(g: Gate, l: Label): Gate {
    match l
    case Arrive(p) => Handle(g, p)
    case Expire(t) => if t in g.armed then g.(armed := g.armed - {t}, due := g.due + {t}) else g
    case Fire(t) => if t in g.due then g.(due := g.due - {t}, token := true) else g
    case Resume => if g.token then FalsePositive(g.(token := false)) else g
  }

  function Run(g: Gate, labels: seq<Label>): Gate {
    if labels == [] then g
    else Step(Run(g, labels[..|labels| - 1]), labels[|labels| - 1])
  }

  // ---------- The handler ----------

  class ActivityControlHandler {
    var cachedChunks: seq<Packet>
    var totalSentDuration: real
    var isSpeaking: bool
    var isSuspended: bool
    var confirmTimer: nat
    var output: seq<Packet>
    // The runtime's side: timers counting, timers gone off, and the one-slot resume channel.
    var armedTimers: set<nat>
    var dueTimers: set<nat>
    var resumeToken: bool
    var freshTimer: nat

    ghost function Now(): Gate
      reads this
    {
      Gate(cachedChunks, isSuspended, isSpeaking, totalSentDuration, output,
           confirmTimer, armedTimers, dueTimers, resumeToken, freshTimer)
    }

    constructor ()
      ensures Now() == InitialGate()
    {
      cachedChunks, totalSentDuration, isSpeaking, isSuspended := [], 0.0, false, false;
      confirmTimer, output, armedTimers, dueTimers, resumeToken, freshTimer := NO_TIMER, [], {}, {}, false, 1;
    }

    method SendPacket(packet: Packet)
      modifies this`output
      ensures output == old(output) + [packet]
    {
      output := output + [packet];
    }

    method StartConfirmTimer()
      modifies this`confirmTimer, this`armedTimers, this`freshTimer
      ensures confirmTimer == old(freshTimer) && freshTimer == old(freshTimer) + 1
      ensures armedTimers == old(armedTimers) + {confirmTimer}
    {
      confirmTimer := freshTimer;
      armedTimers := armedTimers + {confirmTimer};
      freshTimer := freshTimer + 1;
    }

    method StopConfirmTimer()
      modifies this`confirmTimer, this`armedTimers
      ensures confirmTimer == NO_TIMER
      ensures old(confirmTimer) != NO_TIMER ==> armedTimers == old(armedTimers) - {old(confirmTimer)}
      ensures old(confirmTimer) == NO_TIMER ==> armedTimers == old(armedTimers)
    {
      if confirmTimer != NO_TIMER {
        armedTimers := armedTimers - {confirmTimer};
        confirmTimer := NO_TIMER;
      }
    }

    method HandleEvent(packet: Packet)
      requires NO_TIMER !in armedTimers
      modifies this
      ensures Now() == Handle(old(Now()), packet)
    {
      match packet.event
      case SpeakingStarted =>
        totalSentDuration := 0.0;
        isSpeaking := true;
        SendPacket(packet);
      case SpeakingEnded =>
        isSpeaking := false;
        SendPacket(packet);
      case ResponseStarted =>
        cachedChunks := [];
        totalSentDuration := 0.0;
        SendPacket(packet);
      case Audio(duration) =>
        if isSuspended {
          cachedChunks := cachedChunks + [packet];
        } else {
          totalSentDuration := totalSentDuration + duration;
          SendPacket(packet);
        }
      case InterruptionSuspected =>
        if !isSuspended {
          isSuspended := true;
          StartConfirmTimer();
        }
        SendPacket(packet);
      case InterruptionConfirmed =>
        StopConfirmTimer();
        var wasSpeaking := isSpeaking;
        cachedChunks := [];
        isSuspended := false;
        isSpeaking := false;
        totalSentDuration := 0.0;
        if wasSpeaking { SendPacket(EndedBroadcast()); }
        SendPacket(packet);
      case OtherEvent =>
        SendPacket(packet);
    }

    /** The callback of a confirmation timer: a non-blocking send on the resume channel. */
    method TimerFires(t: nat)
      requires t in dueTimers
      modifies this`dueTimers, this`resumeToken
      ensures Now() == Step(old(Now()), Fire(t))
    {
      dueTimers := dueTimers - {t};
      if !resumeToken { resumeToken := true; }
    }

    /** The event loop's resume branch. */
    method TakeResumeToken()
      requires resumeToken
      modifies this
      ensures Now() == Step(old(Now()), Resume)
    {
      resumeToken := false;
      OnFalsePositive();
    }

    method OnFalsePositive()
      modifies this`cachedChunks, this`isSuspended, this`totalSentDuration, this`output
      ensures Now() == FalsePositive(old(Now()))
    {
      var chunks := cachedChunks;
      cachedChunks := [];
      isSuspended := false;
      for i := 0 to |chunks|
        invariant totalSentDuration == old(totalSentDuration) + Durations(chunks[..i])
        invariant output == old(output) + chunks[..i]
        invariant cachedChunks == [] && !isSuspended
      {
        assert chunks[..i + 1][..i] == chunks[..i];
        if chunks[i].event.Audio? {
          totalSentDuration := totalSentDuration + chunks[i].event.duration;
        }
        SendPacket(chunks[i]);
      }
      assert chunks[..|chunks|] == chunks;
    }
  }
}
