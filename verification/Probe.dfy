/**
  A process that probes: it searches its inbox, sleeps at the end of it, and resumes where it stopped
  when a message has been left there. Nothing is taken off the inbox meanwhile, since only the
  process itself takes messages.
 */
module Probe {
  import opened Basics
  import opened Matching

  datatype Phase = Asleep | Signalled | Found(at: nat)

  /** `seen` messages have been looked at and passed over. */
  datatype Prober = Prober(inbox: seq<Envelope>, seen: nat, phase: Phase)

  /** Arrive: a message no posted receive accepts. Wake: the condition variable returns, possibly spuriously. */
  datatype Step = Arrive(message: Envelope) | Wake

  /** The first match among the messages not yet seen, or the inbox's length. */
  function FirstUnseen(inbox: seq<Envelope>, seen: nat, source: int, tag: int): (at: nat)
    requires seen <= |inbox|
    ensures seen <= at <= |inbox|
    ensures at < |inbox| ==> RecvMatch(inbox[at], source, tag)
    ensures forall i :: seen <= i < at ==> !RecvMatch(inbox[i], source, tag)
    decreases |inbox| - seen
  {
    if seen == |inbox| || RecvMatch(inbox[seen], source, tag) then seen
    else FirstUnseen(inbox, seen + 1, source, tag)
  }

  /** The search between two waits. */
  method Search(inbox: seq<Envelope>, seen: nat, source: int, tag: int) returns (at: nat)
    requires seen <= |inbox|
    ensures at == FirstUnseen(inbox, seen, source, tag)
  {
    at := seen;
    while at < |inbox| && !RecvMatch(inbox[at], source, tag)
      invariant seen <= at <= |inbox|
      invariant FirstUnseen(inbox, at, source, tag) == FirstUnseen(inbox, seen, source, tag)
    {
      at := at + 1;
    }
  }

  function Resume(inbox: seq<Envelope>, seen: nat, source: int, tag: int): Prober
    requires seen <= |inbox|
  {
    var at := FirstUnseen(inbox, seen, source, tag);
    Prober(inbox, at, if at < |inbox| then Found(at) else Asleep)
  }

  function Next(p: Prober, step: Step, source: int, tag: int): Prober
    requires p.seen <= |p.inbox|
  {
    match step
    case Arrive(message) =>
      p.(inbox := p.inbox + [message], phase := if p.phase.Asleep? then Signalled else p.phase)
    case Wake =>
      if p.phase.Found? then p else Resume(p.inbox, p.seen, source, tag)
  }

  ghost predicate PassedOver(p: Prober, source: int, tag: int) {
    && p.seen <= |p.inbox|
    && (forall i :: 0 <= i < p.seen ==> !RecvMatch(p.inbox[i], source, tag))
    && (p.phase.Asleep? ==> p.seen == |p.inbox|)
    && (p.phase.Found? ==> p.phase.at == p.seen < |p.inbox| && RecvMatch(p.inbox[p.seen], source, tag))
  }

  /** The prober after a run that began with the given inbox. */
  function After(inbox: seq<Envelope>, source: int, tag: int, steps: seq<Step>): (p: Prober)
    ensures p.seen <= |p.inbox|
  {
    if steps == [] then Resume(inbox, 0, source, tag)
    else Next(After(inbox, source, tag, steps[..|steps| - 1]), steps[|steps| - 1], source, tag)
  }

  lemma {:induction false} AlwaysPassedOver(inbox: seq<Envelope>, source: int, tag: int, steps: seq<Step>)
    ensures PassedOver(After(inbox, source, tag, steps), source, tag)
  {
    if steps != [] { AlwaysPassedOver(inbox, source, tag, steps[..|steps| - 1]); }
  }

  /** Asleep means that nothing in the inbox matches; a match there is found by the next wake-up at the latest. */
  lemma {:induction false} NoLostProbe(inbox: seq<Envelope>, source: int, tag: int, steps: seq<Step>, i: nat)
    requires i < |After(inbox, source, tag, steps).inbox|
    requires RecvMatch(After(inbox, source, tag, steps).inbox[i], source, tag)
    ensures var p := After(inbox, source, tag, steps);
      !p.phase.Asleep? && Next(p, Wake, source, tag).phase.Found?
  {
    AlwaysPassedOver(inbox, source, tag, steps);
  }

  /** The message reported is the first of the inbox that matches, however the arrivals and wake-ups fell. */
  lemma {:induction false} ProbeFindsFirst(inbox: seq<Envelope>, source: int, tag: int, steps: seq<Step>)
    requires After(inbox, source, tag, steps).phase.Found?
    ensures var p := After(inbox, source, tag, steps);
      p.phase.at < |p.inbox| && p.phase.at == FirstUnseen(p.inbox, 0, source, tag)
  {
    AlwaysPassedOver(inbox, source, tag, steps);
  }
}
