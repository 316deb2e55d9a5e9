/**
 The component list: one goroutine per manifest entry writes its own slot and then
 signals a buffered channel; the list is used once every signal has been received.
 Every interleaving is a run of the step relation below.
 */
module Components {
  import opened Wrappers
  import opened Counting

  datatype Status = Status(name: string, category: string, version: string, online: bool, error: string)

  datatype Phase = Probing | Written | Signalled

  predicate HasSignalled(p: Phase) {
    p.Signalled?
  }

  /** Slots are None until written; `tokens` are in the channel, `received` taken out. */
  datatype Gather = Gather(out: seq<Option<Status>>, phases: seq<Phase>, tokens: nat, received: nat)

  datatype Event = Write(i: nat) | Signal(i: nat) | Receive

  function Start(n: nat): Gather {
    Gather(seq(n, i => None), seq(n, i => Probing), 0, 0)
  }

  /** The channel holds one token per entry; the main goroutine receives one per entry. */
  predicate Enabled(g: Gather, e: Event) {
    match e
    case Write(i) => i < |g.phases| == |g.out| && g.phases[i].Probing?
    case Signal(i) => i < |g.phases| && g.phases[i].Written? && g.tokens < |g.phases|
    case Receive => g.tokens > 0 && g.received < |g.phases|
  }

  function Apply(statuses: seq<Status>, g: Gather, e: Event): Gather
    requires Enabled(g, e) && |statuses| == |g.phases|
  {
    match e
    case Write(i) => g.(out := g.out[i := Some(statuses[i])], phases := g.phases[i := Written])
    case Signal(i) => g.(phases := g.phases[i := Signalled], tokens := g.tokens + 1)
    case Receive => g.(tokens := g.tokens - 1, received := g.received + 1)
  }

  ghost predicate IsRun(statuses: seq<Status>, states: seq<Gather>, events: seq<Event>) {
    && |states| == |events| + 1 && states[0] == Start(|statuses|)
    && forall i | 0 <= i < |events| ::
         && |states[i].phases| == |statuses| && Enabled(states[i], events[i])
         && states[i + 1] == Apply(statuses, states[i], events[i])
  }

  ghost predicate Inv(statuses: seq<Status>, g: Gather) {
    && |g.out| == |g.phases| == |statuses|
    && g.tokens + g.received == Count(g.phases, HasSignalled)
    && (forall i | 0 <= i < |g.phases| :: g.out[i] == if g.phases[i].Probing? then None else Some(statuses[i]))
  }

  lemma InvStep(statuses: seq<Status>, g: Gather, e: Event)
    requires Inv(statuses, g) && Enabled(g, e)
    ensures Inv(statuses, Apply(statuses, g, e))
  {
    if !e.Receive? {
      CountUpdate(g.phases, e.i, Apply(statuses, g, e).phases[e.i], HasSignalled);
    }
  }

  lemma {:induction false} RunsKeepInv(statuses: seq<Status>, states: seq<Gather>, events: seq<Event>)
    requires IsRun(statuses, states, events)
    ensures forall i | 0 <= i < |states| :: Inv(statuses, states[i])
  {
    CountNone(Start(|statuses|).phases, HasSignalled);
    if events != [] {
      var n := |events| - 1;
      RunsKeepInv(statuses, states[..n + 1], events[..n]);
      assert Inv(statuses, states[..n + 1][n]);
      InvStep(statuses, states[n], events[n]);
    }
  }

  /** A signal never blocks: the channel has room for every entry's token. */
  lemma SignalNeverBlocks(statuses: seq<Status>, g: Gather, i: nat)
    requires Inv(statuses, g) && i < |g.phases| && g.phases[i].Written?
    ensures Enabled(g, Signal(i))
  {
    CountUpdate(g.phases, i, Signalled, HasSignalled);
  }

  /** While the main goroutine waits, something can move. */
  lemma NeverStuck(statuses: seq<Status>, g: Gather)
    requires Inv(statuses, g) && g.received < |g.phases|
    ensures exists e :: Enabled(g, e)
  {
    if i :| 0 <= i < |g.phases| && g.phases[i].Probing? {
      assert Enabled(g, Write(i));
    } else if i :| 0 <= i < |g.phases| && g.phases[i].Written? {
      SignalNeverBlocks(statuses, g, i);
      assert Enabled(g, Signal(i));
    } else {
      AllCounted(g.phases);
      assert Enabled(g, Receive);
    }
  }

  predicate HasWritten(p: Phase) {
    !p.Probing?
  }

  /** Every run ends: three steps per entry, its write, its signal and the signal's receipt. */
  lemma {:induction false} RunsEnd(statuses: seq<Status>, states: seq<Gather>, events: seq<Event>)
    requires IsRun(statuses, states, events)
    ensures var g := states[|events|];
            |events| == Count(g.phases, HasWritten) + Count(g.phases, HasSignalled) + g.received
    ensures |events| <= 3 * |statuses|
  {
    RunsKeepInv(statuses, states, events);
    if events == [] {
      CountNone(Start(|statuses|).phases, HasWritten);
      CountNone(Start(|statuses|).phases, HasSignalled);
    } else {
      var n := |events| - 1;
      var g, e := states[n], events[n];
      RunsEnd(statuses, states[..n + 1], events[..n]);
      if !e.Receive? {
        CountUpdate(g.phases, e.i, Apply(statuses, g, e).phases[e.i], HasWritten);
        CountUpdate(g.phases, e.i, Apply(statuses, g, e).phases[e.i], HasSignalled);
      }
    }
    assert states[|events|].received <= Count(states[|events|].phases, HasSignalled);
  }

  lemma {:induction false} AllCounted(phases: seq<Phase>)
    requires forall i | 0 <= i < |phases| :: phases[i].Signalled?
    ensures Count(phases, HasSignalled) == |phases|
  {
    if phases != [] {
      AllCounted(phases[..|phases| - 1]);
    }
  }

  /** The slots, read out once all are filled, with the UI and external rows appended. */
  function Listing(g: Gather, ui: Status, external: seq<Status>): seq<Status>
    requires forall i | 0 <= i < |g.out| :: g.out[i].Some?
  {
    seq(|g.out|, i requires 0 <= i < |g.out| => g.out[i].value) + [ui] + external
  }

  /**
   In every completion order, once all signals are received every slot is filled, and each row of
   the list is in its place: the manifest's in manifest order, then the UI's, then the external ones.
   */
  lemma GatherIsOrdered(statuses: seq<Status>, states: seq<Gather>, events: seq<Event>,
                        ui: Status, external: seq<Status>)
    requires IsRun(statuses, states, events)
    requires states[|events|].received == |statuses|
    ensures forall i | 0 <= i < |states[|events|].out| :: states[|events|].out[i].Some?
    ensures var list, n := Listing(states[|events|], ui, external), |statuses|;
            |list| == n + 1 + |external| && list[..n] == statuses && list[n] == ui && list[n + 1..] == external
  {
    RunsKeepInv(statuses, states, events);
    var g := states[|events|];
    forall i | 0 <= i < |g.out| ensures g.out[i] == Some(statuses[i]) {
      CountAll(g.phases, HasSignalled, i);
    }
  }
}
