/**
 * The race's pure parts: `Promise.any` over the sessions in the order they
 * settle, the winner text, and the global buttons' state machine
 * Idle -> Racing -> AwaitingReset -> Idle.
 */
module Race {
  import opened Wrappers
  import opened Engine

  const NoFinisher := "No car reached the finish line!"

  /** Index of the first fulfilled result, or `|settled|` when every result rejected. */
  function FirstFulfilledIndex(settled: seq<SessionResult>): (k: nat)
    ensures k <= |settled|
    ensures forall j :: 0 <= j < k ==> settled[j].Rejected?
    ensures k < |settled| ==> settled[k].Fulfilled?
  {
    if settled == [] || settled[0].Fulfilled? then 0
    else 1 + FirstFulfilledIndex(settled[1..])
  }

  /**
   * `Promise.any`: the value of the first promise to fulfil, in settle
   * order; `None` (an AggregateError) when every one rejects, including when
   * there are none.
   */
  function Any(settled: seq<SessionResult>): (w: Option<JsValue>)
    ensures w.None? <==> forall k :: 0 <= k < |settled| ==> settled[k].Rejected?
    ensures w.Some? ==>
              exists k :: 0 <= k < |settled| && settled[k] == Fulfilled(w.value) &&
                          forall j :: 0 <= j < k ==> settled[j].Rejected?
  {
    var k := FirstFulfilledIndex(settled);
    if k < |settled| then Some(settled[k].value) else None
  }

  /** A value as a template literal prints it. */
  function Show(v: JsValue): (s: string)
    ensures v.Name? ==> s == v.name
    ensures s == "undefined" <==> v == Undefined || v == Name("undefined")
  {
    match v
    case Name(name) => name
    case Undefined => "undefined"
  }

  /** The text `startRace` puts into the winner field once the race settles. */
  function WinnerText(settled: seq<SessionResult>): (t: string)
    ensures (forall k :: 0 <= k < |settled| ==> settled[k].Rejected?) ==> t == NoFinisher
    ensures (exists k :: 0 <= k < |settled| && settled[k].Fulfilled?) ==>
              exists k :: 0 <= k < |settled| && settled[k].Fulfilled? &&
                          (forall j :: 0 <= j < k ==> settled[j].Rejected?) &&
                          t == "!!! " + Show(settled[k].value) + " won the race !!!"
  {
    match Any(settled)
    case Some(v) => "!!! " + Show(v) + " won the race !!!"
    case None => NoFinisher
  }

  /** The no-finisher text appears exactly when every session rejected. */
  lemma NoFinisherIff(settled: seq<SessionResult>)
    ensures WinnerText(settled) == NoFinisher <==> forall k :: 0 <= k < |settled| ==> settled[k].Rejected?
  {
    if Any(settled).Some? {
      assert WinnerText(settled)[0] == '!' != NoFinisher[0];
    }
  }

  /**
   * A rejection that settles first does not decide the race: when the first
   * settled session rejects and the second fulfils with a name, that name wins.
   */
  lemma EarlyRejectionDoesNotWin(settled: seq<SessionResult>, name: string)
    requires |settled| >= 2 && settled[0] == Rejected && settled[1] == Fulfilled(Name(name))
    ensures WinnerText(settled) == "!!! " + name + " won the race !!!"
  {
    assert FirstFulfilledIndex(settled[1..]) == 0;
  }

  /** The indices 0 .. n-1. */
  function Indices(n: nat): (r: seq<nat>)
    ensures |r| == n && forall k :: 0 <= k < n ==> r[k] == k
  {
    seq(n, k requires 0 <= k < n => k)
  }

  /** An order in which the n sessions settle: each index below n exactly once. */
  predicate IsSettleOrder(order: seq<nat>, n: nat)
  {
    |order| == n && (forall k :: 0 <= k < n ==> order[k] < n) &&
    multiset(order) == multiset(Indices(n))
  }

  /** Every session settles at some point of a settle order. */
  lemma SettleOrderCovers(order: seq<nat>, n: nat)
    requires IsSettleOrder(order, n)
    ensures forall i :: 0 <= i < n ==> i in order
  {
    forall i | 0 <= i < n ensures i in order {
      assert Indices(n)[i] == i;
      assert i in multiset(Indices(n));
      assert i in multiset(order);
    }
  }

  /** The session results listed in the order they settle. */
  function Settle(results: seq<SessionResult>, order: seq<nat>): (settled: seq<SessionResult>)
    requires IsSettleOrder(order, |results|)
    ensures |settled| == |results|
    ensures forall k :: 0 <= k < |settled| ==> settled[k] == results[order[k]]
  {
    seq(|order|, k requires 0 <= k < |order| => results[order[k]])
  }

  /**
   * Whatever order the sessions settle in, the race has no finisher exactly
   * when every session rejected; otherwise the winner is some session's value.
   */
  lemma RaceOutcome(results: seq<SessionResult>, order: seq<nat>)
    requires IsSettleOrder(order, |results|)
    ensures WinnerText(Settle(results, order)) == NoFinisher <==>
              forall i :: 0 <= i < |results| ==> results[i].Rejected?
    ensures Any(Settle(results, order)).Some? ==>
              exists i :: 0 <= i < |results| && results[i] == Fulfilled(Any(Settle(results, order)).value)
  {
    var settled := Settle(results, order);
    SettleOrderCovers(order, |results|);
    NoFinisherIff(settled);
    if forall k :: 0 <= k < |settled| ==> settled[k].Rejected? {
      forall i | 0 <= i < |results| ensures results[i].Rejected? {
        assert i in order;
        var k :| 0 <= k < |order| && order[k] == i;
        assert settled[k] == results[i];
      }
    }
  }

  /** The global buttons and the winner field. */
  datatype Panel = Panel(generateDisabled: bool, resetDisabled: bool, raceDisabled: bool, winnerText: string)

  datatype Phase = Idle | Racing | AwaitingReset

  /** The buttons' enablement in each phase of the race cycle. */
  predicate InPhase(p: Panel, phase: Phase)
  {
    match phase
    case Idle => !p.generateDisabled && !p.raceDisabled && p.resetDisabled
    case Racing => p.generateDisabled && p.raceDisabled && p.resetDisabled
    case AwaitingReset => p.generateDisabled && p.raceDisabled && !p.resetDisabled
  }

  /** The panel as `createControlPanel` builds it: only reset is disabled. */
  const InitialPanel := Panel(false, true, false, "")

  /** The first, synchronous part of `startRace`: disable all three buttons and clear the winner. */
  function BeginRace(p: Panel): (q: Panel)
    ensures InPhase(q, Racing) && q.winnerText == ""
  {
    Panel(true, true, true, "")
  }

  /** The end of `startRace`: show the outcome and re-enable reset, leaving generate and race as they are. */
  function FinishRace(p: Panel, text: string): (q: Panel)
    ensures q.winnerText == text && !q.resetDisabled
    ensures q.generateDisabled == p.generateDisabled && q.raceDisabled == p.raceDisabled
    ensures InPhase(p, Racing) ==> InPhase(q, AwaitingReset)
  {
    p.(winnerText := text, resetDisabled := false)
  }

  /** `resetRace`'s buttons: clear the winner, enable generate and race, disable reset. */
  function ResetPanel(p: Panel): (q: Panel)
    ensures InPhase(q, Idle) && q.winnerText == ""
  {
    Panel(false, true, false, "")
  }

  /**
   * The cycle: from any panel a race ends awaiting reset, with generate and
   * race still disabled, and a reset returns to idle; a reset is idempotent.
   */
  lemma RaceCycle(p: Panel, text: string)
    ensures InPhase(InitialPanel, Idle)
    ensures InPhase(FinishRace(BeginRace(p), text), AwaitingReset)
    ensures ResetPanel(FinishRace(BeginRace(p), text)) == InitialPanel
    ensures ResetPanel(ResetPanel(p)) == ResetPanel(p)
  {
  }
}
