/**
 * The step-by-step reveal of app.py: a session-scoped cursor that decides
 * how many turns are shown, and the "Next step" / "Restart steps" actions
 * that move it. The functions here give the cursor's value; App.Session
 * holds it and updates it in place.
 */
module Reveal {
  import opened Wrappers
  import opened Transcript

  /** The navigation action offered under the transcript. */
  datatype Nav = NextStep | RestartSteps | NoNav

  /** The cursor once a run has its turns: the last index when step mode is
      off, whatever the session held before; in step mode the value the
      session already holds, or 0 when it holds none. */
  function InitialCursor(stepMode: bool, prior: Option<int>, count: nat): int
  {
    if !stepMode then count - 1
    else if prior.None? then 0
    else prior.value
  }

  /** The display condition of one turn: its index is at most the cursor. */
  predicate IndexShown(i: int, cursor: int)
  {
    i <= cursor
  }

  /** How many of count turns pass the display condition; they are exactly
      the first ones. */
  function ShownCount(cursor: int, count: nat): (n: nat)
    ensures n <= count
    ensures forall i :: 0 <= i < count ==> (i < n <==> IndexShown(i, cursor))
  {
    if cursor < 0 then 0 else if cursor >= count then count else cursor + 1
  }

  /** "Next step" below the last index, "Restart steps" at it, nothing past
      it or outside step mode. */
  function Offer(stepMode: bool, cursor: int, count: nat): Nav
  {
    if stepMode && cursor < count - 1 then NextStep
    else if stepMode && cursor == count - 1 then RestartSteps
    else NoNav
  }

  /** The cursor after the offered action is, or is not, clicked. */
  function AfterClick(nav: Nav, cursor: int, clicked: bool): int
  {
    if !clicked then cursor
    else
      match nav
      case NextStep => cursor + 1
      case RestartSteps => 0
      case NoNav => cursor
  }

  /** The display loop: every turn whose index is at most the cursor, in
      order. */
  method VisibleTurns(turns: seq<Turn>, cursor: int) returns (shown: seq<Turn>)
    ensures shown == turns[..ShownCount(cursor, |turns|)]
  {
    shown := [];
    for idx := 0 to |turns|
      invariant shown == turns[..ShownCount(cursor, idx)]
    {
      if IndexShown(idx, cursor) {
        shown := shown + [turns[idx]];
      }
    }
  }

  /** With step mode off every turn is shown and nothing is offered,
      whatever cursor the session held. */
  lemma NotSteppingShowsAll(prior: Option<int>, count: nat)
    requires count >= 1
    ensures ShownCount(InitialCursor(false, prior, count), count) == count
    ensures Offer(false, InitialCursor(false, prior, count), count) == NoNav
  {
  }

  /** Entering step mode in a fresh session shows the first turn only and
      offers "Next step" when there is more to show. */
  lemma FreshSteppingShowsFirst(count: nat)
    requires count >= 1
    ensures ShownCount(InitialCursor(true, None, count), count) == 1
    ensures Offer(true, InitialCursor(true, None, count), count) == if count > 1 then NextStep else RestartSteps
  {
  }

  /** Which action step mode offers, in both directions. */
  lemma OfferCases(cursor: int, count: nat)
    ensures Offer(true, cursor, count) == NextStep <==> cursor < count - 1
    ensures Offer(true, cursor, count) == RestartSteps <==> cursor == count - 1
    ensures Offer(true, cursor, count) == NoNav <==> cursor > count - 1
    ensures Offer(false, cursor, count) == NoNav
  {
  }

  /** "Next step" moves the cursor up by exactly one and reveals exactly one
      more turn; "Restart steps" shows the first turn only. */
  lemma ClickEffects(cursor: int, count: nat)
    requires 0 <= cursor
    ensures Offer(true, cursor, count) == NextStep ==>
              AfterClick(NextStep, cursor, true) == cursor + 1
              && ShownCount(cursor + 1, count) == ShownCount(cursor, count) + 1
    ensures Offer(true, cursor, count) == RestartSteps ==>
              ShownCount(AfterClick(RestartSteps, cursor, true), count) == 1
  {
  }

  /** A cursor left past the last index (say by a longer transcript of the
      other workflow) shows every turn and offers nothing. */
  lemma LeftoverCursor(stepMode: bool, cursor: int, count: nat)
    requires cursor > count - 1
    ensures ShownCount(cursor, count) == count
    ensures Offer(stepMode, cursor, count) == NoNav
  {
  }

  /** The cursor after k step-mode runs in which the offered action was
      clicked, starting from cursor. */
  function Clicks(cursor: int, k: nat, count: nat): int
  {
    if k == 0 then cursor
    else
      var c := Clicks(cursor, k - 1, count);
      AfterClick(Offer(true, InitialCursor(true, Some(c), count), count), c, true)
  }

  /** Clicking through in step mode advances one turn per click up to the
      last index. */
  lemma {:induction false} WalkThrough(cursor: int, k: nat, count: nat)
    requires 0 <= cursor && cursor + k <= count - 1
    ensures Clicks(cursor, k, count) == cursor + k
  {
    if k > 0 {
      WalkThrough(cursor, k - 1, count);
    }
  }

  /** From the first turn, count - 1 clicks of "Next step" reach the last
      turn, where "Restart steps" is offered, and one more click returns to
      the first turn. */
  lemma FullCycle(count: nat)
    requires count >= 1
    ensures Clicks(0, count - 1, count) == count - 1
    ensures Offer(true, count - 1, count) == RestartSteps
    ensures Clicks(0, count, count) == 0
  {
    WalkThrough(0, count - 1, count);
  }
}
