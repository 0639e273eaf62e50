/** The endings panel (src/components/game/EndingPanel.tsx): which endings
    are available for the current progress, which trigger buttons are shown,
    and what a click on one of them asks the reducer to do. */
module EndingPanel {
  import opened Types
  import Commands

  /** ENDINGS, in display order. */
  const Endings: seq<Ending> := [StayFight, PlaneDeath, BoatEscape, RadioRescue]

  const KillsForStayFight: nat := 20
  const PartsForEscape: nat := 3

  /** The `check` predicate of each entry of ENDINGS. */
  predicate Available(e: Ending, p: Progress)
  {
    match e
    case StayFight => p.enemiesKilled >= KillsForStayFight
    case PlaneDeath => p.planeParts >= PartsForEscape
    case BoatEscape => p.boatParts >= PartsForEscape
    case RadioRescue => p.radioFixed
  }

  /** The table lists every ending exactly once. */
  lemma EndingTable()
    ensures |Endings| == 4
    ensures forall i, j :: 0 <= i < j < |Endings| ==> Endings[i] != Endings[j]
    ensures forall e: Ending :: e in Endings
  {
    forall e: Ending ensures e in Endings {
      match e
      case StayFight => assert Endings[0] == e;
      case PlaneDeath => assert Endings[1] == e;
      case BoatEscape => assert Endings[2] == e;
      case RadioRescue => assert Endings[3] == e;
    }
  }

  /** Progress `q` is at least `p` on every counter and flag. */
  predicate ProgressAtLeast(q: Progress, p: Progress)
  {
    q.enemiesKilled >= p.enemiesKilled && q.planeParts >= p.planeParts &&
    q.boatParts >= p.boatParts && (p.radioFixed ==> q.radioFixed)
  }

  /** Availability is monotone: more progress never hides an ending. */
  lemma AvailableMonotone(e: Ending, p: Progress, q: Progress)
    requires ProgressAtLeast(q, p) && Available(e, p)
    ensures Available(e, q)
  {
  }

  /** Crafting, killing and any reducer step that only counts up keep every
      available ending available. */
  lemma CraftKeepsAvailable(e: Ending, p: Progress, itemId: string)
    requires Available(e, p)
    ensures Available(e, Commands.CraftProgress(p, itemId))
  {
    AvailableMonotone(e, p, Commands.CraftProgress(p, itemId));
  }

  /** The availability threshold of `stay_fight` is exactly 20 kills. */
  lemma StayFightThreshold(p: Progress)
    ensures p.enemiesKilled == 19 ==> !Available(StayFight, p)
    ensures p.enemiesKilled == 20 ==> Available(StayFight, p)
  {
  }

  /** Three plane parts crafted from scratch unlock `plane_death` (and two do
      not). */
  lemma ThreePlanePartsUnlock()
    ensures var p1 := Commands.CraftProgress(Progress(0, 0, false, 0), "plane_part");
      var p2 := Commands.CraftProgress(p1, "plane_part");
      var p3 := Commands.CraftProgress(p2, "plane_part");
      !Available(PlaneDeath, p2) && Available(PlaneDeath, p3)
  {
  }

  /** The endings shown with a trigger button, in table order. */
  function ButtonsOf(es: seq<Ending>, p: Progress): (r: seq<Ending>)
    ensures |r| <= |es|
    ensures forall e :: e in r <==> e in es && Available(e, p)
  {
    if es == [] then []
    else (if Available(es[0], p) then [es[0]] else []) + ButtonsOf(es[1..], p)
  }

  /** Filtering a table without repeats shows no ending twice. */
  lemma {:induction false} ButtonsDistinct(es: seq<Ending>, p: Progress)
    requires forall i, j :: 0 <= i < j < |es| ==> es[i] != es[j]
    ensures forall i, j :: 0 <= i < j < |ButtonsOf(es, p)| ==> ButtonsOf(es, p)[i] != ButtonsOf(es, p)[j]
  {
    if es != [] {
      var rest := es[1..];
      assert forall i, j :: 0 <= i < j < |rest| ==> rest[i] != rest[j] by {
        forall i, j | 0 <= i < j < |rest| ensures rest[i] != rest[j] {
          assert rest[i] == es[i + 1] && rest[j] == es[j + 1];
        }
      }
      ButtonsDistinct(rest, p);
      assert es[0] !in rest;
      assert es[0] !in ButtonsOf(rest, p);
    }
  }

  /** The panel's buttons: each available ending once, no other. */
  function TriggerButtons(p: Progress): (r: seq<Ending>)
    ensures forall e :: e in r <==> Available(e, p)
    ensures forall i, j :: 0 <= i < j < |r| ==> r[i] != r[j]
  {
    EndingTable();
    ButtonsDistinct(Endings, p);
    ButtonsOf(Endings, p)
  }

  /** Clicking on the card at position `i`: `onTriggerEnding(ending.id)` is
      issued only when that card's check passes, with the card's own ending. */
  function ClickEnding(p: Progress, i: nat): (r: Option<Ending>)
    requires i < |Endings|
    ensures r.Some? <==> Available(Endings[i], p)
    ensures r.Some? ==> r.value == Endings[i]
  {
    if Available(Endings[i], p) then Some(Endings[i]) else None
  }

  /** A click that issues a trigger ends the game with an ending whose
      requirement was met. */
  lemma ClickEndsGame(s: GameState, i: nat)
    requires i < |Endings| && ClickEnding(s.progress, i).Some?
    ensures var r := Commands.TriggerEnding(s, ClickEnding(s.progress, i));
      && r.phase == Ended && r.ending.Some? && Available(r.ending.value, s.progress)
      && r.progress == s.progress
  {
  }
}
