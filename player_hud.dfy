/** The heads-up display's rules (src/components/game/PlayerHUD.tsx): the
    "HH:MM" clock, the colour of each stat bar, the danger pulse on the
    numbers, and the save button's status. */
module PlayerHud {
  import opened Types
  import Decimal

  /** JavaScript's `x % 1`: the remainder keeps the sign of `x` (the integer
      part is truncated toward zero). */
  function JsFraction(x: real): (f: real)
    ensures x >= 0.0 ==> 0.0 <= f < 1.0 && f == x - x.Floor as real
    ensures x < 0.0 ==> -1.0 < f <= 0.0
  {
    if x >= 0.0 then x - x.Floor as real else x + (-x).Floor as real
  }

  function Hours(t: real): int { t.Floor }

  function Minutes(t: real): int { (JsFraction(t) * 60.0).Floor }

  function Pad2(n: int): string { Decimal.PadStart(Decimal.IntToString(n), 2, '0') }

  /** formatTime: the hours and the minutes, each left-padded with '0' to
      two characters, joined by ':'. */
  function FormatTime(t: real): (r: string)
    ensures |r| >= 5
  {
    Pad2(Hours(t)) + ":" + Pad2(Minutes(t))
  }

  /** For a time of day in [0, 24): hours 0 to 23, minutes 0 to 59, and the
      minute shown is the one `t` falls in. */
  lemma ClockParts(t: real)
    requires 0.0 <= t < 24.0
    ensures 0 <= Hours(t) < 24 && 0 <= Minutes(t) < 60
    ensures Hours(t) as real + Minutes(t) as real / 60.0 <= t < Hours(t) as real + (Minutes(t) + 1) as real / 60.0
  {
    var f := JsFraction(t);
    assert t == Hours(t) as real + f;
    assert 0.0 <= f * 60.0 < 60.0;
    assert Minutes(t) as real <= f * 60.0 < (Minutes(t) + 1) as real;
  }

  /** Two two-character halves joined by ':' split back at index 2. */
  lemma JoinClock(a: string, b: string)
    requires |a| == 2 && |b| == 2
    ensures var r := a + ":" + b;
      |r| == 5 && r[2] == ':' && r[..2] == a && r[3..] == b
  {
  }

  /** Two numbers below 100 read "HH:MM", each half parsing back. */
  lemma ClockText(h: nat, m: nat)
    requires h < 100 && m < 100
    ensures var r := Pad2(h) + ":" + Pad2(m);
      && |r| == 5 && r[2] == ':'
      && Decimal.AllDigits(r[..2]) && Decimal.AllDigits(r[3..])
      && Decimal.ParseNat(r[..2]) == h && Decimal.ParseNat(r[3..]) == m
  {
    Decimal.PadTwoDigits(h);
    Decimal.PadTwoDigits(m);
    JoinClock(Pad2(h), Pad2(m));
  }

  /** For a time of day in [0, 24) the clock reads "HH:MM": five characters,
      a colon in the middle, hours 00 to 23 and minutes 00 to 59, and the
      minute shown is the one `t` falls in. */
  lemma FormatTimeOfDay(t: real)
    requires 0.0 <= t < 24.0
    ensures var r := FormatTime(t);
      && |r| == 5 && r[2] == ':'
      && Decimal.AllDigits(r[..2]) && Decimal.AllDigits(r[3..])
      && 0 <= Hours(t) < 24 && Decimal.ParseNat(r[..2]) == Hours(t)
      && 0 <= Minutes(t) < 60 && Decimal.ParseNat(r[3..]) == Minutes(t)
      && Hours(t) as real + Minutes(t) as real / 60.0 <= t < Hours(t) as real + (Minutes(t) + 1) as real / 60.0
  {
    ClockParts(t);
    ClockText(Hours(t), Minutes(t));
  }

  /** 20.5 is hour 20, minute 30; 8.0 is hour 8, minute 0. */
  lemma ExampleParts()
    ensures Hours(20.5) == 20 && Minutes(20.5) == 30
    ensures Hours(8.0) == 8 && Minutes(8.0) == 0
  {
    assert JsFraction(20.5) == 0.5;
    assert JsFraction(8.0) == 0.0;
  }

  /** The padded renderings used by the examples. */
  lemma ExampleDigits()
    ensures Pad2(20) == "20" && Pad2(30) == "30"
    ensures Pad2(8) == "08" && Pad2(0) == "00"
  {
    assert Decimal.NatToString(20) == "20" by {
      assert Decimal.NatToString(2) == "2";
    }
    assert Decimal.NatToString(30) == "30" by {
      assert Decimal.NatToString(3) == "3";
    }
    assert Decimal.NatToString(8) == "8";
    assert Decimal.NatToString(0) == "0";
  }

  /** Half past eight in the evening reads "20:30". */
  lemma FormatTimeEvening(t: real)
    requires t == 20.5
    ensures FormatTime(t) == "20:30"
  {
    assert FormatTime(t) == Pad2(20) + ":" + Pad2(30) by {
      ExampleParts();
    }
    assert Pad2(20) == "20" && Pad2(30) == "30" by {
      ExampleDigits();
    }
    var r := Pad2(20) + ":" + Pad2(30);
    assert r == "20" + ":" + "30";
    assert "20" + ":" + "30" == "20:30";
  }

  /** The start of a game, 8.0, reads "08:00". */
  lemma FormatTimeMorning(t: real)
    requires t == 8.0
    ensures FormatTime(t) == "08:00"
  {
    assert FormatTime(t) == Pad2(8) + ":" + Pad2(0) by {
      ExampleParts();
    }
    assert Pad2(8) == "08" && Pad2(0) == "00" by {
      ExampleDigits();
    }
    var r := Pad2(8) + ":" + Pad2(0);
    assert r == "08" + ":" + "00";
    assert "08" + ":" + "00" == "08:00";
  }

  /** The four stat bars. */
  datatype StatKind = Health | Hunger | Thirst | Sanity

  function StatName(k: StatKind): string
  {
    match k
    case Health => "health"
    case Hunger => "hunger"
    case Thirst => "thirst"
    case Sanity => "sanity"
  }

  const DangerColor: string := "bg-danger"

  /** getStatColor: three branches (danger, middle, full) which, past the
      danger threshold, all give the stat's own colour. */
  function GetStatColor(value: real, k: StatKind): (c: string)
    ensures value <= 20.0 ==> c == DangerColor
    ensures value > 20.0 ==> c == "bg-" + StatName(k)
  {
    if value <= 20.0 then DangerColor
    else if value <= 50.0 then (if k == Sanity then "bg-sanity" else "bg-" + StatName(k))
    else match k
      case Health => "bg-health"
      case Hunger => "bg-hunger"
      case Thirst => "bg-thirst"
      case Sanity => "bg-sanity"
  }

  /** No stat's own colour is the danger colour, so the bar is red exactly
      at or below 20. */
  lemma DangerColorExactly(value: real, k: StatKind)
    ensures GetStatColor(value, k) == DangerColor <==> value <= 20.0
  {
    if value > 20.0 {
      assert GetStatColor(value, k)[3] != DangerColor[3];
    }
  }

  /** The threshold at or below which the number pulses: 30 for sanity, 20
      for the others. */
  function PulseThreshold(k: StatKind): real
  {
    if k == Sanity then 30.0 else 20.0
  }

  /** The class of a stat's number: pulsing in the danger (or, for sanity,
      the sanity) colour at or below its threshold, plain otherwise. */
  function NumberClass(value: real, k: StatKind): (c: string)
    ensures c != "" <==> value <= PulseThreshold(k)
  {
    if value > PulseThreshold(k) then ""
    else if k == Sanity then "text-sanity pulse-danger"
    else "text-danger pulse-danger"
  }

  /** Every stat whose bar is red also pulses, and sanity alone pulses
      while its bar is not yet red (between 20 and 30). */
  lemma PulseCoversDanger(value: real, k: StatKind)
    ensures GetStatColor(value, k) == DangerColor ==> NumberClass(value, k) != ""
    ensures k == Sanity && 20.0 < value <= 30.0 ==>
      NumberClass(value, k) != "" && GetStatColor(value, k) != DangerColor
    ensures k != Sanity ==> (NumberClass(value, k) != "" <==> GetStatColor(value, k) == DangerColor)
  {
    DangerColorExactly(value, k);
  }

  datatype SaveStatus = Idle | Saving | Saved

  /** The save button and its `saveStatus` state. */
  class SaveButton {
    var status: SaveStatus

    constructor()
      ensures status == Idle
    {
      status := Idle;
    }

    /** `disabled={saveStatus === 'saving'}`. */
    predicate Disabled()
      reads this
    {
      status == Saving
    }

    /** handleSave with a callback that reports `success`: 'saving', then
      'saved' on success or back to 'idle' on failure; the button is never
      left disabled. */
    method HandleSave(success: bool)
      modifies this
      ensures status == (if success then Saved else Idle)
      ensures !Disabled()
    {
      status := Saving;
      if success {
        status := Saved;
      } else {
        status := Idle;
      }
    }

    /** The 2000 ms timeout armed by a successful save. */
    method SavedTimeout()
      modifies this
      ensures status == Idle
    {
      status := Idle;
    }

    /** handleSave as the game screen wires it: no onSaveGame is passed, so
      the call after setting 'saving' throws before either later update,
      and the button stays disabled. */
    method HandleSaveUnwired() returns (threw: bool)
      modifies this
      ensures threw && status == Saving && Disabled()
    {
      status := Saving;
      threw := true;
    }
  }

  /** Whatever the button showed before, a successful save shows 'saved'
      until its timeout, then 'idle', and is never left disabled. */
  method SaveCycle(b: SaveButton) returns (shown: seq<SaveStatus>)
    modifies b
    ensures shown == [Saved, Idle]
    ensures b.status == Idle && !b.Disabled()
  {
    b.HandleSave(true);
    shown := [b.status];
    b.SavedTimeout();
    shown := shown + [b.status];
  }
}
