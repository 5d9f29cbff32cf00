/**
 The global alert throttle of `speak_object`: a call is dropped while less
 than SPEAK_COOLDOWN seconds have passed since the last successful alert;
 otherwise speech synthesis and playback are dispatched, and only when that
 dispatch succeeds does the call record its clock reading as the new last
 alert time. The dispatch outcome is an input (`dispatchOk`).
 */
module Throttle {

  const SPEAK_COOLDOWN: real := 1.0

  /** Whether the call produced an alert, and the last alert time after it. */
  datatype Outcome = Outcome(announced: bool, last: real)

  function Speak(last: real, now: real, dispatchOk: bool): (o: Outcome)
    ensures o.announced ==> o.last == now && now - last >= SPEAK_COOLDOWN && dispatchOk
    ensures !o.announced ==> o.last == last
    ensures o.announced <==> o.last != last
  {
    if now - last < SPEAK_COOLDOWN then Outcome(false, last)
    else if dispatchOk then Outcome(true, now)
    else Outcome(false, last)
  }

  /** Inside the cooldown window a call changes nothing, whatever the dispatch would do. */
  lemma SpeakInCooldown(last: real, now: real, dispatchOk: bool)
    requires now - last < SPEAK_COOLDOWN
    ensures Speak(last, now, dispatchOk) == Outcome(false, last)
  {
  }

  /** Past the cooldown, the call alerts exactly when the dispatch succeeds. */
  lemma SpeakAfterCooldown(last: real, now: real, dispatchOk: bool)
    requires now - last >= SPEAK_COOLDOWN
    ensures Speak(last, now, dispatchOk).announced == dispatchOk
  {
  }

  /**
   Alert times `ts`, in order, respect the cooldown starting from an earlier
   last alert time `last`: each is at least SPEAK_COOLDOWN after the one
   before it (the first, after `last`).
   */
  ghost predicate Spaced(last: real, ts: seq<real>) {
    forall i :: 0 <= i < |ts| ==> ts[i] - Before(last, ts, i) >= SPEAK_COOLDOWN
  }

  /** The alert time preceding `ts[i]`: the one before it, or `last` for the first. */
  function Before(last: real, ts: seq<real>, i: nat): real
    requires i < |ts|
  {
    if i == 0 then last else ts[i - 1]
  }

  /** The last alert time after the alerts `ts`, starting from `last`. */
  function LastOr(last: real, ts: seq<real>): real {
    if ts == [] then last else ts[|ts| - 1]
  }

  /** One more call extends a spaced history: its alert, if any, keeps the spacing. */
  lemma SpacedExtend(last: real, ts: seq<real>, now: real, dispatchOk: bool)
    requires Spaced(last, ts)
    ensures var o := Speak(LastOr(last, ts), now, dispatchOk);
      var ts' := if o.announced then ts + [now] else ts;
      Spaced(last, ts') && o.last == LastOr(last, ts')
  {
    var o := Speak(LastOr(last, ts), now, dispatchOk);
    if o.announced {
      var ts' := ts + [now];
      forall i | 0 <= i < |ts'|
        ensures ts'[i] - Before(last, ts', i) >= SPEAK_COOLDOWN
      {
        if i < |ts| {
          assert ts'[i] == ts[i];
          if i > 0 { assert ts'[i - 1] == ts[i - 1]; }
        } else if i > 0 {
          assert ts'[i - 1] == ts[|ts| - 1];
        }
      }
    }
  }

  /** Two spaced histories, the second starting where the first left off, join into one. */
  lemma SpacedConcat(last: real, ts1: seq<real>, ts2: seq<real>)
    requires Spaced(last, ts1) && Spaced(LastOr(last, ts1), ts2)
    ensures Spaced(last, ts1 + ts2)
    ensures LastOr(last, ts1 + ts2) == LastOr(LastOr(last, ts1), ts2)
  {
    var ts := ts1 + ts2;
    forall i | 0 <= i < |ts|
      ensures ts[i] - Before(last, ts, i) >= SPEAK_COOLDOWN
    {
      if i >= |ts1| {
        var j := i - |ts1|;
        assert ts[i] == ts2[j];
        assert ts2[j] - Before(LastOr(last, ts1), ts2, j) >= SPEAK_COOLDOWN;
        if j > 0 {
          assert ts[i - 1] == ts2[j - 1];
        } else if i > 0 {
          assert ts[i - 1] == ts1[|ts1| - 1];
        }
      } else {
        assert ts[i] == ts1[i];
        if i > 0 { assert ts[i - 1] == ts1[i - 1]; }
      }
    }
  }
}
