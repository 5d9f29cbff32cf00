/**
 The detection loop as the program runs it: the registry and the last alert
 time are the state of a Tracker object (module-level globals in the
 original), `speak_object` and one iteration of the frame loop are methods
 that update that state step by step, and each is proved to compute what the
 functions of module Registry describe.
 */
module DetectionLoop {
  import opened ObjectKey
  import opened Distance
  import opened Throttle
  import opened Registry

  class Tracker {
    /** Key -> (class name, last confident sighting); the `tracked_objects` dict. */
    var tracked: Tracked
    /** Clock reading of the last successfully dispatched alert. */
    var lastSpeakTime: real

    ghost predicate Valid()
      reads this
    {
      NamesMatchKeys(tracked)
    }

    /** Program start: an empty registry and a last alert time of 0. */
    constructor ()
      ensures Valid() && tracked == map[] && lastSpeakTime == 0.0
    {
      tracked := map[];
      lastSpeakTime := 0.0;
    }

    /**
     `speak_object`, reading `clock` from the system clock: drops the alert
     inside the cooldown window; otherwise dispatches it and, only when the
     dispatch succeeds, moves the last alert time to `clock`.
     */
    method SpeakObject(clock: real, dispatchOk: bool) returns (announced: bool)
      modifies this`lastSpeakTime
      ensures Outcome(announced, lastSpeakTime) == Speak(old(lastSpeakTime), clock, dispatchOk)
      ensures clock - old(lastSpeakTime) < SPEAK_COOLDOWN ==> !announced && lastSpeakTime == old(lastSpeakTime)
      ensures announced ==> lastSpeakTime - old(lastSpeakTime) >= SPEAK_COOLDOWN
    {
      if clock - lastSpeakTime < SPEAK_COOLDOWN {
        return false;
      }
      if dispatchOk {
        lastSpeakTime := clock;
        announced := true;
      } else {
        announced := false;
      }
    }

    /**
     The body of the inner loop for one detection: estimate the distance (a
     zero width raises and skips the detection), mark the key as seen, and
     for a confident detection refresh its entry or, for an unknown key,
     call `speak_object` first and then insert the entry.
     */
    method ScanDetection(b: Box, now: real, env: SpeakEnv, current: set<string>, calls: seq<SpeakCall>)
      returns (current': set<string>, calls': seq<SpeakCall>)
      modifies this
      ensures Scan(tracked, current', lastSpeakTime, calls')
        == ScanBox(Scan(old(tracked), current, old(lastSpeakTime), calls), b, now, env)
    {
      current', calls' := current, calls;
      var pixelWidth := b.x2 - b.x1;
      match CalculateDistance(pixelWidth) {
        case DivisionByZero =>
          // the exception skips this detection entirely
        case Metres(distance) =>
          var key := Key(b.name, b.x1, b.y1);
          current' := current' + {key};
          if b.conf > CONF_THRESHOLD {
            if key !in tracked {
              var announced := SpeakObject(env.clock, env.dispatchOk);
              calls' := calls' + [SpeakCall(key, b.name, distance, env.clock, announced)];
              tracked := tracked[key := (b.name, now)];
            } else {
              tracked := tracked[key := (b.name, now)];
            }
          }
      }
    }

    /**
     The inner loop over the detections of one frame, read at frame time
     `now`; `envs[i]` is what `speak_object` meets if detection i calls it.
     Returns the keys seen this frame and the calls of `speak_object`, in order.
     */
    method ScanFrame(boxes: seq<Box>, now: real, envs: seq<SpeakEnv>) returns (current: set<string>, calls: seq<SpeakCall>)
      requires |envs| == |boxes|
      modifies this
      ensures Scan(tracked, current, lastSpeakTime, calls)
        == ScanBoxes(Scan(old(tracked), {}, old(lastSpeakTime), []), boxes, now, envs)
    {
      ghost var start := Scan(tracked, {}, lastSpeakTime, []);
      current, calls := {}, [];
      var i := 0;
      while i < |boxes|
        invariant 0 <= i <= |boxes|
        invariant Scan(tracked, current, lastSpeakTime, calls) == ScanBoxes(start, boxes[..i], now, envs[..i])
      {
        assert boxes[..i + 1][..i] == boxes[..i] && envs[..i + 1][..i] == envs[..i];
        current, calls := ScanDetection(boxes[i], now, envs[i], current, calls);
        i := i + 1;
      }
      assert boxes[..i] == boxes && envs[..i] == envs;
    }

    /**
     One iteration of the main loop: scan the frame's detections, then keep
     only the registry entries seen in this frame. Returns the calls of
     `speak_object`, in order.
     */
    method ProcessFrame(boxes: seq<Box>, now: real, envs: seq<SpeakEnv>) returns (calls: seq<SpeakCall>)
      requires Valid()
      requires |envs| == |boxes|
      modifies this
      ensures Valid()
      ensures FrameResult(tracked, lastSpeakTime, calls) == FrameStep(old(tracked), old(lastSpeakTime), FrameInput(boxes, now, envs))
      ensures tracked.Keys == (old(tracked).Keys + ConfidentKeys(boxes)) * SeenKeys(boxes)
      ensures forall k :: k in tracked && k in ConfidentKeys(boxes) ==> tracked[k].1 == now
      ensures forall k :: k in tracked && k !in ConfidentKeys(boxes) ==> k in old(tracked) && tracked[k] == old(tracked)[k]
      ensures CallKeys(calls) == NewArrivals(old(tracked).Keys, boxes)
      ensures CallsDetailed(calls, boxes, envs)
      ensures forall i :: 0 <= i < |calls| ==> calls[i].key in tracked
      ensures Spaced(old(lastSpeakTime), AnnouncedClocks(calls))
      ensures lastSpeakTime == LastOr(old(lastSpeakTime), AnnouncedClocks(calls))
    {
      ghost var f := FrameInput(boxes, now, envs);
      ghost var r := FrameStep(tracked, lastSpeakTime, f);
      FrameKeys(tracked, lastSpeakTime, f);
      FrameValues(tracked, lastSpeakTime, f);
      FrameCalls(tracked, lastSpeakTime, f);
      FrameCallDetails(tracked, lastSpeakTime, f);
      CalledKeysRegistered(tracked, lastSpeakTime, f);
      FrameThrottle(tracked, lastSpeakTime, f);
      var current;
      current, calls := ScanFrame(boxes, now, envs);
      tracked := Reconcile(tracked, current);
      assert tracked == r.tracked && lastSpeakTime == r.last && calls == r.calls;
    }

    /**
     The main loop over a run of frames, until the frame source or the user
     stops it; returns every call of `speak_object`, in order.
     */
    method Run(frames: seq<FrameInput>) returns (calls: seq<SpeakCall>)
      requires Valid()
      requires WellFormed(frames)
      modifies this
      ensures Valid()
      ensures FrameResult(tracked, lastSpeakTime, calls) == Registry.Run(old(tracked), old(lastSpeakTime), frames)
      ensures Spaced(old(lastSpeakTime), AnnouncedClocks(calls))
    {
      ghost var t0, last0 := tracked, lastSpeakTime;
      calls := [];
      var i := 0;
      while i < |frames|
        invariant 0 <= i <= |frames|
        invariant Valid()
        invariant FrameResult(tracked, lastSpeakTime, calls) == Registry.Run(t0, last0, frames[..i])
      {
        assert frames[..i + 1][..i] == frames[..i];
        var f := frames[i];
        var frameCalls := ProcessFrame(f.boxes, f.now, f.envs);
        calls := calls + frameCalls;
        i := i + 1;
      }
      assert frames[..i] == frames;
      RunThrottle(t0, last0, frames);
    }
  }
}
