/**
 The identity registry of the detection loop, as functions on values: what
 one detection does to the frame's working state, what a whole frame does
 (scan every detection, then keep only the entries seen this frame), and
 what a run of frames does. The class in tracker.dfy executes the same steps
 imperatively and is proved equal to these functions; the lemmas here state
 what the registry promises.
 */
module Registry {
  import opened ObjectKey
  import opened Distance
  import opened Throttle

  /** Detections at or below this confidence never create or refresh an entry. */
  const CONF_THRESHOLD: real := 0.5

  /**
   One detection from the model: its class name, its top-left corner, its
   right edge (the bottom edge only feeds the drawing) and its confidence.
   */
  datatype Box = Box(name: string, x1: int, y1: int, x2: int, conf: real)

  /**
   What `speak_object` would meet if this detection called it: its own clock
   reading and whether speech synthesis and playback dispatch succeed.
   */
  datatype SpeakEnv = SpeakEnv(clock: real, dispatchOk: bool)

  /** One call of `speak_object`: for which key, with what, and whether it alerted. */
  datatype SpeakCall = SpeakCall(key: string, name: string, distance: real, clock: real, announced: bool)

  /** Key -> (class name, time the key was last seen with enough confidence). */
  type Tracked = map<string, (string, real)>

  /** Working state while a frame's detections are scanned. */
  datatype Scan = Scan(tracked: Tracked, current: set<string>, last: real, calls: seq<SpeakCall>)

  /** Registry, last alert time and the speak calls after a whole frame. */
  datatype FrameResult = FrameResult(tracked: Tracked, last: real, calls: seq<SpeakCall>)

  /** Everything one iteration of the loop reads from outside. */
  datatype FrameInput = FrameInput(boxes: seq<Box>, now: real, envs: seq<SpeakEnv>)

  function BoxKey(b: Box): string {
    Key(b.name, b.x1, b.y1)
  }

  /** The distance estimate succeeds: the box has a non-zero width. */
  predicate Measurable(b: Box) {
    b.x2 - b.x1 != 0
  }

  predicate Confident(b: Box) {
    b.conf > CONF_THRESHOLD
  }

  /** The key parses and was built from this class name. */
  ghost predicate NameMatches(k: string, name: string) {
    ParseKey(k).Some? && ParseKey(k).value.name == name
  }

  /** Every entry's class name is the one its key was built from. */
  ghost predicate NamesMatchKeys(t: Tracked) {
    forall k :: k in t ==> NameMatches(k, t[k].0)
  }

  ghost predicate Distinct(ks: seq<string>) {
    forall i, j :: 0 <= i < j < |ks| ==> ks[i] != ks[j]
  }

  /**
   Detection `j` is measurable and confident, and no earlier detection of the
   frame is a measurable, confident one with the same key.
   */
  ghost predicate FirstConfidentAt(boxes: seq<Box>, j: int) {
    && 0 <= j < |boxes| && Measurable(boxes[j]) && Confident(boxes[j])
    && forall i :: 0 <= i < j && Measurable(boxes[i]) && Confident(boxes[i]) ==> BoxKey(boxes[i]) != BoxKey(boxes[j])
  }

  /**
   The call announces detection `b`: its key, class name and estimated
   distance, at the clock reading `speak_object` met for it.
   */
  ghost predicate CallFor(c: SpeakCall, b: Box, env: SpeakEnv) {
    && Measurable(b)
    && c.key == BoxKey(b) && c.name == b.name
    && c.distance == CalculateDistance(b.x2 - b.x1).metres
    && c.clock == env.clock
  }

  // ---------------------------------------------------------------------
  // Reference definitions: what a frame should do, stated without the scan.
  // ---------------------------------------------------------------------

  /** Keys of the detections that survive the distance estimate. */
  function SeenKeys(boxes: seq<Box>): set<string> {
    set i | 0 <= i < |boxes| && Measurable(boxes[i]) :: BoxKey(boxes[i])
  }

  /** Keys of the surviving detections above the confidence threshold. */
  function ConfidentKeys(boxes: seq<Box>): set<string> {
    set i | 0 <= i < |boxes| && Measurable(boxes[i]) && Confident(boxes[i]) :: BoxKey(boxes[i])
  }

  /**
   The confident keys not in `known`, each once, in the order of their first
   confident detection.
   */
  function NewArrivals(known: set<string>, boxes: seq<Box>): seq<string>
    decreases |boxes|
  {
    if boxes == [] then []
    else
      var p, b := boxes[..|boxes| - 1], boxes[|boxes| - 1];
      NewArrivals(known, p)
        + (if Measurable(b) && Confident(b) && BoxKey(b) !in known + ConfidentKeys(p) then [BoxKey(b)] else [])
  }

  function CallKeys(calls: seq<SpeakCall>): (ks: seq<string>)
    ensures |ks| == |calls|
    ensures forall i :: 0 <= i < |calls| ==> ks[i] == calls[i].key
    decreases |calls|
  {
    if calls == [] then [] else CallKeys(calls[..|calls| - 1]) + [calls[|calls| - 1].key]
  }

  /** The clock readings of the calls that produced an alert, in order. */
  function AnnouncedClocks(calls: seq<SpeakCall>): seq<real>
    decreases |calls|
  {
    if calls == [] then []
    else
      var c := calls[|calls| - 1];
      AnnouncedClocks(calls[..|calls| - 1]) + (if c.announced then [c.clock] else [])
  }

  // ---------------------------------------------------------------------
  // The loop body and the frame, as functions.
  // ---------------------------------------------------------------------

  /**
   One detection of the inner loop: a zero width raises in the distance
   estimate and the detection is skipped whole; otherwise its key joins the
   frame's seen keys, and when it is confident it refreshes its entry or,
   for an unknown key, first calls `speak_object` and then inserts it.
   */
  function ScanBox(s: Scan, b: Box, now: real, env: SpeakEnv): (r: Scan)
    ensures |s.calls| <= |r.calls| <= |s.calls| + 1
  {
    match CalculateDistance(b.x2 - b.x1)
    case DivisionByZero => s
    case Metres(d) =>
      var k := BoxKey(b);
      var current := s.current + {k};
      if !Confident(b) then s.(current := current)
      else if k in s.tracked then s.(tracked := s.tracked[k := (b.name, now)], current := current)
      else
        var o := Speak(s.last, env.clock, env.dispatchOk);
        Scan(s.tracked[k := (b.name, now)], current, o.last, s.calls + [SpeakCall(k, b.name, d, env.clock, o.announced)])
  }

  /** The inner loop over a frame's detections, in order. */
  function ScanBoxes(s: Scan, boxes: seq<Box>, now: real, envs: seq<SpeakEnv>): (r: Scan)
    requires |envs| == |boxes|
    ensures |s.calls| <= |r.calls| <= |s.calls| + |boxes|
    decreases |boxes|
  {
    if boxes == [] then s
    else
      var n := |boxes| - 1;
      ScanBox(ScanBoxes(s, boxes[..n], now, envs[..n]), boxes[n], now, envs[n])
  }

  /** End-of-frame reconciliation: drop every entry whose key was not seen. */
  function Reconcile(t: Tracked, current: set<string>): (r: Tracked)
    ensures r.Keys == t.Keys * current
    ensures forall k :: k in r ==> r[k] == t[k]
  {
    map k | k in t && k in current :: t[k]
  }

  /** One iteration of the main loop, from the registry and last alert time before it. */
  function FrameStep(t: Tracked, last: real, f: FrameInput): (r: FrameResult)
    requires |f.envs| == |f.boxes|
    ensures r.tracked.Keys <= SeenKeys(f.boxes)
    ensures |r.calls| <= |f.boxes|
  {
    var s := ScanBoxes(Scan(t, {}, last, []), f.boxes, f.now, f.envs);
    ScanKeys(Scan(t, {}, last, []), f.boxes, f.now, f.envs);
    FrameResult(Reconcile(s.tracked, s.current), s.last, s.calls)
  }

  ghost predicate WellFormed(frames: seq<FrameInput>) {
    forall i :: 0 <= i < |frames| ==> |frames[i].envs| == |frames[i].boxes|
  }

  /** A run of frames; the calls of all frames, in order. */
  function Run(t: Tracked, last: real, frames: seq<FrameInput>): (r: FrameResult)
    requires WellFormed(frames)
    ensures frames != [] ==> r.tracked.Keys <= SeenKeys(frames[|frames| - 1].boxes)
    ensures frames == [] ==> r.tracked == t && r.last == last && r.calls == []
    decreases |frames|
  {
    if frames == [] then FrameResult(t, last, [])
    else
      var n := |frames| - 1;
      var r := Run(t, last, frames[..n]);
      var f := FrameStep(r.tracked, r.last, frames[n]);
      FrameResult(f.tracked, f.last, r.calls + f.calls)
  }

  // ---------------------------------------------------------------------
  // Facts about the reference definitions.
  // ---------------------------------------------------------------------

  lemma SeenKeysSnoc(boxes: seq<Box>)
    requires boxes != []
    ensures var n := |boxes| - 1;
      SeenKeys(boxes) == SeenKeys(boxes[..n]) + (if Measurable(boxes[n]) then {BoxKey(boxes[n])} else {})
      && ConfidentKeys(boxes)
         == ConfidentKeys(boxes[..n]) + (if Measurable(boxes[n]) && Confident(boxes[n]) then {BoxKey(boxes[n])} else {})
  {
    var n := |boxes| - 1;
    var p := boxes[..n];
    assert forall i :: 0 <= i < n ==> boxes[i] == p[i];
  }

  lemma ConfidentAreSeen(boxes: seq<Box>)
    ensures ConfidentKeys(boxes) <= SeenKeys(boxes)
  {
  }

  /** The new arrivals are exactly the confident keys not known before. */
  lemma {:induction false} NewArrivalsMembers(known: set<string>, boxes: seq<Box>)
    ensures forall k :: k in NewArrivals(known, boxes) <==> k in ConfidentKeys(boxes) - known
    decreases |boxes|
  {
    if boxes != [] {
      var n := |boxes| - 1;
      var p, b := boxes[..n], boxes[n];
      NewArrivalsMembers(known, p);
      SeenKeysSnoc(boxes);
      var a := NewArrivals(known, p);
      var extra := if Measurable(b) && Confident(b) && BoxKey(b) !in known + ConfidentKeys(p) then [BoxKey(b)] else [];
      assert NewArrivals(known, boxes) == a + extra;
    }
  }

  /** When every confident key is already known, nothing arrives. */
  lemma {:induction false} NewArrivalsNoneWhenKnown(known: set<string>, boxes: seq<Box>)
    requires ConfidentKeys(boxes) <= known
    ensures NewArrivals(known, boxes) == []
    decreases |boxes|
  {
    if boxes != [] {
      SeenKeysSnoc(boxes);
      NewArrivalsNoneWhenKnown(known, boxes[..|boxes| - 1]);
    }
  }

  lemma DistinctSnoc(ks: seq<string>, k: string)
    requires Distinct(ks) && k !in ks
    ensures Distinct(ks + [k])
  {
    var ks' := ks + [k];
    forall i, j | 0 <= i < j < |ks'| ensures ks'[i] != ks'[j] {
      assert ks'[i] == ks[i];
      if j < |ks| { assert ks'[j] == ks[j]; }
    }
  }

  /** No key arrives twice in one frame. */
  lemma {:induction false} NewArrivalsDistinct(known: set<string>, boxes: seq<Box>)
    ensures Distinct(NewArrivals(known, boxes))
    decreases |boxes|
  {
    if boxes != [] {
      var n := |boxes| - 1;
      var p, b := boxes[..n], boxes[n];
      NewArrivalsDistinct(known, p);
      var a := NewArrivals(known, p);
      if Measurable(b) && Confident(b) && BoxKey(b) !in known + ConfidentKeys(p) {
        NewArrivalsMembers(known, p);
        assert NewArrivals(known, boxes) == a + [BoxKey(b)];
        DistinctSnoc(a, BoxKey(b));
      } else {
        assert NewArrivals(known, boxes) == a;
      }
    }
  }

  lemma {:induction false} AnnouncedClocksConcat(c1: seq<SpeakCall>, c2: seq<SpeakCall>)
    ensures AnnouncedClocks(c1 + c2) == AnnouncedClocks(c1) + AnnouncedClocks(c2)
    decreases |c2|
  {
    if c2 != [] {
      var n := |c2| - 1;
      var c := c1 + c2;
      var extra := if c2[n].announced then [c2[n].clock] else [];
      assert c[..|c| - 1] == c1 + c2[..n];
      assert c[|c| - 1] == c2[n];
      assert AnnouncedClocks(c) == AnnouncedClocks(c1 + c2[..n]) + extra;
      assert AnnouncedClocks(c2) == AnnouncedClocks(c2[..n]) + extra;
      AnnouncedClocksConcat(c1, c2[..n]);
    } else {
      assert c1 + c2 == c1;
    }
  }

  lemma AnnouncedClocksSnoc(calls: seq<SpeakCall>, c: SpeakCall)
    ensures AnnouncedClocks(calls + [c]) == AnnouncedClocks(calls) + (if c.announced then [c.clock] else [])
  {
    assert (calls + [c])[..|calls|] == calls;
  }

  lemma {:induction false} CallKeysConcat(c1: seq<SpeakCall>, c2: seq<SpeakCall>)
    ensures CallKeys(c1 + c2) == CallKeys(c1) + CallKeys(c2)
  {
  }

  // ---------------------------------------------------------------------
  // The scan, detection by detection.
  // ---------------------------------------------------------------------

  /** The effect of one detection, case by case, on each part of the working state. */
  lemma ScanBoxEffect(s: Scan, b: Box, now: real, env: SpeakEnv)
    ensures var r := ScanBox(s, b, now, env);
      var k := BoxKey(b);
      && (!Measurable(b) ==> r == s)
      && (Measurable(b) ==> r.current == s.current + {k})
      && (Measurable(b) && !Confident(b) ==> r.tracked == s.tracked && r.last == s.last && r.calls == s.calls)
      && (Measurable(b) && Confident(b) ==> r.tracked == s.tracked[k := (b.name, now)])
      && (Measurable(b) && Confident(b) && k in s.tracked ==> r.last == s.last && r.calls == s.calls)
      && (Measurable(b) && Confident(b) && k !in s.tracked ==>
            var o := Speak(s.last, env.clock, env.dispatchOk);
            r.last == o.last && |r.calls| == |s.calls| + 1 && r.calls[..|s.calls|] == s.calls
            && r.calls[|s.calls|].key == k && r.calls[|s.calls|].clock == env.clock
            && r.calls[|s.calls|].name == b.name
            && r.calls[|s.calls|].distance == CalculateDistance(b.x2 - b.x1).metres
            && r.calls[|s.calls|].announced == o.announced)
  {
  }

  /** A zero-width detection leaves the frame's working state exactly as it was. */
  lemma ZeroWidthSkipped(s: Scan, b: Box, now: real, env: SpeakEnv)
    requires b.x2 - b.x1 == 0
    ensures ScanBox(s, b, now, env) == s
  {
  }

  /** A detection at or below the threshold only marks its key as seen. */
  lemma LowConfidenceOnlySeen(s: Scan, b: Box, now: real, env: SpeakEnv)
    requires !Confident(b)
    ensures ScanBox(s, b, now, env).tracked == s.tracked
    ensures ScanBox(s, b, now, env).last == s.last && ScanBox(s, b, now, env).calls == s.calls
    ensures ScanBox(s, b, now, env).current == s.current + (if Measurable(b) then {BoxKey(b)} else {})
  {
  }

  /** What the scan of a frame's detections adds to the seen keys and the registry. */
  lemma {:induction false} ScanKeys(s: Scan, boxes: seq<Box>, now: real, envs: seq<SpeakEnv>)
    requires |envs| == |boxes|
    ensures ScanBoxes(s, boxes, now, envs).current == s.current + SeenKeys(boxes)
    ensures ScanBoxes(s, boxes, now, envs).tracked.Keys == s.tracked.Keys + ConfidentKeys(boxes)
    decreases |boxes|
  {
    if boxes != [] {
      var n := |boxes| - 1;
      var sp := ScanBoxes(s, boxes[..n], now, envs[..n]);
      assert ScanBoxes(s, boxes, now, envs) == ScanBox(sp, boxes[n], now, envs[n]);
      ScanKeys(s, boxes[..n], now, envs[..n]);
      ScanBoxEffect(sp, boxes[n], now, envs[n]);
      SeenKeysSnoc(boxes);
    }
  }

  /** One detection appends a call exactly when it is a confident, unregistered key. */
  lemma ScanBoxCalls(s: Scan, b: Box, now: real, env: SpeakEnv)
    ensures CallKeys(ScanBox(s, b, now, env).calls)
      == CallKeys(s.calls) + (if Measurable(b) && Confident(b) && BoxKey(b) !in s.tracked then [BoxKey(b)] else [])
  {
    var r := ScanBox(s, b, now, env);
    ScanBoxEffect(s, b, now, env);
    if |r.calls| != |s.calls| {
      assert r.calls == s.calls + [r.calls[|s.calls|]];
    }
  }

  /** One detection extends the calls made so far exactly as it extends the new arrivals. */
  lemma ScanBoxArrivals(s: Scan, b: Box, now: real, env: SpeakEnv, pre: seq<string>, known: set<string>, p: seq<Box>)
    requires CallKeys(s.calls) == pre + NewArrivals(known, p)
    requires s.tracked.Keys == known + ConfidentKeys(p)
    ensures CallKeys(ScanBox(s, b, now, env).calls) == pre + NewArrivals(known, p + [b])
  {
    ScanBoxCalls(s, b, now, env);
    assert (p + [b])[..|p|] == p;
    var arrives := if Measurable(b) && Confident(b) && BoxKey(b) !in s.tracked then [BoxKey(b)] else [];
    assert NewArrivals(known, p + [b]) == NewArrivals(known, p) + arrives;
    assert pre + NewArrivals(known, p) + arrives == pre + (NewArrivals(known, p) + arrives);
  }

  /** The scan calls `speak_object` once per new arrival, in order. */
  lemma {:induction false} ScanCalls(s: Scan, boxes: seq<Box>, now: real, envs: seq<SpeakEnv>)
    requires |envs| == |boxes|
    ensures CallKeys(ScanBoxes(s, boxes, now, envs).calls) == CallKeys(s.calls) + NewArrivals(s.tracked.Keys, boxes)
    decreases |boxes|
  {
    if boxes != [] {
      var n := |boxes| - 1;
      var p := boxes[..n];
      var sp := ScanBoxes(s, p, now, envs[..n]);
      assert ScanBoxes(s, boxes, now, envs) == ScanBox(sp, boxes[n], now, envs[n]);
      ScanCalls(s, p, now, envs[..n]);
      ScanKeys(s, p, now, envs[..n]);
      assert boxes == p + [boxes[n]];
      ScanBoxArrivals(sp, boxes[n], now, envs[n], CallKeys(s.calls), s.tracked.Keys, p);
    }
  }

  /** The call announces the first confident detection of its key among `boxes`. */
  ghost predicate AnnouncesFirst(c: SpeakCall, boxes: seq<Box>, envs: seq<SpeakEnv>)
    requires |envs| == |boxes|
  {
    exists j :: FirstConfidentAt(boxes, j) && CallFor(c, boxes[j], envs[j])
  }

  /** Every call announces the first confident detection of its key among `boxes`. */
  ghost predicate CallsDetailed(calls: seq<SpeakCall>, boxes: seq<Box>, envs: seq<SpeakEnv>)
    requires |envs| == |boxes|
  {
    forall i :: 0 <= i < |calls| ==> AnnouncesFirst(calls[i], boxes, envs)
  }

  /** Detections appended after the ones the calls were made for do not change which was first. */
  lemma CallsDetailedExtend(calls: seq<SpeakCall>, boxes: seq<Box>, envs: seq<SpeakEnv>, n: nat)
    requires |envs| == |boxes| && n <= |boxes|
    requires CallsDetailed(calls, boxes[..n], envs[..n])
    ensures CallsDetailed(calls, boxes, envs)
  {
    var p, ep := boxes[..n], envs[..n];
    forall i | 0 <= i < |calls| ensures AnnouncesFirst(calls[i], boxes, envs) {
      assert AnnouncesFirst(calls[i], p, ep);
      var j :| FirstConfidentAt(p, j) && CallFor(calls[i], p[j], ep[j]);
      assert p[j] == boxes[j] && ep[j] == envs[j];
      assert forall i' :: 0 <= i' < j ==> p[i'] == boxes[i'];
      assert FirstConfidentAt(boxes, j);
    }
  }

  /** One more call, for a detection that is the first confident one of its key. */
  lemma CallsDetailedSnoc(calls: seq<SpeakCall>, c: SpeakCall, boxes: seq<Box>, envs: seq<SpeakEnv>, j: int)
    requires |envs| == |boxes|
    requires CallsDetailed(calls, boxes, envs)
    requires FirstConfidentAt(boxes, j) && CallFor(c, boxes[j], envs[j])
    ensures CallsDetailed(calls + [c], boxes, envs)
  {
    var cs := calls + [c];
    forall i | 0 <= i < |cs| ensures AnnouncesFirst(cs[i], boxes, envs) {
      if i < |calls| {
        assert cs[i] == calls[i];
      } else {
        assert cs[i] == c;
      }
    }
  }

  /** A confident detection whose key the scan of the earlier ones had not registered is the first of its key. */
  lemma FirstConfidentLast(boxes: seq<Box>, known: set<string>)
    requires boxes != []
    requires ConfidentKeys(boxes[..|boxes| - 1]) <= known
    requires var b := boxes[|boxes| - 1]; Measurable(b) && Confident(b) && BoxKey(b) !in known
    ensures FirstConfidentAt(boxes, |boxes| - 1)
  {
    var n := |boxes| - 1;
    var p := boxes[..n];
    forall i | 0 <= i < n && Measurable(boxes[i]) && Confident(boxes[i])
      ensures BoxKey(boxes[i]) != BoxKey(boxes[n])
    {
      assert p[i] == boxes[i];
      assert BoxKey(boxes[i]) in ConfidentKeys(p);
    }
  }

  /** Every call of the scan announces the first confident detection of its key. */
  lemma {:induction false} ScanCallDetails(s: Scan, boxes: seq<Box>, now: real, envs: seq<SpeakEnv>)
    requires |envs| == |boxes|
    requires s.calls == []
    ensures CallsDetailed(ScanBoxes(s, boxes, now, envs).calls, boxes, envs)
    decreases |boxes|
  {
    if boxes != [] {
      var n := |boxes| - 1;
      var p, ep := boxes[..n], envs[..n];
      var sp := ScanBoxes(s, p, now, ep);
      var r := ScanBoxes(s, boxes, now, envs);
      assert r == ScanBox(sp, boxes[n], now, envs[n]);
      ScanCallDetails(s, p, now, ep);
      CallsDetailedExtend(sp.calls, boxes, envs, n);
      ScanBoxEffect(sp, boxes[n], now, envs[n]);
      if |r.calls| != |sp.calls| {
        var c := r.calls[|sp.calls|];
        assert r.calls == sp.calls + [c];
        ScanKeys(s, p, now, ep);
        FirstConfidentLast(boxes, sp.tracked.Keys);
        CallsDetailedSnoc(sp.calls, c, boxes, envs, n);
      }
    }
  }

  /** One detection keeps the alert history spaced and the last alert time at its end. */
  lemma ScanBoxThrottle(s: Scan, b: Box, now: real, env: SpeakEnv, last0: real)
    requires Spaced(last0, AnnouncedClocks(s.calls)) && s.last == LastOr(last0, AnnouncedClocks(s.calls))
    ensures var r := ScanBox(s, b, now, env);
      Spaced(last0, AnnouncedClocks(r.calls)) && r.last == LastOr(last0, AnnouncedClocks(r.calls))
  {
    var r := ScanBox(s, b, now, env);
    match CalculateDistance(b.x2 - b.x1)
    case DivisionByZero =>
      assert r == s;
    case Metres(d) =>
      var k := BoxKey(b);
      if Confident(b) && k !in s.tracked {
        var ts := AnnouncedClocks(s.calls);
        var o := Speak(s.last, env.clock, env.dispatchOk);
        var c := SpeakCall(k, b.name, d, env.clock, o.announced);
        var ts' := if o.announced then ts + [env.clock] else ts;
        assert r.calls == s.calls + [c] && r.last == o.last;
        AnnouncedClocksSnoc(s.calls, c);
        assert AnnouncedClocks(r.calls) == ts';
        SpacedExtend(last0, ts, env.clock, env.dispatchOk);
        assert Spaced(last0, ts') && o.last == LastOr(last0, ts');
      } else {
        assert r.calls == s.calls && r.last == s.last;
      }
  }

  lemma {:induction false} ScanThrottle(s: Scan, boxes: seq<Box>, now: real, envs: seq<SpeakEnv>)
    requires |envs| == |boxes|
    requires s.calls == []
    ensures var r := ScanBoxes(s, boxes, now, envs);
      Spaced(s.last, AnnouncedClocks(r.calls)) && r.last == LastOr(s.last, AnnouncedClocks(r.calls))
    decreases |boxes|
  {
    if boxes != [] {
      var n := |boxes| - 1;
      ScanThrottle(s, boxes[..n], now, envs[..n]);
      ScanBoxThrottle(ScanBoxes(s, boxes[..n], now, envs[..n]), boxes[n], now, envs[n], s.last);
    }
  }

  /** Inserting a detection's key with that detection's class name keeps names consistent. */
  lemma NamesMatchInsert(t: Tracked, b: Box, now: real)
    requires NamesMatchKeys(t)
    ensures NamesMatchKeys(t[BoxKey(b) := (b.name, now)])
  {
    KeyRoundTrip(b.name, b.x1, b.y1);
    assert NameMatches(BoxKey(b), b.name);
  }

  /** Every registry entry keeps a class name matching its key through the scan. */
  lemma {:induction false} ScanNames(s: Scan, boxes: seq<Box>, now: real, envs: seq<SpeakEnv>)
    requires |envs| == |boxes|
    requires NamesMatchKeys(s.tracked)
    ensures NamesMatchKeys(ScanBoxes(s, boxes, now, envs).tracked)
    decreases |boxes|
  {
    if boxes != [] {
      var n := |boxes| - 1;
      var sp := ScanBoxes(s, boxes[..n], now, envs[..n]);
      ScanNames(s, boxes[..n], now, envs[..n]);
      ScanBoxEffect(sp, boxes[n], now, envs[n]);
      if Measurable(boxes[n]) && Confident(boxes[n]) {
        NamesMatchInsert(sp.tracked, boxes[n], now);
      }
    }
  }

  /** Entries of keys in `conf` carry time `now`; every other entry is as in `t0`. */
  ghost predicate Stamped(t: Tracked, t0: Tracked, conf: set<string>, now: real) {
    && (forall k :: k in t && k in conf ==> t[k].1 == now)
    && (forall k :: k in t && k !in conf ==> k in t0 && t[k] == t0[k])
  }

  /** One detection keeps the stamps, counting its key as confident when it is. */
  lemma ScanBoxStamps(s: Scan, b: Box, now: real, env: SpeakEnv, t0: Tracked, conf: set<string>)
    requires Stamped(s.tracked, t0, conf, now)
    ensures Stamped(ScanBox(s, b, now, env).tracked, t0,
                    conf + (if Measurable(b) && Confident(b) then {BoxKey(b)} else {}), now)
  {
    ScanBoxEffect(s, b, now, env);
    if Measurable(b) && Confident(b) {
      var k := BoxKey(b);
      var r := s.tracked[k := (b.name, now)];
      assert forall k' :: k' in r && k' != k ==> k' in s.tracked && r[k'] == s.tracked[k'];
    }
  }

  /** Entries of confident keys carry the frame time; every other entry is untouched. */
  lemma {:induction false} ScanStamps(s: Scan, boxes: seq<Box>, now: real, envs: seq<SpeakEnv>)
    requires |envs| == |boxes|
    ensures Stamped(ScanBoxes(s, boxes, now, envs).tracked, s.tracked, ConfidentKeys(boxes), now)
    decreases |boxes|
  {
    if boxes != [] {
      var n := |boxes| - 1;
      var sp := ScanBoxes(s, boxes[..n], now, envs[..n]);
      ScanStamps(s, boxes[..n], now, envs[..n]);
      ScanBoxStamps(sp, boxes[n], now, envs[n], s.tracked, ConfidentKeys(boxes[..n]));
      SeenKeysSnoc(boxes);
    }
  }

  // ---------------------------------------------------------------------
  // A whole frame.
  // ---------------------------------------------------------------------

  /**
   After reconciliation the registry holds exactly the keys that were known
   before or confidently detected now, and that were seen this frame. A key
   seen only at low confidence thus keeps an existing entry alive.
   */
  lemma FrameKeys(t: Tracked, last: real, f: FrameInput)
    requires |f.envs| == |f.boxes|
    ensures FrameStep(t, last, f).tracked.Keys == (t.Keys + ConfidentKeys(f.boxes)) * SeenKeys(f.boxes)
  {
    ScanKeys(Scan(t, {}, last, []), f.boxes, f.now, f.envs);
  }

  /**
   Surviving entries refreshed this frame carry the frame time, the others
   their old value; every entry's class name matches its key.
   */
  lemma FrameValues(t: Tracked, last: real, f: FrameInput)
    requires |f.envs| == |f.boxes|
    requires NamesMatchKeys(t)
    ensures var r := FrameStep(t, last, f).tracked;
      NamesMatchKeys(r)
      && (forall k :: k in r && k in ConfidentKeys(f.boxes) ==> r[k].1 == f.now)
      && (forall k :: k in r && k !in ConfidentKeys(f.boxes) ==> k in t && r[k] == t[k])
  {
    ScanNames(Scan(t, {}, last, []), f.boxes, f.now, f.envs);
    ScanStamps(Scan(t, {}, last, []), f.boxes, f.now, f.envs);
  }

  /**
   `speak_object` is called exactly once for each confident key that was not
   in the registry, in the order of first detection, and never otherwise.
   */
  lemma FrameCalls(t: Tracked, last: real, f: FrameInput)
    requires |f.envs| == |f.boxes|
    ensures var ks := CallKeys(FrameStep(t, last, f).calls);
      ks == NewArrivals(t.Keys, f.boxes)
      && (forall k :: k in ks <==> k in ConfidentKeys(f.boxes) - t.Keys)
      && Distinct(ks)
  {
    ScanCalls(Scan(t, {}, last, []), f.boxes, f.now, f.envs);
    NewArrivalsMembers(t.Keys, f.boxes);
    NewArrivalsDistinct(t.Keys, f.boxes);
  }

  /**
   Each call of `speak_object` carries the class name and distance estimate
   of the detection that triggered it, the first confident detection of its
   key in the frame, and the clock reading that call met.
   */
  lemma FrameCallDetails(t: Tracked, last: real, f: FrameInput)
    requires |f.envs| == |f.boxes|
    ensures CallsDetailed(FrameStep(t, last, f).calls, f.boxes, f.envs)
  {
    ScanCallDetails(Scan(t, {}, last, []), f.boxes, f.now, f.envs);
  }

  /** A new key is registered even when the cooldown or a failed dispatch silenced its alert. */
  lemma CalledKeysRegistered(t: Tracked, last: real, f: FrameInput)
    requires |f.envs| == |f.boxes|
    ensures var r := FrameStep(t, last, f);
      forall i :: 0 <= i < |r.calls| ==> r.calls[i].key in r.tracked
  {
    var r := FrameStep(t, last, f);
    FrameCalls(t, last, f);
    FrameKeys(t, last, f);
    ConfidentAreSeen(f.boxes);
    forall i | 0 <= i < |r.calls| ensures r.calls[i].key in r.tracked {
      var ks := CallKeys(r.calls);
      assert ks[i] == r.calls[i].key && ks[i] in ks;
      assert r.calls[i].key in ConfidentKeys(f.boxes) - t.Keys;
    }
  }

  /** The frame's alerts respect the cooldown from the last alert before it. */
  lemma FrameThrottle(t: Tracked, last: real, f: FrameInput)
    requires |f.envs| == |f.boxes|
    ensures var r := FrameStep(t, last, f);
      Spaced(last, AnnouncedClocks(r.calls)) && r.last == LastOr(last, AnnouncedClocks(r.calls))
  {
    ScanThrottle(Scan(t, {}, last, []), f.boxes, f.now, f.envs);
  }

  /**
   The same detections processed twice in a row: the second pass calls
   `speak_object` for nothing and leaves the registry's keys as they were.
   */
  lemma FrameIdempotent(t: Tracked, last: real, f: FrameInput, g: FrameInput)
    requires |f.envs| == |f.boxes|
    requires g.boxes == f.boxes && |g.envs| == |g.boxes|
    ensures var r1 := FrameStep(t, last, f);
      var r2 := FrameStep(r1.tracked, r1.last, g);
      r2.calls == [] && r2.tracked.Keys == r1.tracked.Keys && r2.last == r1.last
  {
    var r1 := FrameStep(t, last, f);
    var r2 := FrameStep(r1.tracked, r1.last, g);
    FrameKeys(t, last, f);
    FrameKeys(r1.tracked, r1.last, g);
    ConfidentAreSeen(f.boxes);
    FrameCalls(r1.tracked, r1.last, g);
    FrameThrottle(r1.tracked, r1.last, g);
    assert ConfidentKeys(g.boxes) <= r1.tracked.Keys;
    NewArrivalsNoneWhenKnown(r1.tracked.Keys, g.boxes);
    assert r2.calls == [];
    assert AnnouncedClocks(r2.calls) == [];

  }

  // ---------------------------------------------------------------------
  // Runs of frames.
  // ---------------------------------------------------------------------

  /**
   A key that never shows up with confidence above the threshold, and was
   not registered at the start, is never registered and never announced.
   */
  lemma {:induction false} RunLowConfidence(t: Tracked, last: real, frames: seq<FrameInput>, k: string)
    requires WellFormed(frames)
    requires k !in t
    requires forall i :: 0 <= i < |frames| ==> k !in ConfidentKeys(frames[i].boxes)
    ensures k !in Run(t, last, frames).tracked && k !in CallKeys(Run(t, last, frames).calls)
    decreases |frames|
  {
    if frames != [] {
      var n := |frames| - 1;
      var r := Run(t, last, frames[..n]);
      RunLowConfidence(t, last, frames[..n], k);
      FrameKeys(r.tracked, r.last, frames[n]);
      FrameCalls(r.tracked, r.last, frames[n]);
      CallKeysConcat(r.calls, FrameStep(r.tracked, r.last, frames[n]).calls);
    }
  }

  /**
   A registered key that is detected (at any confidence) in every frame of
   a run stays registered and is never announced again.
   */
  lemma {:induction false} RunContinuouslyVisible(t: Tracked, last: real, frames: seq<FrameInput>, k: string)
    requires WellFormed(frames)
    requires k in t
    requires forall i :: 0 <= i < |frames| ==> k in SeenKeys(frames[i].boxes)
    ensures k in Run(t, last, frames).tracked && k !in CallKeys(Run(t, last, frames).calls)
    decreases |frames|
  {
    if frames != [] {
      var n := |frames| - 1;
      var r := Run(t, last, frames[..n]);
      RunContinuouslyVisible(t, last, frames[..n], k);
      FrameKeys(r.tracked, r.last, frames[n]);
      FrameCalls(r.tracked, r.last, frames[n]);
      CallKeysConcat(r.calls, FrameStep(r.tracked, r.last, frames[n]).calls);
    }
  }

  /**
   Across any run of frames, however the clock readings go, consecutive
   alerts are at least SPEAK_COOLDOWN apart, and the first is at least that
   long after the last alert before the run.
   */
  lemma {:induction false} RunThrottle(t: Tracked, last: real, frames: seq<FrameInput>)
    requires WellFormed(frames)
    ensures var r := Run(t, last, frames);
      Spaced(last, AnnouncedClocks(r.calls)) && r.last == LastOr(last, AnnouncedClocks(r.calls))
    decreases |frames|
  {
    if frames != [] {
      var n := |frames| - 1;
      var r := Run(t, last, frames[..n]);
      RunThrottle(t, last, frames[..n]);
      var f := FrameStep(r.tracked, r.last, frames[n]);
      FrameThrottle(r.tracked, r.last, frames[n]);
      AnnouncedClocksConcat(r.calls, f.calls);
      SpacedConcat(last, AnnouncedClocks(r.calls), AnnouncedClocks(f.calls));
    }
  }

  lemma {:induction false} DistinctOccursOnce(ks: seq<string>, k: string)
    requires Distinct(ks)
    ensures multiset(ks)[k] <= 1
    decreases |ks|
  {
    if ks != [] {
      var p := ks[..|ks| - 1];
      assert ks == p + [ks[|ks| - 1]];
      assert Distinct(p);
      DistinctOccursOnce(p, k);
      if k == ks[|ks| - 1] {
        assert k !in p;
      }
    }
  }

  /**
   Within one frame that detects `k`: a registered `k` triggers no call and
   stays registered; an unregistered one triggers at most one call, after
   which it is registered.
   */
  lemma FrameCallCount(t: Tracked, last: real, f: FrameInput, k: string)
    requires |f.envs| == |f.boxes|
    requires k in SeenKeys(f.boxes)
    ensures var r := FrameStep(t, last, f);
      multiset(CallKeys(r.calls))[k] <= (if k in t then 0 else 1)
      && (k in t || multiset(CallKeys(r.calls))[k] == 1 ==> k in r.tracked)
  {
    var r := FrameStep(t, last, f);
    FrameKeys(t, last, f);
    FrameCalls(t, last, f);
    var ks := CallKeys(r.calls);
    DistinctOccursOnce(ks, k);
    if k in t {
      assert k !in ks;
    } else if k in ks {
      CalledKeysRegistered(t, last, f);
      var i :| 0 <= i < |ks| && ks[i] == k;
      assert r.calls[i].key == k;
    }
  }

  /**
   A key detected (at any confidence) in every frame of a run triggers at
   most one call of `speak_object` over the whole run, even when that call's
   alert was suppressed, and none at all if it was registered at the start;
   once called for, it stays registered.
   */
  lemma {:induction false} RunCalledAtMostOnceWhileVisible(t: Tracked, last: real, frames: seq<FrameInput>, k: string)
    requires WellFormed(frames)
    requires forall i :: 0 <= i < |frames| ==> k in SeenKeys(frames[i].boxes)
    ensures var r := Run(t, last, frames);
      multiset(CallKeys(r.calls))[k] <= (if k in t then 0 else 1)
      && (k in t || multiset(CallKeys(r.calls))[k] == 1 ==> k in r.tracked)
    decreases |frames|
  {
    if frames != [] {
      var n := |frames| - 1;
      var r := Run(t, last, frames[..n]);
      RunCalledAtMostOnceWhileVisible(t, last, frames[..n], k);
      var f := FrameStep(r.tracked, r.last, frames[n]);
      FrameCallCount(r.tracked, r.last, frames[n], k);
      CallKeysConcat(r.calls, f.calls);
      assert multiset(CallKeys(r.calls + f.calls)) == multiset(CallKeys(r.calls)) + multiset(CallKeys(f.calls));
    }
  }

  // ---------------------------------------------------------------------
  // Scenarios.
  // ---------------------------------------------------------------------

  /** A frame with one confident detection registers exactly its key. */
  lemma SingleBoxFrame(t: Tracked, last: real, b: Box, now: real, e: SpeakEnv)
    requires Measurable(b) && Confident(b)
    ensures var r := FrameStep(t, last, FrameInput([b], now, [e]));
      r.tracked.Keys == {BoxKey(b)}
      && CallKeys(r.calls) == (if BoxKey(b) in t then [] else [BoxKey(b)])
      && (BoxKey(b) !in t ==> r.calls[0].announced == Speak(last, e.clock, e.dispatchOk).announced)
  {
    var s0 := Scan(t, {}, last, []);
    assert [b][..0] == [] && [e][..0] == [];
    assert ScanBoxes(s0, [b], now, [e]) == ScanBox(s0, b, now, e);
    ScanBoxEffect(s0, b, now, e);
  }

  /**
   One confident object, seen in frame 1, again in frame 2, absent from
   frame 3 and back in frame 4: announced in frame 1 (when the cooldown has
   passed and the dispatch succeeds), silently refreshed in frame 2, dropped
   in frame 3, and treated as new again in frame 4.
   */
  lemma ScenarioVanishAndReturn(last: real, b: Box, now1: real, now2: real, now3: real, now4: real,
                                e1: SpeakEnv, e2: SpeakEnv, e4: SpeakEnv)
    requires Measurable(b) && Confident(b)
    ensures var r1 := FrameStep(map[], last, FrameInput([b], now1, [e1]));
      var r2 := FrameStep(r1.tracked, r1.last, FrameInput([b], now2, [e2]));
      var r3 := FrameStep(r2.tracked, r2.last, FrameInput([], now3, []));
      var r4 := FrameStep(r3.tracked, r3.last, FrameInput([b], now4, [e4]));
      && CallKeys(r1.calls) == [BoxKey(b)] && r1.tracked.Keys == {BoxKey(b)}
      && (e1.clock - last >= SPEAK_COOLDOWN && e1.dispatchOk ==> r1.calls[0].announced)
      && r2.calls == [] && r2.tracked.Keys == {BoxKey(b)}
      && r3.tracked == map[] && r3.calls == []
      && CallKeys(r4.calls) == [BoxKey(b)] && r4.tracked.Keys == {BoxKey(b)}
  {
    var r1 := FrameStep(map[], last, FrameInput([b], now1, [e1]));
    SingleBoxFrame(map[], last, b, now1, e1);
    var r2 := FrameStep(r1.tracked, r1.last, FrameInput([b], now2, [e2]));
    SingleBoxFrame(r1.tracked, r1.last, b, now2, e2);
    var r3 := FrameStep(r2.tracked, r2.last, FrameInput([], now3, []));
    FrameKeys(r2.tracked, r2.last, FrameInput([], now3, []));
    assert SeenKeys([]) == {};
    var r4 := FrameStep(r3.tracked, r3.last, FrameInput([b], now4, [e4]));
    SingleBoxFrame(r3.tracked, r3.last, b, now4, e4);
  }

  /**
   Two new objects in one frame, the second calling `speak_object` within
   the cooldown of the first's alert: only the first is announced, but both
   are registered.
   */
  lemma ScenarioTwoArrivalsOneAlert(t: Tracked, last: real, b1: Box, b2: Box, now: real, e1: SpeakEnv, e2: SpeakEnv)
    requires Measurable(b1) && Confident(b1) && Measurable(b2) && Confident(b2)
    requires BoxKey(b1) != BoxKey(b2) && BoxKey(b1) !in t && BoxKey(b2) !in t
    requires e1.clock - last >= SPEAK_COOLDOWN && e1.dispatchOk
    requires e2.clock - e1.clock < SPEAK_COOLDOWN
    ensures var r := FrameStep(t, last, FrameInput([b1, b2], now, [e1, e2]));
      && |r.calls| == 2
      && r.calls[0].key == BoxKey(b1) && r.calls[0].announced
      && r.calls[1].key == BoxKey(b2) && !r.calls[1].announced
      && BoxKey(b1) in r.tracked && BoxKey(b2) in r.tracked
      && r.last == e1.clock
  {
    var f := FrameInput([b1, b2], now, [e1, e2]);
    var s0 := Scan(t, {}, last, []);
    assert [b1, b2][..1] == [b1] && [e1, e2][..1] == [e1];
    assert [b1][..0] == [] && [e1][..0] == [];
    var s1 := ScanBox(s0, b1, now, e1);
    assert ScanBoxes(s0, [b1], now, [e1]) == s1;
    ScanBoxEffect(s0, b1, now, e1);
    ScanBoxEffect(s1, b2, now, e2);
    CalledKeysRegistered(t, last, f);
  }
}
