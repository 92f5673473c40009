/**
 * State aggregation (`get_state` in run.py): the engine's raw per-lane
 * counters reduced to one record per intersection. Pure: the engine's
 * answers come in as values.
 */
module Aggregation {
  import opened PyDicts

  /** `needle` occurs in `hay` starting at index `i`. */
  ghost predicate OccursAt(needle: string, hay: string, i: nat)
  {
    i + |needle| <= |hay| && hay[i..i + |needle|] == needle
  }

  /** Reference meaning of Python's `needle in hay` on strings. */
  ghost predicate IsSubstring(needle: string, hay: string)
  {
    exists i: nat :: OccursAt(needle, hay, i)
  }

  /** Python's `needle in hay`, scanning windows left to right. */
  function Contains(hay: string, needle: string): bool
    decreases |hay|
  {
    if |hay| < |needle| then false
    else if hay[..|needle|] == needle then true
    else Contains(hay[1..], needle)
  }

  lemma {:induction false} ContainsIsSubstring(hay: string, needle: string)
    ensures Contains(hay, needle) <==> IsSubstring(needle, hay)
    decreases |hay|
  {
    if |hay| < |needle| {
      assert forall i: nat :: !OccursAt(needle, hay, i);
    } else if hay[..|needle|] == needle {
      assert OccursAt(needle, hay, 0);
    } else {
      ContainsIsSubstring(hay[1..], needle);
      if Contains(hay[1..], needle) {
        var i: nat :| OccursAt(needle, hay[1..], i);
        assert hay[1..][i..i + |needle|] == hay[i + 1..i + 1 + |needle|];
        assert OccursAt(needle, hay, i + 1);
      } else if IsSubstring(needle, hay) {
        var i: nat :| OccursAt(needle, hay, i);
        assert i != 0;
        assert hay[1..][i - 1..i - 1 + |needle|] == hay[i..i + |needle|];
        assert OccursAt(needle, hay[1..], i - 1);
        assert false;
      }
    }
  }

  /** `[lane for lane in lanes if inter_id in lane]` (run.py:19) */
  function RelatedLanes(lanes: seq<string>, interId: string): seq<string>
  {
    if lanes == [] then []
    else (if Contains(lanes[0], interId) then [lanes[0]] else []) + RelatedLanes(lanes[1..], interId)
  }

  /** The related lanes are exactly the lanes whose name contains the id. */
  lemma {:induction false} RelatedLanesMembers(lanes: seq<string>, interId: string, lane: string)
    ensures lane in RelatedLanes(lanes, interId) <==> lane in lanes && IsSubstring(interId, lane)
  {
    if lanes != [] {
      ContainsIsSubstring(lanes[0], interId);
      RelatedLanesMembers(lanes[1..], interId, lane);
      assert lanes == [lanes[0]] + lanes[1..];
    }
  }

  /** Filtering keeps the order of the lanes: it distributes over concatenation. */
  lemma {:induction false} RelatedLanesAppend(a: seq<string>, b: seq<string>, interId: string)
    ensures RelatedLanes(a + b, interId) == RelatedLanes(a, interId) + RelatedLanes(b, interId)
  {
    if a != [] {
      assert (a + b)[1..] == a[1..] + b;
      RelatedLanesAppend(a[1..], b, interId);
    } else {
      assert a + b == b;
    }
  }

  /** `sum([counts.get(lane, 0) for lane in lanes])` (run.py:21-22) */
  function SumCounts(lanes: seq<string>, counts: Dict<nat>): nat
  {
    if lanes == [] then 0 else Get<nat>(counts, lanes[0], 0) + SumCounts(lanes[1..], counts)
  }

  lemma {:induction false} SumCountsAppend(a: seq<string>, b: seq<string>, counts: Dict<nat>)
    ensures SumCounts(a + b, counts) == SumCounts(a, counts) + SumCounts(b, counts)
  {
    if a != [] {
      assert (a + b)[1..] == a[1..] + b;
      SumCountsAppend(a[1..], b, counts);
    } else {
      assert a + b == b;
    }
  }

  /** A lane missing from the counter map contributes nothing to the sum. */
  lemma SumCountsSkipsAbsent(a: seq<string>, lane: string, b: seq<string>, counts: Dict<nat>)
    requires !HasKey(counts, lane)
    ensures SumCounts(a + [lane] + b, counts) == SumCounts(a + b, counts)
  {
    SumCountsAppend(a + [lane], b, counts);
    SumCountsAppend(a, [lane], counts);
    SumCountsAppend(a, b, counts);
  }

  /** One intersection's record, as the dict literal of run.py:31-38 builds it. */
  datatype IntersectionState = IntersectionState(
    intersectionId: string,
    relatedLanes: seq<string>,
    totalVehicles: nat,
    totalWaitingVehicles: nat,
    currentPhase: int,
    totalVehiclesInSim: nat)

  /**
   * `eng.get_tl_phase(inter_id)` with its `except` fallback: `phaseReply`
   * holds the ids whose query answers; an absent id is a query that raised.
   */
  function PhaseOrDefault(phaseReply: map<string, int>, interId: string): int
  {
    if interId in phaseReply then phaseReply[interId] else 0
  }

  function Record(interId: string, laneVehicles: Dict<nat>, laneWaiting: Dict<nat>,
                  vehicles: seq<string>, phaseReply: map<string, int>): IntersectionState
  {
    var related := RelatedLanes(Keys(laneVehicles), interId);
    IntersectionState(interId, related, SumCounts(related, laneVehicles),
                      SumCounts(related, laneWaiting), PhaseOrDefault(phaseReply, interId), |vehicles|)
  }

  /** `get_state`: the loop of run.py:17-38 assigning `state[inter_id]` in id order. */
  function GetState(laneVehicles: Dict<nat>, laneWaiting: Dict<nat>, vehicles: seq<string>,
                    ids: seq<string>, phaseReply: map<string, int>): Dict<IntersectionState>
  {
    if ids == [] then []
    else
      var last := ids[|ids| - 1];
      Put(GetState(laneVehicles, laneWaiting, vehicles, ids[..|ids| - 1], phaseReply), last,
          Record(last, laneVehicles, laneWaiting, vehicles, phaseReply))
  }

  /** The state holds one entry per distinct intersection id and no other key. */
  lemma {:induction false} GetStateKeys(laneVehicles: Dict<nat>, laneWaiting: Dict<nat>,
                                        vehicles: seq<string>, ids: seq<string>,
                                        phaseReply: map<string, int>, x: string)
    ensures HasKey(GetState(laneVehicles, laneWaiting, vehicles, ids, phaseReply), x) <==> x in ids
  {
    if ids != [] {
      var init, last := ids[..|ids| - 1], ids[|ids| - 1];
      var prev := GetState(laneVehicles, laneWaiting, vehicles, init, phaseReply);
      var rec := Record(last, laneVehicles, laneWaiting, vehicles, phaseReply);
      assert ids == init + [last];
      GetStateKeys(laneVehicles, laneWaiting, vehicles, init, phaseReply, x);
      PutKeyStep(prev, init, false, last, rec, x);
    }
  }

  lemma {:induction false} GetStateWf(laneVehicles: Dict<nat>, laneWaiting: Dict<nat>,
                                      vehicles: seq<string>, ids: seq<string>,
                                      phaseReply: map<string, int>)
    ensures Wf(GetState(laneVehicles, laneWaiting, vehicles, ids, phaseReply))
  {
    if ids != [] {
      var init, last := ids[..|ids| - 1], ids[|ids| - 1];
      GetStateWf(laneVehicles, laneWaiting, vehicles, init, phaseReply);
      PutWf(GetState(laneVehicles, laneWaiting, vehicles, init, phaseReply), last,
            Record(last, laneVehicles, laneWaiting, vehicles, phaseReply));
    }
  }

  /** Each intersection's entry is its record, whatever the position of the id. */
  lemma {:induction false} GetStateLookup(laneVehicles: Dict<nat>, laneWaiting: Dict<nat>,
                                          vehicles: seq<string>, ids: seq<string>,
                                          phaseReply: map<string, int>, x: string)
    requires x in ids
    ensures HasKey(GetState(laneVehicles, laneWaiting, vehicles, ids, phaseReply), x)
    ensures Lookup(GetState(laneVehicles, laneWaiting, vehicles, ids, phaseReply), x)
            == Record(x, laneVehicles, laneWaiting, vehicles, phaseReply)
  {
    var init, last := ids[..|ids| - 1], ids[|ids| - 1];
    var prev := GetState(laneVehicles, laneWaiting, vehicles, init, phaseReply);
    var rec := Record(last, laneVehicles, laneWaiting, vehicles, phaseReply);
    assert ids == init + [last];
    if x != last {
      GetStateLookup(laneVehicles, laneWaiting, vehicles, init, phaseReply, x);
    }
    PutLookup(prev, last, rec, x);
  }

  /**
   * What each record of `get_state` says: its lanes are exactly the lanes of
   * the vehicle-count map whose name contains the id, its totals are sums
   * over those lanes (0 when none match), its phase is the query's answer or
   * 0 when the query raised, and every record repeats the vehicle total.
   */
  lemma StateRecordMeaning(laneVehicles: Dict<nat>, laneWaiting: Dict<nat>, vehicles: seq<string>,
                           ids: seq<string>, phaseReply: map<string, int>, interId: string)
    requires interId in ids
    ensures var state := GetState(laneVehicles, laneWaiting, vehicles, ids, phaseReply);
      HasKey(state, interId) &&
      var rec := Lookup(state, interId);
      && rec.intersectionId == interId
      && (forall lane :: lane in rec.relatedLanes <==> HasKey(laneVehicles, lane) && IsSubstring(interId, lane))
      && rec.totalVehicles == SumCounts(rec.relatedLanes, laneVehicles)
      && rec.totalWaitingVehicles == SumCounts(rec.relatedLanes, laneWaiting)
      && (rec.relatedLanes == [] ==> rec.totalVehicles == 0 && rec.totalWaitingVehicles == 0)
      && (interId in phaseReply ==> rec.currentPhase == phaseReply[interId])
      && (interId !in phaseReply ==> rec.currentPhase == 0)
      && rec.totalVehiclesInSim == |vehicles|
  {
    GetStateLookup(laneVehicles, laneWaiting, vehicles, ids, phaseReply, interId);
    forall lane ensures lane in RelatedLanes(Keys(laneVehicles), interId) <==>
                        HasKey(laneVehicles, lane) && IsSubstring(interId, lane) {
      RelatedLanesMembers(Keys(laneVehicles), interId, lane);
    }
  }

  /** A needle whose first character never occurs in the haystack is not in it. */
  lemma FirstCharAbsent(hay: string, needle: string)
    requires |needle| > 0 && needle[0] !in hay
    ensures !Contains(hay, needle)
  {
    ContainsIsSubstring(hay, needle);
    forall i: nat ensures !OccursAt(needle, hay, i) {
      if i + |needle| <= |hay| {
        assert hay[i..i + |needle|][0] == hay[i];
        assert hay[i] in hay;
      }
    }
  }

  lemma RelatedLanesSingle(lane: string, interId: string)
    ensures RelatedLanes([lane], interId) == if Contains(lane, interId) then [lane] else []
  {
    assert [lane][1..] == [];
  }

  lemma SumCountsSingle(lane: string, counts: Dict<nat>)
    ensures SumCounts([lane], counts) == Get<nat>(counts, lane, 0)
  {
    assert [lane][1..] == [];
  }

  /** The worked example: lanes I0_lane1:3, I0_lane2:2, I1_lane1:1, waiting I0_lane1:1. */
  lemma TwoIntersectionScenario(lanes: Dict<nat>, waiting: Dict<nat>, ids: seq<string>)
    requires lanes == [("I0_lane1", 3), ("I0_lane2", 2), ("I1_lane1", 1)]
    requires waiting == [("I0_lane1", 1)]
    requires ids == ["I0", "I1"]
    ensures var state := GetState(lanes, waiting, [], ids, map[]);
      && HasKey(state, "I0") && HasKey(state, "I1")
      && Lookup(state, "I0").totalVehicles == 5 && Lookup(state, "I0").totalWaitingVehicles == 1
      && Lookup(state, "I1").totalVehicles == 1 && Lookup(state, "I1").totalWaitingVehicles == 0
  {
    ScenarioRecordI0(lanes, waiting);
    ScenarioRecordI1(lanes, waiting);
    GetStateLookup(lanes, waiting, [], ids, map[], "I0");
    GetStateLookup(lanes, waiting, [], ids, map[], "I1");
  }

  lemma ScenarioKeys()
    ensures Keys([("I0_lane1", 3), ("I0_lane2", 2), ("I1_lane1", 1)]) == ["I0_lane1", "I0_lane2", "I1_lane1"]
  {
  }

  lemma ScenarioRecordI0(lanes: Dict<nat>, waiting: Dict<nat>)
    requires lanes == [("I0_lane1", 3), ("I0_lane2", 2), ("I1_lane1", 1)]
    requires waiting == [("I0_lane1", 1)]
    ensures var r := Record("I0", lanes, waiting, [], map[]); r.totalVehicles == 5 && r.totalWaitingVehicles == 1
  {
    ScenarioLanes();
    ScenarioCounts();
    ScenarioKeys();
    assert RelatedLanes(Keys(lanes), "I0") == ["I0_lane1", "I0_lane2"];
  }

  lemma ScenarioRecordI1(lanes: Dict<nat>, waiting: Dict<nat>)
    requires lanes == [("I0_lane1", 3), ("I0_lane2", 2), ("I1_lane1", 1)]
    requires waiting == [("I0_lane1", 1)]
    ensures var r := Record("I1", lanes, waiting, [], map[]); r.totalVehicles == 1 && r.totalWaitingVehicles == 0
  {
    ScenarioLanes();
    ScenarioCounts();
    ScenarioKeys();
    assert RelatedLanes(Keys(lanes), "I1") == ["I1_lane1"];
  }

  lemma ScenarioCounts()
    ensures SumCounts(["I0_lane1", "I0_lane2"], [("I0_lane1", 3), ("I0_lane2", 2), ("I1_lane1", 1)]) == 5
    ensures SumCounts(["I1_lane1"], [("I0_lane1", 3), ("I0_lane2", 2), ("I1_lane1", 1)]) == 1
    ensures SumCounts(["I0_lane1", "I0_lane2"], [("I0_lane1", 1)]) == 1
    ensures SumCounts(["I1_lane1"], [("I0_lane1", 1)]) == 0
  {
    var lanes: Dict<nat> := [("I0_lane1", 3), ("I0_lane2", 2), ("I1_lane1", 1)];
    var waiting: Dict<nat> := [("I0_lane1", 1)];
    assert "I0_lane1" != "I0_lane2" by { assert "I0_lane1"[7] != "I0_lane2"[7]; }
    assert "I0_lane1" != "I1_lane1" by { assert "I0_lane1"[1] != "I1_lane1"[1]; }
    assert "I0_lane2" != "I1_lane1" by { assert "I0_lane2"[1] != "I1_lane1"[1]; }
    assert Wf(lanes);
    LookupAt(lanes, 0);
    LookupAt(lanes, 1);
    LookupAt(lanes, 2);
    LookupAt(waiting, 0);
    assert Keys(waiting) == ["I0_lane1"];
    assert ["I0_lane1", "I0_lane2"] == ["I0_lane1"] + ["I0_lane2"];
    SumCountsAppend(["I0_lane1"], ["I0_lane2"], lanes);
    SumCountsAppend(["I0_lane1"], ["I0_lane2"], waiting);
    SumCountsSingle("I0_lane1", lanes);
    SumCountsSingle("I0_lane2", lanes);
    SumCountsSingle("I1_lane1", lanes);
    SumCountsSingle("I0_lane1", waiting);
    SumCountsSingle("I0_lane2", waiting);
    SumCountsSingle("I1_lane1", waiting);
  }

  /** Filtering three lanes of which only the first two match. */
  lemma RelatedLanesOfThree(a: string, b: string, c: string, interId: string)
    ensures RelatedLanes([a, b, c], interId)
            == (if Contains(a, interId) then [a] else []) + (if Contains(b, interId) then [b] else [])
               + (if Contains(c, interId) then [c] else [])
  {
    assert [a, b, c] == [a] + [b] + [c];
    RelatedLanesAppend([a] + [b], [c], interId);
    RelatedLanesAppend([a], [b], interId);
    RelatedLanesSingle(a, interId);
    RelatedLanesSingle(b, interId);
    RelatedLanesSingle(c, interId);
  }

  lemma ScenarioContains()
    ensures Contains("I0_lane1", "I0") && Contains("I0_lane2", "I0") && Contains("I1_lane1", "I1")
  {
    assert "I0_lane1"[..2] == "I0";
    assert "I0_lane2"[..2] == "I0";
    assert "I1_lane1"[..2] == "I1";
  }

  /** A needle that is not a prefix, and whose first character does not occur later, is not in the haystack. */
  lemma NotContainsPastFirst(hay: string, needle: string)
    requires 0 < |needle| <= |hay| && hay[..|needle|] != needle && needle[0] !in hay[1..]
    ensures !Contains(hay, needle)
  {
    FirstCharAbsent(hay[1..], needle);
  }

  lemma ScenarioNotContains()
    ensures !Contains("I1_lane1", "I0") && !Contains("I0_lane1", "I1") && !Contains("I0_lane2", "I1")
  {
    assert "I1_lane1"[..2][1] == '1';
    NotContainsPastFirst("I1_lane1", "I0");
    assert "I0_lane1"[..2][1] == '0';
    NotContainsPastFirst("I0_lane1", "I1");
    assert "I0_lane2"[..2][1] == '0';
    NotContainsPastFirst("I0_lane2", "I1");
  }

  lemma ScenarioLanes()
    ensures RelatedLanes(["I0_lane1", "I0_lane2", "I1_lane1"], "I0") == ["I0_lane1", "I0_lane2"]
    ensures RelatedLanes(["I0_lane1", "I0_lane2", "I1_lane1"], "I1") == ["I1_lane1"]
  {
    ScenarioContains();
    ScenarioNotContains();
    RelatedLanesOfThree("I0_lane1", "I0_lane2", "I1_lane1", "I0");
    RelatedLanesOfThree("I0_lane1", "I0_lane2", "I1_lane1", "I1");
  }
}
