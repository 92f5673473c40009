/**
 * The decision provider (`DeepSeekController` in controller_deepseek.py).
 * The HTTP round trip and `json.loads` are an oracle that either fails or
 * hands back the parsed JSON object; what the controller itself decides is
 * how that answer becomes a phase assignment.
 */
module Controller {
  import opened PyDicts
  import opened Aggregation

  /**
   * A value of the parsed response, as `int(phase)` in the apply loop sees
   * it: `Num(n)` for anything `int` converts (to `n`), `Unconvertible`
   * otherwise.
   */
  datatype PhaseValue = Num(n: int) | Unconvertible

  /**
   * What the request and the parse yield: `Failed` for an HTTP error
   * status, a timeout, a missing `choices/message/content` path, content
   * that is not JSON or not a JSON object; otherwise the parsed object.
   */
  datatype Reply = Failed | Parsed(content: Dict<PhaseValue>)

  /**
   * The oracle is asked with the state the prompt carries; the step only
   * indexes the calls, so that replies may differ from one call to the next.
   */
  type Oracle = (Dict<IntersectionState>, int) -> Reply

  /** The fill loop of controller_deepseek.py:62-64, run over `ids` in order. */
  function FillMissing(actions: Dict<PhaseValue>, ids: seq<string>): Dict<PhaseValue>
  {
    if ids == [] then actions
    else
      var prev := FillMissing(actions, ids[..|ids| - 1]);
      var id := ids[|ids| - 1];
      if HasKey(prev, id) then prev else Put(prev, id, Num(0))
  }

  /** `{inter_id: 1 for inter_id in intersection_ids}` (controller_deepseek.py:72) */
  function DefaultActions(ids: seq<string>): Dict<PhaseValue>
  {
    if ids == [] then [] else Put(DefaultActions(ids[..|ids| - 1]), ids[|ids| - 1], Num(1))
  }

  /** The assignment `get_action` returns for a given oracle reply. */
  function Decide(ids: seq<string>, reply: Reply): Dict<PhaseValue>
  {
    match reply
    case Failed => DefaultActions(ids)
    case Parsed(content) => FillMissing(content, ids)
  }

  class DeepSeekController {
    const intersectionIds: seq<string>
    const totalSteps: int
    /** The steps at which the service has been asked, in order. */
    ghost var asked: seq<int>

    /** controller_deepseek.py:10-12; the API key, URL and model name are left out. */
    constructor (intersectionIds: seq<string>, totalSteps: int)
      ensures this.intersectionIds == intersectionIds && this.totalSteps == totalSteps
      ensures asked == []
    {
      this.intersectionIds := intersectionIds;
      this.totalSteps := totalSteps;
      asked := [];
    }

    /**
     * `get_action`: ask the oracle; on success fill every missing id with
     * phase 0 in place, on any failure answer phase 1 for every id. Never
     * raises, and every intersection id is covered.
     */
    method GetAction(state: Dict<IntersectionState>, currentStep: int, oracle: Oracle)
      returns (actions: Dict<PhaseValue>)
      modifies this
      ensures asked == old(asked) + [currentStep]
      ensures actions == Decide(intersectionIds, oracle(state, currentStep))
      ensures forall id :: id in intersectionIds ==> HasKey(actions, id)
    {
      var reply := oracle(state, currentStep);
      asked := asked + [currentStep];
      match reply {
        case Failed =>
          actions := DefaultActions(intersectionIds);
        case Parsed(content) =>
          actions := content;
          for i := 0 to |intersectionIds|
            invariant actions == FillMissing(content, intersectionIds[..i])
          {
            assert intersectionIds[..i + 1][..i] == intersectionIds[..i];
            var id := intersectionIds[i];
            if !HasKey(actions, id) {
              actions := Put(actions, id, Num(0));
            }
          }
          assert intersectionIds[..|intersectionIds|] == intersectionIds;
      }
      forall id | id in intersectionIds ensures HasKey(actions, id) {
        DecideCovers(intersectionIds, reply, id);
      }
    }
  }

  /** The fill only appends: the parsed response is a prefix of the result. */
  lemma {:induction false} FillExtends(actions: Dict<PhaseValue>, ids: seq<string>)
    ensures actions <= FillMissing(actions, ids)
  {
    if ids != [] {
      FillExtends(actions, ids[..|ids| - 1]);
    }
  }

  /**
   * The keys after the fill are those of the response plus the ids: no id
   * is missing, and response keys outside the ids are kept.
   */
  lemma {:induction false} FillKeys(actions: Dict<PhaseValue>, ids: seq<string>, k: string)
    ensures HasKey(FillMissing(actions, ids), k) <==> HasKey(actions, k) || k in ids
  {
    if ids != [] {
      var init, last := ids[..|ids| - 1], ids[|ids| - 1];
      assert ids == init + [last];
      var prev := FillMissing(actions, init);
      FillKeys(actions, init, k);
      if HasKey(prev, last) {
        FillKeys(actions, init, last);
      } else {
        PutKeyStep(prev, init, HasKey(actions, k), last, Num(0), k);
      }
    }
  }

  /** Entries of the response keep their values; the fill never overwrites. */
  lemma FillKeepsResponse(actions: Dict<PhaseValue>, ids: seq<string>, k: string)
    requires HasKey(actions, k)
    ensures HasKey(FillMissing(actions, ids), k)
    ensures Lookup(FillMissing(actions, ids), k) == Lookup(actions, k)
  {
    FillExtends(actions, ids);
    var r := FillMissing(actions, ids);
    assert r == actions + r[|actions|..];
    LookupPrefix(actions, r[|actions|..], k);
  }

  /** An id the response left out is assigned phase 0. */
  lemma {:induction false} FillMissingIsZero(actions: Dict<PhaseValue>, ids: seq<string>, id: string)
    requires id in ids && !HasKey(actions, id)
    ensures HasKey(FillMissing(actions, ids), id)
    ensures Lookup(FillMissing(actions, ids), id) == Num(0)
  {
    var init, last := ids[..|ids| - 1], ids[|ids| - 1];
    assert ids == init + [last];
    var prev := FillMissing(actions, init);
    FillKeys(actions, init, id);
    if id in init {
      FillMissingIsZero(actions, init, id);
      if !HasKey(prev, last) {
        PutLookup(prev, last, Num(0), id);
      }
    } else {
      assert id == last && !HasKey(prev, id);
      PutLookup(prev, last, Num(0), id);
    }
  }

  /** Filling a dict that already holds every id changes nothing. */
  lemma {:induction false} FillNothingMissing(actions: Dict<PhaseValue>, ids: seq<string>)
    requires forall id :: id in ids ==> HasKey(actions, id)
    ensures FillMissing(actions, ids) == actions
  {
    if ids != [] {
      var init := ids[..|ids| - 1];
      assert forall id :: id in init ==> id in ids;
      FillNothingMissing(actions, init);
    }
  }

  /** The fill is idempotent. */
  lemma FillIdempotent(actions: Dict<PhaseValue>, ids: seq<string>)
    ensures FillMissing(FillMissing(actions, ids), ids) == FillMissing(actions, ids)
  {
    forall id | id in ids ensures HasKey(FillMissing(actions, ids), id) {
      FillKeys(actions, ids, id);
    }
    FillNothingMissing(FillMissing(actions, ids), ids);
  }

  /** A response without duplicate keys stays without them. */
  lemma {:induction false} FillWf(actions: Dict<PhaseValue>, ids: seq<string>)
    requires Wf(actions)
    ensures Wf(FillMissing(actions, ids))
  {
    if ids != [] {
      var prev := FillMissing(actions, ids[..|ids| - 1]);
      FillWf(actions, ids[..|ids| - 1]);
      PutWf(prev, ids[|ids| - 1], Num(0));
    }
  }

  /** The failure default holds no key twice. */
  lemma {:induction false} DefaultWf(ids: seq<string>)
    ensures Wf(DefaultActions(ids))
  {
    if ids != [] {
      DefaultWf(ids[..|ids| - 1]);
      PutWf(DefaultActions(ids[..|ids| - 1]), ids[|ids| - 1], Num(1));
    }
  }

  /** The failure default has exactly the intersection ids as keys. */
  lemma {:induction false} DefaultKeys(ids: seq<string>, k: string)
    ensures HasKey(DefaultActions(ids), k) <==> k in ids
  {
    if ids != [] {
      var init, last := ids[..|ids| - 1], ids[|ids| - 1];
      assert ids == init + [last];
      DefaultKeys(init, k);
      PutKeyStep(DefaultActions(init), init, false, last, Num(1), k);
    }
  }

  /** Each intersection id is given phase 1 by the failure default. */
  lemma {:induction false} DefaultValue(ids: seq<string>, k: string)
    requires k in ids
    ensures HasKey(DefaultActions(ids), k) && Lookup(DefaultActions(ids), k) == Num(1)
  {
    var init, last := ids[..|ids| - 1], ids[|ids| - 1];
    assert ids == init + [last];
    DefaultKeys(init, k);
    if k != last {
      DefaultValue(init, k);
    }
    PutLookup(DefaultActions(init), last, Num(1), k);
  }

  /** Whatever the oracle answers, every intersection id gets a phase. */
  lemma DecideCovers(ids: seq<string>, reply: Reply, id: string)
    requires id in ids
    ensures HasKey(Decide(ids, reply), id)
  {
    match reply {
      case Failed => DefaultKeys(ids, id);
      case Parsed(content) => FillKeys(content, ids, id);
    }
  }

  /** `get_action` returns a proper dict when the parsed response is one. */
  lemma DecideWf(ids: seq<string>, reply: Reply)
    requires reply.Parsed? ==> Wf(reply.content)
    ensures Wf(Decide(ids, reply))
  {
    match reply {
      case Failed => DefaultWf(ids);
      case Parsed(content) => FillWf(content, ids);
    }
  }

  /**
   * The two fallbacks differ: an id missing from an answer gets phase 0,
   * while a failed request gives it phase 1.
   */
  lemma FallbacksDiffer(ids: seq<string>, content: Dict<PhaseValue>, id: string)
    requires id in ids && !HasKey(content, id)
    ensures HasKey(Decide(ids, Parsed(content)), id) && HasKey(Decide(ids, Failed), id)
    ensures Lookup(Decide(ids, Parsed(content)), id) == Num(0)
    ensures Lookup(Decide(ids, Failed), id) == Num(1)
  {
    FillMissingIsZero(content, ids, id);
    DefaultValue(ids, id);
  }
}
