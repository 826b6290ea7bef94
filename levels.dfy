/** The difficulty tiers of a tune and the helper that runs an action once per tier. */
module Levels {

  datatype Tier = Bas | Adv | Ext

  /** The tiers in the order the source visits them (models.py line 36). */
  const LEVEL_KINDS: seq<Tier> := [Bas, Adv, Ext]

  /** What `run_by_level` passes to its callback: a tier, or the pseudo-tier 'all'. */
  datatype LevelArg = Level(tier: Tier) | All

  /**
   * `run_by_level`: the callback's effect is left abstract, so the model
   * returns the arguments it is called with, in call order.
   */
  method RunByLevel(withAll: bool) returns (calls: seq<LevelArg>)
    ensures |calls| == |LEVEL_KINDS| + (if withAll then 1 else 0)
    ensures forall i :: 0 <= i < |LEVEL_KINDS| ==> calls[i] == Level(LEVEL_KINDS[i])
    ensures All in calls <==> withAll
    ensures forall t: Tier :: Level(t) in calls
  {
    calls := [];
    for i := 0 to |LEVEL_KINDS|
      invariant |calls| == i
      invariant forall j :: 0 <= j < i ==> calls[j] == Level(LEVEL_KINDS[j])
    {
      calls := calls + [Level(LEVEL_KINDS[i])];
    }
    if withAll {
      calls := calls + [All];
    }
    assert calls[0] == Level(Bas) && calls[1] == Level(Adv) && calls[2] == Level(Ext);
    forall t: Tier
      ensures Level(t) in calls
    {
      match t
      case Bas => assert calls[0] == Level(t);
      case Adv => assert calls[1] == Level(t);
      case Ext => assert calls[2] == Level(t);
    }
  }
}
