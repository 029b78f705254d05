/**
 * The three fixed lookup tables of src/utils.ts: the rarity letter to the URL of
 * its set-symbol image, the colour to the position of its frame option in the
 * card creator's frame picker, and the colour to the position of its
 * power/toughness frame option. A key that is not in a table yields `None`,
 * as indexing a plain object with a missing key yields `undefined`.
 */
module Tables {
  import opened Wrappers

  const RarityMap: map<string, string> := map[
    "R" := "https://i.imgur.com/3dvWenR.png",
    "U" := "https://i.imgur.com/FMyNUww.png",
    "C" := "https://i.imgur.com/CGciVRr.png"
  ]

  const FrameMap: map<string, nat> := map[
    "White" := 1, "Blue" := 2, "Black" := 3, "Red" := 4, "Green" := 5,
    "Multi" := 6, "Artifact" := 7, "Land" := 8, "Eldrazi" := 9, "Vehicle" := 10
  ]

  const PowerToughnessFrameMap: map<string, nat> := map[
    "White" := 11, "Blue" := 12, "Black" := 13, "Red" := 14, "Green" := 15,
    "Multi" := 16, "Artifact" := 17, "Colorless" := 18
  ]

  /** `framePowerToughnessMap.Colorless`, the P/T frame every dual-colour card uses. */
  const ColorlessPowerToughness: nat := 18

  function Lookup<V>(m: map<string, V>, key: string): (r: Option<V>)
    ensures r.Some? <==> key in m
    ensures r.Some? ==> r.value == m[key]
  {
    if key in m then Some(m[key]) else None
  }

  /** `frameMap[color]`: a position among the ten plain frame options. */
  function FrameIndex(color: string): (r: Option<nat>)
    ensures r.Some? ==> 1 <= r.value <= 10
    ensures r.Some? <==> color in {"White", "Blue", "Black", "Red", "Green",
                                   "Multi", "Artifact", "Land", "Eldrazi", "Vehicle"}
  {
    Lookup(FrameMap, color)
  }

  /** `framePowerToughnessMap[color]`: a position among the eight P/T frame options. */
  function PowerToughnessFrameIndex(color: string): (r: Option<nat>)
    ensures r.Some? ==> 11 <= r.value <= 18
    ensures r.Some? <==> color in {"White", "Blue", "Black", "Red", "Green",
                                   "Multi", "Artifact", "Colorless"}
  {
    Lookup(PowerToughnessFrameMap, color)
  }

  /** `rarityMap[rarity]`: defined for the three letters R, U and C only. */
  function RarityUrl(rarity: string): (r: Option<string>)
    ensures r.Some? <==> rarity in {"R", "U", "C"}
    ensures r.Some? ==> |r.value| > 0
  {
    Lookup(RarityMap, rarity)
  }

  /** A plain frame option is never a P/T frame option: the two ranges are disjoint. */
  lemma FrameRangesDisjoint(a: string, b: string)
    requires FrameIndex(a).Some? && PowerToughnessFrameIndex(b).Some?
    ensures FrameIndex(a).value != PowerToughnessFrameIndex(b).value
  {
  }

  /** Distinct colours pick distinct plain frame options. */
  lemma FrameIndexInjective(a: string, b: string)
    requires FrameIndex(a).Some? && FrameIndex(a) == FrameIndex(b)
    ensures a == b
  {
  }

  /** Distinct colours pick distinct P/T frame options. */
  lemma PowerToughnessFrameIndexInjective(a: string, b: string)
    requires PowerToughnessFrameIndex(a).Some? && PowerToughnessFrameIndex(a) == PowerToughnessFrameIndex(b)
    ensures a == b
  {
  }

  /** The keys the two frame tables do not share. */
  lemma TableGaps()
    ensures PowerToughnessFrameIndex("Land") == None
    ensures PowerToughnessFrameIndex("Eldrazi") == None
    ensures PowerToughnessFrameIndex("Vehicle") == None
    ensures FrameIndex("Colorless") == None
    ensures PowerToughnessFrameIndex("Colorless") == Some(ColorlessPowerToughness)
  {
  }
}
