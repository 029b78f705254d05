/**
 * One CSV row of the card sheet and the instructions the card loop of
 * `generateCards` sends to the card-creator page for it. The page is treated
 * as a log of abstract actions; the clicks, the keystrokes and the waits for a
 * control to become visible are the page's concern.
 */
module CardPlan {
  import opened Wrappers
  import opened Tables
  import opened Strings

  /**
   * `CardInfo` as delivered by the CSV parser. An empty or missing cell is
   * the empty string; Power and Toughness are `None` for an empty cell and
   * otherwise hold the text that the P/T template renders.
   */
  datatype Card = Card(
    number: int,
    name: string,
    rarity: string,
    color: string,
    cost: string,
    typeLine: string,
    text: string,
    power: Option<string>,
    toughness: Option<string>,
    flavor: string)

  /** The instructions sent to the page. */
  datatype Action =
    | SelectTab(tab: nat)                // open the creator-menu tab at this position
    | SelectTextField(field: nat)        // pick the text option at this position for the editor
    | ClearField                         // select all of the editor's text and delete it
    | Type(text: string)                 // type into the text editor
    | ClickFrame(option: Option<nat>)    // click the frame option at this position; None: no such index
    | AddToFull                          // add the clicked frame over the whole card
    | AddToRightHalf                     // add the clicked frame over the right half
    | SetSymbolUrl(url: Option<string>)  // enter the set-symbol URL and confirm it
    | Download                           // press the download button
    | Reload                             // reload the page

  const FrameTab: nat := 1
  const TextTab: nat := 2
  const SetSymbolTab: nat := 4

  const CostField: nat := 1
  const TitleField: nat := 2
  const TypeField: nat := 3
  const RulesField: nat := 4
  const PowerToughnessField: nat := 5

  /** The row is planned only when Name, Color and Type are all non-empty. */
  predicate ShouldProcess(c: Card)
  {
    c.name != "" && c.color != "" && c.typeLine != ""
  }

  /** Both Power and Toughness cells are filled in. */
  predicate HasPowerToughness(c: Card)
  {
    c.power.Some? && c.toughness.Some?
  }

  /** The colour names two colours joined by a slash. */
  predicate IsDualColor(c: Card)
  {
    '/' in c.color
  }

  /** The template `${Power}/${Toughness}`. */
  function PowerToughnessText(c: Card): (r: string)
    requires HasPowerToughness(c)
    ensures |r| == |c.power.value| + 1 + |c.toughness.value|
    ensures r[|c.power.value|] == '/'
  {
    c.power.value + "/" + c.toughness.value
  }

  /** The warm-up: type "Test" into the title field, then open the frame tab. */
  function WarmUpSteps(): seq<Action>
  {
    [SelectTab(TextTab), SelectTextField(TitleField), Type("Test"), SelectTab(FrameTab)]
  }

  /** The two colours of a dual-colour card: the first two pieces of `Color.split('/')`. */
  function DualColors(c: Card): (r: (string, string))
    requires IsDualColor(c)
    ensures '/' !in r.0 && '/' !in r.1
  {
    SplitHasSecondPiece(c.color, '/');
    SplitPiecesFree(c.color, '/');
    var colors := Split(c.color, '/');
    (colors[0], colors[1])
  }

  /** Frame selection, made while the frame tab is open. */
  function FrameSteps(c: Card): seq<Action>
  {
    if IsDualColor(c) then
      var (left, right) := DualColors(c);
      [ClickFrame(FrameIndex(left)), AddToFull, ClickFrame(FrameIndex(right)), AddToRightHalf]
      + (if HasPowerToughness(c) then [ClickFrame(Some(ColorlessPowerToughness)), AddToFull] else [])
    else
      [ClickFrame(FrameIndex(c.color)), AddToFull]
      + (if HasPowerToughness(c) then [ClickFrame(PowerToughnessFrameIndex(c.color)), AddToFull] else [])
  }

  /** The mana cost, entered only when the cell is non-empty. */
  function CostSteps(c: Card): seq<Action>
  {
    if c.cost != "" then [SelectTextField(CostField), Type(c.cost)] else []
  }

  /** The title, cleared first so that the name replaces what the field held. */
  function TitleSteps(c: Card): seq<Action>
  {
    [SelectTextField(TitleField), ClearField, Type(c.name)]
  }

  /** The type line. */
  function TypeSteps(c: Card): seq<Action>
  {
    [SelectTextField(TypeField), Type(c.typeLine)]
  }

  /** The rules text with its escaped line breaks decoded, only when non-empty. */
  function RulesSteps(c: Card): seq<Action>
  {
    if c.text != "" then [SelectTextField(RulesField), Type(DecodeNewlines(c.text))] else []
  }

  /** Power/toughness, only when both are present. */
  function PowerToughnessSteps(c: Card): seq<Action>
  {
    if HasPowerToughness(c) then [SelectTextField(PowerToughnessField), Type(PowerToughnessText(c))] else []
  }

  /** Field entry, made while the text tab is open. */
  function TextSteps(c: Card): seq<Action>
  {
    CostSteps(c) + TitleSteps(c) + TypeSteps(c) + RulesSteps(c) + PowerToughnessSteps(c)
  }

  /** The set symbol for the rarity, then the download and the reload. */
  function FinishSteps(c: Card): seq<Action>
  {
    [SelectTab(SetSymbolTab), SetSymbolUrl(RarityUrl(c.rarity)), Download, Reload]
  }

  /** Everything one iteration of the card loop sends for a processed card. */
  function PlanCard(c: Card): seq<Action>
  {
    WarmUpSteps() + FrameSteps(c) + [SelectTab(TextTab)] + TextSteps(c) + FinishSteps(c)
  }

  // ---------------------------------------------------------------------------
  // Field order

  /** The text fields an action list selects, in order. */
  function TextFields(acts: seq<Action>): (r: seq<nat>)
    ensures |r| <= |acts|
  {
    if |acts| == 0 then []
    else (if acts[0].SelectTextField? then [acts[0].field] else []) + TextFields(acts[1..])
  }

  lemma {:induction false} TextFieldsAppend(a: seq<Action>, b: seq<Action>)
    ensures TextFields(a + b) == TextFields(a) + TextFields(b)
  {
    if |a| > 0 {
      assert (a + b)[0] == a[0];
      assert (a + b)[1..] == a[1..] + b;
      TextFieldsAppend(a[1..], b);
    } else {
      assert a + b == b;
    }
  }

  lemma TextFieldsSingle(a: Action)
    ensures TextFields([a]) == if a.SelectTextField? then [a.field] else []
  {
    assert [a][1..] == [];
  }

  lemma TextFieldsPair(a: Action, b: Action)
    ensures TextFields([a, b]) == TextFields([a]) + TextFields([b])
  {
    assert [a, b] == [a] + [b];
    TextFieldsAppend([a], [b]);
  }

  predicate StrictlyIncreasing(s: seq<nat>)
  {
    forall i, j :: 0 <= i < j < |s| ==> s[i] < s[j]
  }

  /** A two-action step selects the field of its first action, if any. */
  lemma TextFieldsPairOf(k: nat, a: Action)
    requires !a.SelectTextField?
    ensures TextFields([SelectTextField(k), a]) == [k]
  {
    TextFieldsPair(SelectTextField(k), a);
    TextFieldsSingle(SelectTextField(k));
    TextFieldsSingle(a);
  }

  /** The fields field entry selects, written out case by case. */
  lemma TextFieldsOfSteps(c: Card)
    ensures TextFields(TextSteps(c)) ==
      (if c.cost != "" then [CostField] else []) + [TitleField] + [TypeField]
      + (if c.text != "" then [RulesField] else [])
      + (if HasPowerToughness(c) then [PowerToughnessField] else [])
  {
    if c.cost != "" { TextFieldsPairOf(CostField, Type(c.cost)); }
    assert TextFields(TitleSteps(c)) == [TitleField] by {
      assert TitleSteps(c) == [SelectTextField(TitleField), ClearField] + [Type(c.name)];
      TextFieldsPairOf(TitleField, ClearField);
      TextFieldsAppend([SelectTextField(TitleField), ClearField], [Type(c.name)]);
      TextFieldsSingle(Type(c.name));
    }
    TextFieldsPairOf(TypeField, Type(c.typeLine));
    if c.text != "" { TextFieldsPairOf(RulesField, Type(DecodeNewlines(c.text))); }
    if HasPowerToughness(c) { TextFieldsPairOf(PowerToughnessField, Type(PowerToughnessText(c))); }
    TextFieldsAppend(CostSteps(c), TitleSteps(c));
    TextFieldsAppend(CostSteps(c) + TitleSteps(c), TypeSteps(c));
    TextFieldsAppend(CostSteps(c) + TitleSteps(c) + TypeSteps(c), RulesSteps(c));
    TextFieldsAppend(CostSteps(c) + TitleSteps(c) + TypeSteps(c) + RulesSteps(c), PowerToughnessSteps(c));
  }

  /** Field numbers in the order listed, each optional one present when its flag is set. */
  lemma FieldListOrder(withCost: bool, withRules: bool, withPt: bool, f: seq<nat>)
    requires f == (if withCost then [CostField] else []) + [TitleField] + [TypeField]
      + (if withRules then [RulesField] else []) + (if withPt then [PowerToughnessField] else [])
    ensures StrictlyIncreasing(f)
    ensures forall k :: k in f ==> CostField <= k <= PowerToughnessField
    ensures TitleField in f && TypeField in f
    ensures CostField in f <==> withCost
    ensures RulesField in f <==> withRules
    ensures PowerToughnessField in f <==> withPt
  {
    if withCost {
      FieldListWithCost(withRules, withPt, f);
    } else {
      FieldListWithoutCost(withRules, withPt, f);
    }
  }

  lemma FieldListWithCost(withRules: bool, withPt: bool, f: seq<nat>)
    requires f == [CostField] + [TitleField] + [TypeField]
      + (if withRules then [RulesField] else []) + (if withPt then [PowerToughnessField] else [])
    ensures StrictlyIncreasing(f) && TitleField in f && TypeField in f && CostField in f
    ensures forall k :: k in f ==> CostField <= k <= PowerToughnessField
    ensures (RulesField in f <==> withRules) && (PowerToughnessField in f <==> withPt)
  {
    if withRules {
      if withPt { assert f == [1, 2, 3, 4, 5]; } else { assert f == [1, 2, 3, 4]; }
    } else {
      if withPt { assert f == [1, 2, 3, 5]; } else { assert f == [1, 2, 3]; }
    }
  }

  lemma FieldListWithoutCost(withRules: bool, withPt: bool, f: seq<nat>)
    requires f == [TitleField] + [TypeField]
      + (if withRules then [RulesField] else []) + (if withPt then [PowerToughnessField] else [])
    ensures StrictlyIncreasing(f) && TitleField in f && TypeField in f && CostField !in f
    ensures forall k :: k in f ==> CostField <= k <= PowerToughnessField
    ensures (RulesField in f <==> withRules) && (PowerToughnessField in f <==> withPt)
  {
    if withRules {
      if withPt { assert f == [2, 3, 4, 5]; } else { assert f == [2, 3, 4]; }
    } else {
      if withPt { assert f == [2, 3, 5]; } else { assert f == [2, 3]; }
    }
  }

  /**
   * Field entry visits the fields in strictly increasing order; the title and
   * type fields always, the cost, rules and P/T fields exactly when they have
   * something to enter.
   */
  lemma TextFieldOrder(c: Card)
    ensures StrictlyIncreasing(TextFields(TextSteps(c)))
    ensures forall k :: k in TextFields(TextSteps(c)) ==> CostField <= k <= PowerToughnessField
    ensures TitleField in TextFields(TextSteps(c)) && TypeField in TextFields(TextSteps(c))
    ensures CostField in TextFields(TextSteps(c)) <==> c.cost != ""
    ensures RulesField in TextFields(TextSteps(c)) <==> c.text != ""
    ensures PowerToughnessField in TextFields(TextSteps(c)) <==> HasPowerToughness(c)
  {
    TextFieldsOfSteps(c);
    FieldListOrder(c.cost != "", c.text != "", HasPowerToughness(c), TextFields(TextSteps(c)));
  }

  /** The P/T text splits back into Power and Toughness when neither holds a '/'. */
  lemma PowerToughnessRoundTrip(c: Card)
    requires HasPowerToughness(c) && '/' !in c.power.value && '/' !in c.toughness.value
    ensures Split(PowerToughnessText(c), '/') == [c.power.value, c.toughness.value]
  {
    var parts := [c.power.value, c.toughness.value];
    assert Join(parts, '/') == PowerToughnessText(c) by {
      assert Join(parts[1..], '/') == c.toughness.value;
    }
    SplitJoin(parts, '/');
  }

  // ---------------------------------------------------------------------------
  // Colours

  /** The two colours of "a/b", and of "a/b/..." where the later pieces are ignored. */
  lemma DualColorsOf(c: Card, a: string, b: string, rest: string)
    requires '/' !in a && '/' !in b
    requires c.color == a + "/" + b || c.color == a + "/" + b + "/" + rest
    ensures IsDualColor(c)
    ensures DualColors(c) == (a, b)
  {
    assert c.color[|a|] == '/';
    if c.color == a + "/" + b {
      assert c.color == a + ['/'] + b;
      SplitAfter(a, '/', b);
      SplitFree(b, '/');
    } else {
      assert c.color == a + ['/'] + (b + ['/'] + rest);
      SplitAfter(a, '/', b + ['/'] + rest);
      SplitAfter(b, '/', rest);
    }
  }

  /** Only the first two colours of a dual-colour card reach the page. */
  lemma LaterColorsIgnored(c: Card, a: string, b: string, rest: string)
    requires '/' !in a && '/' !in b
    requires c.color == a + "/" + b + "/" + rest
    ensures FrameSteps(c) == FrameSteps(c.(color := a + "/" + b))
  {
    DualColorsOf(c, a, b, rest);
    DualColorsOf(c.(color := a + "/" + b), a, b, "");
  }

  /** The frame options a list of actions clicks, in order. */
  function ClickedFrames(acts: seq<Action>): (r: seq<Option<nat>>)
    ensures |r| <= |acts|
  {
    if |acts| == 0 then []
    else (if acts[0].ClickFrame? then [acts[0].option] else []) + ClickedFrames(acts[1..])
  }

  lemma ClickedFramesAppend(a: seq<Action>, b: seq<Action>)
    ensures ClickedFrames(a + b) == ClickedFrames(a) + ClickedFrames(b)
  {
    if |a| > 0 {
      assert (a + b)[0] == a[0];
      assert (a + b)[1..] == a[1..] + b;
      ClickedFramesAppend(a[1..], b);
    } else {
      assert a + b == b;
    }
  }

  lemma ClickedFramesPair(a: Action, b: Action)
    ensures ClickedFrames([a, b]) == (if a.ClickFrame? then [a.option] else []) + (if b.ClickFrame? then [b.option] else [])
  {
    assert [a, b] == [a] + [b];
    assert [a][1..] == [] && [b][1..] == [];
    ClickedFramesAppend([a], [b]);
  }

  /**
   * A dual-colour card uses the colour-neutral P/T frame, never a
   * colour-specific one: no option in 11..17 is ever clicked for it.
   */
  lemma DualColorPowerToughnessIsColorless(c: Card)
    requires IsDualColor(c)
    ensures forall o :: o in ClickedFrames(FrameSteps(c)) && o.Some? && o.value > 10 ==> o.value == ColorlessPowerToughness
    ensures HasPowerToughness(c) <==> Some(ColorlessPowerToughness) in ClickedFrames(FrameSteps(c))
  {
    ClickedFramesOfDual(c);
  }

  /** The options a dual-colour card clicks: its two colours' frames, then the neutral P/T frame if any. */
  lemma ClickedFramesOfDual(c: Card)
    requires IsDualColor(c)
    ensures ClickedFrames(FrameSteps(c)) ==
      [FrameIndex(DualColors(c).0), FrameIndex(DualColors(c).1)]
      + (if HasPowerToughness(c) then [Some(ColorlessPowerToughness)] else [])
  {
    var (l, r) := DualColors(c);
    var left := [ClickFrame(FrameIndex(l)), AddToFull];
    var right := [ClickFrame(FrameIndex(r)), AddToRightHalf];
    var pt := if HasPowerToughness(c) then [ClickFrame(Some(ColorlessPowerToughness)), AddToFull] else [];
    assert FrameSteps(c) == left + right + pt;
    ClickedFramesPair(left[0], left[1]);
    ClickedFramesPair(right[0], right[1]);
    if HasPowerToughness(c) { ClickedFramesPair(pt[0], pt[1]); }
    ClickedFramesAppend(left, right);
    ClickedFramesAppend(left + right, pt);
  }

  // ---------------------------------------------------------------------------
  // Lookups that find nothing

  /** True unless the action carries an index or URL the tables did not define. */
  predicate Defined(a: Action)
  {
    match a
    case ClickFrame(o) => o.Some?
    case SetSymbolUrl(u) => u.Some?
    case _ => true
  }

  predicate AllDefined(acts: seq<Action>)
  {
    forall i :: 0 <= i < |acts| ==> Defined(acts[i])
  }

  /** The frame-table keys a card needs. */
  predicate FrameLookupsKnown(c: Card)
  {
    if IsDualColor(c) then DualColors(c).0 in FrameMap && DualColors(c).1 in FrameMap
    else c.color in FrameMap && (HasPowerToughness(c) ==> c.color in PowerToughnessFrameMap)
  }

  /** The table keys a card needs: exactly when they are known, the plan carries no undefined value. */
  predicate LookupsKnown(c: Card)
  {
    c.rarity in RarityMap && FrameLookupsKnown(c)
  }

  lemma AllDefinedAppend(a: seq<Action>, b: seq<Action>)
    ensures AllDefined(a + b) <==> AllDefined(a) && AllDefined(b)
  {
    if AllDefined(a) && AllDefined(b) {
      forall i | 0 <= i < |a + b| ensures Defined((a + b)[i]) {
        if i >= |a| { assert (a + b)[i] == b[i - |a|]; }
      }
    }
    if AllDefined(a + b) {
      forall i | 0 <= i < |a| ensures Defined(a[i]) {
        assert (a + b)[i] == a[i];
      }
      forall i | 0 <= i < |b| ensures Defined(b[i]) {
        assert (a + b)[i + |a|] == b[i];
      }
    }
  }

  lemma FrameDefinedIff(c: Card)
    ensures AllDefined(FrameSteps(c)) <==> FrameLookupsKnown(c)
  {
    if IsDualColor(c) {
      var (l, r) := DualColors(c);
      var pt := if HasPowerToughness(c) then [ClickFrame(Some(ColorlessPowerToughness)), AddToFull] else [];
      AllDefinedAppend([ClickFrame(FrameIndex(l)), AddToFull, ClickFrame(FrameIndex(r)), AddToRightHalf], pt);
      assert FrameSteps(c)[0] == ClickFrame(FrameIndex(l));
      assert FrameSteps(c)[2] == ClickFrame(FrameIndex(r));
    } else {
      var pt := if HasPowerToughness(c) then [ClickFrame(PowerToughnessFrameIndex(c.color)), AddToFull] else [];
      AllDefinedAppend([ClickFrame(FrameIndex(c.color)), AddToFull], pt);
      assert FrameSteps(c)[0] == ClickFrame(FrameIndex(c.color));
      if HasPowerToughness(c) {
        assert FrameSteps(c)[2] == ClickFrame(PowerToughnessFrameIndex(c.color));
      }
    }
  }

  lemma TextDefined(c: Card)
    ensures AllDefined(TextSteps(c))
  {
    AllDefinedAppend(CostSteps(c), TitleSteps(c));
    AllDefinedAppend(CostSteps(c) + TitleSteps(c), TypeSteps(c));
    AllDefinedAppend(CostSteps(c) + TitleSteps(c) + TypeSteps(c), RulesSteps(c));
    AllDefinedAppend(CostSteps(c) + TitleSteps(c) + TypeSteps(c) + RulesSteps(c), PowerToughnessSteps(c));
  }

  lemma PlanDefinedIff(c: Card)
    ensures AllDefined(PlanCard(c)) <==> LookupsKnown(c)
  {
    var front := WarmUpSteps() + FrameSteps(c) + [SelectTab(TextTab)];
    FrameDefinedIff(c);
    TextDefined(c);
    AllDefinedAppend(WarmUpSteps(), FrameSteps(c));
    AllDefinedAppend(WarmUpSteps() + FrameSteps(c), [SelectTab(TextTab)]);
    AllDefinedAppend(front, TextSteps(c));
    AllDefinedAppend(front + TextSteps(c), FinishSteps(c));
    assert AllDefined(WarmUpSteps());
    assert AllDefined(FinishSteps(c)) <==> c.rarity in RarityMap by {
      assert FinishSteps(c)[1] == SetSymbolUrl(RarityUrl(c.rarity));
    }
  }

  /**
   * A Vehicle, an Eldrazi or a Land card with power and toughness asks for a
   * P/T frame that the P/T table does not have.
   */
  lemma UndefinedPowerToughnessFrame(c: Card)
    requires c.color in {"Vehicle", "Eldrazi", "Land"} && HasPowerToughness(c)
    ensures ClickFrame(None) in FrameSteps(c)
    ensures !AllDefined(PlanCard(c))
  {
    assert !IsDualColor(c);
    assert FrameSteps(c)[2] == ClickFrame(None);
    PlanDefinedIff(c);
  }
}
