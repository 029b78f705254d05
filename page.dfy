/**
 * What the instructions of the card loop do to the card-creator page, as far
 * as the loop relies on it: which tab and which text field are selected, the
 * text of each field, the frame option last clicked and the frame layers
 * added so far, the set-symbol URL, and the images downloaded.
 *
 * Typing appends to the selected field; clearing empties it. What the page
 * looks like after a reload is not fixed by the loop, so it is a parameter
 * (`reloaded`) of every lemma; downloaded images stay on disk across reloads.
 */
module Page {
  import opened Wrappers
  import opened Tables
  import opened Strings
  import opened CardPlan

  datatype Region = Full | RightHalf

  /** A frame option added to the card, and the part of the card it covers. */
  datatype Layer = Layer(option: Option<nat>, region: Region)

  datatype Page = Page(
    tab: nat,
    field: nat,
    fields: map<nat, string>,
    selected: Option<nat>,
    layers: seq<Layer>,
    symbolUrl: Option<string>)

  /** The page and the images downloaded so far, each named after the title field. */
  datatype World = World(page: Page, downloads: seq<string>)

  function FieldText(p: Page, k: nat): string
  {
    if k in p.fields then p.fields[k] else ""
  }

  function Step(reloaded: Page, w: World, a: Action): World
  {
    var p := w.page;
    match a
    case SelectTab(t) => w.(page := p.(tab := t))
    case SelectTextField(k) => w.(page := p.(field := k))
    case ClearField => w.(page := p.(fields := p.fields[p.field := ""]))
    case Type(s) => w.(page := p.(fields := p.fields[p.field := FieldText(p, p.field) + s]))
    case ClickFrame(o) => w.(page := p.(selected := o))
    case AddToFull => w.(page := p.(layers := p.layers + [Layer(p.selected, Full)]))
    case AddToRightHalf => w.(page := p.(layers := p.layers + [Layer(p.selected, RightHalf)]))
    case SetSymbolUrl(u) => w.(page := p.(symbolUrl := u))
    case Download => w.(downloads := w.downloads + [FieldText(p, TitleField)])
    case Reload => World(reloaded, w.downloads)
  }

  function Run(reloaded: Page, w: World, acts: seq<Action>): World
    decreases |acts|
  {
    if |acts| == 0 then w else Run(reloaded, Step(reloaded, w, acts[0]), acts[1..])
  }

  lemma {:induction false} RunAppend(reloaded: Page, w: World, a: seq<Action>, b: seq<Action>)
    ensures Run(reloaded, w, a + b) == Run(reloaded, Run(reloaded, w, a), b)
    decreases |a|
  {
    if |a| == 0 {
      assert a + b == b;
    } else {
      assert (a + b)[0] == a[0];
      assert (a + b)[1..] == a[1..] + b;
      RunAppend(reloaded, Step(reloaded, w, a[0]), a[1..], b);
    }
  }

  lemma RunSingle(reloaded: Page, w: World, a: Action)
    ensures Run(reloaded, w, [a]) == Step(reloaded, w, a)
  {
    assert [a][1..] == [];
  }

  lemma RunPair(reloaded: Page, w: World, a: Action, b: Action)
    ensures Run(reloaded, w, [a, b]) == Step(reloaded, Step(reloaded, w, a), b)
  {
    assert [a, b] == [a] + [b];
    RunAppend(reloaded, w, [a], [b]);
    RunSingle(reloaded, w, a);
    RunSingle(reloaded, Step(reloaded, w, a), b);
  }

  // ---------------------------------------------------------------------------
  // Field entry

  /** Selecting field k and typing s appends s to field k and touches nothing else. */
  lemma EnterText(reloaded: Page, w: World, k: nat, s: string)
    ensures Run(reloaded, w, [SelectTextField(k), Type(s)])
         == w.(page := w.page.(field := k, fields := w.page.fields[k := FieldText(w.page, k) + s]))
  {
    RunPair(reloaded, w, SelectTextField(k), Type(s));
  }

  /** Selecting field k, clearing it and typing s leaves exactly s in field k. */
  lemma OverwriteText(reloaded: Page, w: World, k: nat, s: string)
    ensures Run(reloaded, w, [SelectTextField(k), ClearField, Type(s)])
         == w.(page := w.page.(field := k, fields := w.page.fields[k := s]))
  {
    assert [SelectTextField(k), ClearField, Type(s)] == [SelectTextField(k), ClearField] + [Type(s)];
    RunAppend(reloaded, w, [SelectTextField(k), ClearField], [Type(s)]);
    RunPair(reloaded, w, SelectTextField(k), ClearField);
    RunSingle(reloaded, Run(reloaded, w, [SelectTextField(k), ClearField]), Type(s));
    assert "" + s == s;
    assert w.page.fields[k := ""][k := s] == w.page.fields[k := s];
  }

  /** The title step leaves exactly the card's name, whatever the field held before. */
  lemma TitleOverwrite(reloaded: Page, w: World, c: Card)
    ensures FieldText(Run(reloaded, w, TitleSteps(c)).page, TitleField) == c.name
  {
    OverwriteText(reloaded, w, TitleField, c.name);
  }

  /** w' differs from w only in the text of field k, into which s was written (appended, or in place of the old text). */
  ghost predicate Writes(w: World, w': World, k: nat, s: string, overwrite: bool)
  {
    && FieldText(w'.page, k) == (if overwrite then s else FieldText(w.page, k) + s)
    && (forall j: nat :: j != k ==> FieldText(w'.page, j) == FieldText(w.page, j))
    && w'.page.tab == w.page.tab && w'.page.selected == w.page.selected
    && w'.page.layers == w.page.layers && w'.page.symbolUrl == w.page.symbolUrl
    && w'.downloads == w.downloads
  }

  lemma CostEffect(reloaded: Page, w: World, c: Card)
    ensures Writes(w, Run(reloaded, w, CostSteps(c)), CostField, c.cost, false)
  {
    if c.cost != "" { EnterText(reloaded, w, CostField, c.cost); } else { assert FieldText(w.page, CostField) + c.cost == FieldText(w.page, CostField); }
  }

  lemma RulesEffect(reloaded: Page, w: World, c: Card)
    ensures Writes(w, Run(reloaded, w, RulesSteps(c)), RulesField, DecodeNewlines(c.text), false)
  {
    if c.text != "" {
      EnterText(reloaded, w, RulesField, DecodeNewlines(c.text));
    } else {
      assert FieldText(w.page, RulesField) + DecodeNewlines(c.text) == FieldText(w.page, RulesField);
    }
  }

  lemma PowerToughnessEffect(reloaded: Page, w: World, c: Card)
    ensures Writes(w, Run(reloaded, w, PowerToughnessSteps(c)), PowerToughnessField,
                   if HasPowerToughness(c) then PowerToughnessText(c) else "", false)
  {
    if HasPowerToughness(c) {
      EnterText(reloaded, w, PowerToughnessField, PowerToughnessText(c));
    } else {
      assert FieldText(w.page, PowerToughnessField) + "" == FieldText(w.page, PowerToughnessField);
    }
  }

  /** After field entry: the title holds the name; the other four fields have their values appended. */
  lemma TextStepsEffect(reloaded: Page, w: World, c: Card)
    ensures var p := Run(reloaded, w, TextSteps(c)).page;
      && FieldText(p, TitleField) == c.name
      && FieldText(p, CostField) == FieldText(w.page, CostField) + c.cost
      && FieldText(p, TypeField) == FieldText(w.page, TypeField) + c.typeLine
      && FieldText(p, RulesField) == FieldText(w.page, RulesField) + DecodeNewlines(c.text)
      && FieldText(p, PowerToughnessField) == FieldText(w.page, PowerToughnessField)
           + (if HasPowerToughness(c) then PowerToughnessText(c) else "")
      && (forall k: nat :: k < CostField || PowerToughnessField < k ==> FieldText(p, k) == FieldText(w.page, k))
      && p.tab == w.page.tab && p.selected == w.page.selected
      && p.layers == w.page.layers && p.symbolUrl == w.page.symbolUrl
    ensures Run(reloaded, w, TextSteps(c)).downloads == w.downloads
  {
    var w1 := Run(reloaded, w, CostSteps(c));
    CostEffect(reloaded, w, c);
    var w2 := Run(reloaded, w1, TitleSteps(c));
    OverwriteText(reloaded, w1, TitleField, c.name);
    assert Writes(w1, w2, TitleField, c.name, true);
    var w3 := Run(reloaded, w2, TypeSteps(c));
    EnterText(reloaded, w2, TypeField, c.typeLine);
    assert Writes(w2, w3, TypeField, c.typeLine, false);
    var w4 := Run(reloaded, w3, RulesSteps(c));
    RulesEffect(reloaded, w3, c);
    var w5 := Run(reloaded, w4, PowerToughnessSteps(c));
    PowerToughnessEffect(reloaded, w4, c);
    RunAppend(reloaded, w, CostSteps(c), TitleSteps(c));
    RunAppend(reloaded, w, CostSteps(c) + TitleSteps(c), TypeSteps(c));
    RunAppend(reloaded, w, CostSteps(c) + TitleSteps(c) + TypeSteps(c), RulesSteps(c));
    RunAppend(reloaded, w, CostSteps(c) + TitleSteps(c) + TypeSteps(c) + RulesSteps(c), PowerToughnessSteps(c));
    assert Run(reloaded, w, TextSteps(c)) == w5;
  }

  // ---------------------------------------------------------------------------
  // Frame selection

  /** Clicking option o and adding it covers the given region with o. */
  lemma AddFrame(reloaded: Page, w: World, o: Option<nat>, add: Action)
    requires add == AddToFull || add == AddToRightHalf
    ensures Run(reloaded, w, [ClickFrame(o), add])
         == w.(page := w.page.(selected := o,
                               layers := w.page.layers + [Layer(o, if add == AddToFull then Full else RightHalf)]))
  {
    RunPair(reloaded, w, ClickFrame(o), add);
  }

  /** Frame selection adds layers and changes no text field, tab or download. */
  predicate FramesOnly(w: World, w': World)
  {
    w'.page.fields == w.page.fields && w'.page.field == w.page.field && w'.page.tab == w.page.tab
    && w'.page.symbolUrl == w.page.symbolUrl && w'.downloads == w.downloads
  }

  /** The layers a card's frame selection puts on the card, in order. */
  function FrameLayers(c: Card): (r: seq<Layer>)
    ensures |r| == if HasPowerToughness(c) then (if IsDualColor(c) then 3 else 2) else (if IsDualColor(c) then 2 else 1)
  {
    if IsDualColor(c) then
      [Layer(FrameIndex(DualColors(c).0), Full), Layer(FrameIndex(DualColors(c).1), RightHalf)]
      + (if HasPowerToughness(c) then [Layer(Some(ColorlessPowerToughness), Full)] else [])
    else
      [Layer(FrameIndex(c.color), Full)]
      + (if HasPowerToughness(c) then [Layer(PowerToughnessFrameIndex(c.color), Full)] else [])
  }

  /** Frame selection adds exactly the card's frame layers and changes nothing else. */
  lemma FrameStepsEffect(reloaded: Page, w: World, c: Card)
    ensures Run(reloaded, w, FrameSteps(c)).page.layers == w.page.layers + FrameLayers(c)
    ensures FramesOnly(w, Run(reloaded, w, FrameSteps(c)))
  {
    if IsDualColor(c) {
      var (a, b) := DualColors(c);
      var left := [ClickFrame(FrameIndex(a)), AddToFull];
      var right := [ClickFrame(FrameIndex(b)), AddToRightHalf];
      var pt := if HasPowerToughness(c) then [ClickFrame(Some(ColorlessPowerToughness)), AddToFull] else [];
      assert FrameSteps(c) == left + right + pt;
      RunAppend(reloaded, w, left, right);
      RunAppend(reloaded, w, left + right, pt);
      AddFrame(reloaded, w, FrameIndex(a), AddToFull);
      AddFrame(reloaded, Run(reloaded, w, left), FrameIndex(b), AddToRightHalf);
      if HasPowerToughness(c) {
        AddFrame(reloaded, Run(reloaded, w, left + right), Some(ColorlessPowerToughness), AddToFull);
      }
    } else {
      var first := [ClickFrame(FrameIndex(c.color)), AddToFull];
      var pt := if HasPowerToughness(c) then [ClickFrame(PowerToughnessFrameIndex(c.color)), AddToFull] else [];
      assert FrameSteps(c) == first + pt;
      RunAppend(reloaded, w, first, pt);
      AddFrame(reloaded, w, FrameIndex(c.color), AddToFull);
      if HasPowerToughness(c) {
        AddFrame(reloaded, Run(reloaded, w, first), PowerToughnessFrameIndex(c.color), AddToFull);
      }
    }
  }

  /**
   * A single-colour card gets its colour's frame over the full card, then,
   * exactly when it has power and toughness, its colour's P/T frame.
   */
  lemma SingleColorFrames(reloaded: Page, w: World, c: Card)
    requires !IsDualColor(c)
    ensures Run(reloaded, w, FrameSteps(c)).page.layers == w.page.layers + [Layer(FrameIndex(c.color), Full)]
      + (if HasPowerToughness(c) then [Layer(PowerToughnessFrameIndex(c.color), Full)] else [])
  {
    FrameStepsEffect(reloaded, w, c);
  }

  /**
   * A dual-colour card "a/b" (or "a/b/...") gets a's frame over the full card,
   * b's frame over the right half, and, exactly when it has power and
   * toughness, the colour-neutral P/T frame over the full card.
   */
  lemma DualColorFrames(reloaded: Page, w: World, c: Card, a: string, b: string, rest: string)
    requires '/' !in a && '/' !in b
    requires c.color == a + "/" + b || c.color == a + "/" + b + "/" + rest
    ensures Run(reloaded, w, FrameSteps(c)).page.layers
         == w.page.layers + [Layer(FrameIndex(a), Full), Layer(FrameIndex(b), RightHalf)]
          + (if HasPowerToughness(c) then [Layer(Some(ColorlessPowerToughness), Full)] else [])
  {
    DualColorsOf(c, a, b, rest);
    FrameStepsEffect(reloaded, w, c);
  }

  // ---------------------------------------------------------------------------
  // A whole card

  /** The actions of a card's plan before its download and reload. */
  function BeforeDownload(c: Card): seq<Action>
  {
    WarmUpSteps() + FrameSteps(c) + [SelectTab(TextTab)] + TextSteps(c) + [SelectTab(SetSymbolTab), SetSymbolUrl(RarityUrl(c.rarity))]
  }

  lemma PlanCardSplit(c: Card)
    ensures PlanCard(c) == BeforeDownload(c) + [Download, Reload]
  {
  }

  lemma WarmUpEffect(reloaded: Page, w: World)
    ensures var w' := Run(reloaded, w, WarmUpSteps());
      && w'.page.tab == FrameTab && w'.downloads == w.downloads
      && w'.page.layers == w.page.layers && w'.page.selected == w.page.selected
      && FieldText(w'.page, TitleField) == FieldText(w.page, TitleField) + "Test"
      && forall k: nat :: k != TitleField ==> FieldText(w'.page, k) == FieldText(w.page, k)
  {
    assert WarmUpSteps() == [SelectTab(TextTab)] + [SelectTextField(TitleField), Type("Test")] + [SelectTab(FrameTab)];
    RunAppend(reloaded, w, [SelectTab(TextTab)], [SelectTextField(TitleField), Type("Test")]);
    RunAppend(reloaded, w, [SelectTab(TextTab)] + [SelectTextField(TitleField), Type("Test")], [SelectTab(FrameTab)]);
    RunSingle(reloaded, w, SelectTab(TextTab));
    var w1 := Run(reloaded, w, [SelectTab(TextTab)]);
    EnterText(reloaded, w1, TitleField, "Test");
    RunSingle(reloaded, Run(reloaded, w1, [SelectTextField(TitleField), Type("Test")]), SelectTab(FrameTab));
  }

  /** The page when field entry begins: the warm-up text sits in the title, the frames are on the card. */
  lemma BeforeFieldEntry(reloaded: Page, w: World, c: Card)
    ensures var w3 := Run(reloaded, Run(reloaded, Run(reloaded, w, WarmUpSteps()), FrameSteps(c)), [SelectTab(TextTab)]);
      && (forall k: nat :: k != TitleField ==> FieldText(w3.page, k) == FieldText(w.page, k))
      && w3.page.layers == w.page.layers + FrameLayers(c)
      && w3.downloads == w.downloads
  {
    var w1 := Run(reloaded, w, WarmUpSteps());
    WarmUpEffect(reloaded, w);
    var w2 := Run(reloaded, w1, FrameSteps(c));
    FrameStepsEffect(reloaded, w1, c);
    RunSingle(reloaded, w2, SelectTab(TextTab));
  }

  /**
   * The page at the moment of the download: the set-symbol tab is open with
   * the rarity's URL, the title is the card's name (the warm-up "Test" is
   * gone), the other fields hold what was there plus the card's values, and
   * the frame layers of the card sit on top of the layers already there.
   */
  lemma PageAtDownload(reloaded: Page, w: World, c: Card)
    ensures var p := Run(reloaded, w, BeforeDownload(c)).page;
      && p.tab == SetSymbolTab
      && p.symbolUrl == RarityUrl(c.rarity)
      && FieldText(p, TitleField) == c.name
      && FieldText(p, CostField) == FieldText(w.page, CostField) + c.cost
      && FieldText(p, TypeField) == FieldText(w.page, TypeField) + c.typeLine
      && FieldText(p, RulesField) == FieldText(w.page, RulesField) + DecodeNewlines(c.text)
      && FieldText(p, PowerToughnessField) == FieldText(w.page, PowerToughnessField)
           + (if HasPowerToughness(c) then PowerToughnessText(c) else "")
      && p.layers == w.page.layers + FrameLayers(c)
    ensures Run(reloaded, w, BeforeDownload(c)).downloads == w.downloads
  {
    var w3 := Run(reloaded, Run(reloaded, Run(reloaded, w, WarmUpSteps()), FrameSteps(c)), [SelectTab(TextTab)]);
    BeforeFieldEntry(reloaded, w, c);
    AfterFieldEntry(reloaded, w3, c);
    RunBeforeDownload(reloaded, w, c);
  }

  /** Field entry and the set symbol, from the page where field entry begins. */
  lemma AfterFieldEntry(reloaded: Page, w3: World, c: Card)
    ensures var p := Run(reloaded, Run(reloaded, w3, TextSteps(c)), [SelectTab(SetSymbolTab), SetSymbolUrl(RarityUrl(c.rarity))]).page;
      && p.tab == SetSymbolTab
      && p.symbolUrl == RarityUrl(c.rarity)
      && FieldText(p, TitleField) == c.name
      && FieldText(p, CostField) == FieldText(w3.page, CostField) + c.cost
      && FieldText(p, TypeField) == FieldText(w3.page, TypeField) + c.typeLine
      && FieldText(p, RulesField) == FieldText(w3.page, RulesField) + DecodeNewlines(c.text)
      && FieldText(p, PowerToughnessField) == FieldText(w3.page, PowerToughnessField)
           + (if HasPowerToughness(c) then PowerToughnessText(c) else "")
      && p.layers == w3.page.layers
    ensures Run(reloaded, Run(reloaded, w3, TextSteps(c)), [SelectTab(SetSymbolTab), SetSymbolUrl(RarityUrl(c.rarity))]).downloads == w3.downloads
  {
    var w4 := Run(reloaded, w3, TextSteps(c));
    TextStepsEffect(reloaded, w3, c);
    RunPair(reloaded, w4, SelectTab(SetSymbolTab), SetSymbolUrl(RarityUrl(c.rarity)));
  }

  /** Running the part of a plan before the download, phase by phase. */
  lemma RunBeforeDownload(reloaded: Page, w: World, c: Card)
    ensures Run(reloaded, w, BeforeDownload(c))
         == Run(reloaded, Run(reloaded, Run(reloaded, Run(reloaded, Run(reloaded, w,
              WarmUpSteps()), FrameSteps(c)), [SelectTab(TextTab)]), TextSteps(c)),
              [SelectTab(SetSymbolTab), SetSymbolUrl(RarityUrl(c.rarity))])
  {
    var ws := WarmUpSteps() + FrameSteps(c);
    RunAppend(reloaded, w, WarmUpSteps(), FrameSteps(c));
    RunAppend(reloaded, w, ws, [SelectTab(TextTab)]);
    RunAppend(reloaded, w, ws + [SelectTab(TextTab)], TextSteps(c));
    RunAppend(reloaded, w, ws + [SelectTab(TextTab)] + TextSteps(c), [SelectTab(SetSymbolTab), SetSymbolUrl(RarityUrl(c.rarity))]);
  }

  /**
   * A processed card whose lookups all succeed adds one download, named after
   * the card, and leaves the page reloaded.
   */
  lemma PlanCardEffect(reloaded: Page, w: World, c: Card)
    requires LookupsKnown(c)
    ensures Run(reloaded, w, PlanCard(c)) == World(reloaded, w.downloads + [c.name])
  {
    PlanCardSplit(c);
    RunAppend(reloaded, w, BeforeDownload(c), [Download, Reload]);
    PageAtDownload(reloaded, w, c);
    RunPair(reloaded, Run(reloaded, w, BeforeDownload(c)), Download, Reload);
  }

  // ---------------------------------------------------------------------------
  // Calls that fail

  /**
   * How sending a log ends. A click on a frame option with an undefined index
   * or typing an undefined URL makes the call throw; the program then exits
   * and only the images downloaded so far remain.
   */
  datatype Outcome = Completed(world: World) | Exited(saved: seq<string>)

  function Downloads(o: Outcome): seq<string>
  {
    if o.Completed? then o.world.downloads else o.saved
  }

  /** Sending a log action by action, stopping at the first action that throws. */
  function Exec(reloaded: Page, w: World, acts: seq<Action>): Outcome
    decreases |acts|
  {
    if |acts| == 0 then Completed(w)
    else if !Defined(acts[0]) then Exited(w.downloads)
    else Exec(reloaded, Step(reloaded, w, acts[0]), acts[1..])
  }

  /** Sending more actions after an outcome: nothing more happens once the program has exited. */
  function Then(reloaded: Page, o: Outcome, acts: seq<Action>): Outcome
  {
    match o
    case Completed(w) => Exec(reloaded, w, acts)
    case Exited(_) => o
  }

  lemma {:induction false} ExecAppend(reloaded: Page, w: World, a: seq<Action>, b: seq<Action>)
    ensures Exec(reloaded, w, a + b) == Then(reloaded, Exec(reloaded, w, a), b)
    decreases |a|
  {
    if |a| == 0 {
      assert a + b == b;
    } else {
      assert (a + b)[0] == a[0];
      assert (a + b)[1..] == a[1..] + b;
      if Defined(a[0]) {
        ExecAppend(reloaded, Step(reloaded, w, a[0]), a[1..], b);
      }
    }
  }

  /** A log without an undefined value is carried out in full. */
  lemma {:induction false} ExecDefined(reloaded: Page, w: World, acts: seq<Action>)
    requires AllDefined(acts)
    ensures Exec(reloaded, w, acts) == Completed(Run(reloaded, w, acts))
    decreases |acts|
  {
    if |acts| > 0 {
      assert Defined(acts[0]);
      assert AllDefined(acts[1..]) by {
        forall i | 0 <= i < |acts[1..]| ensures Defined(acts[1..][i]) {
          assert acts[1..][i] == acts[i + 1];
        }
      }
      ExecDefined(reloaded, Step(reloaded, w, acts[0]), acts[1..]);
    }
  }

  /** A log without a download completes exactly when it holds no undefined value, and saves nothing. */
  lemma {:induction false} ExecWithoutDownload(reloaded: Page, w: World, acts: seq<Action>)
    requires Download !in acts
    ensures Exec(reloaded, w, acts) == if AllDefined(acts) then Completed(Run(reloaded, w, acts)) else Exited(w.downloads)
    decreases |acts|
  {
    if |acts| > 0 {
      var rest := acts[1..];
      assert Download !in rest;
      assert AllDefined(acts) <==> Defined(acts[0]) && AllDefined(rest) by {
        if Defined(acts[0]) && AllDefined(rest) {
          forall i | 0 <= i < |acts| ensures Defined(acts[i]) {
            if i > 0 { assert acts[i] == rest[i - 1]; }
          }
        }
        if AllDefined(acts) {
          forall i | 0 <= i < |rest| ensures Defined(rest[i]) {
            assert rest[i] == acts[i + 1];
          }
        }
      }
      if Defined(acts[0]) {
        var w1 := Step(reloaded, w, acts[0]);
        assert w1.downloads == w.downloads;
        ExecWithoutDownload(reloaded, w1, rest);
      }
    }
  }

  lemma NoDownloadBefore(c: Card)
    ensures Download !in BeforeDownload(c)
  {
    assert Download !in FrameSteps(c);
    assert Download !in TextSteps(c);
  }

  /**
   * A processed card is rendered and downloaded, named after the card, exactly
   * when its lookups all succeed; otherwise a call throws before the download
   * and the program exits with the images saved so far.
   */
  lemma PlanCardOutcome(reloaded: Page, w: World, c: Card)
    ensures Exec(reloaded, w, PlanCard(c))
         == if LookupsKnown(c) then Completed(World(reloaded, w.downloads + [c.name])) else Exited(w.downloads)
  {
    PlanDefinedIff(c);
    if LookupsKnown(c) {
      ExecDefined(reloaded, w, PlanCard(c));
      PlanCardEffect(reloaded, w, c);
    } else {
      PlanCardSplit(c);
      AllDefinedAppend(BeforeDownload(c), [Download, Reload]);
      ExecAppend(reloaded, w, BeforeDownload(c), [Download, Reload]);
      NoDownloadBefore(c);
      ExecWithoutDownload(reloaded, w, BeforeDownload(c));
    }
  }

  // ---------------------------------------------------------------------------
  // Tabs

  /** Which tab an action's control lives on; the tab buttons, download and reload work anywhere. */
  predicate Allowed(tab: nat, a: Action)
  {
    match a
    case ClickFrame(_) => tab == FrameTab
    case AddToFull => tab == FrameTab
    case AddToRightHalf => tab == FrameTab
    case SelectTextField(_) => tab == TextTab
    case ClearField => tab == TextTab
    case Type(_) => tab == TextTab
    case SetSymbolUrl(_) => tab == SetSymbolTab
    case _ => true
  }

  /** Every action is sent while the tab holding its control is open. */
  predicate Disciplined(reloaded: Page, w: World, acts: seq<Action>)
    decreases |acts|
  {
    |acts| == 0 || (Allowed(w.page.tab, acts[0]) && Disciplined(reloaded, Step(reloaded, w, acts[0]), acts[1..]))
  }

  lemma {:induction false} DisciplinedAppend(reloaded: Page, w: World, a: seq<Action>, b: seq<Action>)
    ensures Disciplined(reloaded, w, a + b) <==> Disciplined(reloaded, w, a) && Disciplined(reloaded, Run(reloaded, w, a), b)
    decreases |a|
  {
    if |a| == 0 {
      assert a + b == b;
    } else {
      assert (a + b)[0] == a[0];
      assert (a + b)[1..] == a[1..] + b;
      DisciplinedAppend(reloaded, Step(reloaded, w, a[0]), a[1..], b);
    }
  }

  /** Actions that all belong to tab t and neither switch tabs nor reload. */
  predicate StaysIn(acts: seq<Action>, t: nat)
  {
    forall i :: 0 <= i < |acts| ==> !acts[i].SelectTab? && !acts[i].Reload? && Allowed(t, acts[i])
  }

  lemma {:induction false} StaysInDisciplined(reloaded: Page, w: World, acts: seq<Action>, t: nat)
    requires w.page.tab == t && StaysIn(acts, t)
    ensures Disciplined(reloaded, w, acts) && Run(reloaded, w, acts).page.tab == t
    decreases |acts|
  {
    if |acts| > 0 {
      assert StaysIn(acts[1..], t) by {
        forall i | 0 <= i < |acts[1..]| ensures !acts[1..][i].SelectTab? && !acts[1..][i].Reload? && Allowed(t, acts[1..][i]) {
          assert acts[1..][i] == acts[i + 1];
        }
      }
      assert !acts[0].SelectTab? && !acts[0].Reload?;
      StaysInDisciplined(reloaded, Step(reloaded, w, acts[0]), acts[1..], t);
    }
  }

  lemma StaysInAppend(a: seq<Action>, b: seq<Action>, t: nat)
    requires StaysIn(a, t) && StaysIn(b, t)
    ensures StaysIn(a + b, t)
  {
    forall i | 0 <= i < |a + b| ensures !(a + b)[i].SelectTab? && !(a + b)[i].Reload? && Allowed(t, (a + b)[i]) {
      if i < |a| { assert (a + b)[i] == a[i]; } else { assert (a + b)[i] == b[i - |a|]; }
    }
  }

  /** Opening tab t and then sending actions of tab t only. */
  lemma OpenTabThen(reloaded: Page, w: World, t: nat, acts: seq<Action>)
    requires StaysIn(acts, t)
    ensures Disciplined(reloaded, w, [SelectTab(t)] + acts)
  {
    RunSingle(reloaded, w, SelectTab(t));
    assert Disciplined(reloaded, w, [SelectTab(t)]) by {
      assert [SelectTab(t)][1..] == [];
    }
    StaysInDisciplined(reloaded, Run(reloaded, w, [SelectTab(t)]), acts, t);
    DisciplinedAppend(reloaded, w, [SelectTab(t)], acts);
  }

  lemma TextStaysInTextTab(c: Card)
    ensures StaysIn(TextSteps(c), TextTab)
  {
    StaysInAppend(CostSteps(c), TitleSteps(c), TextTab);
    StaysInAppend(CostSteps(c) + TitleSteps(c), TypeSteps(c), TextTab);
    StaysInAppend(CostSteps(c) + TitleSteps(c) + TypeSteps(c), RulesSteps(c), TextTab);
    StaysInAppend(CostSteps(c) + TitleSteps(c) + TypeSteps(c) + RulesSteps(c), PowerToughnessSteps(c), TextTab);
  }

  lemma FrameStaysInFrameTab(c: Card)
    ensures StaysIn(FrameSteps(c), FrameTab)
  {
  }

  /**
   * Whatever page it starts from, a card's plan clicks every frame option
   * while the frame tab is open, edits every field while the text tab is
   * open, and types the set-symbol URL while the set-symbol tab is open.
   */
  lemma PlanCardDisciplined(reloaded: Page, w: World, c: Card)
    ensures Disciplined(reloaded, w, PlanCard(c))
  {
    var front := WarmUpSteps() + FrameSteps(c);
    var back := [SelectTab(TextTab)] + TextSteps(c) + FinishSteps(c);
    assert PlanCard(c) == front + back;
    FrontDisciplined(reloaded, w, c);
    BackDisciplined(reloaded, Run(reloaded, w, front), c);
    DisciplinedAppend(reloaded, w, front, back);
  }

  /** The warm-up and the frame selection. */
  lemma FrontDisciplined(reloaded: Page, w: World, c: Card)
    ensures Disciplined(reloaded, w, WarmUpSteps() + FrameSteps(c))
  {
    var warm := [SelectTab(TextTab)] + [SelectTextField(TitleField), Type("Test")];
    assert WarmUpSteps() + FrameSteps(c) == warm + ([SelectTab(FrameTab)] + FrameSteps(c));
    OpenTabThen(reloaded, w, TextTab, [SelectTextField(TitleField), Type("Test")]);
    FrameStaysInFrameTab(c);
    OpenTabThen(reloaded, Run(reloaded, w, warm), FrameTab, FrameSteps(c));
    DisciplinedAppend(reloaded, w, warm, [SelectTab(FrameTab)] + FrameSteps(c));
  }

  /** Field entry, the set symbol, the download and the reload. */
  lemma BackDisciplined(reloaded: Page, w: World, c: Card)
    ensures Disciplined(reloaded, w, [SelectTab(TextTab)] + TextSteps(c) + FinishSteps(c))
  {
    var text := [SelectTab(TextTab)] + TextSteps(c);
    var symbol := [SelectTab(SetSymbolTab)] + [SetSymbolUrl(RarityUrl(c.rarity)), Download];
    assert FinishSteps(c) == symbol + [Reload];
    TextStaysInTextTab(c);
    OpenTabThen(reloaded, w, TextTab, TextSteps(c));
    OpenTabThen(reloaded, Run(reloaded, w, text), SetSymbolTab, [SetSymbolUrl(RarityUrl(c.rarity)), Download]);
    DisciplinedAppend(reloaded, w, text, symbol);
    assert Disciplined(reloaded, Run(reloaded, w, text + symbol), [Reload]) by {
      assert [Reload][1..] == [];
    }
    DisciplinedAppend(reloaded, w, text + symbol, [Reload]);
    assert text + symbol + [Reload] == text + FinishSteps(c);
  }
}
