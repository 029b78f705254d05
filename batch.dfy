/**
 * The card loop of `generateCards`: for each parsed row in order, skip it when
 * Name, Color or Type is empty, and otherwise send its plan to the page. The
 * method builds, step by step as the loop does, the log the loop sends if no
 * call throws; `BatchPlan` is its specification. `Page.Exec` cuts that log at
 * the first call that throws, and the lemmas below say what is then saved.
 */
module Batch {
  import opened Wrappers
  import opened Tables
  import opened Strings
  import opened CardPlan
  import opened Page

  /** What one row adds to the log: its plan, or nothing when it is skipped. */
  function Contribution(c: Card): seq<Action>
  {
    if ShouldProcess(c) then PlanCard(c) else []
  }

  /** The plans given by `plan` for each card, one after another. */
  function Concat(cards: seq<Card>, plan: Card -> seq<Action>): seq<Action>
    decreases |cards|
  {
    if |cards| == 0 then [] else Concat(cards[..|cards| - 1], plan) + plan(cards[|cards| - 1])
  }

  /** The log of the card loop over the rows `cards`. */
  function BatchPlan(cards: seq<Card>): seq<Action>
  {
    Concat(cards, Contribution)
  }

  /** The rows the loop does not skip, in input order. */
  function Processed(cards: seq<Card>): (r: seq<Card>)
    ensures |r| <= |cards|
    ensures forall c :: c in r ==> c in cards && ShouldProcess(c)
    decreases |cards|
  {
    if |cards| == 0 then []
    else
      var init := Processed(cards[..|cards| - 1]);
      var last := cards[|cards| - 1];
      assert forall c :: c in init ==> c in cards by {
        forall c | c in init ensures c in cards {
          assert c in cards[..|cards| - 1];
        }
      }
      init + (if ShouldProcess(last) then [last] else [])
  }

  /** The plans of the given cards, one after another. */
  function PlanAll(cs: seq<Card>): seq<Action>
  {
    Concat(cs, PlanCard)
  }

  /** The names of the given cards, in order. */
  function Names(cs: seq<Card>): (r: seq<string>)
    ensures |r| == |cs|
    decreases |cs|
  {
    if |cs| == 0 then [] else Names(cs[..|cs| - 1]) + [cs[|cs| - 1].name]
  }

  // ---------------------------------------------------------------------------
  // The loop

  /**
   * The card loop: the log it sends if no call throws is the batch plan of
   * the rows. The page cuts it at the first call that throws (`ExecBatchPlan`,
   * `BatchDownloads`).
   */
  method GenerateCards(cards: seq<Card>) returns (log: seq<Action>)
    ensures log == BatchPlan(cards)
  {
    log := [];
    for i := 0 to |cards|
      invariant log == BatchPlan(cards[..i])
    {
      var card := cards[i];
      assert cards[..i + 1][..i] == cards[..i];
      if !ShouldProcess(card) {
        continue;
      }
      // warm-up: type "Test" into the title, then open the frame tab
      var warmUp := [SelectTab(TextTab), SelectTextField(TitleField), Type("Test"), SelectTab(FrameTab)];
      // frame selection
      var frames: seq<Action>;
      if IsDualColor(card) {
        SplitHasSecondPiece(card.color, '/');
        var colors := Split(card.color, '/');
        var leftColorIndex := FrameIndex(colors[0]);
        var rightColorIndex := FrameIndex(colors[1]);
        frames := [ClickFrame(leftColorIndex), AddToFull, ClickFrame(rightColorIndex), AddToRightHalf];
        if HasPowerToughness(card) {
          frames := frames + [ClickFrame(Some(ColorlessPowerToughness)), AddToFull];
        }
      } else {
        var colorIndex := FrameIndex(card.color);
        frames := [ClickFrame(colorIndex), AddToFull];
        if HasPowerToughness(card) {
          var powerToughnessIndex := PowerToughnessFrameIndex(card.color);
          frames := frames + [ClickFrame(powerToughnessIndex), AddToFull];
        }
      }
      assert frames == FrameSteps(card);
      // text tab: cost, title, type, rules text, power/toughness
      var fields: seq<Action> := [];
      if card.cost != "" {
        fields := [SelectTextField(CostField), Type(card.cost)];
      }
      fields := fields + [SelectTextField(TitleField), ClearField, Type(card.name)];
      fields := fields + [SelectTextField(TypeField), Type(card.typeLine)];
      if card.text != "" {
        fields := fields + [SelectTextField(RulesField), Type(DecodeNewlines(card.text))];
      }
      if HasPowerToughness(card) {
        fields := fields + [SelectTextField(PowerToughnessField), Type(PowerToughnessText(card))];
      }
      assert fields == TextSteps(card);
      // set-symbol tab, then download and reload
      var finish := [SelectTab(SetSymbolTab), SetSymbolUrl(RarityUrl(card.rarity)), Download, Reload];
      log := log + (warmUp + frames + [SelectTab(TextTab)] + fields + finish);
    }
    assert cards[..|cards|] == cards;
  }

  // ---------------------------------------------------------------------------
  // Filter and order

  lemma {:induction false} ConcatAppend(a: seq<Card>, b: seq<Card>, plan: Card -> seq<Action>)
    ensures Concat(a + b, plan) == Concat(a, plan) + Concat(b, plan)
    decreases |b|
  {
    if |b| == 0 {
      assert a + b == a;
    } else {
      var n := |b| - 1;
      var ab := a + b;
      assert ab[..|ab| - 1] == a + b[..n];
      assert ab[|ab| - 1] == b[n];
      ConcatAppend(a, b[..n], plan);
    }
  }

  lemma BatchPlanAppend(a: seq<Card>, b: seq<Card>)
    ensures BatchPlan(a + b) == BatchPlan(a) + BatchPlan(b)
  {
    ConcatAppend(a, b, Contribution);
  }

  /** A skipped row contributes no action wherever it stands. */
  lemma SkippedRowContributesNothing(before: seq<Card>, c: Card, after: seq<Card>)
    requires !ShouldProcess(c)
    ensures BatchPlan(before + [c] + after) == BatchPlan(before + after)
  {
    var withC := before + [c];
    assert withC[..|withC| - 1] == before && withC[|withC| - 1] == c;
    assert BatchPlan(withC) == BatchPlan(before);
    BatchPlanAppend(withC, after);
    BatchPlanAppend(before, after);
  }

  /** The batch plan is the plans of the processed rows, each once, in input order. */
  lemma {:induction false} BatchPlanIsPlansOfProcessed(cards: seq<Card>)
    ensures BatchPlan(cards) == PlanAll(Processed(cards))
    decreases |cards|
  {
    if |cards| > 0 {
      var init := cards[..|cards| - 1];
      var last := cards[|cards| - 1];
      BatchPlanIsPlansOfProcessed(init);
      if ShouldProcess(last) {
        var p := Processed(init) + [last];
        assert Processed(cards) == p;
        assert p[..|p| - 1] == Processed(init) && p[|p| - 1] == last;
      } else {
        assert Processed(cards) == Processed(init) + [];
        assert Processed(init) + [] == Processed(init);
      }
    }
  }

  /** Processing keeps the order of rows across any split of the input. */
  lemma {:induction false} ProcessedAppend(a: seq<Card>, b: seq<Card>)
    ensures Processed(a + b) == Processed(a) + Processed(b)
    decreases |b|
  {
    if |b| == 0 {
      assert a + b == a;
    } else {
      var n := |b| - 1;
      assert (a + b)[..|a + b| - 1] == a + b[..n];
      assert (a + b)[|a + b| - 1] == b[n];
      ProcessedAppend(a, b[..n]);
    }
  }

  /** Every row that is not skipped is processed exactly as many times as it occurs; a skipped one never. */
  lemma {:induction false} ProcessedCounts(cards: seq<Card>, c: Card)
    ensures multiset(Processed(cards))[c] == if ShouldProcess(c) then multiset(cards)[c] else 0
    decreases |cards|
  {
    if |cards| > 0 {
      var init := cards[..|cards| - 1];
      var last := cards[|cards| - 1];
      assert cards == init + [last];
      ProcessedCounts(init, c);
    }
  }

  // ---------------------------------------------------------------------------
  // What the page sees

  /** Every card satisfies `ok`. */
  predicate All(cs: seq<Card>, ok: Card -> bool)
  {
    forall i :: 0 <= i < |cs| ==> ok(cs[i])
  }

  lemma AllSnoc(cs: seq<Card>, c: Card, ok: Card -> bool)
    ensures All(cs + [c], ok) <==> All(cs, ok) && ok(c)
  {
    var s := cs + [c];
    assert s[|cs|] == c;
    assert forall i :: 0 <= i < |cs| ==> s[i] == cs[i];
  }

  /** The longest run of leading cards that satisfy `ok`. */
  function Leading(cs: seq<Card>, ok: Card -> bool): (r: seq<Card>)
    ensures |r| <= |cs| && r == cs[..|r|]
    ensures All(r, ok)
    ensures |r| < |cs| ==> !ok(cs[|r|])
    decreases |cs|
  {
    if |cs| == 0 || !ok(cs[0]) then []
    else
      var rest := Leading(cs[1..], ok);
      assert forall i :: 1 <= i < |rest| + 1 ==> ([cs[0]] + rest)[i] == rest[i - 1];
      [cs[0]] + rest
  }

  /** The three properties of `Leading` single it out. */
  lemma LeadingUnique(cs: seq<Card>, r: seq<Card>, ok: Card -> bool)
    requires |r| <= |cs| && r == cs[..|r|] && All(r, ok)
    requires |r| < |cs| ==> !ok(cs[|r|])
    ensures r == Leading(cs, ok)
  {
    var q := Leading(cs, ok);
    if |r| < |q| {
      assert false;
    } else if |q| < |r| {
      assert false;
    }
    assert |r| == |q|;
  }

  lemma LeadingSnoc(cs: seq<Card>, c: Card, ok: Card -> bool)
    ensures Leading(cs + [c], ok) == if All(cs, ok) then cs + (if ok(c) then [c] else []) else Leading(cs, ok)
  {
    var s := cs + [c];
    assert s[..|cs|] == cs;
    AllSnoc(cs, c, ok);
    if All(cs, ok) && ok(c) {
      assert s[..|s|] == s;
      LeadingUnique(s, s, ok);
    } else if All(cs, ok) {
      assert s[|cs|] == c;
      assert cs + [] == cs;
      LeadingUnique(s, cs, ok);
    } else {
      var r := Leading(cs, ok);
      assert |r| < |cs|;
      assert s[..|r|] == cs[..|r|];
      assert s[|r|] == cs[|r|];
      LeadingUnique(s, r, ok);
    }
  }

  /** Every card's table lookups succeed. */
  predicate AllKnown(cs: seq<Card>)
  {
    All(cs, LookupsKnown)
  }

  /**
   * The leading cards whose lookups all succeed: the ones rendered before the
   * first call that throws.
   */
  function Rendered(cs: seq<Card>): seq<Card>
  {
    Leading(cs, LookupsKnown)
  }

  lemma NamesSnoc(cs: seq<Card>, c: Card)
    ensures Names(cs + [c]) == Names(cs) + [c.name]
  {
    var s := cs + [c];
    assert s[..|s| - 1] == cs;
  }

  lemma BatchPlanSnoc(init: seq<Card>, last: Card)
    ensures BatchPlan(init + [last]) == BatchPlan(init) + Contribution(last)
  {
    var s := init + [last];
    assert s[..|s| - 1] == init;
  }

  lemma ProcessedSnoc(init: seq<Card>, last: Card)
    ensures Processed(init + [last]) == Processed(init) + (if ShouldProcess(last) then [last] else [])
  {
    var s := init + [last];
    assert s[..|s| - 1] == init;
  }

  /** What one row does once the rows before it have run to the end. */
  lemma ContributionOutcome(reloaded: Page, w: World, c: Card)
    ensures Exec(reloaded, w, Contribution(c))
         == if !ShouldProcess(c) then Completed(w)
            else if LookupsKnown(c) then Completed(World(reloaded, w.downloads + [c.name]))
            else Exited(w.downloads)
  {
    if ShouldProcess(c) {
      PlanCardOutcome(reloaded, w, c);
    }
  }

  /** Which processed rows are rendered when one more row follows. */
  lemma RenderedAfter(p: seq<Card>, last: Card)
    ensures var q := p + (if ShouldProcess(last) then [last] else []);
      && (!AllKnown(p) ==> !AllKnown(q) && Rendered(q) == Rendered(p))
      && (AllKnown(p) ==> (Rendered(p) == p
            && (AllKnown(q) <==> !ShouldProcess(last) || LookupsKnown(last))
            && Rendered(q) == if AllKnown(q) then q else p))
  {
    assert p + [] == p;
    assert p[..|p|] == p;
    if AllKnown(p) {
      LeadingUnique(p, p, LookupsKnown);
    }
    if ShouldProcess(last) {
      LeadingSnoc(p, last, LookupsKnown);
      AllSnoc(p, last, LookupsKnown);
    }
  }

  /** What one more row does to the outcome of the rows before it, without looking at its plan. */
  function RowOutcome(reloaded: Page, o: Outcome, c: Card): Outcome
  {
    match o
    case Exited(_) => o
    case Completed(w) =>
      if !ShouldProcess(c) then o
      else if LookupsKnown(c) then Completed(World(reloaded, w.downloads + [c.name]))
      else Exited(w.downloads)
  }

  /** The outcome of the rows, one row at a time. */
  function Replay(reloaded: Page, w: World, cards: seq<Card>): Outcome
    decreases |cards|
  {
    if |cards| == 0 then Completed(w)
    else RowOutcome(reloaded, Replay(reloaded, w, cards[..|cards| - 1]), cards[|cards| - 1])
  }

  /** Sending the batch plan ends as replaying the rows one at a time does. */
  lemma {:induction false} ExecBatchPlan(reloaded: Page, w: World, cards: seq<Card>)
    ensures Exec(reloaded, w, BatchPlan(cards)) == Replay(reloaded, w, cards)
    decreases |cards|
  {
    if |cards| > 0 {
      var init := cards[..|cards| - 1];
      var last := cards[|cards| - 1];
      assert cards == init + [last];
      ExecBatchPlan(reloaded, w, init);
      BatchPlanSnoc(init, last);
      ExecAppend(reloaded, w, BatchPlan(init), Contribution(last));
      var o := Exec(reloaded, w, BatchPlan(init));
      if o.Completed? {
        ContributionOutcome(reloaded, o.world, last);
      }
    }
  }

  /** One more row keeps the relation between the outcome and the rendered rows. */
  lemma ReplayStep(reloaded: Page, o: Outcome, d: seq<string>, p: seq<Card>, last: Card)
    requires o.Completed? <==> AllKnown(p)
    requires Downloads(o) == d + Names(Rendered(p))
    ensures var q := p + (if ShouldProcess(last) then [last] else []);
      && (RowOutcome(reloaded, o, last).Completed? <==> AllKnown(q))
      && Downloads(RowOutcome(reloaded, o, last)) == d + Names(Rendered(q))
  {
    var q := p + (if ShouldProcess(last) then [last] else []);
    var r := RowOutcome(reloaded, o, last);
    RenderedAfter(p, last);
    if o.Exited? {
      assert r == o;
    } else if !ShouldProcess(last) {
      assert r == o;
      assert q == p;
    } else if LookupsKnown(last) {
      assert Downloads(r) == Downloads(o) + [last.name];
      assert Rendered(q) == q;
      NamesSnoc(p, last);
      assert d + Names(p) + [last.name] == d + (Names(p) + [last.name]);
    } else {
      assert r == Exited(Downloads(o));
      assert Rendered(q) == p;
    }
  }

  lemma {:induction false} ReplayDownloads(reloaded: Page, w: World, cards: seq<Card>)
    ensures Replay(reloaded, w, cards).Completed? <==> AllKnown(Processed(cards))
    ensures Downloads(Replay(reloaded, w, cards)) == w.downloads + Names(Rendered(Processed(cards)))
    decreases |cards|
  {
    if |cards| == 0 {
      assert w.downloads + [] == w.downloads;
    } else {
      var init := cards[..|cards| - 1];
      var last := cards[|cards| - 1];
      ReplayDownloads(reloaded, w, init);
      ReplayStep(reloaded, Replay(reloaded, w, init), w.downloads, Processed(init), last);
    }
  }

  /**
   * Running the whole batch: it runs to the end exactly when every processed
   * row's lookups succeed, and the images saved are those of the processed
   * rows before the first one whose lookup fails, named after them, in order.
   */
  lemma BatchDownloads(reloaded: Page, w: World, cards: seq<Card>)
    ensures Exec(reloaded, w, BatchPlan(cards)).Completed? <==> AllKnown(Processed(cards))
    ensures Downloads(Exec(reloaded, w, BatchPlan(cards))) == w.downloads + Names(Rendered(Processed(cards)))
  {
    ExecBatchPlan(reloaded, w, cards);
    ReplayDownloads(reloaded, w, cards);
  }

  /** When every processed row's lookups succeed, each processed row yields one image, named after it. */
  lemma AllRendered(reloaded: Page, w: World, cards: seq<Card>)
    requires AllKnown(Processed(cards))
    ensures Exec(reloaded, w, BatchPlan(cards)).Completed?
    ensures Downloads(Exec(reloaded, w, BatchPlan(cards))) == w.downloads + Names(Processed(cards))
  {
    BatchDownloads(reloaded, w, cards);
    var p := Processed(cards);
    assert p[..|p|] == p;
    LeadingUnique(p, p, LookupsKnown);
  }

  /** From any page, the whole log sends every action while the tab holding its control is open. */
  lemma {:induction false} BatchDisciplined(reloaded: Page, w: World, cards: seq<Card>)
    ensures Disciplined(reloaded, w, BatchPlan(cards))
    decreases |cards|
  {
    if |cards| == 0 {
    } else {
      var init := cards[..|cards| - 1];
      var last := cards[|cards| - 1];
      BatchDisciplined(reloaded, w, init);
      DisciplinedAppend(reloaded, w, BatchPlan(init), Contribution(last));
      if ShouldProcess(last) {
        PlanCardDisciplined(reloaded, Run(reloaded, w, BatchPlan(init)), last);
      }
    }
  }
}
