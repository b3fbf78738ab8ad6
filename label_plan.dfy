/** Which label to set and which to remove for an observed change
    category (src/main.rs:129-154). */
module LabelPlan {
  import opened Wrappers
  import opened Report

  /** The optional label configured for each category (`LABEL_PATCH`,
      `LABEL_NON_BREAKING`, `LABEL_TECHNICALLY_BREAKING`, `LABEL_BREAKING`);
      an absent one means "no label for this category". */
  datatype LabelConfig = LabelConfig(patch: Option<string>,
                                     nonBreaking: Option<string>,
                                     technicallyBreaking: Option<string>,
                                     breaking: Option<string>)
  {
    function For(c: ChangeType): Option<string>
    {
      match c
      case Patch => patch
      case NonBreaking => nonBreaking
      case TechnicallyBreaking => technicallyBreaking
      case Breaking => breaking
    }
  }

  /** The label to add and the (always three) label slots to remove. */
  datatype Plan = Plan(setLabel: Option<string>, removeLabels: seq<Option<string>>)

  /** The two `match` expressions over the observed category. */
  function SelectPlan(c: ChangeType, cfg: LabelConfig): Plan
  {
    var setLabel :=
      match c
      case Patch => cfg.patch
      case NonBreaking => cfg.nonBreaking
      case TechnicallyBreaking => cfg.technicallyBreaking
      case Breaking => cfg.breaking;
    var removeLabels :=
      match c
      case Patch => [cfg.nonBreaking, cfg.technicallyBreaking, cfg.breaking]
      case NonBreaking => [cfg.patch, cfg.technicallyBreaking, cfg.breaking]
      case TechnicallyBreaking => [cfg.patch, cfg.nonBreaking, cfg.breaking]
      case Breaking => [cfg.patch, cfg.nonBreaking, cfg.technicallyBreaking];
    Plan(setLabel, removeLabels)
  }

  /** The categories in declaration order. */
  const Categories: seq<ChangeType> := [Patch, NonBreaking, TechnicallyBreaking, Breaking]

  /** `s` without the occurrences of `c`, order kept. */
  function Without(s: seq<ChangeType>, c: ChangeType): seq<ChangeType>
  {
    if s == [] then []
    else (if s[0] == c then [] else [s[0]]) + Without(s[1..], c)
  }

  /** The configured slots of the categories `cs`, in order. */
  function SlotsOf(cfg: LabelConfig, cs: seq<ChangeType>): seq<Option<string>>
  {
    if cs == [] then [] else [cfg.For(cs[0])] + SlotsOf(cfg, cs[1..])
  }

  /** The categories other than `c`, in declaration order. */
  lemma OthersOf(c: ChangeType)
    ensures Without(Categories, c) ==
      match c
      case Patch => [NonBreaking, TechnicallyBreaking, Breaking]
      case NonBreaking => [Patch, TechnicallyBreaking, Breaking]
      case TechnicallyBreaking => [Patch, NonBreaking, Breaking]
      case Breaking => [Patch, NonBreaking, TechnicallyBreaking]
  {
    assert Categories[1..] == [NonBreaking, TechnicallyBreaking, Breaking];
    assert Categories[1..][1..] == [TechnicallyBreaking, Breaking];
    assert Categories[1..][1..][1..] == [Breaking];
    assert Categories[1..][1..][1..][1..] == [];
  }

  lemma SlotsOfThree(cfg: LabelConfig, a: ChangeType, b: ChangeType, d: ChangeType)
    ensures SlotsOf(cfg, [a, b, d]) == [cfg.For(a), cfg.For(b), cfg.For(d)]
  {
    assert [a, b, d][1..] == [b, d];
    assert [b, d][1..] == [d];
    assert [d][1..] == [];
    assert SlotsOf(cfg, [d]) == [cfg.For(d)];
    assert SlotsOf(cfg, [b, d]) == [cfg.For(b)] + SlotsOf(cfg, [d]);
  }

  /** The plan sets the observed category's own label and removes the
      labels of the other categories, in declaration order. */
  lemma SelectPlanMeaning(c: ChangeType, cfg: LabelConfig)
    ensures SelectPlan(c, cfg).setLabel == cfg.For(c)
    ensures SelectPlan(c, cfg).removeLabels == SlotsOf(cfg, Without(Categories, c))
  {
    OthersOf(c);
    match c
    case Patch => SlotsOfThree(cfg, NonBreaking, TechnicallyBreaking, Breaking);
    case NonBreaking => SlotsOfThree(cfg, Patch, TechnicallyBreaking, Breaking);
    case TechnicallyBreaking => SlotsOfThree(cfg, Patch, NonBreaking, Breaking);
    case Breaking => SlotsOfThree(cfg, Patch, NonBreaking, TechnicallyBreaking);
  }

  /** The other categories are exactly three: the observed category's slot
      is never among those removed, and every other category's slot is. */
  lemma OthersAreThree(c: ChangeType)
    ensures |Without(Categories, c)| == 3 && c !in Without(Categories, c)
    ensures forall d :: d != c ==> d in Without(Categories, c)
  {
    OthersOf(c);
  }
}
