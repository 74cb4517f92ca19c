/**
 The sample of the page-ordering puzzle run through the model: six updates,
 each checked and ordered against the sample rules that relate two of its
 pages (a rule whose pages are not both in an update never applies to it).

 For every update the lemmas compute, one small step at a time, the rule
 index, the position map, the page pairs and their rules, and each rule
 application of the ordering pass; the `...Ordered` lemma of each update
 collects the outcome: the ordered pages, the middle page, and that the
 validator accepts the ordered update.
 */
module PageOrderingExamples {
  import opened PageOrdering

  // ---------------------------------------------------------------------------
  // Update [75, 47, 61, 53, 29]: already in order
  // ---------------------------------------------------------------------------

  /** The sample rules that relate two pages of [75, 47, 61, 53, 29], in sample order. */
  function FirstRules(): seq<Rule>
  {
    [Rule(47, 53), Rule(75, 29), Rule(75, 53), Rule(53, 29), Rule(61, 53), Rule(61, 29), Rule(75, 47), Rule(47, 61), Rule(75, 61), Rule(47, 29)]
  }

  /** The index those rules build. */
  function FirstIndex(): map<Key, Rule>
  {
    map[(47, 53) := Rule(47, 53), (29, 75) := Rule(75, 29), (53, 75) := Rule(75, 53), (29, 53) := Rule(53, 29), (53, 61) := Rule(61, 53), (29, 61) := Rule(61, 29), (47, 75) := Rule(75, 47), (47, 61) := Rule(47, 61), (61, 75) := Rule(75, 61), (29, 47) := Rule(47, 29)]
  }

  lemma FirstIndexUpTo1(rs: seq<Rule>)
    requires rs == [Rule(47, 53), Rule(75, 29), Rule(75, 53), Rule(53, 29), Rule(61, 53), Rule(61, 29), Rule(75, 47), Rule(47, 61), Rule(75, 61), Rule(47, 29)]
    ensures RulesUpTo(rs, 1) == map[(47, 53) := Rule(47, 53)]
  {
  }

  lemma FirstIndexUpTo2(rs: seq<Rule>)
    requires rs == [Rule(47, 53), Rule(75, 29), Rule(75, 53), Rule(53, 29), Rule(61, 53), Rule(61, 29), Rule(75, 47), Rule(47, 61), Rule(75, 61), Rule(47, 29)]
    ensures RulesUpTo(rs, 2) == map[(47, 53) := Rule(47, 53), (29, 75) := Rule(75, 29)]
  {
    FirstIndexUpTo1(rs);
  }

  lemma FirstIndexUpTo3(rs: seq<Rule>)
    requires rs == [Rule(47, 53), Rule(75, 29), Rule(75, 53), Rule(53, 29), Rule(61, 53), Rule(61, 29), Rule(75, 47), Rule(47, 61), Rule(75, 61), Rule(47, 29)]
    ensures RulesUpTo(rs, 3) == map[(47, 53) := Rule(47, 53), (29, 75) := Rule(75, 29), (53, 75) := Rule(75, 53)]
  {
    FirstIndexUpTo2(rs);
  }

  lemma FirstIndexUpTo4(rs: seq<Rule>)
    requires rs == [Rule(47, 53), Rule(75, 29), Rule(75, 53), Rule(53, 29), Rule(61, 53), Rule(61, 29), Rule(75, 47), Rule(47, 61), Rule(75, 61), Rule(47, 29)]
    ensures RulesUpTo(rs, 4) == map[(47, 53) := Rule(47, 53), (29, 75) := Rule(75, 29), (53, 75) := Rule(75, 53), (29, 53) := Rule(53, 29)]
  {
    FirstIndexUpTo3(rs);
  }

  lemma FirstIndexUpTo5(rs: seq<Rule>)
    requires rs == [Rule(47, 53), Rule(75, 29), Rule(75, 53), Rule(53, 29), Rule(61, 53), Rule(61, 29), Rule(75, 47), Rule(47, 61), Rule(75, 61), Rule(47, 29)]
    ensures RulesUpTo(rs, 5) == map[(47, 53) := Rule(47, 53), (29, 75) := Rule(75, 29), (53, 75) := Rule(75, 53), (29, 53) := Rule(53, 29), (53, 61) := Rule(61, 53)]
  {
    FirstIndexUpTo4(rs);
  }

  lemma FirstIndexUpTo6(rs: seq<Rule>)
    requires rs == [Rule(47, 53), Rule(75, 29), Rule(75, 53), Rule(53, 29), Rule(61, 53), Rule(61, 29), Rule(75, 47), Rule(47, 61), Rule(75, 61), Rule(47, 29)]
    ensures RulesUpTo(rs, 6) == map[(47, 53) := Rule(47, 53), (29, 75) := Rule(75, 29), (53, 75) := Rule(75, 53), (29, 53) := Rule(53, 29), (53, 61) := Rule(61, 53), (29, 61) := Rule(61, 29)]
  {
    FirstIndexUpTo5(rs);
  }

  lemma FirstIndexUpTo7(rs: seq<Rule>)
    requires rs == [Rule(47, 53), Rule(75, 29), Rule(75, 53), Rule(53, 29), Rule(61, 53), Rule(61, 29), Rule(75, 47), Rule(47, 61), Rule(75, 61), Rule(47, 29)]
    ensures RulesUpTo(rs, 7) == map[(47, 53) := Rule(47, 53), (29, 75) := Rule(75, 29), (53, 75) := Rule(75, 53), (29, 53) := Rule(53, 29), (53, 61) := Rule(61, 53), (29, 61) := Rule(61, 29), (47, 75) := Rule(75, 47)]
  {
    FirstIndexUpTo6(rs);
  }

  lemma FirstIndexUpTo8(rs: seq<Rule>)
    requires rs == [Rule(47, 53), Rule(75, 29), Rule(75, 53), Rule(53, 29), Rule(61, 53), Rule(61, 29), Rule(75, 47), Rule(47, 61), Rule(75, 61), Rule(47, 29)]
    ensures RulesUpTo(rs, 8) == map[(47, 53) := Rule(47, 53), (29, 75) := Rule(75, 29), (53, 75) := Rule(75, 53), (29, 53) := Rule(53, 29), (53, 61) := Rule(61, 53), (29, 61) := Rule(61, 29), (47, 75) := Rule(75, 47), (47, 61) := Rule(47, 61)]
  {
    FirstIndexUpTo7(rs);
  }

  lemma FirstIndexUpTo9(rs: seq<Rule>)
    requires rs == [Rule(47, 53), Rule(75, 29), Rule(75, 53), Rule(53, 29), Rule(61, 53), Rule(61, 29), Rule(75, 47), Rule(47, 61), Rule(75, 61), Rule(47, 29)]
    ensures RulesUpTo(rs, 9) == map[(47, 53) := Rule(47, 53), (29, 75) := Rule(75, 29), (53, 75) := Rule(75, 53), (29, 53) := Rule(53, 29), (53, 61) := Rule(61, 53), (29, 61) := Rule(61, 29), (47, 75) := Rule(75, 47), (47, 61) := Rule(47, 61), (61, 75) := Rule(75, 61)]
  {
    FirstIndexUpTo8(rs);
  }

  lemma FirstIndexUpTo10(rs: seq<Rule>)
    requires rs == [Rule(47, 53), Rule(75, 29), Rule(75, 53), Rule(53, 29), Rule(61, 53), Rule(61, 29), Rule(75, 47), Rule(47, 61), Rule(75, 61), Rule(47, 29)]
    ensures RulesUpTo(rs, 10) == map[(47, 53) := Rule(47, 53), (29, 75) := Rule(75, 29), (53, 75) := Rule(75, 53), (29, 53) := Rule(53, 29), (53, 61) := Rule(61, 53), (29, 61) := Rule(61, 29), (47, 75) := Rule(75, 47), (47, 61) := Rule(47, 61), (61, 75) := Rule(75, 61), (29, 47) := Rule(47, 29)]
  {
    FirstIndexUpTo9(rs);
  }

  lemma FirstIndexBuilt()
    ensures RulesToMap(FirstRules()) == FirstIndex()
  {
    FirstIndexUpTo10(FirstRules());
  }

  lemma FirstUpdateBuilt()
    ensures NewUpdate([75, 47, 61, 53, 29]) == PageUpdate([75, 47, 61, 53, 29], map[75 := 0, 47 := 1, 61 := 2, 53 := 3, 29 := 4])
    ensures Consistent(NewUpdate([75, 47, 61, 53, 29]))
  {
    assert PositionsUpTo([75, 47, 61, 53, 29], 1) == map[75 := 0];
    assert PositionsUpTo([75, 47, 61, 53, 29], 2) == map[75 := 0, 47 := 1];
    assert PositionsUpTo([75, 47, 61, 53, 29], 3) == map[75 := 0, 47 := 1, 61 := 2];
    assert PositionsUpTo([75, 47, 61, 53, 29], 4) == map[75 := 0, 47 := 1, 61 := 2, 53 := 3];
  }

  lemma FirstPaired()
    ensures Pairs([75, 47, 61, 53, 29]) == [(75, 47), (75, 61), (75, 53), (75, 29), (47, 61), (47, 53), (47, 29), (61, 53), (61, 29), (53, 29)]
  {
  }

  lemma FirstSelect9(ps: seq<(Page, Page)>)
    requires ps == [(53, 29)]
    ensures ApplicableRules(ps, FirstIndex()) == [Rule(53, 29)]
  {
  }

  lemma FirstSelect8(ps: seq<(Page, Page)>)
    requires ps == [(61, 29), (53, 29)]
    ensures ApplicableRules(ps, FirstIndex()) == [Rule(61, 29), Rule(53, 29)]
  {
    assert ps[1..] == [(53, 29)];
    FirstSelect9(ps[1..]);
  }

  lemma FirstSelect7(ps: seq<(Page, Page)>)
    requires ps == [(61, 53), (61, 29), (53, 29)]
    ensures ApplicableRules(ps, FirstIndex()) == [Rule(61, 53), Rule(61, 29), Rule(53, 29)]
  {
    assert ps[1..] == [(61, 29), (53, 29)];
    FirstSelect8(ps[1..]);
  }

  lemma FirstSelect6(ps: seq<(Page, Page)>)
    requires ps == [(47, 29), (61, 53), (61, 29), (53, 29)]
    ensures ApplicableRules(ps, FirstIndex()) == [Rule(47, 29), Rule(61, 53), Rule(61, 29), Rule(53, 29)]
  {
    assert ps[1..] == [(61, 53), (61, 29), (53, 29)];
    FirstSelect7(ps[1..]);
  }

  lemma FirstSelect5(ps: seq<(Page, Page)>)
    requires ps == [(47, 53), (47, 29), (61, 53), (61, 29), (53, 29)]
    ensures ApplicableRules(ps, FirstIndex()) == [Rule(47, 53), Rule(47, 29), Rule(61, 53), Rule(61, 29), Rule(53, 29)]
  {
    assert ps[1..] == [(47, 29), (61, 53), (61, 29), (53, 29)];
    FirstSelect6(ps[1..]);
  }

  lemma FirstSelect4(ps: seq<(Page, Page)>)
    requires ps == [(47, 61), (47, 53), (47, 29), (61, 53), (61, 29), (53, 29)]
    ensures ApplicableRules(ps, FirstIndex()) == [Rule(47, 61), Rule(47, 53), Rule(47, 29), Rule(61, 53), Rule(61, 29), Rule(53, 29)]
  {
    assert ps[1..] == [(47, 53), (47, 29), (61, 53), (61, 29), (53, 29)];
    FirstSelect5(ps[1..]);
  }

  lemma FirstSelect3(ps: seq<(Page, Page)>)
    requires ps == [(75, 29), (47, 61), (47, 53), (47, 29), (61, 53), (61, 29), (53, 29)]
    ensures ApplicableRules(ps, FirstIndex()) == [Rule(75, 29), Rule(47, 61), Rule(47, 53), Rule(47, 29), Rule(61, 53), Rule(61, 29), Rule(53, 29)]
  {
    assert ps[1..] == [(47, 61), (47, 53), (47, 29), (61, 53), (61, 29), (53, 29)];
    FirstSelect4(ps[1..]);
  }

  lemma FirstSelect2(ps: seq<(Page, Page)>)
    requires ps == [(75, 53), (75, 29), (47, 61), (47, 53), (47, 29), (61, 53), (61, 29), (53, 29)]
    ensures ApplicableRules(ps, FirstIndex()) == [Rule(75, 53), Rule(75, 29), Rule(47, 61), Rule(47, 53), Rule(47, 29), Rule(61, 53), Rule(61, 29), Rule(53, 29)]
  {
    assert ps[1..] == [(75, 29), (47, 61), (47, 53), (47, 29), (61, 53), (61, 29), (53, 29)];
    FirstSelect3(ps[1..]);
  }

  lemma FirstSelect1(ps: seq<(Page, Page)>)
    requires ps == [(75, 61), (75, 53), (75, 29), (47, 61), (47, 53), (47, 29), (61, 53), (61, 29), (53, 29)]
    ensures ApplicableRules(ps, FirstIndex()) == [Rule(75, 61), Rule(75, 53), Rule(75, 29), Rule(47, 61), Rule(47, 53), Rule(47, 29), Rule(61, 53), Rule(61, 29), Rule(53, 29)]
  {
    assert ps[1..] == [(75, 53), (75, 29), (47, 61), (47, 53), (47, 29), (61, 53), (61, 29), (53, 29)];
    FirstSelect2(ps[1..]);
  }

  lemma FirstSelect0(ps: seq<(Page, Page)>)
    requires ps == [(75, 47), (75, 61), (75, 53), (75, 29), (47, 61), (47, 53), (47, 29), (61, 53), (61, 29), (53, 29)]
    ensures ApplicableRules(ps, FirstIndex()) == [Rule(75, 47), Rule(75, 61), Rule(75, 53), Rule(75, 29), Rule(47, 61), Rule(47, 53), Rule(47, 29), Rule(61, 53), Rule(61, 29), Rule(53, 29)]
  {
    assert ps[1..] == [(75, 61), (75, 53), (75, 29), (47, 61), (47, 53), (47, 29), (61, 53), (61, 29), (53, 29)];
    FirstSelect1(ps[1..]);
  }

  lemma FirstSelected()
    ensures ApplicableRules(Pairs([75, 47, 61, 53, 29]), FirstIndex()) == [Rule(75, 47), Rule(75, 61), Rule(75, 53), Rule(75, 29), Rule(47, 61), Rule(47, 53), Rule(47, 29), Rule(61, 53), Rule(61, 29), Rule(53, 29)]
  {
    FirstPaired();
    FirstSelect0(Pairs([75, 47, 61, 53, 29]));
  }

  lemma FirstStep0()
    requires Consistent(PageUpdate([75, 47, 61, 53, 29], map[75 := 0, 47 := 1, 61 := 2, 53 := 3, 29 := 4]))
    ensures Apply(Rule(75, 47), PageUpdate([75, 47, 61, 53, 29], map[75 := 0, 47 := 1, 61 := 2, 53 := 3, 29 := 4]))
         == PageUpdate([75, 47, 61, 53, 29], map[75 := 0, 47 := 1, 61 := 2, 53 := 3, 29 := 4])
  {
    assert Satisfied(Rule(75, 47), PageUpdate([75, 47, 61, 53, 29], map[75 := 0, 47 := 1, 61 := 2, 53 := 3, 29 := 4]));
  }

  lemma FirstStep1()
    requires Consistent(PageUpdate([75, 47, 61, 53, 29], map[75 := 0, 47 := 1, 61 := 2, 53 := 3, 29 := 4]))
    ensures Apply(Rule(75, 61), PageUpdate([75, 47, 61, 53, 29], map[75 := 0, 47 := 1, 61 := 2, 53 := 3, 29 := 4]))
         == PageUpdate([75, 47, 61, 53, 29], map[75 := 0, 47 := 1, 61 := 2, 53 := 3, 29 := 4])
  {
    assert Satisfied(Rule(75, 61), PageUpdate([75, 47, 61, 53, 29], map[75 := 0, 47 := 1, 61 := 2, 53 := 3, 29 := 4]));
  }

  lemma FirstStep2()
    requires Consistent(PageUpdate([75, 47, 61, 53, 29], map[75 := 0, 47 := 1, 61 := 2, 53 := 3, 29 := 4]))
    ensures Apply(Rule(75, 53), PageUpdate([75, 47, 61, 53, 29], map[75 := 0, 47 := 1, 61 := 2, 53 := 3, 29 := 4]))
         == PageUpdate([75, 47, 61, 53, 29], map[75 := 0, 47 := 1, 61 := 2, 53 := 3, 29 := 4])
  {
    assert Satisfied(Rule(75, 53), PageUpdate([75, 47, 61, 53, 29], map[75 := 0, 47 := 1, 61 := 2, 53 := 3, 29 := 4]));
  }

  lemma FirstStep3()
    requires Consistent(PageUpdate([75, 47, 61, 53, 29], map[75 := 0, 47 := 1, 61 := 2, 53 := 3, 29 := 4]))
    ensures Apply(Rule(75, 29), PageUpdate([75, 47, 61, 53, 29], map[75 := 0, 47 := 1, 61 := 2, 53 := 3, 29 := 4]))
         == PageUpdate([75, 47, 61, 53, 29], map[75 := 0, 47 := 1, 61 := 2, 53 := 3, 29 := 4])
  {
    assert Satisfied(Rule(75, 29), PageUpdate([75, 47, 61, 53, 29], map[75 := 0, 47 := 1, 61 := 2, 53 := 3, 29 := 4]));
  }

  lemma FirstStep4()
    requires Consistent(PageUpdate([75, 47, 61, 53, 29], map[75 := 0, 47 := 1, 61 := 2, 53 := 3, 29 := 4]))
    ensures Apply(Rule(47, 61), PageUpdate([75, 47, 61, 53, 29], map[75 := 0, 47 := 1, 61 := 2, 53 := 3, 29 := 4]))
         == PageUpdate([75, 47, 61, 53, 29], map[75 := 0, 47 := 1, 61 := 2, 53 := 3, 29 := 4])
  {
    assert Satisfied(Rule(47, 61), PageUpdate([75, 47, 61, 53, 29], map[75 := 0, 47 := 1, 61 := 2, 53 := 3, 29 := 4]));
  }

  lemma FirstStep5()
    requires Consistent(PageUpdate([75, 47, 61, 53, 29], map[75 := 0, 47 := 1, 61 := 2, 53 := 3, 29 := 4]))
    ensures Apply(Rule(47, 53), PageUpdate([75, 47, 61, 53, 29], map[75 := 0, 47 := 1, 61 := 2, 53 := 3, 29 := 4]))
         == PageUpdate([75, 47, 61, 53, 29], map[75 := 0, 47 := 1, 61 := 2, 53 := 3, 29 := 4])
  {
    assert Satisfied(Rule(47, 53), PageUpdate([75, 47, 61, 53, 29], map[75 := 0, 47 := 1, 61 := 2, 53 := 3, 29 := 4]));
  }

  lemma FirstStep6()
    requires Consistent(PageUpdate([75, 47, 61, 53, 29], map[75 := 0, 47 := 1, 61 := 2, 53 := 3, 29 := 4]))
    ensures Apply(Rule(47, 29), PageUpdate([75, 47, 61, 53, 29], map[75 := 0, 47 := 1, 61 := 2, 53 := 3, 29 := 4]))
         == PageUpdate([75, 47, 61, 53, 29], map[75 := 0, 47 := 1, 61 := 2, 53 := 3, 29 := 4])
  {
    assert Satisfied(Rule(47, 29), PageUpdate([75, 47, 61, 53, 29], map[75 := 0, 47 := 1, 61 := 2, 53 := 3, 29 := 4]));
  }

  lemma FirstStep7()
    requires Consistent(PageUpdate([75, 47, 61, 53, 29], map[75 := 0, 47 := 1, 61 := 2, 53 := 3, 29 := 4]))
    ensures Apply(Rule(61, 53), PageUpdate([75, 47, 61, 53, 29], map[75 := 0, 47 := 1, 61 := 2, 53 := 3, 29 := 4]))
         == PageUpdate([75, 47, 61, 53, 29], map[75 := 0, 47 := 1, 61 := 2, 53 := 3, 29 := 4])
  {
    assert Satisfied(Rule(61, 53), PageUpdate([75, 47, 61, 53, 29], map[75 := 0, 47 := 1, 61 := 2, 53 := 3, 29 := 4]));
  }

  lemma FirstStep8()
    requires Consistent(PageUpdate([75, 47, 61, 53, 29], map[75 := 0, 47 := 1, 61 := 2, 53 := 3, 29 := 4]))
    ensures Apply(Rule(61, 29), PageUpdate([75, 47, 61, 53, 29], map[75 := 0, 47 := 1, 61 := 2, 53 := 3, 29 := 4]))
         == PageUpdate([75, 47, 61, 53, 29], map[75 := 0, 47 := 1, 61 := 2, 53 := 3, 29 := 4])
  {
    assert Satisfied(Rule(61, 29), PageUpdate([75, 47, 61, 53, 29], map[75 := 0, 47 := 1, 61 := 2, 53 := 3, 29 := 4]));
  }

  lemma FirstStep9()
    requires Consistent(PageUpdate([75, 47, 61, 53, 29], map[75 := 0, 47 := 1, 61 := 2, 53 := 3, 29 := 4]))
    ensures Apply(Rule(53, 29), PageUpdate([75, 47, 61, 53, 29], map[75 := 0, 47 := 1, 61 := 2, 53 := 3, 29 := 4]))
         == PageUpdate([75, 47, 61, 53, 29], map[75 := 0, 47 := 1, 61 := 2, 53 := 3, 29 := 4])
  {
    assert Satisfied(Rule(53, 29), PageUpdate([75, 47, 61, 53, 29], map[75 := 0, 47 := 1, 61 := 2, 53 := 3, 29 := 4]));
  }

  lemma FirstIndexWellKeyed()
    ensures WellKeyed(FirstIndex())
  {
  }

  lemma FirstCheckedConsistent(u: PageUpdate)
    requires u == PageUpdate([75, 47, 61, 53, 29], map[75 := 0, 47 := 1, 61 := 2, 53 := 3, 29 := 4])
    ensures Consistent(u)
  {
  }

  lemma FirstCheckedSelection(u: PageUpdate)
    requires u == PageUpdate([75, 47, 61, 53, 29], map[75 := 0, 47 := 1, 61 := 2, 53 := 3, 29 := 4])
    ensures ApplicableRules(Pairs(u.pages), FirstIndex()) == [Rule(75, 47), Rule(75, 61), Rule(75, 53), Rule(75, 29), Rule(47, 61), Rule(47, 53), Rule(47, 29), Rule(61, 53), Rule(61, 29), Rule(53, 29)]
  {
    FirstSelected();
  }

  lemma FirstCheckedVerdict(u: PageUpdate)
    requires u == PageUpdate([75, 47, 61, 53, 29], map[75 := 0, 47 := 1, 61 := 2, 53 := 3, 29 := 4])
    ensures AllSatisfied([Rule(75, 47), Rule(75, 61), Rule(75, 53), Rule(75, 29), Rule(47, 61), Rule(47, 53), Rule(47, 29), Rule(61, 53), Rule(61, 29), Rule(53, 29)], u)
  {
  }

  /** The validator accepts [75, 47, 61, 53, 29]. */
  lemma FirstChecked(u: PageUpdate)
    requires u == PageUpdate([75, 47, 61, 53, 29], map[75 := 0, 47 := 1, 61 := 2, 53 := 3, 29 := 4])
    ensures Consistent(u)
    ensures WellKeyed(FirstIndex())
    ensures IsCorrectlyOrdered(u, FirstIndex())
  {
    FirstCheckedConsistent(u);
    FirstCheckedSelection(u);
    FirstIndexWellKeyed();
    ApplicableRulesPlaced(u, FirstIndex());
    FirstCheckedVerdict(u);
  }

  /** Ordering [75, 47, 61, 53, 29] gives [75, 47, 61, 53, 29], whose middle page is 61, and the validator accepts the result. */
  lemma FirstOrdered()
    ensures var u := NewUpdate([75, 47, 61, 53, 29]); var m := RulesToMap(FirstRules());
      && Consistent(u)
      && Order(u, m) == PageUpdate([75, 47, 61, 53, 29], map[75 := 0, 47 := 1, 61 := 2, 53 := 3, 29 := 4])
      && MiddlePage(PageUpdate([75, 47, 61, 53, 29], map[75 := 0, 47 := 1, 61 := 2, 53 := 3, 29 := 4])) == 61
      && IsCorrectlyOrdered(PageUpdate([75, 47, 61, 53, 29], map[75 := 0, 47 := 1, 61 := 2, 53 := 3, 29 := 4]), m)
  {
    FirstUpdateBuilt();
    FirstIndexBuilt();
    FirstSelected();
    FirstChecked(PageUpdate([75, 47, 61, 53, 29], map[75 := 0, 47 := 1, 61 := 2, 53 := 3, 29 := 4]));
    ApplicableRulesPlaced(PageUpdate([75, 47, 61, 53, 29], map[75 := 0, 47 := 1, 61 := 2, 53 := 3, 29 := 4]), FirstIndex());
    FirstStep0();
    ApplyAllFirst([Rule(75, 47), Rule(75, 61), Rule(75, 53), Rule(75, 29), Rule(47, 61), Rule(47, 53), Rule(47, 29), Rule(61, 53), Rule(61, 29), Rule(53, 29)], PageUpdate([75, 47, 61, 53, 29], map[75 := 0, 47 := 1, 61 := 2, 53 := 3, 29 := 4]));
    assert [Rule(75, 47), Rule(75, 61), Rule(75, 53), Rule(75, 29), Rule(47, 61), Rule(47, 53), Rule(47, 29), Rule(61, 53), Rule(61, 29), Rule(53, 29)][1..] == [Rule(75, 61), Rule(75, 53), Rule(75, 29), Rule(47, 61), Rule(47, 53), Rule(47, 29), Rule(61, 53), Rule(61, 29), Rule(53, 29)];
    FirstStep1();
    ApplyAllFirst([Rule(75, 61), Rule(75, 53), Rule(75, 29), Rule(47, 61), Rule(47, 53), Rule(47, 29), Rule(61, 53), Rule(61, 29), Rule(53, 29)], PageUpdate([75, 47, 61, 53, 29], map[75 := 0, 47 := 1, 61 := 2, 53 := 3, 29 := 4]));
    assert [Rule(75, 61), Rule(75, 53), Rule(75, 29), Rule(47, 61), Rule(47, 53), Rule(47, 29), Rule(61, 53), Rule(61, 29), Rule(53, 29)][1..] == [Rule(75, 53), Rule(75, 29), Rule(47, 61), Rule(47, 53), Rule(47, 29), Rule(61, 53), Rule(61, 29), Rule(53, 29)];
    FirstStep2();
    ApplyAllFirst([Rule(75, 53), Rule(75, 29), Rule(47, 61), Rule(47, 53), Rule(47, 29), Rule(61, 53), Rule(61, 29), Rule(53, 29)], PageUpdate([75, 47, 61, 53, 29], map[75 := 0, 47 := 1, 61 := 2, 53 := 3, 29 := 4]));
    assert [Rule(75, 53), Rule(75, 29), Rule(47, 61), Rule(47, 53), Rule(47, 29), Rule(61, 53), Rule(61, 29), Rule(53, 29)][1..] == [Rule(75, 29), Rule(47, 61), Rule(47, 53), Rule(47, 29), Rule(61, 53), Rule(61, 29), Rule(53, 29)];
    FirstStep3();
    ApplyAllFirst([Rule(75, 29), Rule(47, 61), Rule(47, 53), Rule(47, 29), Rule(61, 53), Rule(61, 29), Rule(53, 29)], PageUpdate([75, 47, 61, 53, 29], map[75 := 0, 47 := 1, 61 := 2, 53 := 3, 29 := 4]));
    assert [Rule(75, 29), Rule(47, 61), Rule(47, 53), Rule(47, 29), Rule(61, 53), Rule(61, 29), Rule(53, 29)][1..] == [Rule(47, 61), Rule(47, 53), Rule(47, 29), Rule(61, 53), Rule(61, 29), Rule(53, 29)];
    FirstStep4();
    ApplyAllFirst([Rule(47, 61), Rule(47, 53), Rule(47, 29), Rule(61, 53), Rule(61, 29), Rule(53, 29)], PageUpdate([75, 47, 61, 53, 29], map[75 := 0, 47 := 1, 61 := 2, 53 := 3, 29 := 4]));
    assert [Rule(47, 61), Rule(47, 53), Rule(47, 29), Rule(61, 53), Rule(61, 29), Rule(53, 29)][1..] == [Rule(47, 53), Rule(47, 29), Rule(61, 53), Rule(61, 29), Rule(53, 29)];
    FirstStep5();
    ApplyAllFirst([Rule(47, 53), Rule(47, 29), Rule(61, 53), Rule(61, 29), Rule(53, 29)], PageUpdate([75, 47, 61, 53, 29], map[75 := 0, 47 := 1, 61 := 2, 53 := 3, 29 := 4]));
    assert [Rule(47, 53), Rule(47, 29), Rule(61, 53), Rule(61, 29), Rule(53, 29)][1..] == [Rule(47, 29), Rule(61, 53), Rule(61, 29), Rule(53, 29)];
    FirstStep6();
    ApplyAllFirst([Rule(47, 29), Rule(61, 53), Rule(61, 29), Rule(53, 29)], PageUpdate([75, 47, 61, 53, 29], map[75 := 0, 47 := 1, 61 := 2, 53 := 3, 29 := 4]));
    assert [Rule(47, 29), Rule(61, 53), Rule(61, 29), Rule(53, 29)][1..] == [Rule(61, 53), Rule(61, 29), Rule(53, 29)];
    FirstStep7();
    ApplyAllFirst([Rule(61, 53), Rule(61, 29), Rule(53, 29)], PageUpdate([75, 47, 61, 53, 29], map[75 := 0, 47 := 1, 61 := 2, 53 := 3, 29 := 4]));
    assert [Rule(61, 53), Rule(61, 29), Rule(53, 29)][1..] == [Rule(61, 29), Rule(53, 29)];
    FirstStep8();
    ApplyAllFirst([Rule(61, 29), Rule(53, 29)], PageUpdate([75, 47, 61, 53, 29], map[75 := 0, 47 := 1, 61 := 2, 53 := 3, 29 := 4]));
    assert [Rule(61, 29), Rule(53, 29)][1..] == [Rule(53, 29)];
    FirstStep9();
    ApplyAllFirst([Rule(53, 29)], PageUpdate([75, 47, 61, 53, 29], map[75 := 0, 47 := 1, 61 := 2, 53 := 3, 29 := 4]));
    assert [Rule(53, 29)][1..] == [];
  }

  // ---------------------------------------------------------------------------
  // Update [97, 61, 53, 29, 13]: already in order
  // ---------------------------------------------------------------------------

  /** The sample rules that relate two pages of [97, 61, 53, 29, 13], in sample order. */
  function SecondRules(): seq<Rule>
  {
    [Rule(97, 13), Rule(97, 61), Rule(61, 13), Rule(29, 13), Rule(97, 29), Rule(53, 29), Rule(61, 53), Rule(97, 53), Rule(61, 29), Rule(53, 13)]
  }

  /** The index those rules build. */
  function SecondIndex(): map<Key, Rule>
  {
    map[(13, 97) := Rule(97, 13), (61, 97) := Rule(97, 61), (13, 61) := Rule(61, 13), (13, 29) := Rule(29, 13), (29, 97) := Rule(97, 29), (29, 53) := Rule(53, 29), (53, 61) := Rule(61, 53), (53, 97) := Rule(97, 53), (29, 61) := Rule(61, 29), (13, 53) := Rule(53, 13)]
  }

  lemma SecondIndexUpTo1(rs: seq<Rule>)
    requires rs == [Rule(97, 13), Rule(97, 61), Rule(61, 13), Rule(29, 13), Rule(97, 29), Rule(53, 29), Rule(61, 53), Rule(97, 53), Rule(61, 29), Rule(53, 13)]
    ensures RulesUpTo(rs, 1) == map[(13, 97) := Rule(97, 13)]
  {
  }

  lemma SecondIndexUpTo2(rs: seq<Rule>)
    requires rs == [Rule(97, 13), Rule(97, 61), Rule(61, 13), Rule(29, 13), Rule(97, 29), Rule(53, 29), Rule(61, 53), Rule(97, 53), Rule(61, 29), Rule(53, 13)]
    ensures RulesUpTo(rs, 2) == map[(13, 97) := Rule(97, 13), (61, 97) := Rule(97, 61)]
  {
    SecondIndexUpTo1(rs);
  }

  lemma SecondIndexUpTo3(rs: seq<Rule>)
    requires rs == [Rule(97, 13), Rule(97, 61), Rule(61, 13), Rule(29, 13), Rule(97, 29), Rule(53, 29), Rule(61, 53), Rule(97, 53), Rule(61, 29), Rule(53, 13)]
    ensures RulesUpTo(rs, 3) == map[(13, 97) := Rule(97, 13), (61, 97) := Rule(97, 61), (13, 61) := Rule(61, 13)]
  {
    SecondIndexUpTo2(rs);
  }

  lemma SecondIndexUpTo4(rs: seq<Rule>)
    requires rs == [Rule(97, 13), Rule(97, 61), Rule(61, 13), Rule(29, 13), Rule(97, 29), Rule(53, 29), Rule(61, 53), Rule(97, 53), Rule(61, 29), Rule(53, 13)]
    ensures RulesUpTo(rs, 4) == map[(13, 97) := Rule(97, 13), (61, 97) := Rule(97, 61), (13, 61) := Rule(61, 13), (13, 29) := Rule(29, 13)]
  {
    SecondIndexUpTo3(rs);
  }

  lemma SecondIndexUpTo5(rs: seq<Rule>)
    requires rs == [Rule(97, 13), Rule(97, 61), Rule(61, 13), Rule(29, 13), Rule(97, 29), Rule(53, 29), Rule(61, 53), Rule(97, 53), Rule(61, 29), Rule(53, 13)]
    ensures RulesUpTo(rs, 5) == map[(13, 97) := Rule(97, 13), (61, 97) := Rule(97, 61), (13, 61) := Rule(61, 13), (13, 29) := Rule(29, 13), (29, 97) := Rule(97, 29)]
  {
    SecondIndexUpTo4(rs);
  }

  lemma SecondIndexUpTo6(rs: seq<Rule>)
    requires rs == [Rule(97, 13), Rule(97, 61), Rule(61, 13), Rule(29, 13), Rule(97, 29), Rule(53, 29), Rule(61, 53), Rule(97, 53), Rule(61, 29), Rule(53, 13)]
    ensures RulesUpTo(rs, 6) == map[(13, 97) := Rule(97, 13), (61, 97) := Rule(97, 61), (13, 61) := Rule(61, 13), (13, 29) := Rule(29, 13), (29, 97) := Rule(97, 29), (29, 53) := Rule(53, 29)]
  {
    SecondIndexUpTo5(rs);
  }

  lemma SecondIndexUpTo7(rs: seq<Rule>)
    requires rs == [Rule(97, 13), Rule(97, 61), Rule(61, 13), Rule(29, 13), Rule(97, 29), Rule(53, 29), Rule(61, 53), Rule(97, 53), Rule(61, 29), Rule(53, 13)]
    ensures RulesUpTo(rs, 7) == map[(13, 97) := Rule(97, 13), (61, 97) := Rule(97, 61), (13, 61) := Rule(61, 13), (13, 29) := Rule(29, 13), (29, 97) := Rule(97, 29), (29, 53) := Rule(53, 29), (53, 61) := Rule(61, 53)]
  {
    SecondIndexUpTo6(rs);
  }

  lemma SecondIndexUpTo8(rs: seq<Rule>)
    requires rs == [Rule(97, 13), Rule(97, 61), Rule(61, 13), Rule(29, 13), Rule(97, 29), Rule(53, 29), Rule(61, 53), Rule(97, 53), Rule(61, 29), Rule(53, 13)]
    ensures RulesUpTo(rs, 8) == map[(13, 97) := Rule(97, 13), (61, 97) := Rule(97, 61), (13, 61) := Rule(61, 13), (13, 29) := Rule(29, 13), (29, 97) := Rule(97, 29), (29, 53) := Rule(53, 29), (53, 61) := Rule(61, 53), (53, 97) := Rule(97, 53)]
  {
    SecondIndexUpTo7(rs);
  }

  lemma SecondIndexUpTo9(rs: seq<Rule>)
    requires rs == [Rule(97, 13), Rule(97, 61), Rule(61, 13), Rule(29, 13), Rule(97, 29), Rule(53, 29), Rule(61, 53), Rule(97, 53), Rule(61, 29), Rule(53, 13)]
    ensures RulesUpTo(rs, 9) == map[(13, 97) := Rule(97, 13), (61, 97) := Rule(97, 61), (13, 61) := Rule(61, 13), (13, 29) := Rule(29, 13), (29, 97) := Rule(97, 29), (29, 53) := Rule(53, 29), (53, 61) := Rule(61, 53), (53, 97) := Rule(97, 53), (29, 61) := Rule(61, 29)]
  {
    SecondIndexUpTo8(rs);
  }

  lemma SecondIndexUpTo10(rs: seq<Rule>)
    requires rs == [Rule(97, 13), Rule(97, 61), Rule(61, 13), Rule(29, 13), Rule(97, 29), Rule(53, 29), Rule(61, 53), Rule(97, 53), Rule(61, 29), Rule(53, 13)]
    ensures RulesUpTo(rs, 10) == map[(13, 97) := Rule(97, 13), (61, 97) := Rule(97, 61), (13, 61) := Rule(61, 13), (13, 29) := Rule(29, 13), (29, 97) := Rule(97, 29), (29, 53) := Rule(53, 29), (53, 61) := Rule(61, 53), (53, 97) := Rule(97, 53), (29, 61) := Rule(61, 29), (13, 53) := Rule(53, 13)]
  {
    SecondIndexUpTo9(rs);
  }

  lemma SecondIndexBuilt()
    ensures RulesToMap(SecondRules()) == SecondIndex()
  {
    SecondIndexUpTo10(SecondRules());
  }

  lemma SecondUpdateBuilt()
    ensures NewUpdate([97, 61, 53, 29, 13]) == PageUpdate([97, 61, 53, 29, 13], map[97 := 0, 61 := 1, 53 := 2, 29 := 3, 13 := 4])
    ensures Consistent(NewUpdate([97, 61, 53, 29, 13]))
  {
    assert PositionsUpTo([97, 61, 53, 29, 13], 1) == map[97 := 0];
    assert PositionsUpTo([97, 61, 53, 29, 13], 2) == map[97 := 0, 61 := 1];
    assert PositionsUpTo([97, 61, 53, 29, 13], 3) == map[97 := 0, 61 := 1, 53 := 2];
    assert PositionsUpTo([97, 61, 53, 29, 13], 4) == map[97 := 0, 61 := 1, 53 := 2, 29 := 3];
  }

  lemma SecondPaired()
    ensures Pairs([97, 61, 53, 29, 13]) == [(97, 61), (97, 53), (97, 29), (97, 13), (61, 53), (61, 29), (61, 13), (53, 29), (53, 13), (29, 13)]
  {
  }

  lemma SecondSelect9(ps: seq<(Page, Page)>)
    requires ps == [(29, 13)]
    ensures ApplicableRules(ps, SecondIndex()) == [Rule(29, 13)]
  {
  }

  lemma SecondSelect8(ps: seq<(Page, Page)>)
    requires ps == [(53, 13), (29, 13)]
    ensures ApplicableRules(ps, SecondIndex()) == [Rule(53, 13), Rule(29, 13)]
  {
    assert ps[1..] == [(29, 13)];
    SecondSelect9(ps[1..]);
  }

  lemma SecondSelect7(ps: seq<(Page, Page)>)
    requires ps == [(53, 29), (53, 13), (29, 13)]
    ensures ApplicableRules(ps, SecondIndex()) == [Rule(53, 29), Rule(53, 13), Rule(29, 13)]
  {
    assert ps[1..] == [(53, 13), (29, 13)];
    SecondSelect8(ps[1..]);
  }

  lemma SecondSelect6(ps: seq<(Page, Page)>)
    requires ps == [(61, 13), (53, 29), (53, 13), (29, 13)]
    ensures ApplicableRules(ps, SecondIndex()) == [Rule(61, 13), Rule(53, 29), Rule(53, 13), Rule(29, 13)]
  {
    assert ps[1..] == [(53, 29), (53, 13), (29, 13)];
    SecondSelect7(ps[1..]);
  }

  lemma SecondSelect5(ps: seq<(Page, Page)>)
    requires ps == [(61, 29), (61, 13), (53, 29), (53, 13), (29, 13)]
    ensures ApplicableRules(ps, SecondIndex()) == [Rule(61, 29), Rule(61, 13), Rule(53, 29), Rule(53, 13), Rule(29, 13)]
  {
    assert ps[1..] == [(61, 13), (53, 29), (53, 13), (29, 13)];
    SecondSelect6(ps[1..]);
  }

  lemma SecondSelect4(ps: seq<(Page, Page)>)
    requires ps == [(61, 53), (61, 29), (61, 13), (53, 29), (53, 13), (29, 13)]
    ensures ApplicableRules(ps, SecondIndex()) == [Rule(61, 53), Rule(61, 29), Rule(61, 13), Rule(53, 29), Rule(53, 13), Rule(29, 13)]
  {
    assert ps[1..] == [(61, 29), (61, 13), (53, 29), (53, 13), (29, 13)];
    SecondSelect5(ps[1..]);
  }

  lemma SecondSelect3(ps: seq<(Page, Page)>)
    requires ps == [(97, 13), (61, 53), (61, 29), (61, 13), (53, 29), (53, 13), (29, 13)]
    ensures ApplicableRules(ps, SecondIndex()) == [Rule(97, 13), Rule(61, 53), Rule(61, 29), Rule(61, 13), Rule(53, 29), Rule(53, 13), Rule(29, 13)]
  {
    assert ps[1..] == [(61, 53), (61, 29), (61, 13), (53, 29), (53, 13), (29, 13)];
    SecondSelect4(ps[1..]);
  }

  lemma SecondSelect2(ps: seq<(Page, Page)>)
    requires ps == [(97, 29), (97, 13), (61, 53), (61, 29), (61, 13), (53, 29), (53, 13), (29, 13)]
    ensures ApplicableRules(ps, SecondIndex()) == [Rule(97, 29), Rule(97, 13), Rule(61, 53), Rule(61, 29), Rule(61, 13), Rule(53, 29), Rule(53, 13), Rule(29, 13)]
  {
    assert ps[1..] == [(97, 13), (61, 53), (61, 29), (61, 13), (53, 29), (53, 13), (29, 13)];
    SecondSelect3(ps[1..]);
  }

  lemma SecondSelect1(ps: seq<(Page, Page)>)
    requires ps == [(97, 53), (97, 29), (97, 13), (61, 53), (61, 29), (61, 13), (53, 29), (53, 13), (29, 13)]
    ensures ApplicableRules(ps, SecondIndex()) == [Rule(97, 53), Rule(97, 29), Rule(97, 13), Rule(61, 53), Rule(61, 29), Rule(61, 13), Rule(53, 29), Rule(53, 13), Rule(29, 13)]
  {
    assert ps[1..] == [(97, 29), (97, 13), (61, 53), (61, 29), (61, 13), (53, 29), (53, 13), (29, 13)];
    SecondSelect2(ps[1..]);
  }

  lemma SecondSelect0(ps: seq<(Page, Page)>)
    requires ps == [(97, 61), (97, 53), (97, 29), (97, 13), (61, 53), (61, 29), (61, 13), (53, 29), (53, 13), (29, 13)]
    ensures ApplicableRules(ps, SecondIndex()) == [Rule(97, 61), Rule(97, 53), Rule(97, 29), Rule(97, 13), Rule(61, 53), Rule(61, 29), Rule(61, 13), Rule(53, 29), Rule(53, 13), Rule(29, 13)]
  {
    assert ps[1..] == [(97, 53), (97, 29), (97, 13), (61, 53), (61, 29), (61, 13), (53, 29), (53, 13), (29, 13)];
    SecondSelect1(ps[1..]);
  }

  lemma SecondSelected()
    ensures ApplicableRules(Pairs([97, 61, 53, 29, 13]), SecondIndex()) == [Rule(97, 61), Rule(97, 53), Rule(97, 29), Rule(97, 13), Rule(61, 53), Rule(61, 29), Rule(61, 13), Rule(53, 29), Rule(53, 13), Rule(29, 13)]
  {
    SecondPaired();
    SecondSelect0(Pairs([97, 61, 53, 29, 13]));
  }

  lemma SecondStep0()
    requires Consistent(PageUpdate([97, 61, 53, 29, 13], map[97 := 0, 61 := 1, 53 := 2, 29 := 3, 13 := 4]))
    ensures Apply(Rule(97, 61), PageUpdate([97, 61, 53, 29, 13], map[97 := 0, 61 := 1, 53 := 2, 29 := 3, 13 := 4]))
         == PageUpdate([97, 61, 53, 29, 13], map[97 := 0, 61 := 1, 53 := 2, 29 := 3, 13 := 4])
  {
    assert Satisfied(Rule(97, 61), PageUpdate([97, 61, 53, 29, 13], map[97 := 0, 61 := 1, 53 := 2, 29 := 3, 13 := 4]));
  }

  lemma SecondStep1()
    requires Consistent(PageUpdate([97, 61, 53, 29, 13], map[97 := 0, 61 := 1, 53 := 2, 29 := 3, 13 := 4]))
    ensures Apply(Rule(97, 53), PageUpdate([97, 61, 53, 29, 13], map[97 := 0, 61 := 1, 53 := 2, 29 := 3, 13 := 4]))
         == PageUpdate([97, 61, 53, 29, 13], map[97 := 0, 61 := 1, 53 := 2, 29 := 3, 13 := 4])
  {
    assert Satisfied(Rule(97, 53), PageUpdate([97, 61, 53, 29, 13], map[97 := 0, 61 := 1, 53 := 2, 29 := 3, 13 := 4]));
  }

  lemma SecondStep2()
    requires Consistent(PageUpdate([97, 61, 53, 29, 13], map[97 := 0, 61 := 1, 53 := 2, 29 := 3, 13 := 4]))
    ensures Apply(Rule(97, 29), PageUpdate([97, 61, 53, 29, 13], map[97 := 0, 61 := 1, 53 := 2, 29 := 3, 13 := 4]))
         == PageUpdate([97, 61, 53, 29, 13], map[97 := 0, 61 := 1, 53 := 2, 29 := 3, 13 := 4])
  {
    assert Satisfied(Rule(97, 29), PageUpdate([97, 61, 53, 29, 13], map[97 := 0, 61 := 1, 53 := 2, 29 := 3, 13 := 4]));
  }

  lemma SecondStep3()
    requires Consistent(PageUpdate([97, 61, 53, 29, 13], map[97 := 0, 61 := 1, 53 := 2, 29 := 3, 13 := 4]))
    ensures Apply(Rule(97, 13), PageUpdate([97, 61, 53, 29, 13], map[97 := 0, 61 := 1, 53 := 2, 29 := 3, 13 := 4]))
         == PageUpdate([97, 61, 53, 29, 13], map[97 := 0, 61 := 1, 53 := 2, 29 := 3, 13 := 4])
  {
    assert Satisfied(Rule(97, 13), PageUpdate([97, 61, 53, 29, 13], map[97 := 0, 61 := 1, 53 := 2, 29 := 3, 13 := 4]));
  }

  lemma SecondStep4()
    requires Consistent(PageUpdate([97, 61, 53, 29, 13], map[97 := 0, 61 := 1, 53 := 2, 29 := 3, 13 := 4]))
    ensures Apply(Rule(61, 53), PageUpdate([97, 61, 53, 29, 13], map[97 := 0, 61 := 1, 53 := 2, 29 := 3, 13 := 4]))
         == PageUpdate([97, 61, 53, 29, 13], map[97 := 0, 61 := 1, 53 := 2, 29 := 3, 13 := 4])
  {
    assert Satisfied(Rule(61, 53), PageUpdate([97, 61, 53, 29, 13], map[97 := 0, 61 := 1, 53 := 2, 29 := 3, 13 := 4]));
  }

  lemma SecondStep5()
    requires Consistent(PageUpdate([97, 61, 53, 29, 13], map[97 := 0, 61 := 1, 53 := 2, 29 := 3, 13 := 4]))
    ensures Apply(Rule(61, 29), PageUpdate([97, 61, 53, 29, 13], map[97 := 0, 61 := 1, 53 := 2, 29 := 3, 13 := 4]))
         == PageUpdate([97, 61, 53, 29, 13], map[97 := 0, 61 := 1, 53 := 2, 29 := 3, 13 := 4])
  {
    assert Satisfied(Rule(61, 29), PageUpdate([97, 61, 53, 29, 13], map[97 := 0, 61 := 1, 53 := 2, 29 := 3, 13 := 4]));
  }

  lemma SecondStep6()
    requires Consistent(PageUpdate([97, 61, 53, 29, 13], map[97 := 0, 61 := 1, 53 := 2, 29 := 3, 13 := 4]))
    ensures Apply(Rule(61, 13), PageUpdate([97, 61, 53, 29, 13], map[97 := 0, 61 := 1, 53 := 2, 29 := 3, 13 := 4]))
         == PageUpdate([97, 61, 53, 29, 13], map[97 := 0, 61 := 1, 53 := 2, 29 := 3, 13 := 4])
  {
    assert Satisfied(Rule(61, 13), PageUpdate([97, 61, 53, 29, 13], map[97 := 0, 61 := 1, 53 := 2, 29 := 3, 13 := 4]));
  }

  lemma SecondStep7()
    requires Consistent(PageUpdate([97, 61, 53, 29, 13], map[97 := 0, 61 := 1, 53 := 2, 29 := 3, 13 := 4]))
    ensures Apply(Rule(53, 29), PageUpdate([97, 61, 53, 29, 13], map[97 := 0, 61 := 1, 53 := 2, 29 := 3, 13 := 4]))
         == PageUpdate([97, 61, 53, 29, 13], map[97 := 0, 61 := 1, 53 := 2, 29 := 3, 13 := 4])
  {
    assert Satisfied(Rule(53, 29), PageUpdate([97, 61, 53, 29, 13], map[97 := 0, 61 := 1, 53 := 2, 29 := 3, 13 := 4]));
  }

  lemma SecondStep8()
    requires Consistent(PageUpdate([97, 61, 53, 29, 13], map[97 := 0, 61 := 1, 53 := 2, 29 := 3, 13 := 4]))
    ensures Apply(Rule(53, 13), PageUpdate([97, 61, 53, 29, 13], map[97 := 0, 61 := 1, 53 := 2, 29 := 3, 13 := 4]))
         == PageUpdate([97, 61, 53, 29, 13], map[97 := 0, 61 := 1, 53 := 2, 29 := 3, 13 := 4])
  {
    assert Satisfied(Rule(53, 13), PageUpdate([97, 61, 53, 29, 13], map[97 := 0, 61 := 1, 53 := 2, 29 := 3, 13 := 4]));
  }

  lemma SecondStep9()
    requires Consistent(PageUpdate([97, 61, 53, 29, 13], map[97 := 0, 61 := 1, 53 := 2, 29 := 3, 13 := 4]))
    ensures Apply(Rule(29, 13), PageUpdate([97, 61, 53, 29, 13], map[97 := 0, 61 := 1, 53 := 2, 29 := 3, 13 := 4]))
         == PageUpdate([97, 61, 53, 29, 13], map[97 := 0, 61 := 1, 53 := 2, 29 := 3, 13 := 4])
  {
    assert Satisfied(Rule(29, 13), PageUpdate([97, 61, 53, 29, 13], map[97 := 0, 61 := 1, 53 := 2, 29 := 3, 13 := 4]));
  }

  lemma SecondIndexWellKeyed()
    ensures WellKeyed(SecondIndex())
  {
  }

  lemma SecondCheckedConsistent(u: PageUpdate)
    requires u == PageUpdate([97, 61, 53, 29, 13], map[97 := 0, 61 := 1, 53 := 2, 29 := 3, 13 := 4])
    ensures Consistent(u)
  {
  }

  lemma SecondCheckedSelection(u: PageUpdate)
    requires u == PageUpdate([97, 61, 53, 29, 13], map[97 := 0, 61 := 1, 53 := 2, 29 := 3, 13 := 4])
    ensures ApplicableRules(Pairs(u.pages), SecondIndex()) == [Rule(97, 61), Rule(97, 53), Rule(97, 29), Rule(97, 13), Rule(61, 53), Rule(61, 29), Rule(61, 13), Rule(53, 29), Rule(53, 13), Rule(29, 13)]
  {
    SecondSelected();
  }

  lemma SecondCheckedVerdict(u: PageUpdate)
    requires u == PageUpdate([97, 61, 53, 29, 13], map[97 := 0, 61 := 1, 53 := 2, 29 := 3, 13 := 4])
    ensures AllSatisfied([Rule(97, 61), Rule(97, 53), Rule(97, 29), Rule(97, 13), Rule(61, 53), Rule(61, 29), Rule(61, 13), Rule(53, 29), Rule(53, 13), Rule(29, 13)], u)
  {
  }

  /** The validator accepts [97, 61, 53, 29, 13]. */
  lemma SecondChecked(u: PageUpdate)
    requires u == PageUpdate([97, 61, 53, 29, 13], map[97 := 0, 61 := 1, 53 := 2, 29 := 3, 13 := 4])
    ensures Consistent(u)
    ensures WellKeyed(SecondIndex())
    ensures IsCorrectlyOrdered(u, SecondIndex())
  {
    SecondCheckedConsistent(u);
    SecondCheckedSelection(u);
    SecondIndexWellKeyed();
    ApplicableRulesPlaced(u, SecondIndex());
    SecondCheckedVerdict(u);
  }

  /** Ordering [97, 61, 53, 29, 13] gives [97, 61, 53, 29, 13], whose middle page is 53, and the validator accepts the result. */
  lemma SecondOrdered()
    ensures var u := NewUpdate([97, 61, 53, 29, 13]); var m := RulesToMap(SecondRules());
      && Consistent(u)
      && Order(u, m) == PageUpdate([97, 61, 53, 29, 13], map[97 := 0, 61 := 1, 53 := 2, 29 := 3, 13 := 4])
      && MiddlePage(PageUpdate([97, 61, 53, 29, 13], map[97 := 0, 61 := 1, 53 := 2, 29 := 3, 13 := 4])) == 53
      && IsCorrectlyOrdered(PageUpdate([97, 61, 53, 29, 13], map[97 := 0, 61 := 1, 53 := 2, 29 := 3, 13 := 4]), m)
  {
    SecondUpdateBuilt();
    SecondIndexBuilt();
    SecondSelected();
    SecondChecked(PageUpdate([97, 61, 53, 29, 13], map[97 := 0, 61 := 1, 53 := 2, 29 := 3, 13 := 4]));
    ApplicableRulesPlaced(PageUpdate([97, 61, 53, 29, 13], map[97 := 0, 61 := 1, 53 := 2, 29 := 3, 13 := 4]), SecondIndex());
    SecondStep0();
    ApplyAllFirst([Rule(97, 61), Rule(97, 53), Rule(97, 29), Rule(97, 13), Rule(61, 53), Rule(61, 29), Rule(61, 13), Rule(53, 29), Rule(53, 13), Rule(29, 13)], PageUpdate([97, 61, 53, 29, 13], map[97 := 0, 61 := 1, 53 := 2, 29 := 3, 13 := 4]));
    assert [Rule(97, 61), Rule(97, 53), Rule(97, 29), Rule(97, 13), Rule(61, 53), Rule(61, 29), Rule(61, 13), Rule(53, 29), Rule(53, 13), Rule(29, 13)][1..] == [Rule(97, 53), Rule(97, 29), Rule(97, 13), Rule(61, 53), Rule(61, 29), Rule(61, 13), Rule(53, 29), Rule(53, 13), Rule(29, 13)];
    SecondStep1();
    ApplyAllFirst([Rule(97, 53), Rule(97, 29), Rule(97, 13), Rule(61, 53), Rule(61, 29), Rule(61, 13), Rule(53, 29), Rule(53, 13), Rule(29, 13)], PageUpdate([97, 61, 53, 29, 13], map[97 := 0, 61 := 1, 53 := 2, 29 := 3, 13 := 4]));
    assert [Rule(97, 53), Rule(97, 29), Rule(97, 13), Rule(61, 53), Rule(61, 29), Rule(61, 13), Rule(53, 29), Rule(53, 13), Rule(29, 13)][1..] == [Rule(97, 29), Rule(97, 13), Rule(61, 53), Rule(61, 29), Rule(61, 13), Rule(53, 29), Rule(53, 13), Rule(29, 13)];
    SecondStep2();
    ApplyAllFirst([Rule(97, 29), Rule(97, 13), Rule(61, 53), Rule(61, 29), Rule(61, 13), Rule(53, 29), Rule(53, 13), Rule(29, 13)], PageUpdate([97, 61, 53, 29, 13], map[97 := 0, 61 := 1, 53 := 2, 29 := 3, 13 := 4]));
    assert [Rule(97, 29), Rule(97, 13), Rule(61, 53), Rule(61, 29), Rule(61, 13), Rule(53, 29), Rule(53, 13), Rule(29, 13)][1..] == [Rule(97, 13), Rule(61, 53), Rule(61, 29), Rule(61, 13), Rule(53, 29), Rule(53, 13), Rule(29, 13)];
    SecondStep3();
    ApplyAllFirst([Rule(97, 13), Rule(61, 53), Rule(61, 29), Rule(61, 13), Rule(53, 29), Rule(53, 13), Rule(29, 13)], PageUpdate([97, 61, 53, 29, 13], map[97 := 0, 61 := 1, 53 := 2, 29 := 3, 13 := 4]));
    assert [Rule(97, 13), Rule(61, 53), Rule(61, 29), Rule(61, 13), Rule(53, 29), Rule(53, 13), Rule(29, 13)][1..] == [Rule(61, 53), Rule(61, 29), Rule(61, 13), Rule(53, 29), Rule(53, 13), Rule(29, 13)];
    SecondStep4();
    ApplyAllFirst([Rule(61, 53), Rule(61, 29), Rule(61, 13), Rule(53, 29), Rule(53, 13), Rule(29, 13)], PageUpdate([97, 61, 53, 29, 13], map[97 := 0, 61 := 1, 53 := 2, 29 := 3, 13 := 4]));
    assert [Rule(61, 53), Rule(61, 29), Rule(61, 13), Rule(53, 29), Rule(53, 13), Rule(29, 13)][1..] == [Rule(61, 29), Rule(61, 13), Rule(53, 29), Rule(53, 13), Rule(29, 13)];
    SecondStep5();
    ApplyAllFirst([Rule(61, 29), Rule(61, 13), Rule(53, 29), Rule(53, 13), Rule(29, 13)], PageUpdate([97, 61, 53, 29, 13], map[97 := 0, 61 := 1, 53 := 2, 29 := 3, 13 := 4]));
    assert [Rule(61, 29), Rule(61, 13), Rule(53, 29), Rule(53, 13), Rule(29, 13)][1..] == [Rule(61, 13), Rule(53, 29), Rule(53, 13), Rule(29, 13)];
    SecondStep6();
    ApplyAllFirst([Rule(61, 13), Rule(53, 29), Rule(53, 13), Rule(29, 13)], PageUpdate([97, 61, 53, 29, 13], map[97 := 0, 61 := 1, 53 := 2, 29 := 3, 13 := 4]));
    assert [Rule(61, 13), Rule(53, 29), Rule(53, 13), Rule(29, 13)][1..] == [Rule(53, 29), Rule(53, 13), Rule(29, 13)];
    SecondStep7();
    ApplyAllFirst([Rule(53, 29), Rule(53, 13), Rule(29, 13)], PageUpdate([97, 61, 53, 29, 13], map[97 := 0, 61 := 1, 53 := 2, 29 := 3, 13 := 4]));
    assert [Rule(53, 29), Rule(53, 13), Rule(29, 13)][1..] == [Rule(53, 13), Rule(29, 13)];
    SecondStep8();
    ApplyAllFirst([Rule(53, 13), Rule(29, 13)], PageUpdate([97, 61, 53, 29, 13], map[97 := 0, 61 := 1, 53 := 2, 29 := 3, 13 := 4]));
    assert [Rule(53, 13), Rule(29, 13)][1..] == [Rule(29, 13)];
    SecondStep9();
    ApplyAllFirst([Rule(29, 13)], PageUpdate([97, 61, 53, 29, 13], map[97 := 0, 61 := 1, 53 := 2, 29 := 3, 13 := 4]));
    assert [Rule(29, 13)][1..] == [];
  }

  // ---------------------------------------------------------------------------
  // Update [75, 29, 13]: already in order
  // ---------------------------------------------------------------------------

  /** The sample rules that relate two pages of [75, 29, 13], in sample order. */
  function ThirdRules(): seq<Rule>
  {
    [Rule(75, 29), Rule(29, 13), Rule(75, 13)]
  }

  /** The index those rules build. */
  function ThirdIndex(): map<Key, Rule>
  {
    map[(29, 75) := Rule(75, 29), (13, 29) := Rule(29, 13), (13, 75) := Rule(75, 13)]
  }

  lemma ThirdIndexUpTo1(rs: seq<Rule>)
    requires rs == [Rule(75, 29), Rule(29, 13), Rule(75, 13)]
    ensures RulesUpTo(rs, 1) == map[(29, 75) := Rule(75, 29)]
  {
  }

  lemma ThirdIndexUpTo2(rs: seq<Rule>)
    requires rs == [Rule(75, 29), Rule(29, 13), Rule(75, 13)]
    ensures RulesUpTo(rs, 2) == map[(29, 75) := Rule(75, 29), (13, 29) := Rule(29, 13)]
  {
    ThirdIndexUpTo1(rs);
  }

  lemma ThirdIndexUpTo3(rs: seq<Rule>)
    requires rs == [Rule(75, 29), Rule(29, 13), Rule(75, 13)]
    ensures RulesUpTo(rs, 3) == map[(29, 75) := Rule(75, 29), (13, 29) := Rule(29, 13), (13, 75) := Rule(75, 13)]
  {
    ThirdIndexUpTo2(rs);
  }

  lemma ThirdIndexBuilt()
    ensures RulesToMap(ThirdRules()) == ThirdIndex()
  {
    ThirdIndexUpTo3(ThirdRules());
  }

  lemma ThirdUpdateBuilt()
    ensures NewUpdate([75, 29, 13]) == PageUpdate([75, 29, 13], map[75 := 0, 29 := 1, 13 := 2])
    ensures Consistent(NewUpdate([75, 29, 13]))
  {
    assert PositionsUpTo([75, 29, 13], 1) == map[75 := 0];
    assert PositionsUpTo([75, 29, 13], 2) == map[75 := 0, 29 := 1];
  }

  lemma ThirdPaired()
    ensures Pairs([75, 29, 13]) == [(75, 29), (75, 13), (29, 13)]
  {
  }

  lemma ThirdSelect2(ps: seq<(Page, Page)>)
    requires ps == [(29, 13)]
    ensures ApplicableRules(ps, ThirdIndex()) == [Rule(29, 13)]
  {
  }

  lemma ThirdSelect1(ps: seq<(Page, Page)>)
    requires ps == [(75, 13), (29, 13)]
    ensures ApplicableRules(ps, ThirdIndex()) == [Rule(75, 13), Rule(29, 13)]
  {
    assert ps[1..] == [(29, 13)];
    ThirdSelect2(ps[1..]);
  }

  lemma ThirdSelect0(ps: seq<(Page, Page)>)
    requires ps == [(75, 29), (75, 13), (29, 13)]
    ensures ApplicableRules(ps, ThirdIndex()) == [Rule(75, 29), Rule(75, 13), Rule(29, 13)]
  {
    assert ps[1..] == [(75, 13), (29, 13)];
    ThirdSelect1(ps[1..]);
  }

  lemma ThirdSelected()
    ensures ApplicableRules(Pairs([75, 29, 13]), ThirdIndex()) == [Rule(75, 29), Rule(75, 13), Rule(29, 13)]
  {
    ThirdPaired();
    ThirdSelect0(Pairs([75, 29, 13]));
  }

  lemma ThirdStep0()
    requires Consistent(PageUpdate([75, 29, 13], map[75 := 0, 29 := 1, 13 := 2]))
    ensures Apply(Rule(75, 29), PageUpdate([75, 29, 13], map[75 := 0, 29 := 1, 13 := 2]))
         == PageUpdate([75, 29, 13], map[75 := 0, 29 := 1, 13 := 2])
  {
    assert Satisfied(Rule(75, 29), PageUpdate([75, 29, 13], map[75 := 0, 29 := 1, 13 := 2]));
  }

  lemma ThirdStep1()
    requires Consistent(PageUpdate([75, 29, 13], map[75 := 0, 29 := 1, 13 := 2]))
    ensures Apply(Rule(75, 13), PageUpdate([75, 29, 13], map[75 := 0, 29 := 1, 13 := 2]))
         == PageUpdate([75, 29, 13], map[75 := 0, 29 := 1, 13 := 2])
  {
    assert Satisfied(Rule(75, 13), PageUpdate([75, 29, 13], map[75 := 0, 29 := 1, 13 := 2]));
  }

  lemma ThirdStep2()
    requires Consistent(PageUpdate([75, 29, 13], map[75 := 0, 29 := 1, 13 := 2]))
    ensures Apply(Rule(29, 13), PageUpdate([75, 29, 13], map[75 := 0, 29 := 1, 13 := 2]))
         == PageUpdate([75, 29, 13], map[75 := 0, 29 := 1, 13 := 2])
  {
    assert Satisfied(Rule(29, 13), PageUpdate([75, 29, 13], map[75 := 0, 29 := 1, 13 := 2]));
  }

  lemma ThirdIndexWellKeyed()
    ensures WellKeyed(ThirdIndex())
  {
  }

  lemma ThirdCheckedConsistent(u: PageUpdate)
    requires u == PageUpdate([75, 29, 13], map[75 := 0, 29 := 1, 13 := 2])
    ensures Consistent(u)
  {
  }

  lemma ThirdCheckedSelection(u: PageUpdate)
    requires u == PageUpdate([75, 29, 13], map[75 := 0, 29 := 1, 13 := 2])
    ensures ApplicableRules(Pairs(u.pages), ThirdIndex()) == [Rule(75, 29), Rule(75, 13), Rule(29, 13)]
  {
    ThirdSelected();
  }

  lemma ThirdCheckedVerdict(u: PageUpdate)
    requires u == PageUpdate([75, 29, 13], map[75 := 0, 29 := 1, 13 := 2])
    ensures AllSatisfied([Rule(75, 29), Rule(75, 13), Rule(29, 13)], u)
  {
  }

  /** The validator accepts [75, 29, 13]. */
  lemma ThirdChecked(u: PageUpdate)
    requires u == PageUpdate([75, 29, 13], map[75 := 0, 29 := 1, 13 := 2])
    ensures Consistent(u)
    ensures WellKeyed(ThirdIndex())
    ensures IsCorrectlyOrdered(u, ThirdIndex())
  {
    ThirdCheckedConsistent(u);
    ThirdCheckedSelection(u);
    ThirdIndexWellKeyed();
    ApplicableRulesPlaced(u, ThirdIndex());
    ThirdCheckedVerdict(u);
  }

  /** Ordering [75, 29, 13] gives [75, 29, 13], whose middle page is 29, and the validator accepts the result. */
  lemma ThirdOrdered()
    ensures var u := NewUpdate([75, 29, 13]); var m := RulesToMap(ThirdRules());
      && Consistent(u)
      && Order(u, m) == PageUpdate([75, 29, 13], map[75 := 0, 29 := 1, 13 := 2])
      && MiddlePage(PageUpdate([75, 29, 13], map[75 := 0, 29 := 1, 13 := 2])) == 29
      && IsCorrectlyOrdered(PageUpdate([75, 29, 13], map[75 := 0, 29 := 1, 13 := 2]), m)
  {
    ThirdUpdateBuilt();
    ThirdIndexBuilt();
    ThirdSelected();
    ThirdChecked(PageUpdate([75, 29, 13], map[75 := 0, 29 := 1, 13 := 2]));
    ApplicableRulesPlaced(PageUpdate([75, 29, 13], map[75 := 0, 29 := 1, 13 := 2]), ThirdIndex());
    ThirdStep0();
    ApplyAllFirst([Rule(75, 29), Rule(75, 13), Rule(29, 13)], PageUpdate([75, 29, 13], map[75 := 0, 29 := 1, 13 := 2]));
    assert [Rule(75, 29), Rule(75, 13), Rule(29, 13)][1..] == [Rule(75, 13), Rule(29, 13)];
    ThirdStep1();
    ApplyAllFirst([Rule(75, 13), Rule(29, 13)], PageUpdate([75, 29, 13], map[75 := 0, 29 := 1, 13 := 2]));
    assert [Rule(75, 13), Rule(29, 13)][1..] == [Rule(29, 13)];
    ThirdStep2();
    ApplyAllFirst([Rule(29, 13)], PageUpdate([75, 29, 13], map[75 := 0, 29 := 1, 13 := 2]));
    assert [Rule(29, 13)][1..] == [];
  }

  // ---------------------------------------------------------------------------
  // Update [75, 97, 47, 61, 53]: one swap puts 97 first
  // ---------------------------------------------------------------------------

  /** The sample rules that relate two pages of [75, 97, 47, 61, 53], in sample order. */
  function FourthRules(): seq<Rule>
  {
    [Rule(47, 53), Rule(97, 61), Rule(97, 47), Rule(75, 53), Rule(61, 53), Rule(97, 53), Rule(75, 47), Rule(97, 75), Rule(47, 61), Rule(75, 61)]
  }

  /** The index those rules build. */
  function FourthIndex(): map<Key, Rule>
  {
    map[(47, 53) := Rule(47, 53), (61, 97) := Rule(97, 61), (47, 97) := Rule(97, 47), (53, 75) := Rule(75, 53), (53, 61) := Rule(61, 53), (53, 97) := Rule(97, 53), (47, 75) := Rule(75, 47), (75, 97) := Rule(97, 75), (47, 61) := Rule(47, 61), (61, 75) := Rule(75, 61)]
  }

  lemma FourthIndexUpTo1(rs: seq<Rule>)
    requires rs == [Rule(47, 53), Rule(97, 61), Rule(97, 47), Rule(75, 53), Rule(61, 53), Rule(97, 53), Rule(75, 47), Rule(97, 75), Rule(47, 61), Rule(75, 61)]
    ensures RulesUpTo(rs, 1) == map[(47, 53) := Rule(47, 53)]
  {
  }

  lemma FourthIndexUpTo2(rs: seq<Rule>)
    requires rs == [Rule(47, 53), Rule(97, 61), Rule(97, 47), Rule(75, 53), Rule(61, 53), Rule(97, 53), Rule(75, 47), Rule(97, 75), Rule(47, 61), Rule(75, 61)]
    ensures RulesUpTo(rs, 2) == map[(47, 53) := Rule(47, 53), (61, 97) := Rule(97, 61)]
  {
    FourthIndexUpTo1(rs);
  }

  lemma FourthIndexUpTo3(rs: seq<Rule>)
    requires rs == [Rule(47, 53), Rule(97, 61), Rule(97, 47), Rule(75, 53), Rule(61, 53), Rule(97, 53), Rule(75, 47), Rule(97, 75), Rule(47, 61), Rule(75, 61)]
    ensures RulesUpTo(rs, 3) == map[(47, 53) := Rule(47, 53), (61, 97) := Rule(97, 61), (47, 97) := Rule(97, 47)]
  {
    FourthIndexUpTo2(rs);
  }

  lemma FourthIndexUpTo4(rs: seq<Rule>)
    requires rs == [Rule(47, 53), Rule(97, 61), Rule(97, 47), Rule(75, 53), Rule(61, 53), Rule(97, 53), Rule(75, 47), Rule(97, 75), Rule(47, 61), Rule(75, 61)]
    ensures RulesUpTo(rs, 4) == map[(47, 53) := Rule(47, 53), (61, 97) := Rule(97, 61), (47, 97) := Rule(97, 47), (53, 75) := Rule(75, 53)]
  {
    FourthIndexUpTo3(rs);
  }

  lemma FourthIndexUpTo5(rs: seq<Rule>)
    requires rs == [Rule(47, 53), Rule(97, 61), Rule(97, 47), Rule(75, 53), Rule(61, 53), Rule(97, 53), Rule(75, 47), Rule(97, 75), Rule(47, 61), Rule(75, 61)]
    ensures RulesUpTo(rs, 5) == map[(47, 53) := Rule(47, 53), (61, 97) := Rule(97, 61), (47, 97) := Rule(97, 47), (53, 75) := Rule(75, 53), (53, 61) := Rule(61, 53)]
  {
    FourthIndexUpTo4(rs);
  }

  lemma FourthIndexUpTo6(rs: seq<Rule>)
    requires rs == [Rule(47, 53), Rule(97, 61), Rule(97, 47), Rule(75, 53), Rule(61, 53), Rule(97, 53), Rule(75, 47), Rule(97, 75), Rule(47, 61), Rule(75, 61)]
    ensures RulesUpTo(rs, 6) == map[(47, 53) := Rule(47, 53), (61, 97) := Rule(97, 61), (47, 97) := Rule(97, 47), (53, 75) := Rule(75, 53), (53, 61) := Rule(61, 53), (53, 97) := Rule(97, 53)]
  {
    FourthIndexUpTo5(rs);
  }

  lemma FourthIndexUpTo7(rs: seq<Rule>)
    requires rs == [Rule(47, 53), Rule(97, 61), Rule(97, 47), Rule(75, 53), Rule(61, 53), Rule(97, 53), Rule(75, 47), Rule(97, 75), Rule(47, 61), Rule(75, 61)]
    ensures RulesUpTo(rs, 7) == map[(47, 53) := Rule(47, 53), (61, 97) := Rule(97, 61), (47, 97) := Rule(97, 47), (53, 75) := Rule(75, 53), (53, 61) := Rule(61, 53), (53, 97) := Rule(97, 53), (47, 75) := Rule(75, 47)]
  {
    FourthIndexUpTo6(rs);
  }

  lemma FourthIndexUpTo8(rs: seq<Rule>)
    requires rs == [Rule(47, 53), Rule(97, 61), Rule(97, 47), Rule(75, 53), Rule(61, 53), Rule(97, 53), Rule(75, 47), Rule(97, 75), Rule(47, 61), Rule(75, 61)]
    ensures RulesUpTo(rs, 8) == map[(47, 53) := Rule(47, 53), (61, 97) := Rule(97, 61), (47, 97) := Rule(97, 47), (53, 75) := Rule(75, 53), (53, 61) := Rule(61, 53), (53, 97) := Rule(97, 53), (47, 75) := Rule(75, 47), (75, 97) := Rule(97, 75)]
  {
    FourthIndexUpTo7(rs);
  }

  lemma FourthIndexUpTo9(rs: seq<Rule>)
    requires rs == [Rule(47, 53), Rule(97, 61), Rule(97, 47), Rule(75, 53), Rule(61, 53), Rule(97, 53), Rule(75, 47), Rule(97, 75), Rule(47, 61), Rule(75, 61)]
    ensures RulesUpTo(rs, 9) == map[(47, 53) := Rule(47, 53), (61, 97) := Rule(97, 61), (47, 97) := Rule(97, 47), (53, 75) := Rule(75, 53), (53, 61) := Rule(61, 53), (53, 97) := Rule(97, 53), (47, 75) := Rule(75, 47), (75, 97) := Rule(97, 75), (47, 61) := Rule(47, 61)]
  {
    FourthIndexUpTo8(rs);
  }

  lemma FourthIndexUpTo10(rs: seq<Rule>)
    requires rs == [Rule(47, 53), Rule(97, 61), Rule(97, 47), Rule(75, 53), Rule(61, 53), Rule(97, 53), Rule(75, 47), Rule(97, 75), Rule(47, 61), Rule(75, 61)]
    ensures RulesUpTo(rs, 10) == map[(47, 53) := Rule(47, 53), (61, 97) := Rule(97, 61), (47, 97) := Rule(97, 47), (53, 75) := Rule(75, 53), (53, 61) := Rule(61, 53), (53, 97) := Rule(97, 53), (47, 75) := Rule(75, 47), (75, 97) := Rule(97, 75), (47, 61) := Rule(47, 61), (61, 75) := Rule(75, 61)]
  {
    FourthIndexUpTo9(rs);
  }

  lemma FourthIndexBuilt()
    ensures RulesToMap(FourthRules()) == FourthIndex()
  {
    FourthIndexUpTo10(FourthRules());
  }

  lemma FourthUpdateBuilt()
    ensures NewUpdate([75, 97, 47, 61, 53]) == PageUpdate([75, 97, 47, 61, 53], map[75 := 0, 97 := 1, 47 := 2, 61 := 3, 53 := 4])
    ensures Consistent(NewUpdate([75, 97, 47, 61, 53]))
  {
    assert PositionsUpTo([75, 97, 47, 61, 53], 1) == map[75 := 0];
    assert PositionsUpTo([75, 97, 47, 61, 53], 2) == map[75 := 0, 97 := 1];
    assert PositionsUpTo([75, 97, 47, 61, 53], 3) == map[75 := 0, 97 := 1, 47 := 2];
    assert PositionsUpTo([75, 97, 47, 61, 53], 4) == map[75 := 0, 97 := 1, 47 := 2, 61 := 3];
  }

  lemma FourthPaired()
    ensures Pairs([75, 97, 47, 61, 53]) == [(75, 97), (75, 47), (75, 61), (75, 53), (97, 47), (97, 61), (97, 53), (47, 61), (47, 53), (61, 53)]
  {
  }

  lemma FourthSelect9(ps: seq<(Page, Page)>)
    requires ps == [(61, 53)]
    ensures ApplicableRules(ps, FourthIndex()) == [Rule(61, 53)]
  {
  }

  lemma FourthSelect8(ps: seq<(Page, Page)>)
    requires ps == [(47, 53), (61, 53)]
    ensures ApplicableRules(ps, FourthIndex()) == [Rule(47, 53), Rule(61, 53)]
  {
    assert ps[1..] == [(61, 53)];
    FourthSelect9(ps[1..]);
  }

  lemma FourthSelect7(ps: seq<(Page, Page)>)
    requires ps == [(47, 61), (47, 53), (61, 53)]
    ensures ApplicableRules(ps, FourthIndex()) == [Rule(47, 61), Rule(47, 53), Rule(61, 53)]
  {
    assert ps[1..] == [(47, 53), (61, 53)];
    FourthSelect8(ps[1..]);
  }

  lemma FourthSelect6(ps: seq<(Page, Page)>)
    requires ps == [(97, 53), (47, 61), (47, 53), (61, 53)]
    ensures ApplicableRules(ps, FourthIndex()) == [Rule(97, 53), Rule(47, 61), Rule(47, 53), Rule(61, 53)]
  {
    assert ps[1..] == [(47, 61), (47, 53), (61, 53)];
    FourthSelect7(ps[1..]);
  }

  lemma FourthSelect5(ps: seq<(Page, Page)>)
    requires ps == [(97, 61), (97, 53), (47, 61), (47, 53), (61, 53)]
    ensures ApplicableRules(ps, FourthIndex()) == [Rule(97, 61), Rule(97, 53), Rule(47, 61), Rule(47, 53), Rule(61, 53)]
  {
    assert ps[1..] == [(97, 53), (47, 61), (47, 53), (61, 53)];
    FourthSelect6(ps[1..]);
  }

  lemma FourthSelect4(ps: seq<(Page, Page)>)
    requires ps == [(97, 47), (97, 61), (97, 53), (47, 61), (47, 53), (61, 53)]
    ensures ApplicableRules(ps, FourthIndex()) == [Rule(97, 47), Rule(97, 61), Rule(97, 53), Rule(47, 61), Rule(47, 53), Rule(61, 53)]
  {
    assert ps[1..] == [(97, 61), (97, 53), (47, 61), (47, 53), (61, 53)];
    FourthSelect5(ps[1..]);
  }

  lemma FourthSelect3(ps: seq<(Page, Page)>)
    requires ps == [(75, 53), (97, 47), (97, 61), (97, 53), (47, 61), (47, 53), (61, 53)]
    ensures ApplicableRules(ps, FourthIndex()) == [Rule(75, 53), Rule(97, 47), Rule(97, 61), Rule(97, 53), Rule(47, 61), Rule(47, 53), Rule(61, 53)]
  {
    assert ps[1..] == [(97, 47), (97, 61), (97, 53), (47, 61), (47, 53), (61, 53)];
    FourthSelect4(ps[1..]);
  }

  lemma FourthSelect2(ps: seq<(Page, Page)>)
    requires ps == [(75, 61), (75, 53), (97, 47), (97, 61), (97, 53), (47, 61), (47, 53), (61, 53)]
    ensures ApplicableRules(ps, FourthIndex()) == [Rule(75, 61), Rule(75, 53), Rule(97, 47), Rule(97, 61), Rule(97, 53), Rule(47, 61), Rule(47, 53), Rule(61, 53)]
  {
    assert ps[1..] == [(75, 53), (97, 47), (97, 61), (97, 53), (47, 61), (47, 53), (61, 53)];
    FourthSelect3(ps[1..]);
  }

  lemma FourthSelect1(ps: seq<(Page, Page)>)
    requires ps == [(75, 47), (75, 61), (75, 53), (97, 47), (97, 61), (97, 53), (47, 61), (47, 53), (61, 53)]
    ensures ApplicableRules(ps, FourthIndex()) == [Rule(75, 47), Rule(75, 61), Rule(75, 53), Rule(97, 47), Rule(97, 61), Rule(97, 53), Rule(47, 61), Rule(47, 53), Rule(61, 53)]
  {
    assert ps[1..] == [(75, 61), (75, 53), (97, 47), (97, 61), (97, 53), (47, 61), (47, 53), (61, 53)];
    FourthSelect2(ps[1..]);
  }

  lemma FourthSelect0(ps: seq<(Page, Page)>)
    requires ps == [(75, 97), (75, 47), (75, 61), (75, 53), (97, 47), (97, 61), (97, 53), (47, 61), (47, 53), (61, 53)]
    ensures ApplicableRules(ps, FourthIndex()) == [Rule(97, 75), Rule(75, 47), Rule(75, 61), Rule(75, 53), Rule(97, 47), Rule(97, 61), Rule(97, 53), Rule(47, 61), Rule(47, 53), Rule(61, 53)]
  {
    assert ps[1..] == [(75, 47), (75, 61), (75, 53), (97, 47), (97, 61), (97, 53), (47, 61), (47, 53), (61, 53)];
    FourthSelect1(ps[1..]);
  }

  lemma FourthSelected()
    ensures ApplicableRules(Pairs([75, 97, 47, 61, 53]), FourthIndex()) == [Rule(97, 75), Rule(75, 47), Rule(75, 61), Rule(75, 53), Rule(97, 47), Rule(97, 61), Rule(97, 53), Rule(47, 61), Rule(47, 53), Rule(61, 53)]
  {
    FourthPaired();
    FourthSelect0(Pairs([75, 97, 47, 61, 53]));
  }

  lemma FourthStep0()
    requires Consistent(PageUpdate([75, 97, 47, 61, 53], map[75 := 0, 97 := 1, 47 := 2, 61 := 3, 53 := 4]))
    ensures Apply(Rule(97, 75), PageUpdate([75, 97, 47, 61, 53], map[75 := 0, 97 := 1, 47 := 2, 61 := 3, 53 := 4]))
         == PageUpdate([97, 75, 47, 61, 53], map[97 := 0, 75 := 1, 47 := 2, 61 := 3, 53 := 4])
  {
    var u := PageUpdate([75, 97, 47, 61, 53], map[75 := 0, 97 := 1, 47 := 2, 61 := 3, 53 := 4]);
    assert !Satisfied(Rule(97, 75), u);
    var v := Swap(u, 97, 75);
    assert v.pages == [97, 75, 47, 61, 53];
    assert v.positions == map[97 := 0, 75 := 1, 47 := 2, 61 := 3, 53 := 4];
  }

  lemma FourthStep1()
    requires Consistent(PageUpdate([97, 75, 47, 61, 53], map[97 := 0, 75 := 1, 47 := 2, 61 := 3, 53 := 4]))
    ensures Apply(Rule(75, 47), PageUpdate([97, 75, 47, 61, 53], map[97 := 0, 75 := 1, 47 := 2, 61 := 3, 53 := 4]))
         == PageUpdate([97, 75, 47, 61, 53], map[97 := 0, 75 := 1, 47 := 2, 61 := 3, 53 := 4])
  {
    assert Satisfied(Rule(75, 47), PageUpdate([97, 75, 47, 61, 53], map[97 := 0, 75 := 1, 47 := 2, 61 := 3, 53 := 4]));
  }

  lemma FourthStep2()
    requires Consistent(PageUpdate([97, 75, 47, 61, 53], map[97 := 0, 75 := 1, 47 := 2, 61 := 3, 53 := 4]))
    ensures Apply(Rule(75, 61), PageUpdate([97, 75, 47, 61, 53], map[97 := 0, 75 := 1, 47 := 2, 61 := 3, 53 := 4]))
         == PageUpdate([97, 75, 47, 61, 53], map[97 := 0, 75 := 1, 47 := 2, 61 := 3, 53 := 4])
  {
    assert Satisfied(Rule(75, 61), PageUpdate([97, 75, 47, 61, 53], map[97 := 0, 75 := 1, 47 := 2, 61 := 3, 53 := 4]));
  }

  lemma FourthStep3()
    requires Consistent(PageUpdate([97, 75, 47, 61, 53], map[97 := 0, 75 := 1, 47 := 2, 61 := 3, 53 := 4]))
    ensures Apply(Rule(75, 53), PageUpdate([97, 75, 47, 61, 53], map[97 := 0, 75 := 1, 47 := 2, 61 := 3, 53 := 4]))
         == PageUpdate([97, 75, 47, 61, 53], map[97 := 0, 75 := 1, 47 := 2, 61 := 3, 53 := 4])
  {
    assert Satisfied(Rule(75, 53), PageUpdate([97, 75, 47, 61, 53], map[97 := 0, 75 := 1, 47 := 2, 61 := 3, 53 := 4]));
  }

  lemma FourthStep4()
    requires Consistent(PageUpdate([97, 75, 47, 61, 53], map[97 := 0, 75 := 1, 47 := 2, 61 := 3, 53 := 4]))
    ensures Apply(Rule(97, 47), PageUpdate([97, 75, 47, 61, 53], map[97 := 0, 75 := 1, 47 := 2, 61 := 3, 53 := 4]))
         == PageUpdate([97, 75, 47, 61, 53], map[97 := 0, 75 := 1, 47 := 2, 61 := 3, 53 := 4])
  {
    assert Satisfied(Rule(97, 47), PageUpdate([97, 75, 47, 61, 53], map[97 := 0, 75 := 1, 47 := 2, 61 := 3, 53 := 4]));
  }

  lemma FourthStep5()
    requires Consistent(PageUpdate([97, 75, 47, 61, 53], map[97 := 0, 75 := 1, 47 := 2, 61 := 3, 53 := 4]))
    ensures Apply(Rule(97, 61), PageUpdate([97, 75, 47, 61, 53], map[97 := 0, 75 := 1, 47 := 2, 61 := 3, 53 := 4]))
         == PageUpdate([97, 75, 47, 61, 53], map[97 := 0, 75 := 1, 47 := 2, 61 := 3, 53 := 4])
  {
    assert Satisfied(Rule(97, 61), PageUpdate([97, 75, 47, 61, 53], map[97 := 0, 75 := 1, 47 := 2, 61 := 3, 53 := 4]));
  }

  lemma FourthStep6()
    requires Consistent(PageUpdate([97, 75, 47, 61, 53], map[97 := 0, 75 := 1, 47 := 2, 61 := 3, 53 := 4]))
    ensures Apply(Rule(97, 53), PageUpdate([97, 75, 47, 61, 53], map[97 := 0, 75 := 1, 47 := 2, 61 := 3, 53 := 4]))
         == PageUpdate([97, 75, 47, 61, 53], map[97 := 0, 75 := 1, 47 := 2, 61 := 3, 53 := 4])
  {
    assert Satisfied(Rule(97, 53), PageUpdate([97, 75, 47, 61, 53], map[97 := 0, 75 := 1, 47 := 2, 61 := 3, 53 := 4]));
  }

  lemma FourthStep7()
    requires Consistent(PageUpdate([97, 75, 47, 61, 53], map[97 := 0, 75 := 1, 47 := 2, 61 := 3, 53 := 4]))
    ensures Apply(Rule(47, 61), PageUpdate([97, 75, 47, 61, 53], map[97 := 0, 75 := 1, 47 := 2, 61 := 3, 53 := 4]))
         == PageUpdate([97, 75, 47, 61, 53], map[97 := 0, 75 := 1, 47 := 2, 61 := 3, 53 := 4])
  {
    assert Satisfied(Rule(47, 61), PageUpdate([97, 75, 47, 61, 53], map[97 := 0, 75 := 1, 47 := 2, 61 := 3, 53 := 4]));
  }

  lemma FourthStep8()
    requires Consistent(PageUpdate([97, 75, 47, 61, 53], map[97 := 0, 75 := 1, 47 := 2, 61 := 3, 53 := 4]))
    ensures Apply(Rule(47, 53), PageUpdate([97, 75, 47, 61, 53], map[97 := 0, 75 := 1, 47 := 2, 61 := 3, 53 := 4]))
         == PageUpdate([97, 75, 47, 61, 53], map[97 := 0, 75 := 1, 47 := 2, 61 := 3, 53 := 4])
  {
    assert Satisfied(Rule(47, 53), PageUpdate([97, 75, 47, 61, 53], map[97 := 0, 75 := 1, 47 := 2, 61 := 3, 53 := 4]));
  }

  lemma FourthStep9()
    requires Consistent(PageUpdate([97, 75, 47, 61, 53], map[97 := 0, 75 := 1, 47 := 2, 61 := 3, 53 := 4]))
    ensures Apply(Rule(61, 53), PageUpdate([97, 75, 47, 61, 53], map[97 := 0, 75 := 1, 47 := 2, 61 := 3, 53 := 4]))
         == PageUpdate([97, 75, 47, 61, 53], map[97 := 0, 75 := 1, 47 := 2, 61 := 3, 53 := 4])
  {
    assert Satisfied(Rule(61, 53), PageUpdate([97, 75, 47, 61, 53], map[97 := 0, 75 := 1, 47 := 2, 61 := 3, 53 := 4]));
  }

  lemma FourthIndexWellKeyed()
    ensures WellKeyed(FourthIndex())
  {
  }

  lemma FourthCheckedConsistent(u: PageUpdate)
    requires u == PageUpdate([75, 97, 47, 61, 53], map[75 := 0, 97 := 1, 47 := 2, 61 := 3, 53 := 4])
    ensures Consistent(u)
  {
  }

  lemma FourthCheckedSelection(u: PageUpdate)
    requires u == PageUpdate([75, 97, 47, 61, 53], map[75 := 0, 97 := 1, 47 := 2, 61 := 3, 53 := 4])
    ensures ApplicableRules(Pairs(u.pages), FourthIndex()) == [Rule(97, 75), Rule(75, 47), Rule(75, 61), Rule(75, 53), Rule(97, 47), Rule(97, 61), Rule(97, 53), Rule(47, 61), Rule(47, 53), Rule(61, 53)]
  {
    FourthSelected();
  }

  lemma FourthCheckedVerdict(u: PageUpdate)
    requires u == PageUpdate([75, 97, 47, 61, 53], map[75 := 0, 97 := 1, 47 := 2, 61 := 3, 53 := 4])
    ensures !AllSatisfied([Rule(97, 75), Rule(75, 47), Rule(75, 61), Rule(75, 53), Rule(97, 47), Rule(97, 61), Rule(97, 53), Rule(47, 61), Rule(47, 53), Rule(61, 53)], u)
  {
    var rules := [Rule(97, 75), Rule(75, 47), Rule(75, 61), Rule(75, 53), Rule(97, 47), Rule(97, 61), Rule(97, 53), Rule(47, 61), Rule(47, 53), Rule(61, 53)];
    assert rules[0] == Rule(97, 75);
    assert !Satisfied(rules[0], u);
  }

  /** The validator rejects [75, 97, 47, 61, 53]. */
  lemma FourthChecked(u: PageUpdate)
    requires u == PageUpdate([75, 97, 47, 61, 53], map[75 := 0, 97 := 1, 47 := 2, 61 := 3, 53 := 4])
    ensures Consistent(u)
    ensures WellKeyed(FourthIndex())
    ensures !IsCorrectlyOrdered(u, FourthIndex())
  {
    FourthCheckedConsistent(u);
    FourthCheckedSelection(u);
    FourthIndexWellKeyed();
    ApplicableRulesPlaced(u, FourthIndex());
    FourthCheckedVerdict(u);
  }

  lemma FourthFinalPaired()
    ensures Pairs([97, 75, 47, 61, 53]) == [(97, 75), (97, 47), (97, 61), (97, 53), (75, 47), (75, 61), (75, 53), (47, 61), (47, 53), (61, 53)]
  {
  }

  lemma FourthFinalSelect9(ps: seq<(Page, Page)>)
    requires ps == [(61, 53)]
    ensures ApplicableRules(ps, FourthIndex()) == [Rule(61, 53)]
  {
  }

  lemma FourthFinalSelect8(ps: seq<(Page, Page)>)
    requires ps == [(47, 53), (61, 53)]
    ensures ApplicableRules(ps, FourthIndex()) == [Rule(47, 53), Rule(61, 53)]
  {
    assert ps[1..] == [(61, 53)];
    FourthFinalSelect9(ps[1..]);
  }

  lemma FourthFinalSelect7(ps: seq<(Page, Page)>)
    requires ps == [(47, 61), (47, 53), (61, 53)]
    ensures ApplicableRules(ps, FourthIndex()) == [Rule(47, 61), Rule(47, 53), Rule(61, 53)]
  {
    assert ps[1..] == [(47, 53), (61, 53)];
    FourthFinalSelect8(ps[1..]);
  }

  lemma FourthFinalSelect6(ps: seq<(Page, Page)>)
    requires ps == [(75, 53), (47, 61), (47, 53), (61, 53)]
    ensures ApplicableRules(ps, FourthIndex()) == [Rule(75, 53), Rule(47, 61), Rule(47, 53), Rule(61, 53)]
  {
    assert ps[1..] == [(47, 61), (47, 53), (61, 53)];
    FourthFinalSelect7(ps[1..]);
  }

  lemma FourthFinalSelect5(ps: seq<(Page, Page)>)
    requires ps == [(75, 61), (75, 53), (47, 61), (47, 53), (61, 53)]
    ensures ApplicableRules(ps, FourthIndex()) == [Rule(75, 61), Rule(75, 53), Rule(47, 61), Rule(47, 53), Rule(61, 53)]
  {
    assert ps[1..] == [(75, 53), (47, 61), (47, 53), (61, 53)];
    FourthFinalSelect6(ps[1..]);
  }

  lemma FourthFinalSelect4(ps: seq<(Page, Page)>)
    requires ps == [(75, 47), (75, 61), (75, 53), (47, 61), (47, 53), (61, 53)]
    ensures ApplicableRules(ps, FourthIndex()) == [Rule(75, 47), Rule(75, 61), Rule(75, 53), Rule(47, 61), Rule(47, 53), Rule(61, 53)]
  {
    assert ps[1..] == [(75, 61), (75, 53), (47, 61), (47, 53), (61, 53)];
    FourthFinalSelect5(ps[1..]);
  }

  lemma FourthFinalSelect3(ps: seq<(Page, Page)>)
    requires ps == [(97, 53), (75, 47), (75, 61), (75, 53), (47, 61), (47, 53), (61, 53)]
    ensures ApplicableRules(ps, FourthIndex()) == [Rule(97, 53), Rule(75, 47), Rule(75, 61), Rule(75, 53), Rule(47, 61), Rule(47, 53), Rule(61, 53)]
  {
    assert ps[1..] == [(75, 47), (75, 61), (75, 53), (47, 61), (47, 53), (61, 53)];
    FourthFinalSelect4(ps[1..]);
  }

  lemma FourthFinalSelect2(ps: seq<(Page, Page)>)
    requires ps == [(97, 61), (97, 53), (75, 47), (75, 61), (75, 53), (47, 61), (47, 53), (61, 53)]
    ensures ApplicableRules(ps, FourthIndex()) == [Rule(97, 61), Rule(97, 53), Rule(75, 47), Rule(75, 61), Rule(75, 53), Rule(47, 61), Rule(47, 53), Rule(61, 53)]
  {
    assert ps[1..] == [(97, 53), (75, 47), (75, 61), (75, 53), (47, 61), (47, 53), (61, 53)];
    FourthFinalSelect3(ps[1..]);
  }

  lemma FourthFinalSelect1(ps: seq<(Page, Page)>)
    requires ps == [(97, 47), (97, 61), (97, 53), (75, 47), (75, 61), (75, 53), (47, 61), (47, 53), (61, 53)]
    ensures ApplicableRules(ps, FourthIndex()) == [Rule(97, 47), Rule(97, 61), Rule(97, 53), Rule(75, 47), Rule(75, 61), Rule(75, 53), Rule(47, 61), Rule(47, 53), Rule(61, 53)]
  {
    assert ps[1..] == [(97, 61), (97, 53), (75, 47), (75, 61), (75, 53), (47, 61), (47, 53), (61, 53)];
    FourthFinalSelect2(ps[1..]);
  }

  lemma FourthFinalSelect0(ps: seq<(Page, Page)>)
    requires ps == [(97, 75), (97, 47), (97, 61), (97, 53), (75, 47), (75, 61), (75, 53), (47, 61), (47, 53), (61, 53)]
    ensures ApplicableRules(ps, FourthIndex()) == [Rule(97, 75), Rule(97, 47), Rule(97, 61), Rule(97, 53), Rule(75, 47), Rule(75, 61), Rule(75, 53), Rule(47, 61), Rule(47, 53), Rule(61, 53)]
  {
    assert ps[1..] == [(97, 47), (97, 61), (97, 53), (75, 47), (75, 61), (75, 53), (47, 61), (47, 53), (61, 53)];
    FourthFinalSelect1(ps[1..]);
  }

  lemma FourthFinalSelected()
    ensures ApplicableRules(Pairs([97, 75, 47, 61, 53]), FourthIndex()) == [Rule(97, 75), Rule(97, 47), Rule(97, 61), Rule(97, 53), Rule(75, 47), Rule(75, 61), Rule(75, 53), Rule(47, 61), Rule(47, 53), Rule(61, 53)]
  {
    FourthFinalPaired();
    FourthFinalSelect0(Pairs([97, 75, 47, 61, 53]));
  }

  lemma FourthFinalCheckedConsistent(u: PageUpdate)
    requires u == PageUpdate([97, 75, 47, 61, 53], map[97 := 0, 75 := 1, 47 := 2, 61 := 3, 53 := 4])
    ensures Consistent(u)
  {
  }

  lemma FourthFinalCheckedSelection(u: PageUpdate)
    requires u == PageUpdate([97, 75, 47, 61, 53], map[97 := 0, 75 := 1, 47 := 2, 61 := 3, 53 := 4])
    ensures ApplicableRules(Pairs(u.pages), FourthIndex()) == [Rule(97, 75), Rule(97, 47), Rule(97, 61), Rule(97, 53), Rule(75, 47), Rule(75, 61), Rule(75, 53), Rule(47, 61), Rule(47, 53), Rule(61, 53)]
  {
    FourthFinalSelected();
  }

  lemma FourthFinalCheckedVerdict(u: PageUpdate)
    requires u == PageUpdate([97, 75, 47, 61, 53], map[97 := 0, 75 := 1, 47 := 2, 61 := 3, 53 := 4])
    ensures AllSatisfied([Rule(97, 75), Rule(97, 47), Rule(97, 61), Rule(97, 53), Rule(75, 47), Rule(75, 61), Rule(75, 53), Rule(47, 61), Rule(47, 53), Rule(61, 53)], u)
  {
  }

  /** The validator accepts [97, 75, 47, 61, 53]. */
  lemma FourthFinalChecked(u: PageUpdate)
    requires u == PageUpdate([97, 75, 47, 61, 53], map[97 := 0, 75 := 1, 47 := 2, 61 := 3, 53 := 4])
    ensures Consistent(u)
    ensures WellKeyed(FourthIndex())
    ensures IsCorrectlyOrdered(u, FourthIndex())
  {
    FourthFinalCheckedConsistent(u);
    FourthFinalCheckedSelection(u);
    FourthIndexWellKeyed();
    ApplicableRulesPlaced(u, FourthIndex());
    FourthFinalCheckedVerdict(u);
  }

  /** Ordering [75, 97, 47, 61, 53] gives [97, 75, 47, 61, 53], whose middle page is 47, and the validator accepts the result. */
  lemma FourthOrdered()
    ensures var u := NewUpdate([75, 97, 47, 61, 53]); var m := RulesToMap(FourthRules());
      && Consistent(u)
      && Order(u, m) == PageUpdate([97, 75, 47, 61, 53], map[97 := 0, 75 := 1, 47 := 2, 61 := 3, 53 := 4])
      && MiddlePage(PageUpdate([97, 75, 47, 61, 53], map[97 := 0, 75 := 1, 47 := 2, 61 := 3, 53 := 4])) == 47
      && IsCorrectlyOrdered(PageUpdate([97, 75, 47, 61, 53], map[97 := 0, 75 := 1, 47 := 2, 61 := 3, 53 := 4]), m)
  {
    FourthUpdateBuilt();
    FourthIndexBuilt();
    FourthSelected();
    FourthFinalChecked(PageUpdate([97, 75, 47, 61, 53], map[97 := 0, 75 := 1, 47 := 2, 61 := 3, 53 := 4]));
    ApplicableRulesPlaced(PageUpdate([75, 97, 47, 61, 53], map[75 := 0, 97 := 1, 47 := 2, 61 := 3, 53 := 4]), FourthIndex());
    FourthStep0();
    ApplyAllFirst([Rule(97, 75), Rule(75, 47), Rule(75, 61), Rule(75, 53), Rule(97, 47), Rule(97, 61), Rule(97, 53), Rule(47, 61), Rule(47, 53), Rule(61, 53)], PageUpdate([75, 97, 47, 61, 53], map[75 := 0, 97 := 1, 47 := 2, 61 := 3, 53 := 4]));
    assert [Rule(97, 75), Rule(75, 47), Rule(75, 61), Rule(75, 53), Rule(97, 47), Rule(97, 61), Rule(97, 53), Rule(47, 61), Rule(47, 53), Rule(61, 53)][1..] == [Rule(75, 47), Rule(75, 61), Rule(75, 53), Rule(97, 47), Rule(97, 61), Rule(97, 53), Rule(47, 61), Rule(47, 53), Rule(61, 53)];
    FourthStep1();
    ApplyAllFirst([Rule(75, 47), Rule(75, 61), Rule(75, 53), Rule(97, 47), Rule(97, 61), Rule(97, 53), Rule(47, 61), Rule(47, 53), Rule(61, 53)], PageUpdate([97, 75, 47, 61, 53], map[97 := 0, 75 := 1, 47 := 2, 61 := 3, 53 := 4]));
    assert [Rule(75, 47), Rule(75, 61), Rule(75, 53), Rule(97, 47), Rule(97, 61), Rule(97, 53), Rule(47, 61), Rule(47, 53), Rule(61, 53)][1..] == [Rule(75, 61), Rule(75, 53), Rule(97, 47), Rule(97, 61), Rule(97, 53), Rule(47, 61), Rule(47, 53), Rule(61, 53)];
    FourthStep2();
    ApplyAllFirst([Rule(75, 61), Rule(75, 53), Rule(97, 47), Rule(97, 61), Rule(97, 53), Rule(47, 61), Rule(47, 53), Rule(61, 53)], PageUpdate([97, 75, 47, 61, 53], map[97 := 0, 75 := 1, 47 := 2, 61 := 3, 53 := 4]));
    assert [Rule(75, 61), Rule(75, 53), Rule(97, 47), Rule(97, 61), Rule(97, 53), Rule(47, 61), Rule(47, 53), Rule(61, 53)][1..] == [Rule(75, 53), Rule(97, 47), Rule(97, 61), Rule(97, 53), Rule(47, 61), Rule(47, 53), Rule(61, 53)];
    FourthStep3();
    ApplyAllFirst([Rule(75, 53), Rule(97, 47), Rule(97, 61), Rule(97, 53), Rule(47, 61), Rule(47, 53), Rule(61, 53)], PageUpdate([97, 75, 47, 61, 53], map[97 := 0, 75 := 1, 47 := 2, 61 := 3, 53 := 4]));
    assert [Rule(75, 53), Rule(97, 47), Rule(97, 61), Rule(97, 53), Rule(47, 61), Rule(47, 53), Rule(61, 53)][1..] == [Rule(97, 47), Rule(97, 61), Rule(97, 53), Rule(47, 61), Rule(47, 53), Rule(61, 53)];
    FourthStep4();
    ApplyAllFirst([Rule(97, 47), Rule(97, 61), Rule(97, 53), Rule(47, 61), Rule(47, 53), Rule(61, 53)], PageUpdate([97, 75, 47, 61, 53], map[97 := 0, 75 := 1, 47 := 2, 61 := 3, 53 := 4]));
    assert [Rule(97, 47), Rule(97, 61), Rule(97, 53), Rule(47, 61), Rule(47, 53), Rule(61, 53)][1..] == [Rule(97, 61), Rule(97, 53), Rule(47, 61), Rule(47, 53), Rule(61, 53)];
    FourthStep5();
    ApplyAllFirst([Rule(97, 61), Rule(97, 53), Rule(47, 61), Rule(47, 53), Rule(61, 53)], PageUpdate([97, 75, 47, 61, 53], map[97 := 0, 75 := 1, 47 := 2, 61 := 3, 53 := 4]));
    assert [Rule(97, 61), Rule(97, 53), Rule(47, 61), Rule(47, 53), Rule(61, 53)][1..] == [Rule(97, 53), Rule(47, 61), Rule(47, 53), Rule(61, 53)];
    FourthStep6();
    ApplyAllFirst([Rule(97, 53), Rule(47, 61), Rule(47, 53), Rule(61, 53)], PageUpdate([97, 75, 47, 61, 53], map[97 := 0, 75 := 1, 47 := 2, 61 := 3, 53 := 4]));
    assert [Rule(97, 53), Rule(47, 61), Rule(47, 53), Rule(61, 53)][1..] == [Rule(47, 61), Rule(47, 53), Rule(61, 53)];
    FourthStep7();
    ApplyAllFirst([Rule(47, 61), Rule(47, 53), Rule(61, 53)], PageUpdate([97, 75, 47, 61, 53], map[97 := 0, 75 := 1, 47 := 2, 61 := 3, 53 := 4]));
    assert [Rule(47, 61), Rule(47, 53), Rule(61, 53)][1..] == [Rule(47, 53), Rule(61, 53)];
    FourthStep8();
    ApplyAllFirst([Rule(47, 53), Rule(61, 53)], PageUpdate([97, 75, 47, 61, 53], map[97 := 0, 75 := 1, 47 := 2, 61 := 3, 53 := 4]));
    assert [Rule(47, 53), Rule(61, 53)][1..] == [Rule(61, 53)];
    FourthStep9();
    ApplyAllFirst([Rule(61, 53)], PageUpdate([97, 75, 47, 61, 53], map[97 := 0, 75 := 1, 47 := 2, 61 := 3, 53 := 4]));
    assert [Rule(61, 53)][1..] == [];
  }

  // ---------------------------------------------------------------------------
  // Update [61, 13, 29]: one swap puts 29 before 13
  // ---------------------------------------------------------------------------

  /** The sample rules that relate two pages of [61, 13, 29], in sample order. */
  function FifthRules(): seq<Rule>
  {
    [Rule(61, 13), Rule(29, 13), Rule(61, 29)]
  }

  /** The index those rules build. */
  function FifthIndex(): map<Key, Rule>
  {
    map[(13, 61) := Rule(61, 13), (13, 29) := Rule(29, 13), (29, 61) := Rule(61, 29)]
  }

  lemma FifthIndexUpTo1(rs: seq<Rule>)
    requires rs == [Rule(61, 13), Rule(29, 13), Rule(61, 29)]
    ensures RulesUpTo(rs, 1) == map[(13, 61) := Rule(61, 13)]
  {
  }

  lemma FifthIndexUpTo2(rs: seq<Rule>)
    requires rs == [Rule(61, 13), Rule(29, 13), Rule(61, 29)]
    ensures RulesUpTo(rs, 2) == map[(13, 61) := Rule(61, 13), (13, 29) := Rule(29, 13)]
  {
    FifthIndexUpTo1(rs);
  }

  lemma FifthIndexUpTo3(rs: seq<Rule>)
    requires rs == [Rule(61, 13), Rule(29, 13), Rule(61, 29)]
    ensures RulesUpTo(rs, 3) == map[(13, 61) := Rule(61, 13), (13, 29) := Rule(29, 13), (29, 61) := Rule(61, 29)]
  {
    FifthIndexUpTo2(rs);
  }

  lemma FifthIndexBuilt()
    ensures RulesToMap(FifthRules()) == FifthIndex()
  {
    FifthIndexUpTo3(FifthRules());
  }

  lemma FifthUpdateBuilt()
    ensures NewUpdate([61, 13, 29]) == PageUpdate([61, 13, 29], map[61 := 0, 13 := 1, 29 := 2])
    ensures Consistent(NewUpdate([61, 13, 29]))
  {
    assert PositionsUpTo([61, 13, 29], 1) == map[61 := 0];
    assert PositionsUpTo([61, 13, 29], 2) == map[61 := 0, 13 := 1];
  }

  lemma FifthPaired()
    ensures Pairs([61, 13, 29]) == [(61, 13), (61, 29), (13, 29)]
  {
  }

  lemma FifthSelect2(ps: seq<(Page, Page)>)
    requires ps == [(13, 29)]
    ensures ApplicableRules(ps, FifthIndex()) == [Rule(29, 13)]
  {
  }

  lemma FifthSelect1(ps: seq<(Page, Page)>)
    requires ps == [(61, 29), (13, 29)]
    ensures ApplicableRules(ps, FifthIndex()) == [Rule(61, 29), Rule(29, 13)]
  {
    assert ps[1..] == [(13, 29)];
    FifthSelect2(ps[1..]);
  }

  lemma FifthSelect0(ps: seq<(Page, Page)>)
    requires ps == [(61, 13), (61, 29), (13, 29)]
    ensures ApplicableRules(ps, FifthIndex()) == [Rule(61, 13), Rule(61, 29), Rule(29, 13)]
  {
    assert ps[1..] == [(61, 29), (13, 29)];
    FifthSelect1(ps[1..]);
  }

  lemma FifthSelected()
    ensures ApplicableRules(Pairs([61, 13, 29]), FifthIndex()) == [Rule(61, 13), Rule(61, 29), Rule(29, 13)]
  {
    FifthPaired();
    FifthSelect0(Pairs([61, 13, 29]));
  }

  lemma FifthStep0()
    requires Consistent(PageUpdate([61, 13, 29], map[61 := 0, 13 := 1, 29 := 2]))
    ensures Apply(Rule(61, 13), PageUpdate([61, 13, 29], map[61 := 0, 13 := 1, 29 := 2]))
         == PageUpdate([61, 13, 29], map[61 := 0, 13 := 1, 29 := 2])
  {
    assert Satisfied(Rule(61, 13), PageUpdate([61, 13, 29], map[61 := 0, 13 := 1, 29 := 2]));
  }

  lemma FifthStep1()
    requires Consistent(PageUpdate([61, 13, 29], map[61 := 0, 13 := 1, 29 := 2]))
    ensures Apply(Rule(61, 29), PageUpdate([61, 13, 29], map[61 := 0, 13 := 1, 29 := 2]))
         == PageUpdate([61, 13, 29], map[61 := 0, 13 := 1, 29 := 2])
  {
    assert Satisfied(Rule(61, 29), PageUpdate([61, 13, 29], map[61 := 0, 13 := 1, 29 := 2]));
  }

  lemma FifthStep2()
    requires Consistent(PageUpdate([61, 13, 29], map[61 := 0, 13 := 1, 29 := 2]))
    ensures Apply(Rule(29, 13), PageUpdate([61, 13, 29], map[61 := 0, 13 := 1, 29 := 2]))
         == PageUpdate([61, 29, 13], map[61 := 0, 29 := 1, 13 := 2])
  {
    var u := PageUpdate([61, 13, 29], map[61 := 0, 13 := 1, 29 := 2]);
    assert !Satisfied(Rule(29, 13), u);
    var v := Swap(u, 29, 13);
    assert v.pages == [61, 29, 13];
    assert v.positions == map[61 := 0, 29 := 1, 13 := 2];
  }

  lemma FifthIndexWellKeyed()
    ensures WellKeyed(FifthIndex())
  {
  }

  lemma FifthCheckedConsistent(u: PageUpdate)
    requires u == PageUpdate([61, 13, 29], map[61 := 0, 13 := 1, 29 := 2])
    ensures Consistent(u)
  {
  }

  lemma FifthCheckedSelection(u: PageUpdate)
    requires u == PageUpdate([61, 13, 29], map[61 := 0, 13 := 1, 29 := 2])
    ensures ApplicableRules(Pairs(u.pages), FifthIndex()) == [Rule(61, 13), Rule(61, 29), Rule(29, 13)]
  {
    FifthSelected();
  }

  lemma FifthCheckedVerdict(u: PageUpdate)
    requires u == PageUpdate([61, 13, 29], map[61 := 0, 13 := 1, 29 := 2])
    ensures !AllSatisfied([Rule(61, 13), Rule(61, 29), Rule(29, 13)], u)
  {
    AllSatisfiedMeaning([Rule(61, 13), Rule(61, 29), Rule(29, 13)], u);
    assert !Satisfied(Rule(29, 13), u);
  }

  /** The validator rejects [61, 13, 29]. */
  lemma FifthChecked(u: PageUpdate)
    requires u == PageUpdate([61, 13, 29], map[61 := 0, 13 := 1, 29 := 2])
    ensures Consistent(u)
    ensures WellKeyed(FifthIndex())
    ensures !IsCorrectlyOrdered(u, FifthIndex())
  {
    FifthCheckedConsistent(u);
    FifthCheckedSelection(u);
    FifthIndexWellKeyed();
    ApplicableRulesPlaced(u, FifthIndex());
    FifthCheckedVerdict(u);
  }

  lemma FifthFinalPaired()
    ensures Pairs([61, 29, 13]) == [(61, 29), (61, 13), (29, 13)]
  {
  }

  lemma FifthFinalSelect2(ps: seq<(Page, Page)>)
    requires ps == [(29, 13)]
    ensures ApplicableRules(ps, FifthIndex()) == [Rule(29, 13)]
  {
  }

  lemma FifthFinalSelect1(ps: seq<(Page, Page)>)
    requires ps == [(61, 13), (29, 13)]
    ensures ApplicableRules(ps, FifthIndex()) == [Rule(61, 13), Rule(29, 13)]
  {
    assert ps[1..] == [(29, 13)];
    FifthFinalSelect2(ps[1..]);
  }

  lemma FifthFinalSelect0(ps: seq<(Page, Page)>)
    requires ps == [(61, 29), (61, 13), (29, 13)]
    ensures ApplicableRules(ps, FifthIndex()) == [Rule(61, 29), Rule(61, 13), Rule(29, 13)]
  {
    assert ps[1..] == [(61, 13), (29, 13)];
    FifthFinalSelect1(ps[1..]);
  }

  lemma FifthFinalSelected()
    ensures ApplicableRules(Pairs([61, 29, 13]), FifthIndex()) == [Rule(61, 29), Rule(61, 13), Rule(29, 13)]
  {
    FifthFinalPaired();
    FifthFinalSelect0(Pairs([61, 29, 13]));
  }

  lemma FifthFinalCheckedConsistent(u: PageUpdate)
    requires u == PageUpdate([61, 29, 13], map[61 := 0, 29 := 1, 13 := 2])
    ensures Consistent(u)
  {
  }

  lemma FifthFinalCheckedSelection(u: PageUpdate)
    requires u == PageUpdate([61, 29, 13], map[61 := 0, 29 := 1, 13 := 2])
    ensures ApplicableRules(Pairs(u.pages), FifthIndex()) == [Rule(61, 29), Rule(61, 13), Rule(29, 13)]
  {
    FifthFinalSelected();
  }

  lemma FifthFinalCheckedVerdict(u: PageUpdate)
    requires u == PageUpdate([61, 29, 13], map[61 := 0, 29 := 1, 13 := 2])
    ensures AllSatisfied([Rule(61, 29), Rule(61, 13), Rule(29, 13)], u)
  {
  }

  /** The validator accepts [61, 29, 13]. */
  lemma FifthFinalChecked(u: PageUpdate)
    requires u == PageUpdate([61, 29, 13], map[61 := 0, 29 := 1, 13 := 2])
    ensures Consistent(u)
    ensures WellKeyed(FifthIndex())
    ensures IsCorrectlyOrdered(u, FifthIndex())
  {
    FifthFinalCheckedConsistent(u);
    FifthFinalCheckedSelection(u);
    FifthIndexWellKeyed();
    ApplicableRulesPlaced(u, FifthIndex());
    FifthFinalCheckedVerdict(u);
  }

  /** Ordering [61, 13, 29] gives [61, 29, 13], whose middle page is 29, and the validator accepts the result. */
  lemma FifthOrdered()
    ensures var u := NewUpdate([61, 13, 29]); var m := RulesToMap(FifthRules());
      && Consistent(u)
      && Order(u, m) == PageUpdate([61, 29, 13], map[61 := 0, 29 := 1, 13 := 2])
      && MiddlePage(PageUpdate([61, 29, 13], map[61 := 0, 29 := 1, 13 := 2])) == 29
      && IsCorrectlyOrdered(PageUpdate([61, 29, 13], map[61 := 0, 29 := 1, 13 := 2]), m)
  {
    FifthUpdateBuilt();
    FifthIndexBuilt();
    FifthSelected();
    FifthFinalChecked(PageUpdate([61, 29, 13], map[61 := 0, 29 := 1, 13 := 2]));
    ApplicableRulesPlaced(PageUpdate([61, 13, 29], map[61 := 0, 13 := 1, 29 := 2]), FifthIndex());
    FifthStep0();
    ApplyAllFirst([Rule(61, 13), Rule(61, 29), Rule(29, 13)], PageUpdate([61, 13, 29], map[61 := 0, 13 := 1, 29 := 2]));
    assert [Rule(61, 13), Rule(61, 29), Rule(29, 13)][1..] == [Rule(61, 29), Rule(29, 13)];
    FifthStep1();
    ApplyAllFirst([Rule(61, 29), Rule(29, 13)], PageUpdate([61, 13, 29], map[61 := 0, 13 := 1, 29 := 2]));
    assert [Rule(61, 29), Rule(29, 13)][1..] == [Rule(29, 13)];
    FifthStep2();
    ApplyAllFirst([Rule(29, 13)], PageUpdate([61, 13, 29], map[61 := 0, 13 := 1, 29 := 2]));
    assert [Rule(29, 13)][1..] == [];
  }

  // ---------------------------------------------------------------------------
  // Update [97, 13, 75, 29, 47]: several swaps
  // ---------------------------------------------------------------------------

  /** The sample rules that relate two pages of [97, 13, 75, 29, 47], in sample order. */
  function SixthRules(): seq<Rule>
  {
    [Rule(97, 13), Rule(97, 47), Rule(75, 29), Rule(29, 13), Rule(97, 29), Rule(47, 13), Rule(75, 47), Rule(97, 75), Rule(47, 29), Rule(75, 13)]
  }

  /** The index those rules build. */
  function SixthIndex(): map<Key, Rule>
  {
    map[(13, 97) := Rule(97, 13), (47, 97) := Rule(97, 47), (29, 75) := Rule(75, 29), (13, 29) := Rule(29, 13), (29, 97) := Rule(97, 29), (13, 47) := Rule(47, 13), (47, 75) := Rule(75, 47), (75, 97) := Rule(97, 75), (29, 47) := Rule(47, 29), (13, 75) := Rule(75, 13)]
  }

  lemma SixthIndexUpTo1(rs: seq<Rule>)
    requires rs == [Rule(97, 13), Rule(97, 47), Rule(75, 29), Rule(29, 13), Rule(97, 29), Rule(47, 13), Rule(75, 47), Rule(97, 75), Rule(47, 29), Rule(75, 13)]
    ensures RulesUpTo(rs, 1) == map[(13, 97) := Rule(97, 13)]
  {
  }

  lemma SixthIndexUpTo2(rs: seq<Rule>)
    requires rs == [Rule(97, 13), Rule(97, 47), Rule(75, 29), Rule(29, 13), Rule(97, 29), Rule(47, 13), Rule(75, 47), Rule(97, 75), Rule(47, 29), Rule(75, 13)]
    ensures RulesUpTo(rs, 2) == map[(13, 97) := Rule(97, 13), (47, 97) := Rule(97, 47)]
  {
    SixthIndexUpTo1(rs);
  }

  lemma SixthIndexUpTo3(rs: seq<Rule>)
    requires rs == [Rule(97, 13), Rule(97, 47), Rule(75, 29), Rule(29, 13), Rule(97, 29), Rule(47, 13), Rule(75, 47), Rule(97, 75), Rule(47, 29), Rule(75, 13)]
    ensures RulesUpTo(rs, 3) == map[(13, 97) := Rule(97, 13), (47, 97) := Rule(97, 47), (29, 75) := Rule(75, 29)]
  {
    SixthIndexUpTo2(rs);
  }

  lemma SixthIndexUpTo4(rs: seq<Rule>)
    requires rs == [Rule(97, 13), Rule(97, 47), Rule(75, 29), Rule(29, 13), Rule(97, 29), Rule(47, 13), Rule(75, 47), Rule(97, 75), Rule(47, 29), Rule(75, 13)]
    ensures RulesUpTo(rs, 4) == map[(13, 97) := Rule(97, 13), (47, 97) := Rule(97, 47), (29, 75) := Rule(75, 29), (13, 29) := Rule(29, 13)]
  {
    SixthIndexUpTo3(rs);
  }

  lemma SixthIndexUpTo5(rs: seq<Rule>)
    requires rs == [Rule(97, 13), Rule(97, 47), Rule(75, 29), Rule(29, 13), Rule(97, 29), Rule(47, 13), Rule(75, 47), Rule(97, 75), Rule(47, 29), Rule(75, 13)]
    ensures RulesUpTo(rs, 5) == map[(13, 97) := Rule(97, 13), (47, 97) := Rule(97, 47), (29, 75) := Rule(75, 29), (13, 29) := Rule(29, 13), (29, 97) := Rule(97, 29)]
  {
    SixthIndexUpTo4(rs);
  }

  lemma SixthIndexUpTo6(rs: seq<Rule>)
    requires rs == [Rule(97, 13), Rule(97, 47), Rule(75, 29), Rule(29, 13), Rule(97, 29), Rule(47, 13), Rule(75, 47), Rule(97, 75), Rule(47, 29), Rule(75, 13)]
    ensures RulesUpTo(rs, 6) == map[(13, 97) := Rule(97, 13), (47, 97) := Rule(97, 47), (29, 75) := Rule(75, 29), (13, 29) := Rule(29, 13), (29, 97) := Rule(97, 29), (13, 47) := Rule(47, 13)]
  {
    SixthIndexUpTo5(rs);
  }

  lemma SixthIndexUpTo7(rs: seq<Rule>)
    requires rs == [Rule(97, 13), Rule(97, 47), Rule(75, 29), Rule(29, 13), Rule(97, 29), Rule(47, 13), Rule(75, 47), Rule(97, 75), Rule(47, 29), Rule(75, 13)]
    ensures RulesUpTo(rs, 7) == map[(13, 97) := Rule(97, 13), (47, 97) := Rule(97, 47), (29, 75) := Rule(75, 29), (13, 29) := Rule(29, 13), (29, 97) := Rule(97, 29), (13, 47) := Rule(47, 13), (47, 75) := Rule(75, 47)]
  {
    SixthIndexUpTo6(rs);
  }

  lemma SixthIndexUpTo8(rs: seq<Rule>)
    requires rs == [Rule(97, 13), Rule(97, 47), Rule(75, 29), Rule(29, 13), Rule(97, 29), Rule(47, 13), Rule(75, 47), Rule(97, 75), Rule(47, 29), Rule(75, 13)]
    ensures RulesUpTo(rs, 8) == map[(13, 97) := Rule(97, 13), (47, 97) := Rule(97, 47), (29, 75) := Rule(75, 29), (13, 29) := Rule(29, 13), (29, 97) := Rule(97, 29), (13, 47) := Rule(47, 13), (47, 75) := Rule(75, 47), (75, 97) := Rule(97, 75)]
  {
    SixthIndexUpTo7(rs);
  }

  lemma SixthIndexUpTo9(rs: seq<Rule>)
    requires rs == [Rule(97, 13), Rule(97, 47), Rule(75, 29), Rule(29, 13), Rule(97, 29), Rule(47, 13), Rule(75, 47), Rule(97, 75), Rule(47, 29), Rule(75, 13)]
    ensures RulesUpTo(rs, 9) == map[(13, 97) := Rule(97, 13), (47, 97) := Rule(97, 47), (29, 75) := Rule(75, 29), (13, 29) := Rule(29, 13), (29, 97) := Rule(97, 29), (13, 47) := Rule(47, 13), (47, 75) := Rule(75, 47), (75, 97) := Rule(97, 75), (29, 47) := Rule(47, 29)]
  {
    SixthIndexUpTo8(rs);
  }

  lemma SixthIndexUpTo10(rs: seq<Rule>)
    requires rs == [Rule(97, 13), Rule(97, 47), Rule(75, 29), Rule(29, 13), Rule(97, 29), Rule(47, 13), Rule(75, 47), Rule(97, 75), Rule(47, 29), Rule(75, 13)]
    ensures RulesUpTo(rs, 10) == map[(13, 97) := Rule(97, 13), (47, 97) := Rule(97, 47), (29, 75) := Rule(75, 29), (13, 29) := Rule(29, 13), (29, 97) := Rule(97, 29), (13, 47) := Rule(47, 13), (47, 75) := Rule(75, 47), (75, 97) := Rule(97, 75), (29, 47) := Rule(47, 29), (13, 75) := Rule(75, 13)]
  {
    SixthIndexUpTo9(rs);
  }

  lemma SixthIndexBuilt()
    ensures RulesToMap(SixthRules()) == SixthIndex()
  {
    SixthIndexUpTo10(SixthRules());
  }

  lemma SixthUpdateBuilt()
    ensures NewUpdate([97, 13, 75, 29, 47]) == PageUpdate([97, 13, 75, 29, 47], map[97 := 0, 13 := 1, 75 := 2, 29 := 3, 47 := 4])
    ensures Consistent(NewUpdate([97, 13, 75, 29, 47]))
  {
    assert PositionsUpTo([97, 13, 75, 29, 47], 1) == map[97 := 0];
    assert PositionsUpTo([97, 13, 75, 29, 47], 2) == map[97 := 0, 13 := 1];
    assert PositionsUpTo([97, 13, 75, 29, 47], 3) == map[97 := 0, 13 := 1, 75 := 2];
    assert PositionsUpTo([97, 13, 75, 29, 47], 4) == map[97 := 0, 13 := 1, 75 := 2, 29 := 3];
  }

  lemma SixthPaired()
    ensures Pairs([97, 13, 75, 29, 47]) == [(97, 13), (97, 75), (97, 29), (97, 47), (13, 75), (13, 29), (13, 47), (75, 29), (75, 47), (29, 47)]
  {
  }

  lemma SixthSelect9(ps: seq<(Page, Page)>)
    requires ps == [(29, 47)]
    ensures ApplicableRules(ps, SixthIndex()) == [Rule(47, 29)]
  {
  }

  lemma SixthSelect8(ps: seq<(Page, Page)>)
    requires ps == [(75, 47), (29, 47)]
    ensures ApplicableRules(ps, SixthIndex()) == [Rule(75, 47), Rule(47, 29)]
  {
    assert ps[1..] == [(29, 47)];
    SixthSelect9(ps[1..]);
  }

  lemma SixthSelect7(ps: seq<(Page, Page)>)
    requires ps == [(75, 29), (75, 47), (29, 47)]
    ensures ApplicableRules(ps, SixthIndex()) == [Rule(75, 29), Rule(75, 47), Rule(47, 29)]
  {
    assert ps[1..] == [(75, 47), (29, 47)];
    SixthSelect8(ps[1..]);
  }

  lemma SixthSelect6(ps: seq<(Page, Page)>)
    requires ps == [(13, 47), (75, 29), (75, 47), (29, 47)]
    ensures ApplicableRules(ps, SixthIndex()) == [Rule(47, 13), Rule(75, 29), Rule(75, 47), Rule(47, 29)]
  {
    assert ps[1..] == [(75, 29), (75, 47), (29, 47)];
    SixthSelect7(ps[1..]);
  }

  lemma SixthSelect5(ps: seq<(Page, Page)>)
    requires ps == [(13, 29), (13, 47), (75, 29), (75, 47), (29, 47)]
    ensures ApplicableRules(ps, SixthIndex()) == [Rule(29, 13), Rule(47, 13), Rule(75, 29), Rule(75, 47), Rule(47, 29)]
  {
    assert ps[1..] == [(13, 47), (75, 29), (75, 47), (29, 47)];
    SixthSelect6(ps[1..]);
  }

  lemma SixthSelect4(ps: seq<(Page, Page)>)
    requires ps == [(13, 75), (13, 29), (13, 47), (75, 29), (75, 47), (29, 47)]
    ensures ApplicableRules(ps, SixthIndex()) == [Rule(75, 13), Rule(29, 13), Rule(47, 13), Rule(75, 29), Rule(75, 47), Rule(47, 29)]
  {
    assert ps[1..] == [(13, 29), (13, 47), (75, 29), (75, 47), (29, 47)];
    SixthSelect5(ps[1..]);
  }

  lemma SixthSelect3(ps: seq<(Page, Page)>)
    requires ps == [(97, 47), (13, 75), (13, 29), (13, 47), (75, 29), (75, 47), (29, 47)]
    ensures ApplicableRules(ps, SixthIndex()) == [Rule(97, 47), Rule(75, 13), Rule(29, 13), Rule(47, 13), Rule(75, 29), Rule(75, 47), Rule(47, 29)]
  {
    assert ps[1..] == [(13, 75), (13, 29), (13, 47), (75, 29), (75, 47), (29, 47)];
    SixthSelect4(ps[1..]);
  }

  lemma SixthSelect2(ps: seq<(Page, Page)>)
    requires ps == [(97, 29), (97, 47), (13, 75), (13, 29), (13, 47), (75, 29), (75, 47), (29, 47)]
    ensures ApplicableRules(ps, SixthIndex()) == [Rule(97, 29), Rule(97, 47), Rule(75, 13), Rule(29, 13), Rule(47, 13), Rule(75, 29), Rule(75, 47), Rule(47, 29)]
  {
    assert ps[1..] == [(97, 47), (13, 75), (13, 29), (13, 47), (75, 29), (75, 47), (29, 47)];
    SixthSelect3(ps[1..]);
  }

  lemma SixthSelect1(ps: seq<(Page, Page)>)
    requires ps == [(97, 75), (97, 29), (97, 47), (13, 75), (13, 29), (13, 47), (75, 29), (75, 47), (29, 47)]
    ensures ApplicableRules(ps, SixthIndex()) == [Rule(97, 75), Rule(97, 29), Rule(97, 47), Rule(75, 13), Rule(29, 13), Rule(47, 13), Rule(75, 29), Rule(75, 47), Rule(47, 29)]
  {
    assert ps[1..] == [(97, 29), (97, 47), (13, 75), (13, 29), (13, 47), (75, 29), (75, 47), (29, 47)];
    SixthSelect2(ps[1..]);
  }

  lemma SixthSelect0(ps: seq<(Page, Page)>)
    requires ps == [(97, 13), (97, 75), (97, 29), (97, 47), (13, 75), (13, 29), (13, 47), (75, 29), (75, 47), (29, 47)]
    ensures ApplicableRules(ps, SixthIndex()) == [Rule(97, 13), Rule(97, 75), Rule(97, 29), Rule(97, 47), Rule(75, 13), Rule(29, 13), Rule(47, 13), Rule(75, 29), Rule(75, 47), Rule(47, 29)]
  {
    assert ps[1..] == [(97, 75), (97, 29), (97, 47), (13, 75), (13, 29), (13, 47), (75, 29), (75, 47), (29, 47)];
    SixthSelect1(ps[1..]);
  }

  lemma SixthSelected()
    ensures ApplicableRules(Pairs([97, 13, 75, 29, 47]), SixthIndex()) == [Rule(97, 13), Rule(97, 75), Rule(97, 29), Rule(97, 47), Rule(75, 13), Rule(29, 13), Rule(47, 13), Rule(75, 29), Rule(75, 47), Rule(47, 29)]
  {
    SixthPaired();
    SixthSelect0(Pairs([97, 13, 75, 29, 47]));
  }

  lemma SixthStep0()
    requires Consistent(PageUpdate([97, 13, 75, 29, 47], map[97 := 0, 13 := 1, 75 := 2, 29 := 3, 47 := 4]))
    ensures Apply(Rule(97, 13), PageUpdate([97, 13, 75, 29, 47], map[97 := 0, 13 := 1, 75 := 2, 29 := 3, 47 := 4]))
         == PageUpdate([97, 13, 75, 29, 47], map[97 := 0, 13 := 1, 75 := 2, 29 := 3, 47 := 4])
  {
    assert Satisfied(Rule(97, 13), PageUpdate([97, 13, 75, 29, 47], map[97 := 0, 13 := 1, 75 := 2, 29 := 3, 47 := 4]));
  }

  lemma SixthStep1()
    requires Consistent(PageUpdate([97, 13, 75, 29, 47], map[97 := 0, 13 := 1, 75 := 2, 29 := 3, 47 := 4]))
    ensures Apply(Rule(97, 75), PageUpdate([97, 13, 75, 29, 47], map[97 := 0, 13 := 1, 75 := 2, 29 := 3, 47 := 4]))
         == PageUpdate([97, 13, 75, 29, 47], map[97 := 0, 13 := 1, 75 := 2, 29 := 3, 47 := 4])
  {
    assert Satisfied(Rule(97, 75), PageUpdate([97, 13, 75, 29, 47], map[97 := 0, 13 := 1, 75 := 2, 29 := 3, 47 := 4]));
  }

  lemma SixthStep2()
    requires Consistent(PageUpdate([97, 13, 75, 29, 47], map[97 := 0, 13 := 1, 75 := 2, 29 := 3, 47 := 4]))
    ensures Apply(Rule(97, 29), PageUpdate([97, 13, 75, 29, 47], map[97 := 0, 13 := 1, 75 := 2, 29 := 3, 47 := 4]))
         == PageUpdate([97, 13, 75, 29, 47], map[97 := 0, 13 := 1, 75 := 2, 29 := 3, 47 := 4])
  {
    assert Satisfied(Rule(97, 29), PageUpdate([97, 13, 75, 29, 47], map[97 := 0, 13 := 1, 75 := 2, 29 := 3, 47 := 4]));
  }

  lemma SixthStep3()
    requires Consistent(PageUpdate([97, 13, 75, 29, 47], map[97 := 0, 13 := 1, 75 := 2, 29 := 3, 47 := 4]))
    ensures Apply(Rule(97, 47), PageUpdate([97, 13, 75, 29, 47], map[97 := 0, 13 := 1, 75 := 2, 29 := 3, 47 := 4]))
         == PageUpdate([97, 13, 75, 29, 47], map[97 := 0, 13 := 1, 75 := 2, 29 := 3, 47 := 4])
  {
    assert Satisfied(Rule(97, 47), PageUpdate([97, 13, 75, 29, 47], map[97 := 0, 13 := 1, 75 := 2, 29 := 3, 47 := 4]));
  }

  lemma SixthStep4()
    requires Consistent(PageUpdate([97, 13, 75, 29, 47], map[97 := 0, 13 := 1, 75 := 2, 29 := 3, 47 := 4]))
    ensures Apply(Rule(75, 13), PageUpdate([97, 13, 75, 29, 47], map[97 := 0, 13 := 1, 75 := 2, 29 := 3, 47 := 4]))
         == PageUpdate([97, 75, 13, 29, 47], map[97 := 0, 75 := 1, 13 := 2, 29 := 3, 47 := 4])
  {
    var u := PageUpdate([97, 13, 75, 29, 47], map[97 := 0, 13 := 1, 75 := 2, 29 := 3, 47 := 4]);
    assert !Satisfied(Rule(75, 13), u);
    var v := Swap(u, 75, 13);
    assert v.pages == [97, 75, 13, 29, 47];
    assert v.positions == map[97 := 0, 75 := 1, 13 := 2, 29 := 3, 47 := 4];
  }

  lemma SixthStep5()
    requires Consistent(PageUpdate([97, 75, 13, 29, 47], map[97 := 0, 75 := 1, 13 := 2, 29 := 3, 47 := 4]))
    ensures Apply(Rule(29, 13), PageUpdate([97, 75, 13, 29, 47], map[97 := 0, 75 := 1, 13 := 2, 29 := 3, 47 := 4]))
         == PageUpdate([97, 75, 29, 13, 47], map[97 := 0, 75 := 1, 29 := 2, 13 := 3, 47 := 4])
  {
    var u := PageUpdate([97, 75, 13, 29, 47], map[97 := 0, 75 := 1, 13 := 2, 29 := 3, 47 := 4]);
    assert !Satisfied(Rule(29, 13), u);
    var v := Swap(u, 29, 13);
    assert v.pages == [97, 75, 29, 13, 47];
    assert v.positions == map[97 := 0, 75 := 1, 29 := 2, 13 := 3, 47 := 4];
  }

  lemma SixthStep6()
    requires Consistent(PageUpdate([97, 75, 29, 13, 47], map[97 := 0, 75 := 1, 29 := 2, 13 := 3, 47 := 4]))
    ensures Apply(Rule(47, 13), PageUpdate([97, 75, 29, 13, 47], map[97 := 0, 75 := 1, 29 := 2, 13 := 3, 47 := 4]))
         == PageUpdate([97, 75, 29, 47, 13], map[97 := 0, 75 := 1, 29 := 2, 47 := 3, 13 := 4])
  {
    var u := PageUpdate([97, 75, 29, 13, 47], map[97 := 0, 75 := 1, 29 := 2, 13 := 3, 47 := 4]);
    assert !Satisfied(Rule(47, 13), u);
    var v := Swap(u, 47, 13);
    assert v.pages == [97, 75, 29, 47, 13];
    assert v.positions == map[97 := 0, 75 := 1, 29 := 2, 47 := 3, 13 := 4];
  }

  lemma SixthStep7()
    requires Consistent(PageUpdate([97, 75, 29, 47, 13], map[97 := 0, 75 := 1, 29 := 2, 47 := 3, 13 := 4]))
    ensures Apply(Rule(75, 29), PageUpdate([97, 75, 29, 47, 13], map[97 := 0, 75 := 1, 29 := 2, 47 := 3, 13 := 4]))
         == PageUpdate([97, 75, 29, 47, 13], map[97 := 0, 75 := 1, 29 := 2, 47 := 3, 13 := 4])
  {
    assert Satisfied(Rule(75, 29), PageUpdate([97, 75, 29, 47, 13], map[97 := 0, 75 := 1, 29 := 2, 47 := 3, 13 := 4]));
  }

  lemma SixthStep8()
    requires Consistent(PageUpdate([97, 75, 29, 47, 13], map[97 := 0, 75 := 1, 29 := 2, 47 := 3, 13 := 4]))
    ensures Apply(Rule(75, 47), PageUpdate([97, 75, 29, 47, 13], map[97 := 0, 75 := 1, 29 := 2, 47 := 3, 13 := 4]))
         == PageUpdate([97, 75, 29, 47, 13], map[97 := 0, 75 := 1, 29 := 2, 47 := 3, 13 := 4])
  {
    assert Satisfied(Rule(75, 47), PageUpdate([97, 75, 29, 47, 13], map[97 := 0, 75 := 1, 29 := 2, 47 := 3, 13 := 4]));
  }

  lemma SixthStep9()
    requires Consistent(PageUpdate([97, 75, 29, 47, 13], map[97 := 0, 75 := 1, 29 := 2, 47 := 3, 13 := 4]))
    ensures Apply(Rule(47, 29), PageUpdate([97, 75, 29, 47, 13], map[97 := 0, 75 := 1, 29 := 2, 47 := 3, 13 := 4]))
         == PageUpdate([97, 75, 47, 29, 13], map[97 := 0, 75 := 1, 47 := 2, 29 := 3, 13 := 4])
  {
    var u := PageUpdate([97, 75, 29, 47, 13], map[97 := 0, 75 := 1, 29 := 2, 47 := 3, 13 := 4]);
    assert !Satisfied(Rule(47, 29), u);
    var v := Swap(u, 47, 29);
    assert v.pages == [97, 75, 47, 29, 13];
    assert v.positions == map[97 := 0, 75 := 1, 47 := 2, 29 := 3, 13 := 4];
  }

  lemma SixthIndexWellKeyed()
    ensures WellKeyed(SixthIndex())
  {
  }

  lemma SixthCheckedConsistent(u: PageUpdate)
    requires u == PageUpdate([97, 13, 75, 29, 47], map[97 := 0, 13 := 1, 75 := 2, 29 := 3, 47 := 4])
    ensures Consistent(u)
  {
  }

  lemma SixthCheckedSelection(u: PageUpdate)
    requires u == PageUpdate([97, 13, 75, 29, 47], map[97 := 0, 13 := 1, 75 := 2, 29 := 3, 47 := 4])
    ensures ApplicableRules(Pairs(u.pages), SixthIndex()) == [Rule(97, 13), Rule(97, 75), Rule(97, 29), Rule(97, 47), Rule(75, 13), Rule(29, 13), Rule(47, 13), Rule(75, 29), Rule(75, 47), Rule(47, 29)]
  {
    SixthSelected();
  }

  lemma SixthCheckedVerdict(u: PageUpdate)
    requires u == PageUpdate([97, 13, 75, 29, 47], map[97 := 0, 13 := 1, 75 := 2, 29 := 3, 47 := 4])
    ensures !AllSatisfied([Rule(97, 13), Rule(97, 75), Rule(97, 29), Rule(97, 47), Rule(75, 13), Rule(29, 13), Rule(47, 13), Rule(75, 29), Rule(75, 47), Rule(47, 29)], u)
  {
    var rules := [Rule(97, 13), Rule(97, 75), Rule(97, 29), Rule(97, 47), Rule(75, 13), Rule(29, 13), Rule(47, 13), Rule(75, 29), Rule(75, 47), Rule(47, 29)];
    AllSatisfiedMeaning(rules, u);
    assert rules[4] == Rule(75, 13);
    assert !Satisfied(rules[4], u);
  }

  /** The validator rejects [97, 13, 75, 29, 47]. */
  lemma SixthChecked(u: PageUpdate)
    requires u == PageUpdate([97, 13, 75, 29, 47], map[97 := 0, 13 := 1, 75 := 2, 29 := 3, 47 := 4])
    ensures Consistent(u)
    ensures WellKeyed(SixthIndex())
    ensures !IsCorrectlyOrdered(u, SixthIndex())
  {
    SixthCheckedConsistent(u);
    SixthCheckedSelection(u);
    SixthIndexWellKeyed();
    ApplicableRulesPlaced(u, SixthIndex());
    SixthCheckedVerdict(u);
  }

  lemma SixthFinalPaired()
    ensures Pairs([97, 75, 47, 29, 13]) == [(97, 75), (97, 47), (97, 29), (97, 13), (75, 47), (75, 29), (75, 13), (47, 29), (47, 13), (29, 13)]
  {
  }

  lemma SixthFinalSelect9(ps: seq<(Page, Page)>)
    requires ps == [(29, 13)]
    ensures ApplicableRules(ps, SixthIndex()) == [Rule(29, 13)]
  {
  }

  lemma SixthFinalSelect8(ps: seq<(Page, Page)>)
    requires ps == [(47, 13), (29, 13)]
    ensures ApplicableRules(ps, SixthIndex()) == [Rule(47, 13), Rule(29, 13)]
  {
    assert ps[1..] == [(29, 13)];
    SixthFinalSelect9(ps[1..]);
  }

  lemma SixthFinalSelect7(ps: seq<(Page, Page)>)
    requires ps == [(47, 29), (47, 13), (29, 13)]
    ensures ApplicableRules(ps, SixthIndex()) == [Rule(47, 29), Rule(47, 13), Rule(29, 13)]
  {
    assert ps[1..] == [(47, 13), (29, 13)];
    SixthFinalSelect8(ps[1..]);
  }

  lemma SixthFinalSelect6(ps: seq<(Page, Page)>)
    requires ps == [(75, 13), (47, 29), (47, 13), (29, 13)]
    ensures ApplicableRules(ps, SixthIndex()) == [Rule(75, 13), Rule(47, 29), Rule(47, 13), Rule(29, 13)]
  {
    assert ps[1..] == [(47, 29), (47, 13), (29, 13)];
    SixthFinalSelect7(ps[1..]);
  }

  lemma SixthFinalSelect5(ps: seq<(Page, Page)>)
    requires ps == [(75, 29), (75, 13), (47, 29), (47, 13), (29, 13)]
    ensures ApplicableRules(ps, SixthIndex()) == [Rule(75, 29), Rule(75, 13), Rule(47, 29), Rule(47, 13), Rule(29, 13)]
  {
    assert ps[1..] == [(75, 13), (47, 29), (47, 13), (29, 13)];
    SixthFinalSelect6(ps[1..]);
  }

  lemma SixthFinalSelect4(ps: seq<(Page, Page)>)
    requires ps == [(75, 47), (75, 29), (75, 13), (47, 29), (47, 13), (29, 13)]
    ensures ApplicableRules(ps, SixthIndex()) == [Rule(75, 47), Rule(75, 29), Rule(75, 13), Rule(47, 29), Rule(47, 13), Rule(29, 13)]
  {
    assert ps[1..] == [(75, 29), (75, 13), (47, 29), (47, 13), (29, 13)];
    SixthFinalSelect5(ps[1..]);
  }

  lemma SixthFinalSelect3(ps: seq<(Page, Page)>)
    requires ps == [(97, 13), (75, 47), (75, 29), (75, 13), (47, 29), (47, 13), (29, 13)]
    ensures ApplicableRules(ps, SixthIndex()) == [Rule(97, 13), Rule(75, 47), Rule(75, 29), Rule(75, 13), Rule(47, 29), Rule(47, 13), Rule(29, 13)]
  {
    assert ps[1..] == [(75, 47), (75, 29), (75, 13), (47, 29), (47, 13), (29, 13)];
    SixthFinalSelect4(ps[1..]);
  }

  lemma SixthFinalSelect2(ps: seq<(Page, Page)>)
    requires ps == [(97, 29), (97, 13), (75, 47), (75, 29), (75, 13), (47, 29), (47, 13), (29, 13)]
    ensures ApplicableRules(ps, SixthIndex()) == [Rule(97, 29), Rule(97, 13), Rule(75, 47), Rule(75, 29), Rule(75, 13), Rule(47, 29), Rule(47, 13), Rule(29, 13)]
  {
    assert ps[1..] == [(97, 13), (75, 47), (75, 29), (75, 13), (47, 29), (47, 13), (29, 13)];
    SixthFinalSelect3(ps[1..]);
  }

  lemma SixthFinalSelect1(ps: seq<(Page, Page)>)
    requires ps == [(97, 47), (97, 29), (97, 13), (75, 47), (75, 29), (75, 13), (47, 29), (47, 13), (29, 13)]
    ensures ApplicableRules(ps, SixthIndex()) == [Rule(97, 47), Rule(97, 29), Rule(97, 13), Rule(75, 47), Rule(75, 29), Rule(75, 13), Rule(47, 29), Rule(47, 13), Rule(29, 13)]
  {
    assert ps[1..] == [(97, 29), (97, 13), (75, 47), (75, 29), (75, 13), (47, 29), (47, 13), (29, 13)];
    SixthFinalSelect2(ps[1..]);
  }

  lemma SixthFinalSelect0(ps: seq<(Page, Page)>)
    requires ps == [(97, 75), (97, 47), (97, 29), (97, 13), (75, 47), (75, 29), (75, 13), (47, 29), (47, 13), (29, 13)]
    ensures ApplicableRules(ps, SixthIndex()) == [Rule(97, 75), Rule(97, 47), Rule(97, 29), Rule(97, 13), Rule(75, 47), Rule(75, 29), Rule(75, 13), Rule(47, 29), Rule(47, 13), Rule(29, 13)]
  {
    assert ps[1..] == [(97, 47), (97, 29), (97, 13), (75, 47), (75, 29), (75, 13), (47, 29), (47, 13), (29, 13)];
    SixthFinalSelect1(ps[1..]);
  }

  lemma SixthFinalSelected()
    ensures ApplicableRules(Pairs([97, 75, 47, 29, 13]), SixthIndex()) == [Rule(97, 75), Rule(97, 47), Rule(97, 29), Rule(97, 13), Rule(75, 47), Rule(75, 29), Rule(75, 13), Rule(47, 29), Rule(47, 13), Rule(29, 13)]
  {
    SixthFinalPaired();
    SixthFinalSelect0(Pairs([97, 75, 47, 29, 13]));
  }

  lemma SixthFinalCheckedConsistent(u: PageUpdate)
    requires u == PageUpdate([97, 75, 47, 29, 13], map[97 := 0, 75 := 1, 47 := 2, 29 := 3, 13 := 4])
    ensures Consistent(u)
  {
  }

  lemma SixthFinalCheckedSelection(u: PageUpdate)
    requires u == PageUpdate([97, 75, 47, 29, 13], map[97 := 0, 75 := 1, 47 := 2, 29 := 3, 13 := 4])
    ensures ApplicableRules(Pairs(u.pages), SixthIndex()) == [Rule(97, 75), Rule(97, 47), Rule(97, 29), Rule(97, 13), Rule(75, 47), Rule(75, 29), Rule(75, 13), Rule(47, 29), Rule(47, 13), Rule(29, 13)]
  {
    SixthFinalSelected();
  }

  lemma SixthFinalCheckedVerdict(u: PageUpdate)
    requires u == PageUpdate([97, 75, 47, 29, 13], map[97 := 0, 75 := 1, 47 := 2, 29 := 3, 13 := 4])
    ensures AllSatisfied([Rule(97, 75), Rule(97, 47), Rule(97, 29), Rule(97, 13), Rule(75, 47), Rule(75, 29), Rule(75, 13), Rule(47, 29), Rule(47, 13), Rule(29, 13)], u)
  {
  }

  /** The validator accepts [97, 75, 47, 29, 13]. */
  lemma SixthFinalChecked(u: PageUpdate)
    requires u == PageUpdate([97, 75, 47, 29, 13], map[97 := 0, 75 := 1, 47 := 2, 29 := 3, 13 := 4])
    ensures Consistent(u)
    ensures WellKeyed(SixthIndex())
    ensures IsCorrectlyOrdered(u, SixthIndex())
  {
    SixthFinalCheckedConsistent(u);
    SixthFinalCheckedSelection(u);
    SixthIndexWellKeyed();
    ApplicableRulesPlaced(u, SixthIndex());
    SixthFinalCheckedVerdict(u);
  }

  /** Ordering [97, 13, 75, 29, 47] gives [97, 75, 47, 29, 13], whose middle page is 47, and the validator accepts the result. */
  lemma SixthOrdered()
    ensures var u := NewUpdate([97, 13, 75, 29, 47]); var m := RulesToMap(SixthRules());
      && Consistent(u)
      && Order(u, m) == PageUpdate([97, 75, 47, 29, 13], map[97 := 0, 75 := 1, 47 := 2, 29 := 3, 13 := 4])
      && MiddlePage(PageUpdate([97, 75, 47, 29, 13], map[97 := 0, 75 := 1, 47 := 2, 29 := 3, 13 := 4])) == 47
      && IsCorrectlyOrdered(PageUpdate([97, 75, 47, 29, 13], map[97 := 0, 75 := 1, 47 := 2, 29 := 3, 13 := 4]), m)
  {
    SixthUpdateBuilt();
    SixthIndexBuilt();
    SixthSelected();
    SixthFinalChecked(PageUpdate([97, 75, 47, 29, 13], map[97 := 0, 75 := 1, 47 := 2, 29 := 3, 13 := 4]));
    ApplicableRulesPlaced(PageUpdate([97, 13, 75, 29, 47], map[97 := 0, 13 := 1, 75 := 2, 29 := 3, 47 := 4]), SixthIndex());
    SixthStep0();
    ApplyAllFirst([Rule(97, 13), Rule(97, 75), Rule(97, 29), Rule(97, 47), Rule(75, 13), Rule(29, 13), Rule(47, 13), Rule(75, 29), Rule(75, 47), Rule(47, 29)], PageUpdate([97, 13, 75, 29, 47], map[97 := 0, 13 := 1, 75 := 2, 29 := 3, 47 := 4]));
    assert [Rule(97, 13), Rule(97, 75), Rule(97, 29), Rule(97, 47), Rule(75, 13), Rule(29, 13), Rule(47, 13), Rule(75, 29), Rule(75, 47), Rule(47, 29)][1..] == [Rule(97, 75), Rule(97, 29), Rule(97, 47), Rule(75, 13), Rule(29, 13), Rule(47, 13), Rule(75, 29), Rule(75, 47), Rule(47, 29)];
    SixthStep1();
    ApplyAllFirst([Rule(97, 75), Rule(97, 29), Rule(97, 47), Rule(75, 13), Rule(29, 13), Rule(47, 13), Rule(75, 29), Rule(75, 47), Rule(47, 29)], PageUpdate([97, 13, 75, 29, 47], map[97 := 0, 13 := 1, 75 := 2, 29 := 3, 47 := 4]));
    assert [Rule(97, 75), Rule(97, 29), Rule(97, 47), Rule(75, 13), Rule(29, 13), Rule(47, 13), Rule(75, 29), Rule(75, 47), Rule(47, 29)][1..] == [Rule(97, 29), Rule(97, 47), Rule(75, 13), Rule(29, 13), Rule(47, 13), Rule(75, 29), Rule(75, 47), Rule(47, 29)];
    SixthStep2();
    ApplyAllFirst([Rule(97, 29), Rule(97, 47), Rule(75, 13), Rule(29, 13), Rule(47, 13), Rule(75, 29), Rule(75, 47), Rule(47, 29)], PageUpdate([97, 13, 75, 29, 47], map[97 := 0, 13 := 1, 75 := 2, 29 := 3, 47 := 4]));
    assert [Rule(97, 29), Rule(97, 47), Rule(75, 13), Rule(29, 13), Rule(47, 13), Rule(75, 29), Rule(75, 47), Rule(47, 29)][1..] == [Rule(97, 47), Rule(75, 13), Rule(29, 13), Rule(47, 13), Rule(75, 29), Rule(75, 47), Rule(47, 29)];
    SixthStep3();
    ApplyAllFirst([Rule(97, 47), Rule(75, 13), Rule(29, 13), Rule(47, 13), Rule(75, 29), Rule(75, 47), Rule(47, 29)], PageUpdate([97, 13, 75, 29, 47], map[97 := 0, 13 := 1, 75 := 2, 29 := 3, 47 := 4]));
    assert [Rule(97, 47), Rule(75, 13), Rule(29, 13), Rule(47, 13), Rule(75, 29), Rule(75, 47), Rule(47, 29)][1..] == [Rule(75, 13), Rule(29, 13), Rule(47, 13), Rule(75, 29), Rule(75, 47), Rule(47, 29)];
    SixthStep4();
    ApplyAllFirst([Rule(75, 13), Rule(29, 13), Rule(47, 13), Rule(75, 29), Rule(75, 47), Rule(47, 29)], PageUpdate([97, 13, 75, 29, 47], map[97 := 0, 13 := 1, 75 := 2, 29 := 3, 47 := 4]));
    assert [Rule(75, 13), Rule(29, 13), Rule(47, 13), Rule(75, 29), Rule(75, 47), Rule(47, 29)][1..] == [Rule(29, 13), Rule(47, 13), Rule(75, 29), Rule(75, 47), Rule(47, 29)];
    SixthStep5();
    ApplyAllFirst([Rule(29, 13), Rule(47, 13), Rule(75, 29), Rule(75, 47), Rule(47, 29)], PageUpdate([97, 75, 13, 29, 47], map[97 := 0, 75 := 1, 13 := 2, 29 := 3, 47 := 4]));
    assert [Rule(29, 13), Rule(47, 13), Rule(75, 29), Rule(75, 47), Rule(47, 29)][1..] == [Rule(47, 13), Rule(75, 29), Rule(75, 47), Rule(47, 29)];
    SixthStep6();
    ApplyAllFirst([Rule(47, 13), Rule(75, 29), Rule(75, 47), Rule(47, 29)], PageUpdate([97, 75, 29, 13, 47], map[97 := 0, 75 := 1, 29 := 2, 13 := 3, 47 := 4]));
    assert [Rule(47, 13), Rule(75, 29), Rule(75, 47), Rule(47, 29)][1..] == [Rule(75, 29), Rule(75, 47), Rule(47, 29)];
    SixthStep7();
    ApplyAllFirst([Rule(75, 29), Rule(75, 47), Rule(47, 29)], PageUpdate([97, 75, 29, 47, 13], map[97 := 0, 75 := 1, 29 := 2, 47 := 3, 13 := 4]));
    assert [Rule(75, 29), Rule(75, 47), Rule(47, 29)][1..] == [Rule(75, 47), Rule(47, 29)];
    SixthStep8();
    ApplyAllFirst([Rule(75, 47), Rule(47, 29)], PageUpdate([97, 75, 29, 47, 13], map[97 := 0, 75 := 1, 29 := 2, 47 := 3, 13 := 4]));
    assert [Rule(75, 47), Rule(47, 29)][1..] == [Rule(47, 29)];
    SixthStep9();
    ApplyAllFirst([Rule(47, 29)], PageUpdate([97, 75, 29, 47, 13], map[97 := 0, 75 := 1, 29 := 2, 47 := 3, 13 := 4]));
    assert [Rule(47, 29)][1..] == [];
  }
}
