/** Job-title classification (`classify_job_title`, `classify_job_title_chef` in
    src/transform_data.py).

    The Python code is an if/elif chain of `re.search` calls on the lower-cased
    title; every pattern is an alternation of plain words with no anchors and no
    word boundaries. Here the chain is data: an ordered list of rules, each a list
    of alternatives and a label, searched first-match-wins. */
module Classify {
  import opened Values
  import opened Text

  datatype Rule = Rule(alternatives: seq<string>, category: string)

  /** The label given to a title no rule matches. */
  const OtherLabel: string := "Other"

  /** The elif chain, in source order (the commented-out 'Data Migration' and
      'Chief Data Officer' branches are not part of it). */
  const Rules: seq<Rule> := [
    Rule(["business analyst"], "Business Analyst"),
    Rule(["owner", "product", "product owner"], "Data Product Owner"),
    Rule(["chef de projet"], "Data Project Manager"),
    Rule(["consultant bi", "bi"], "Consultant BI"),
    Rule(["consultant data", "consultant"], "Consultant Data"),
    Rule(["back", "développeur", "infra", "software"], "Software - Développeur Data"),
    Rule(["tech"], "Technicien Data"),
    Rule(["assistant"], "Data Assistant"),
    Rule(["data engineer", "ingénieur", "engineer", "ingenieur"], "Data Engineer"),
    Rule(["data analyst", "analyste", "analytics"], "Data Analyst"),
    Rule(["data architect", "architect"], "Data Architect"),
    Rule(["data scientist", "scientifique", "science"], "Data Scientist"),
    Rule(["data manager", "gestionnaire", "manager", "administrator", "manager", "gestion"], "Data Manager"),
    Rule(["data"], "Other Data Position")
  ]

  /** `re.search('a|b|…', t)`: some alternative occurs somewhere in `t`. */
  predicate Matches(t: string, rule: Rule)
  {
    exists i :: 0 <= i < |rule.alternatives| && Contains(t, rule.alternatives[i])
  }

  /** Index of the first rule at or after `from` that matches `t`. */
  function FirstMatch(t: string, rules: seq<Rule>, from: nat): (r: Option<nat>)
    requires from <= |rules|
    decreases |rules| - from
    ensures r.Some? ==> from <= r.value < |rules| && Matches(t, rules[r.value])
    ensures r.Some? ==> forall j :: from <= j < r.value ==> !Matches(t, rules[j])
    ensures r.None? ==> forall j :: from <= j < |rules| ==> !Matches(t, rules[j])
  {
    if from == |rules| then None
    else if Matches(t, rules[from]) then Some(from)
    else FirstMatch(t, rules, from + 1)
  }

  /** `classify_job_title`: the label of the first rule, in source order, one of
      whose alternatives occurs in the lower-cased title; 'Other' when none does. */
  function ClassifyJobTitle(title: string): (category: string)
    ensures category == OtherLabel <==> forall j :: 0 <= j < |Rules| ==> !Matches(Lower(title), Rules[j])
    ensures category != OtherLabel ==>
      exists j :: 0 <= j < |Rules| && category == Rules[j].category && Matches(Lower(title), Rules[j])
                  && forall k :: 0 <= k < j ==> !Matches(Lower(title), Rules[k])
  {
    NoRuleIsOther();
    match FirstMatch(Lower(title), Rules, 0)
    case None => OtherLabel
    case Some(j) => Rules[j].category
  }

  /** `classify_job_title_chef`: 'Chef' exactly when the lower-cased title
      contains "chef", 'Other' otherwise. */
  function ClassifyJobTitleChef(title: string): (flag: string)
    ensures flag == "Chef" || flag == OtherLabel
    ensures flag == "Chef" <==> exists j :: OccursAt(Lower(title), "chef", j)
  {
    ContainsIff(Lower(title), "chef");
    if Contains(Lower(title), "chef") then "Chef" else OtherLabel
  }

  // ------------------------------------------------------------------ lemmas

  /** No rule's label is the fallback label. */
  lemma NoRuleIsOther()
    ensures forall j :: 0 <= j < |Rules| ==> Rules[j].category != OtherLabel
  {
    forall j | 0 <= j < |Rules| ensures Rules[j].category != OtherLabel {
      assert |Rules[j].category| != |OtherLabel|;
    }
  }

  /** The classification is decided by the first matching rule. */
  lemma ClassifyByFirstRule(title: string, j: nat)
    requires j < |Rules| && Matches(Lower(title), Rules[j])
    requires forall k :: 0 <= k < j ==> !Matches(Lower(title), Rules[k])
    ensures ClassifyJobTitle(title) == Rules[j].category
  {
  }

  /** Only the lower-cased title matters. */
  lemma ClassifyIgnoresCase(a: string, b: string)
    requires Lower(a) == Lower(b)
    ensures ClassifyJobTitle(a) == ClassifyJobTitle(b)
    ensures ClassifyJobTitleChef(a) == ClassifyJobTitleChef(b)
  {
  }

  /** "business analyst" anywhere in the title always wins. */
  lemma BusinessAnalystWins(title: string)
    requires Contains(Lower(title), "business analyst")
    ensures ClassifyJobTitle(title) == "Business Analyst"
  {
    assert Matches(Lower(title), Rules[0]) by {
      assert Rules[0].alternatives[0] == "business analyst";
    }
    ClassifyByFirstRule(title, 0);
  }

  /** A title with "product" (and no "business analyst") is a product owner,
      whatever else it says: "Product Engineer" gives 'Data Product Owner'. */
  lemma ProductBeatsEngineer(title: string)
    requires Contains(Lower(title), "product")
    requires !Contains(Lower(title), "business analyst")
    ensures ClassifyJobTitle(title) == "Data Product Owner"
  {
    ProductRule();
    assert Matches(Lower(title), Rules[1]);
    assert !Matches(Lower(title), Rules[0]);
    ClassifyByFirstRule(title, 1);
  }

  lemma ProductRule()
    ensures Rules[0].alternatives == ["business analyst"]
    ensures |Rules[1].alternatives| == 3 && Rules[1].alternatives[1] == "product"
    ensures Rules[1].category == "Data Product Owner"
  {
  }

  /** The patterns have no word boundaries: "bi" anywhere (as in "big") makes the
      title 'Consultant BI' unless one of the three earlier rules matched, even
      when it also says "ingénieur" or "data engineer". */
  lemma BiBeforeEngineer(title: string)
    requires Contains(Lower(title), "bi")
    requires forall k :: 0 <= k < 3 ==> !Matches(Lower(title), Rules[k])
    ensures ClassifyJobTitle(title) == "Consultant BI"
  {
    BiRule();
    assert Matches(Lower(title), Rules[3]);
    ClassifyByFirstRule(title, 3);
  }

  lemma BiRule()
    ensures |Rules[3].alternatives| == 2 && Rules[3].alternatives[1] == "bi"
    ensures Rules[3].category == "Consultant BI"
  {
  }

  /** "Ingénieur Big Data": the "bi" of "big" decides before "ingénieur" is looked at. */
  lemma IngenieurBigDataIsConsultantBi()
    ensures ClassifyJobTitle("Ingénieur Big Data") == "Consultant BI"
  {
    var t := "ingénieur big data";
    LowerOfExample();
    ExampleHasBi();
    ExampleLacksLetters();
    MissesEarlierRules(t);
    BiBeforeEngineer("Ingénieur Big Data");
  }

  lemma ExampleLacksLetters()
    ensures var t := "ingénieur big data"; 's' !in t && 'o' !in t && 'p' !in t && 'c' !in t
  {
  }

  lemma ExampleHasBi()
    ensures Contains("ingénieur big data", "bi")
  {
    ContainsAt("ingénieur big data", "bi", 10);
  }

  /** A title without the letters 's', 'o', 'p' and 'c' matches none of the
      three rules before 'Consultant BI': each of their alternatives has one. */
  lemma MissesEarlierRules(t: string)
    requires 's' !in t && 'o' !in t && 'p' !in t && 'c' !in t
    ensures forall k :: 0 <= k < 3 ==> !Matches(t, Rules[k])
  {
    assert !Matches(t, Rules[0]) by {
      LacksLetter(t, "business analyst", 2);
    }
    assert !Matches(t, Rules[1]) by {
      LacksLetter(t, "owner", 0);
      LacksLetter(t, "product", 0);
      LacksLetter(t, "product owner", 0);
    }
    assert !Matches(t, Rules[2]) by {
      LacksLetter(t, "chef de projet", 0);
    }
  }

  lemma LowerOfExample()
    ensures Lower("Ingénieur Big Data") == "ingénieur big data"
  {
  }

  /** A pattern with a letter that does not occur in `t` does not occur in `t`. */
  lemma LacksLetter(t: string, pat: string, k: nat)
    requires k < |pat|
    requires pat[k] !in t
    ensures !Contains(t, pat)
  {
    ContainsIff(t, pat);
    forall j | 0 <= j ensures !OccursAt(t, pat, j) {
      OccursAtChar(t, pat, j, k);
    }
  }

  /** A title containing "data" is never 'Other'. */
  lemma DataIsNeverOther(title: string)
    requires Contains(Lower(title), "data")
    ensures ClassifyJobTitle(title) != OtherLabel
  {
    assert Matches(Lower(title), Rules[13]) by {
      assert Rules[13].alternatives[0] == "data";
    }
  }
}
