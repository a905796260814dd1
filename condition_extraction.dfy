/**
 * The analysis service's keyword classifier: the five chronic conditions it
 * knows, the ordered keyword table, and the extraction that scans the table
 * on the lowercased note, records each condition at its first matching
 * keyword, and falls back to type 2 diabetes for a generic mention of
 * diabetes. The language model the service also loads is not modelled.
 */
module ConditionExtraction {
  import opened Seqs
  import opened Text

  const CardiacFailure := "Cardiac Failure"
  const Hypertension := "Hypertension"
  const DiabetesInsipidus := "Diabetes Insipidus"
  const DiabetesType1 := "Diabetes Mellitus Type 1"
  const DiabetesType2 := "Diabetes Mellitus Type 2"

  /** `CHRONIC_CONDITIONS`. */
  const ChronicConditions := [CardiacFailure, Hypertension, DiabetesInsipidus, DiabetesType1, DiabetesType2]

  /** One entry of the keyword table: a condition and the phrases that reveal it. */
  datatype KeywordRule = KeywordRule(condition: string, keywords: seq<string>)

  /** `CONDITION_KEYWORDS`, in the order the dictionary iterates it. */
  const ConditionKeywords := [
    KeywordRule(CardiacFailure, ["cardiac failure", "heart failure", "chf", "congestive heart", "cardiac dysfunction"]),
    KeywordRule(Hypertension, ["hypertension", "high blood pressure", "elevated bp", "htn", "blood pressure"]),
    KeywordRule(DiabetesInsipidus, ["diabetes insipidus", "di ", "polyuria", "polydipsia"]),
    KeywordRule(DiabetesType1, ["diabetes type 1", "type 1 diabetes", "t1dm", "insulin dependent diabetes", "iddm"]),
    KeywordRule(DiabetesType2, ["diabetes type 2", "type 2 diabetes", "t2dm", "non-insulin dependent", "niddm"])
  ]

  /** Some keyword of the list occurs in `text`. */
  predicate AnyKeyword(keywords: seq<string>, text: string) {
    exists j :: 0 <= j < |keywords| && Contains(text, keywords[j])
  }

  /** The conditions of a table, in table order. */
  function Conditions(rules: seq<KeywordRule>): (r: seq<string>)
    ensures |r| == |rules|
    ensures forall i :: 0 <= i < |rules| ==> r[i] == rules[i].condition
    decreases |rules|
  {
    if rules == [] then [] else Conditions(rules[..|rules| - 1]) + [rules[|rules| - 1].condition]
  }

  /** The conditions of the table that have a keyword in `text`, in table order. */
  function Matched(rules: seq<KeywordRule>, text: string): seq<string>
    decreases |rules|
  {
    if rules == [] then []
    else
      var last := rules[|rules| - 1];
      Matched(rules[..|rules| - 1], text) + (if AnyKeyword(last.keywords, text) then [last.condition] else [])
  }

  /** Some detected label mentions "Diabetes": `any("Diabetes" in c for c in detected_conditions)`. */
  predicate MentionsDiabetes(detected: seq<string>) {
    exists i :: 0 <= i < |detected| && Contains(detected[i], "Diabetes")
  }

  /** The note speaks of diabetes without naming the type. */
  predicate GenericDiabetes(lower: string) {
    Contains(lower, "diabetes") || Contains(lower, "diabetic")
  }

  /** The generic-diabetes rule applied to the table's detections. */
  function WithFallback(detected: seq<string>, lower: string): seq<string> {
    if !MentionsDiabetes(detected) && GenericDiabetes(lower) then detected + [DiabetesType2] else detected
  }

  /** What `extract_conditions_from_text` returns for `text`. */
  function ExtractionSpec(text: string): seq<string> {
    var lower := ToLower(text);
    WithFallback(Matched(ConditionKeywords, lower), lower)
  }

  /**
   * `extract_conditions_from_text`: scan the keyword table on the lowercased
   * text, then add type 2 diabetes for a generic mention when no diabetes
   * label was found.
   */
  method ExtractConditions(text: string) returns (detected: seq<string>)
    ensures detected == ExtractionSpec(text)
  {
    var lower := ToLower(text);
    TableConditions();
    detected := ScanKeywords(ConditionKeywords, lower);
    if !MentionsDiabetes(detected) {
      if Contains(lower, "diabetes") || Contains(lower, "diabetic") {
        detected := detected + [DiabetesType2];
      }
    }
  }

  /**
   * The loop over the table: for each entry the keywords are tried in order,
   * and the first one found records the condition (unless it is already
   * recorded) and ends the search for that entry.
   */
  method ScanKeywords(rules: seq<KeywordRule>, lower: string) returns (detected: seq<string>)
    requires Distinct(Conditions(rules))
    ensures detected == Matched(rules, lower)
  {
    detected := [];
    for i := 0 to |rules|
      invariant detected == Matched(rules[..i], lower)
    {
      var rule := rules[i];
      assert rules[..i + 1][..i] == rules[..i];
      assert rule.condition !in detected by {
        MatchedSubseq(rules[..i], lower);
        SubseqDistinct(detected, Conditions(rules[..i]));
        ConditionsPrefix(rules, i);
      }
      ghost var found := false;
      var j := 0;
      while j < |rule.keywords|
        invariant 0 <= j <= |rule.keywords|
        invariant !found ==> forall m :: 0 <= m < j ==> !Contains(lower, rule.keywords[m])
        invariant !found ==> detected == Matched(rules[..i], lower)
        invariant found ==> detected == Matched(rules[..i + 1], lower)
      {
        if Contains(lower, rule.keywords[j]) {
          if rule.condition !in detected {
            detected := detected + [rule.condition];
          }
          found := true;
          break;
        }
        j := j + 1;
      }
    }
    assert rules[..|rules|] == rules;
  }

  /** The conditions of a prefix of the table are the prefix of its conditions, and the next one is not among them. */
  lemma {:induction false} ConditionsPrefix(rules: seq<KeywordRule>, i: nat)
    requires i < |rules| && Distinct(Conditions(rules))
    ensures Conditions(rules[..i]) == Conditions(rules)[..i]
    ensures rules[i].condition !in Conditions(rules[..i])
  {
    var a, b := Conditions(rules[..i]), Conditions(rules)[..i];
    forall m | 0 <= m < i ensures a[m] == b[m] {
      assert rules[..i][m] == rules[m];
    }
    assert a == b;
    forall m | 0 <= m < i ensures b[m] != rules[i].condition {
      assert Conditions(rules)[m] != Conditions(rules)[i];
    }
  }

  // ---------------------------------------------------------------- properties

  /** The table lists the conditions of `CHRONIC_CONDITIONS`, in the same order and each once. */
  lemma TableConditions()
    ensures Conditions(ConditionKeywords) == ChronicConditions
    ensures Distinct(ChronicConditions)
  {
  }

  /** The matched conditions keep the table's order. */
  lemma {:induction false} MatchedSubseq(rules: seq<KeywordRule>, text: string)
    ensures IsSubseq(Matched(rules, text), Conditions(rules))
    decreases |rules|
  {
    if rules != [] {
      var init := rules[..|rules| - 1];
      var last := rules[|rules| - 1];
      MatchedSubseq(init, text);
      assert Conditions(rules) == Conditions(init) + [last.condition];
      assert (Conditions(init) + [last.condition])[..|Conditions(init)|] == Conditions(init);
      if AnyKeyword(last.keywords, text) {
        assert Matched(rules, text) == Matched(init, text) + [last.condition];
        assert (Matched(init, text) + [last.condition])[..|Matched(init, text)|] == Matched(init, text);
      } else {
        assert Matched(rules, text) == Matched(init, text);
        SubseqExtend(Matched(init, text), Conditions(init), last.condition);
      }
    }
  }

  /** A condition of the table is detected exactly when one of its keywords occurs. */
  lemma {:induction false} MatchedMember(rules: seq<KeywordRule>, text: string, i: nat)
    requires i < |rules| && Distinct(Conditions(rules))
    ensures rules[i].condition in Matched(rules, text) <==> AnyKeyword(rules[i].keywords, text)
    decreases |rules|
  {
    var init := rules[..|rules| - 1];
    var last := rules[|rules| - 1];
    MatchedSubseq(init, text);
    assert Conditions(init) == Conditions(rules)[..|rules| - 1];
    SubseqDistinct(Matched(init, text), Conditions(init));
    if i < |rules| - 1 {
      assert rules[i] == init[i];
      MatchedMember(init, text, i);
      assert rules[i].condition != last.condition by {
        assert Conditions(rules)[i] != Conditions(rules)[|rules| - 1];
      }
    } else {
      assert last.condition !in Conditions(init);
    }
  }

  /** The fallback label, when added, comes after every detection and is not one of them. */
  lemma FallbackOrdered(detected: seq<string>, lower: string)
    requires IsSubseq(detected, ChronicConditions)
    ensures IsSubseq(WithFallback(detected, lower), ChronicConditions)
  {
    if !MentionsDiabetes(detected) && GenericDiabetes(lower) {
      assert DiabetesType2 !in detected by {
        ContainsAt(DiabetesType2, "Diabetes", 0);
      }
      assert ChronicConditions == ChronicConditions[..4] + [DiabetesType2];
      SubseqAppendNew(detected, ChronicConditions[..4], DiabetesType2);
    }
  }

  /** Every label is one of `CHRONIC_CONDITIONS`, none twice, in the order of that list. */
  lemma ExtractionOrdered(text: string)
    ensures IsSubseq(ExtractionSpec(text), ChronicConditions)
    ensures Distinct(ExtractionSpec(text))
    ensures forall c :: c in ExtractionSpec(text) ==> c in ChronicConditions
  {
    var lower := ToLower(text);
    TableConditions();
    MatchedSubseq(ConditionKeywords, lower);
    FallbackOrdered(Matched(ConditionKeywords, lower), lower);
    SubseqDistinct(ExtractionSpec(text), ChronicConditions);
  }

  /** Each table condition is reported iff one of its keywords occurs in the lowercased text (or, for type 2, by the generic fallback). */
  lemma ExtractionMember(text: string, i: nat)
    requires i < |ConditionKeywords|
    ensures var lower := ToLower(text);
      ConditionKeywords[i].condition in ExtractionSpec(text) <==>
        || AnyKeyword(ConditionKeywords[i].keywords, lower)
        || (ConditionKeywords[i].condition == DiabetesType2
            && !MentionsDiabetes(Matched(ConditionKeywords, lower)) && GenericDiabetes(lower))
  {
    TableConditions();
    MatchedMember(ConditionKeywords, ToLower(text), i);
  }

  /** A table none of whose keywords occurs detects nothing. */
  lemma {:induction false} MatchedNothing(rules: seq<KeywordRule>, text: string)
    requires forall i :: 0 <= i < |rules| ==> !AnyKeyword(rules[i].keywords, text)
    ensures Matched(rules, text) == []
    decreases |rules|
  {
    if rules != [] {
      MatchedNothing(rules[..|rules| - 1], text);
    }
  }

  /** There is no default label: an empty note gives no condition. */
  lemma EmptyNote()
    ensures ExtractionSpec("") == []
  {
    assert ToLower("") == "";
    MatchedNothing(ConditionKeywords, "");
  }
}
