/** Label selectors and the choice of a policy for a pod. */
module Policies {
  import opened ApiTypes

  type Labels = map<string, string>

  datatype Requirement = Requirement(key: string, op: string, values: seq<string>)

  /** `syntaxOk` stands for the character-level validation of label keys and values. */
  datatype LabelSelector = LabelSelector(matchLabels: Labels, matchExpressions: seq<Requirement>, syntaxOk: bool)

  datatype Policy = Policy(
    selector: LabelSelector,
    spyEnabled: bool,
    thresholds: Thresholds,
    evalConfig: EvalConfig,
    actions: Actions)

  predicate ValidRequirement(r: Requirement) {
    || ((r.op == "In" || r.op == "NotIn") && r.values != [])
    || ((r.op == "Exists" || r.op == "DoesNotExist") && r.values == [])
  }

  /** Does metav1.LabelSelectorAsSelector succeed? */
  predicate ValidSelector(s: LabelSelector) {
    s.syntaxOk && forall r :: r in s.matchExpressions ==> ValidRequirement(r)
  }

  predicate Meets(r: Requirement, labels: Labels) {
    match r.op
    case "In" => r.key in labels && labels[r.key] in r.values
    case "NotIn" => r.key !in labels || labels[r.key] !in r.values
    case "Exists" => r.key in labels
    case "DoesNotExist" => r.key !in labels
    case _ => false
  }

  predicate Selects(s: LabelSelector, labels: Labels) {
    && (forall k :: k in s.matchLabels ==> k in labels && labels[k] == s.matchLabels[k])
    && (forall r :: r in s.matchExpressions ==> Meets(r, labels))
  }

  // ---- selectors in the terms of the Kubernetes API ----

  /** In is true of the listed values of a present label, NotIn is its negation, Exists of a present label whatever its
      value, and DoesNotExist is its negation. */
  lemma RequirementMeans(key: string, values: seq<string>, labels: Labels)
    ensures Meets(Requirement(key, "In", values), labels) <==> exists v :: v in values && (key, v) in labels.Items
    ensures Meets(Requirement(key, "NotIn", values), labels) <==> !Meets(Requirement(key, "In", values), labels)
    ensures Meets(Requirement(key, "Exists", values), labels) <==> key in labels
    ensures Meets(Requirement(key, "DoesNotExist", values), labels) <==>
            !Meets(Requirement(key, "Exists", values), labels)
  {
    if key in labels && labels[key] in values {
      assert (key, labels[key]) in labels.Items;
    }
  }

  /** A matchLabels entry is an In requirement with one value. */
  lemma MatchLabelsMean(s: LabelSelector, key: string, value: string, labels: Labels)
    requires key !in s.matchLabels
    ensures Selects(s.(matchLabels := s.matchLabels[key := value]), labels) <==>
            Selects(s.(matchExpressions := s.matchExpressions + [Requirement(key, "In", [value])]), labels)
  {
    var more, r := s.matchLabels[key := value], Requirement(key, "In", [value]);
    assert r in s.matchExpressions + [r];
    assert Meets(r, labels) <==> key in labels && labels[key] == value;
    assert key in more && more[key] == value;
    assert forall k :: k in s.matchLabels ==> k in more && more[k] == s.matchLabels[k];
  }

  /** Requirements are combined by and; a selector without any selects every pod. */
  lemma RequirementsCombine(s: LabelSelector, r: Requirement, labels: Labels)
    ensures Selects(s.(matchExpressions := s.matchExpressions + [r]), labels) <==>
            Selects(s, labels) && Meets(r, labels)
    ensures s.matchLabels == map[] && s.matchExpressions == [] ==> Selects(s, labels)
  {
    var more := s.matchExpressions + [r];
    assert r in more;
    assert forall x :: x in s.matchExpressions ==> x in more;
  }

  /** A selector does not parse exactly when its syntax is wrong or a requirement has an unknown operator, no values
      where some are needed, or values where none may be. */
  lemma InvalidMeans(s: LabelSelector)
    ensures !ValidSelector(s) <==>
            || !s.syntaxOk
            || (exists r :: r in s.matchExpressions && r.op !in ["In", "NotIn", "Exists", "DoesNotExist"])
            || (exists r :: r in s.matchExpressions && r.op in ["In", "NotIn"] && r.values == [])
            || (exists r :: r in s.matchExpressions && r.op in ["Exists", "DoesNotExist"] && r.values != [])
  {
    forall r | r in s.matchExpressions
      ensures !ValidRequirement(r) <==>
              || r.op !in ["In", "NotIn", "Exists", "DoesNotExist"]
              || (r.op in ["In", "NotIn"] && r.values == [])
              || (r.op in ["Exists", "DoesNotExist"] && r.values != [])
    {
      Operators(r.op);
    }
  }

  lemma Operators(op: string)
    ensures op in ["In", "NotIn"] <==> op == "In" || op == "NotIn"
    ensures op in ["Exists", "DoesNotExist"] <==> op == "Exists" || op == "DoesNotExist"
    ensures op in ["In", "NotIn", "Exists", "DoesNotExist"] <==>
            op in ["In", "NotIn"] || op in ["Exists", "DoesNotExist"]
    ensures !(op in ["In", "NotIn"] && op in ["Exists", "DoesNotExist"])
  {
    assert |"In"| == 2 && |"NotIn"| == 5 && |"Exists"| == 6 && |"DoesNotExist"| == 12;
  }

  // ---- the choice of a policy ----

  predicate Chosen(p: Policy, labels: Labels) {
    ValidSelector(p.selector) && Selects(p.selector, labels)
  }

  /** The first policy, in list order, whose selector is valid and matches. */
  function FirstMatch(policies: seq<Policy>, labels: Labels): Option<Policy> {
    if policies == [] then None
    else if Chosen(policies[0], labels) then Some(policies[0])
    else FirstMatch(policies[1..], labels)
  }

  /** FirstMatch in terms of positions: the answer's selector parses and matches and no earlier one does both, and there
      is no answer exactly when none does. */
  lemma {:induction false} FirstMatchIsFirst(policies: seq<Policy>, labels: Labels)
    ensures FirstMatch(policies, labels) == None <==>
            forall i :: 0 <= i < |policies| ==>
              !(ValidSelector(policies[i].selector) && Selects(policies[i].selector, labels))
    ensures FirstMatch(policies, labels).Some? ==>
              exists i :: 0 <= i < |policies| && FirstMatch(policies, labels) == Some(policies[i])
                          && ValidSelector(policies[i].selector) && Selects(policies[i].selector, labels)
                          && forall j :: 0 <= j < i ==>
                               !(ValidSelector(policies[j].selector) && Selects(policies[j].selector, labels))
  {
    if policies != [] {
      if !Chosen(policies[0], labels) {
        var rest := policies[1..];
        FirstMatchIsFirst(rest, labels);
        assert forall i :: 0 < i < |policies| ==> policies[i] == rest[i - 1];
        if FirstMatch(rest, labels).Some? {
          var i :| 0 <= i < |rest| && FirstMatch(rest, labels) == Some(rest[i]) && Chosen(rest[i], labels)
                   && forall j :: 0 <= j < i ==> !Chosen(rest[j], labels);
          assert forall j :: 0 <= j < i + 1 ==> !Chosen(policies[j], labels);
          assert FirstMatch(policies, labels) == Some(policies[i + 1]);
        }
      }
    }
  }

  lemma {:induction false} FirstMatchFound(policies: seq<Policy>, labels: Labels, i: nat)
    requires i < |policies| && Chosen(policies[i], labels)
    requires forall j :: 0 <= j < i ==> !Chosen(policies[j], labels)
    ensures FirstMatch(policies, labels) == Some(policies[i])
  {
    if i > 0 {
      assert !Chosen(policies[0], labels);
      FirstMatchFound(policies[1..], labels, i - 1);
    }
  }
}
