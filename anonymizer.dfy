/** The anonymizer: validates its settings, merges the rule-based and NLP
    detections, orders the entities by length and substitutes each with the
    replacement its strategy gives, recording one explanation per entity. */
module Anonymization {
  import opened Wrappers
  import opened Dict
  import opened Entities
  import opened Text
  import Config
  import opened Tokens
  import RuleBased
  import NlpBased

  /*** Settings ***/

  datatype Strategy = ConsistentTokens | Masking | Hashing

  function StrategyName(s: Strategy): string {
    match s
    case ConsistentTokens => "consistent_tokens"
    case Masking => "masking"
    case Hashing => "hashing"
  }

  /** Strategy names are exactly the supported ones, and each names one strategy. */
  function ParseStrategy(name: string): (r: Option<Strategy>)
    ensures r.Some? <==> name in Config.SupportedStrategies
    ensures r.Some? ==> StrategyName(r.value) == name
  {
    if name == "consistent_tokens" then Some(ConsistentTokens)
    else if name == "masking" then Some(Masking)
    else if name == "hashing" then Some(Hashing)
    else None
  }

  lemma StrategyRoundTrip(s: Strategy)
    ensures ParseStrategy(StrategyName(s)) == Some(s)
  {
  }

  /** Python exceptions raised while building an anonymizer. */
  datatype Error = ValueError(message: string) | RuntimeError(message: string)

  /** The checks of `Anonymizer.__init__`: the strategy is checked first,
      then the language. */
  function Validate(strategy: string, lang: string): (r: Result<Strategy, Error>)
    ensures r.Success? <==> strategy in Config.SupportedStrategies && lang in Config.SupportedLanguages
    ensures strategy !in Config.SupportedStrategies ==> r == Failure(ValueError("Unknown strategy: " + strategy))
    ensures strategy in Config.SupportedStrategies && lang !in Config.SupportedLanguages ==>
      r == Failure(ValueError("Unsupported language: " + lang))
    ensures r.Success? ==> StrategyName(r.value) == strategy
  {
    match ParseStrategy(strategy)
    case None => Failure(ValueError("Unknown strategy: " + strategy))
    case Some(s) =>
      if lang !in Config.SupportedLanguages then Failure(ValueError("Unsupported language: " + lang))
      else Success(s)
  }

  /** The default settings are accepted. */
  lemma DefaultsValid()
    ensures Validate(Config.DefaultStrategy, Config.DefaultLanguage) == Success(ConsistentTokens)
  {
  }

  /*** Merging ***/

  /** `{**rule_entities, **nlp_entities}`. */
  function Merge(rule: EntityMap, nlp: EntityMap): (r: EntityMap)
    requires rule.Valid() && nlp.Valid()
    ensures r.Valid()
    ensures forall k :: k in r.vals <==> k in rule.vals || k in nlp.vals
    ensures forall k :: k in nlp.vals ==> r.vals[k] == nlp.vals[k]
    ensures forall k :: k in rule.vals && k !in nlp.vals ==> r.vals[k] == rule.vals[k]
    ensures |rule.keys| <= |r.keys| && r.keys[..|rule.keys|] == rule.keys
  {
    Union(rule, nlp)
  }

  /** Every NLP record has method "nlp" and at least one language. */
  lemma NlpRecordsShape(text: string, lang: string, detected: Option<string>, models: Dict<NlpBased.Model>, k: string)
    requires models.Valid()
    requires k in NlpBased.NlpEntities(text, lang, detected, models).vals
    ensures NlpBased.NlpEntities(text, lang, detected, models).vals[k].detectionMethod == "nlp"
    ensures NlpBased.NlpEntities(text, lang, detected, models).vals[k].languages != []
  {
    match NlpBased.ResolveRoute(lang, detected, models.vals.Keys)
    case SingleModel(l) =>
      NlpBased.SingleModelRecord(models.vals[l](text), l, k);
    case BothModels =>
      NlpBased.BothModelsKeys(NlpBased.Runs(models, text), k);
      NlpBased.BothModelsRecord(NlpBased.Runs(models, text), k);
  }

  /** In the merged map the rule-based keys come first, then the NLP-only
      ones; an entity found by the NLP detector carries the NLP record, and
      one found only by the rules carries the rule record of its first
      category. */
  lemma MergedRecord(lists: seq<seq<string>>, text: string, lang: string, detected: Option<string>,
                     models: Dict<NlpBased.Model>, k: string)
    requires |lists| == |RuleBased.Patterns| && models.Valid()
    ensures var rule, nlp := RuleBased.RuleEntities(lists), NlpBased.NlpEntities(text, lang, detected, models);
      var m := Merge(rule, nlp);
      && m.keys == rule.keys + Fresh(nlp.keys, rule.vals.Keys)
      && (k in m.vals <==> k in RuleBased.Flatten(lists) || k in nlp.vals)
      && (k in nlp.vals ==> m.vals[k] == nlp.vals[k])
      && (k !in nlp.vals && k in RuleBased.Flatten(lists) ==>
            m.vals[k] == RuleBased.RuleRecord(RuleBased.Patterns[RuleBased.FirstCategory(lists, k)].0))
  {
    var rule := RuleBased.RuleEntities(lists);
    RuleBased.RuleEntitiesKeys(lists);
    if k in RuleBased.Flatten(lists) {
      RuleBased.RuleEntitiesRecord(lists, k);
    }
  }

  /*** Ordering ***/

  /** Every earlier element is no longer than every later one. */
  predicate LengthSorted(s: seq<string>) {
    forall i, j :: 0 <= i < j < |s| ==> |s[i]| <= |s[j]|
  }

  /** The elements of `s` of length `n`, in order. */
  function OfLength(s: seq<string>, n: nat): seq<string> {
    if s == [] then []
    else OfLength(s[..|s| - 1], n) + (if |s[|s| - 1]| == n then [s[|s| - 1]] else [])
  }

  /** Insert `x` after every element no longer than it. */
  function InsertByLength(s: seq<string>, x: string): (r: seq<string>)
    ensures |r| == |s| + 1
    ensures forall y :: y in r <==> y in s || y == x
  {
    if s == [] || |s[|s| - 1]| <= |x| then s + [x]
    else
      var init := s[..|s| - 1];
      assert s == init + [s[|s| - 1]];
      InsertByLength(init, x) + [s[|s| - 1]]
  }

  /** `sorted(keys, key=len)`: Python's sort is stable. */
  function SortByLength(s: seq<string>): (r: seq<string>)
    ensures |r| == |s|
    ensures forall y :: y in r <==> y in s
  {
    if s == [] then []
    else
      var init := s[..|s| - 1];
      assert s == init + [s[|s| - 1]];
      InsertByLength(SortByLength(init), s[|s| - 1])
  }

  lemma {:induction false} InsertByLengthSorted(s: seq<string>, x: string)
    requires LengthSorted(s)
    ensures LengthSorted(InsertByLength(s, x))
  {
    if s != [] && |s[|s| - 1]| > |x| {
      var init, y := s[..|s| - 1], s[|s| - 1];
      InsertByLengthSorted(init, x);
      var r := InsertByLength(init, x);
      forall z | z in init ensures |z| <= |y| {
        var j :| 0 <= j < |init| && init[j] == z;
        assert s[j] == z;
      }
      assert forall i :: 0 <= i < |r| ==> |r[i]| <= |y| by {
        forall i | 0 <= i < |r| ensures |r[i]| <= |y| {
          assert r[i] in r;
        }
      }
      assert InsertByLength(s, x) == r + [y];
    }
  }

  lemma {:induction false} InsertByLengthPermutation(s: seq<string>, x: string)
    ensures multiset(InsertByLength(s, x)) == multiset(s) + multiset{x}
  {
    if s != [] && |s[|s| - 1]| > |x| {
      var init, y := s[..|s| - 1], s[|s| - 1];
      assert s == init + [y];
      InsertByLengthPermutation(init, x);
    }
  }

  lemma OfLengthSnoc(s: seq<string>, y: string, n: nat)
    ensures OfLength(s + [y], n) == OfLength(s, n) + (if |y| == n then [y] else [])
  {
    assert (s + [y])[..|s|] == s;
  }

  lemma {:induction false} InsertByLengthStable(s: seq<string>, x: string, n: nat)
    ensures OfLength(InsertByLength(s, x), n) == OfLength(s, n) + (if |x| == n then [x] else [])
  {
    if s == [] || |s[|s| - 1]| <= |x| {
      OfLengthSnoc(s, x, n);
    } else {
      var init, y := s[..|s| - 1], s[|s| - 1];
      var r := InsertByLength(init, x);
      assert InsertByLength(s, x) == r + [y];
      InsertByLengthStable(init, x, n);
      OfLengthSnoc(r, y, n);
      OfLengthSnoc(init, y, n);
      assert s == init + [y];
    }
  }

  /** The processing order is sorted by length, is a permutation of the keys,
      and keeps keys of equal length in their original relative order. */
  lemma {:induction false} SortByLengthCorrect(s: seq<string>)
    ensures LengthSorted(SortByLength(s))
    ensures multiset(SortByLength(s)) == multiset(s)
    ensures forall n: nat :: OfLength(SortByLength(s), n) == OfLength(s, n)
  {
    if s != [] {
      var init, x := s[..|s| - 1], s[|s| - 1];
      SortByLengthCorrect(init);
      InsertByLengthSorted(SortByLength(init), x);
      InsertByLengthPermutation(SortByLength(init), x);
      assert s == init + [x];
      forall n: nat ensures OfLength(SortByLength(s), n) == OfLength(s, n) {
        InsertByLengthStable(SortByLength(init), x, n);
      }
    }
  }

  lemma {:induction false} InsertByLengthDistinct(s: seq<string>, x: string)
    requires Distinct(s) && x !in s
    ensures Distinct(InsertByLength(s, x))
  {
    if s == [] || |s[|s| - 1]| <= |x| {
      DistinctSnoc(s, x);
    } else {
      var init, y := s[..|s| - 1], s[|s| - 1];
      assert s == init + [y];
      InsertByLengthDistinct(init, x);
      DistinctSnoc(InsertByLength(init, x), y);
    }
  }

  /** Distinct keys stay distinct once sorted. */
  lemma {:induction false} SortByLengthDistinct(s: seq<string>)
    requires Distinct(s)
    ensures Distinct(SortByLength(s))
  {
    if s != [] {
      var init, x := s[..|s| - 1], s[|s| - 1];
      assert s == init + [x];
      SortByLengthDistinct(init);
      InsertByLengthDistinct(SortByLength(init), x);
    }
  }

  /*** Substitution ***/

  /** One entry of the explanation list. */
  datatype Explanation = Explanation(entity: string, detectionMethod: string, entityType: string, replacement: string)

  /** What `_apply_strategy` leaves behind: the text, the explanations and the
      token store. */
  datatype Outcome = Outcome(text: string, explanations: seq<Explanation>, store: map<string, string>)

  /** The tokens handed out to the entities of `order`, one after the other,
      and the store afterwards; the i-th entity draws `uuid(i)` should it
      need a new token. */
  function TokenRun(store: map<string, string>, order: seq<string>, uuid: nat -> UuidHex): (run: (seq<string>, map<string, string>))
    ensures |run.0| == |order|
  {
    if order == [] then ([], store)
    else
      var n := |order| - 1;
      var prev := TokenRun(store, order[..n], uuid);
      (prev.0 + [TokenFor(prev.1, order[n], uuid(n))], Remember(prev.1, order[n], uuid(n)))
  }

  /** The replacement of each entity of `order` under `strategy`. */
  function Replacements(strategy: Strategy, order: seq<string>, store: map<string, string>,
                        uuid: nat -> UuidHex, pyHash: string -> int): (reps: seq<string>)
    ensures |reps| == |order|
  {
    match strategy
    case ConsistentTokens => TokenRun(store, order, uuid).0
    case Masking => seq(|order|, i requires 0 <= i < |order| => MaskEntity(order[i]))
    case Hashing => seq(|order|, i requires 0 <= i < |order| => HashEntity(order[i], pyHash))
  }

  /** The token store once every entity of `order` has been replaced. */
  function StoreAfter(strategy: Strategy, order: seq<string>, store: map<string, string>, uuid: nat -> UuidHex): map<string, string> {
    if strategy == ConsistentTokens then TokenRun(store, order, uuid).1 else store
  }

  /** Replace every occurrence of each entity by its replacement, one entity
      after the other, each time in the text produced so far. */
  function ReplaceEach(text: string, order: seq<string>, reps: seq<string>): string
    requires |reps| == |order|
  {
    if order == [] then text
    else
      var n := |order| - 1;
      ReplaceAll(ReplaceEach(text, order[..n], reps[..n]), order[n], reps[n])
  }

  /** The explanation of each entity of `order`. */
  function Explain(entities: EntityMap, order: seq<string>, reps: seq<string>): (ex: seq<Explanation>)
    requires |reps| == |order| && forall e :: e in order ==> e in entities.vals
    ensures |ex| == |order|
  {
    seq(|order|, i requires 0 <= i < |order| =>
      Explanation(order[i], entities.vals[order[i]].detectionMethod, entities.vals[order[i]].entityType.GetOr(""), reps[i]))
  }

  lemma ExplainFields(entities: EntityMap, order: seq<string>, reps: seq<string>)
    requires |reps| == |order| && forall e :: e in order ==> e in entities.vals
    ensures forall i :: 0 <= i < |order| ==>
      var x := Explain(entities, order, reps)[i];
      && x.entity == order[i] && x.replacement == reps[i]
      && x.detectionMethod == entities.vals[order[i]].detectionMethod
      && x.entityType == entities.vals[order[i]].entityType.GetOr("")
  {
  }

  lemma ExplainSnoc(entities: EntityMap, order: seq<string>, reps: seq<string>, e: string, r: string)
    requires |reps| == |order| && forall x :: x in order ==> x in entities.vals
    requires e in entities.vals
    ensures Explain(entities, order + [e], reps + [r])
         == Explain(entities, order, reps)
            + [Explanation(e, entities.vals[e].detectionMethod, entities.vals[e].entityType.GetOr(""), r)]
  {
  }

  /** The loop of `_apply_strategy` over the entities of `order`. */
  function Substitute(strategy: Strategy, text: string, entities: EntityMap, order: seq<string>,
                      store: map<string, string>, uuid: nat -> UuidHex, pyHash: string -> int): Outcome
    requires forall e :: e in order ==> e in entities.vals
  {
    var reps := Replacements(strategy, order, store, uuid, pyHash);
    Outcome(ReplaceEach(text, order, reps), Explain(entities, order, reps), StoreAfter(strategy, order, store, uuid))
  }

  /** With consistent tokens the store only grows, by exactly the processed
      entities, and holds tokens only; every replacement is the token the
      final store holds for its entity, which for an entity known before is
      its earlier token. */
  lemma {:induction false} TokenRunStore(store: map<string, string>, order: seq<string>, uuid: nat -> UuidHex)
    requires StoreValid(store)
    ensures var run := TokenRun(store, order, uuid);
      && StoreValid(run.1)
      && (forall e :: e in run.1 <==> e in store || e in order)
      && (forall e :: e in store ==> run.1[e] == store[e])
      && forall i :: 0 <= i < |order| ==>
           && run.0[i] == run.1[order[i]]
           && IsToken(run.0[i])
           && (order[i] in store ==> run.0[i] == store[order[i]])
  {
    if order != [] {
      var n := |order| - 1;
      var prev := TokenRun(store, order[..n], uuid);
      TokenRunStore(store, order[..n], uuid);
      TokenConsistent(prev.1, order[n], uuid(n), uuid(n));
      assert order == order[..n] + [order[n]];
    }
  }

  lemma TokenRunSnoc(store: map<string, string>, order: seq<string>, e: string, uuid: nat -> UuidHex)
    ensures var prev := TokenRun(store, order, uuid);
      TokenRun(store, order + [e], uuid) == (prev.0 + [TokenFor(prev.1, e, uuid(|order|))], Remember(prev.1, e, uuid(|order|)))
  {
    assert (order + [e])[..|order|] == order;
  }

  lemma ReplacementsSnoc(strategy: Strategy, order: seq<string>, e: string, store: map<string, string>,
                         uuid: nat -> UuidHex, pyHash: string -> int)
    ensures Replacements(strategy, order + [e], store, uuid, pyHash)
         == Replacements(strategy, order, store, uuid, pyHash)
            + [Replacement(strategy, StoreAfter(strategy, order, store, uuid), e, uuid(|order|), pyHash)]
    ensures StoreAfter(strategy, order + [e], store, uuid)
         == if strategy == ConsistentTokens then Remember(StoreAfter(strategy, order, store, uuid), e, uuid(|order|))
            else StoreAfter(strategy, order, store, uuid)
  {
    TokenRunSnoc(store, order, e, uuid);
  }

  /** The replacement for `entity` under `strategy`, given the token store
      and the UUID that a new token would use. */
  function Replacement(strategy: Strategy, store: map<string, string>, entity: string,
                       hex: UuidHex, pyHash: string -> int): (r: string)
    ensures strategy == ConsistentTokens ==> (entity in store ==> r == store[entity]) && (StoreValid(store) ==> IsToken(r))
    ensures strategy == Masking ==> |r| == |entity|
    ensures strategy == Hashing ==> |r| >= 6 && r[..5] == "HASH_" && AllDigits(r[5..])
  {
    match strategy
    case ConsistentTokens => TokenFor(store, entity, hex)
    case Masking => MaskEntity(entity)
    case Hashing => HashEntity(entity, pyHash)
  }

  lemma SliceSnoc(s: seq<string>, i: nat)
    requires i < |s|
    ensures s[..i + 1] == s[..i] + [s[i]]
  {
  }

  lemma ReplaceEachSnoc(text: string, order: seq<string>, reps: seq<string>, e: string, r: string)
    requires |reps| == |order|
    ensures ReplaceEach(text, order + [e], reps + [r]) == ReplaceAll(ReplaceEach(text, order, reps), e, r)
  {
    assert (order + [e])[..|order|] == order;
    assert (reps + [r])[..|reps|] == reps;
  }

  /** Length-preserving replacements keep the text's length; in particular
      masking does. */
  lemma {:induction false} ReplaceEachLength(text: string, order: seq<string>, reps: seq<string>)
    requires |reps| == |order|
    requires forall i :: 0 <= i < |order| ==> |reps[i]| == |order[i]|
    ensures |ReplaceEach(text, order, reps)| == |text|
  {
    if order != [] {
      var n := |order| - 1;
      ReplaceEachLength(text, order[..n], reps[..n]);
    }
  }

  lemma MaskingKeepsLength(text: string, entities: EntityMap, order: seq<string>,
                           store: map<string, string>, uuid: nat -> UuidHex, pyHash: string -> int)
    requires forall e :: e in order ==> e in entities.vals
    ensures |Substitute(Masking, text, entities, order, store, uuid, pyHash).text| == |text|
  {
    ReplaceEachLength(text, order, Replacements(Masking, order, store, uuid, pyHash));
  }

  /** An entity that no longer occurs in the text produced so far leaves
      the text unchanged (its explanation is still recorded). */
  lemma AbsentEntityUnchanged(text: string, order: seq<string>, reps: seq<string>, i: nat)
    requires |reps| == |order| && i < |order| && |order[i]| > 0
    requires !Contains(ReplaceEach(text, order[..i], reps[..i]), order[i])
    ensures ReplaceEach(text, order[..i + 1], reps[..i + 1]) == ReplaceEach(text, order[..i], reps[..i])
  {
    assert order[..i + 1][..i] == order[..i];
    assert reps[..i + 1][..i] == reps[..i];
    ReplaceAllAbsent(ReplaceEach(text, order[..i], reps[..i]), order[i], reps[i]);
  }

  /** `_apply_strategy(text, entities)` as a function of the token store
      before the call. */
  function ApplyOutcome(strategy: Strategy, text: string, entities: EntityMap, store: map<string, string>,
                        uuid: nat -> UuidHex, pyHash: string -> int): (out: Outcome)
    requires entities.Valid()
    ensures |out.explanations| == |entities.keys|
    ensures strategy != ConsistentTokens ==> out.store == store
  {
    var order := SortByLength(entities.keys);
    assert forall e :: e in order ==> e in entities.keys;
    Substitute(strategy, text, entities, order, store, uuid, pyHash)
  }

  /** The processing order of a dictionary's keys: sorted by length, each
      key exactly once. */
  lemma ProcessingOrder(entities: EntityMap)
    requires entities.Valid()
    ensures var order := SortByLength(entities.keys);
      && LengthSorted(order) && Distinct(order) && |order| == |entities.keys|
      && forall e :: e in order <==> e in entities.vals
  {
    SortByLengthCorrect(entities.keys);
    SortByLengthDistinct(entities.keys);
  }

  /** An empty entity map leaves the text as it is and explains nothing. */
  lemma ApplyOutcomeEmpty(strategy: Strategy, text: string, entities: EntityMap, store: map<string, string>,
                          uuid: nat -> UuidHex, pyHash: string -> int)
    requires entities.Valid() && entities.keys == []
    ensures ApplyOutcome(strategy, text, entities, store, uuid, pyHash) == Outcome(text, [], store)
  {
  }

  /** The explanations of a substitution, entity by entity. */
  lemma SubstituteExplains(strategy: Strategy, text: string, entities: EntityMap, order: seq<string>,
                           store: map<string, string>, uuid: nat -> UuidHex, pyHash: string -> int)
    requires forall e :: e in order ==> e in entities.vals
    ensures var out := Substitute(strategy, text, entities, order, store, uuid, pyHash);
      && |out.explanations| == |order|
      && forall i :: 0 <= i < |order| ==>
           var x := out.explanations[i];
           && x.entity == order[i]
           && x.replacement == Replacements(strategy, order, store, uuid, pyHash)[i]
           && x.detectionMethod == entities.vals[order[i]].detectionMethod
           && x.entityType == entities.vals[order[i]].entityType.GetOr("")
  {
    ExplainFields(entities, order, Replacements(strategy, order, store, uuid, pyHash));
  }

  lemma SubstituteEntities(strategy: Strategy, text: string, entities: EntityMap, order: seq<string>,
                           store: map<string, string>, uuid: nat -> UuidHex, pyHash: string -> int)
    requires forall e :: e in order ==> e in entities.vals
    ensures var ex := Substitute(strategy, text, entities, order, store, uuid, pyHash).explanations;
      |ex| == |order| && forall i :: 0 <= i < |order| ==> ex[i].entity == order[i]
  {
  }

  /** Every processed entity is explained. */
  lemma SubstituteCovers(strategy: Strategy, text: string, entities: EntityMap, order: seq<string>,
                         store: map<string, string>, uuid: nat -> UuidHex, pyHash: string -> int)
    requires forall e :: e in order ==> e in entities.vals
    ensures var ex := Substitute(strategy, text, entities, order, store, uuid, pyHash).explanations;
      forall e :: e in order ==> exists i :: 0 <= i < |ex| && ex[i].entity == e
  {
    var ex := Substitute(strategy, text, entities, order, store, uuid, pyHash).explanations;
    SubstituteEntities(strategy, text, entities, order, store, uuid, pyHash);
    forall e | e in order ensures exists i :: 0 <= i < |ex| && ex[i].entity == e {
      var i :| 0 <= i < |order| && order[i] == e;
      assert ex[i].entity == e;
    }
  }

  /** Every entity is explained (and, by `ApplyOutcomeFields`, nothing else). */
  lemma ApplyOutcomeExplanations(strategy: Strategy, text: string, entities: EntityMap, store: map<string, string>,
                                 uuid: nat -> UuidHex, pyHash: string -> int)
    requires entities.Valid()
    ensures var out := ApplyOutcome(strategy, text, entities, store, uuid, pyHash);
      && |out.explanations| == |entities.keys|
      && forall e :: e in entities.vals ==> exists i :: 0 <= i < |out.explanations| && out.explanations[i].entity == e
  {
    var order := SortByLength(entities.keys);
    assert forall e :: e in order ==> e in entities.vals;
    assert forall e :: e in entities.vals ==> e in order;
    SubstituteEntities(strategy, text, entities, order, store, uuid, pyHash);
    SubstituteCovers(strategy, text, entities, order, store, uuid, pyHash);
  }

  /** Each entity is explained once, in order of non-decreasing length. */
  lemma ApplyOutcomeOrder(strategy: Strategy, text: string, entities: EntityMap, store: map<string, string>,
                          uuid: nat -> UuidHex, pyHash: string -> int)
    requires entities.Valid()
    ensures var ex := ApplyOutcome(strategy, text, entities, store, uuid, pyHash).explanations;
      forall i, j :: 0 <= i < j < |ex| ==> ex[i].entity != ex[j].entity && |ex[i].entity| <= |ex[j].entity|
  {
    var order := SortByLength(entities.keys);
    ProcessingOrder(entities);
    SubstituteEntities(strategy, text, entities, order, store, uuid, pyHash);
  }

  /** Each explanation carries its entity's detection method and type (""
      when it has none). */
  lemma ApplyOutcomeFields(strategy: Strategy, text: string, entities: EntityMap, store: map<string, string>,
                           uuid: nat -> UuidHex, pyHash: string -> int)
    requires entities.Valid()
    ensures var out := ApplyOutcome(strategy, text, entities, store, uuid, pyHash);
      forall i :: 0 <= i < |out.explanations| ==>
        var x := out.explanations[i];
        && x.entity in entities.vals
        && x.detectionMethod == entities.vals[x.entity].detectionMethod
        && x.entityType == entities.vals[x.entity].entityType.GetOr("")
  {
    var order := SortByLength(entities.keys);
    assert forall e :: e in order ==> e in entities.vals;
    SubstituteExplains(strategy, text, entities, order, store, uuid, pyHash);
  }

  /** The replacement of each processed entity under each strategy. */
  lemma ReplacementsMeaning(strategy: Strategy, order: seq<string>, store: map<string, string>,
                            uuid: nat -> UuidHex, pyHash: string -> int)
    requires StoreValid(store)
    ensures var reps, after := Replacements(strategy, order, store, uuid, pyHash), StoreAfter(strategy, order, store, uuid);
      forall i :: 0 <= i < |order| ==>
        && (strategy == ConsistentTokens ==> order[i] in after && reps[i] == after[order[i]] && IsToken(reps[i])
                                             && (order[i] in store ==> reps[i] == store[order[i]]))
        && (strategy == Masking ==> reps[i] == MaskEntity(order[i]))
        && (strategy == Hashing ==> reps[i] == HashEntity(order[i], pyHash))
  {
    TokenRunStore(store, order, uuid);
  }

  /** The replacement recorded for each processed entity, by strategy. */
  lemma SubstituteReplacements(strategy: Strategy, text: string, entities: EntityMap, order: seq<string>,
                               store: map<string, string>, uuid: nat -> UuidHex, pyHash: string -> int)
    requires forall e :: e in order ==> e in entities.vals
    requires StoreValid(store)
    ensures var out := Substitute(strategy, text, entities, order, store, uuid, pyHash);
      forall i :: 0 <= i < |out.explanations| ==>
        var e, r := out.explanations[i].entity, out.explanations[i].replacement;
        && (strategy == ConsistentTokens ==> e in out.store && r == out.store[e] && IsToken(r)
                                             && (e in store ==> r == store[e]))
        && (strategy == Masking ==> r == MaskEntity(e))
        && (strategy == Hashing ==> r == HashEntity(e, pyHash))
  {
    SubstituteExplains(strategy, text, entities, order, store, uuid, pyHash);
    ReplacementsMeaning(strategy, order, store, uuid, pyHash);
  }

  /** The replacement each strategy gives an entity: the token the store
      ends up holding for it (the earlier one if it was known), its mask, or
      its hash. */
  lemma ApplyOutcomeReplacements(strategy: Strategy, text: string, entities: EntityMap, store: map<string, string>,
                                 uuid: nat -> UuidHex, pyHash: string -> int)
    requires entities.Valid() && StoreValid(store)
    ensures var out := ApplyOutcome(strategy, text, entities, store, uuid, pyHash);
      forall i :: 0 <= i < |out.explanations| ==>
        var e, r := out.explanations[i].entity, out.explanations[i].replacement;
        && (strategy == ConsistentTokens ==> e in out.store && r == out.store[e] && IsToken(r)
                                             && (e in store ==> r == store[e]))
        && (strategy == Masking ==> r == MaskEntity(e))
        && (strategy == Hashing ==> r == HashEntity(e, pyHash))
  {
    var order := SortByLength(entities.keys);
    assert forall e :: e in order ==> e in entities.vals;
    SubstituteReplacements(strategy, text, entities, order, store, uuid, pyHash);
  }

  /** The token store after the call holds tokens only, keeps every earlier
      token and, with consistent tokens, gains exactly the entities. */
  lemma ApplyOutcomeStore(strategy: Strategy, text: string, entities: EntityMap, store: map<string, string>,
                          uuid: nat -> UuidHex, pyHash: string -> int)
    requires entities.Valid() && StoreValid(store)
    ensures var out := ApplyOutcome(strategy, text, entities, store, uuid, pyHash);
      && StoreValid(out.store)
      && (forall e :: e in out.store <==> e in store || (strategy == ConsistentTokens && e in entities.vals))
      && (forall e :: e in store ==> out.store[e] == store[e])
  {
    var order := SortByLength(entities.keys);
    assert forall e :: e in order ==> e in entities.vals;
    TokenRunStore(store, order, uuid);
  }

  /*** The anonymizer ***/

  class Anonymizer {
    const strategy: Strategy
    const lang: string
    const tokenManager: TokenManager
    const nlpBased: NlpBased.NlpBasedDetector

    ghost predicate Valid()
      reads tokenManager
    {
      tokenManager.Valid() && nlpBased.Valid() && lang in Config.SupportedLanguages
    }

    constructor FromParts(strategy: Strategy, lang: string, nlpBased: NlpBased.NlpBasedDetector)
      requires nlpBased.Valid() && lang in Config.SupportedLanguages
      ensures this.strategy == strategy && this.lang == lang && this.nlpBased == nlpBased
      ensures fresh(tokenManager) && tokenManager.tokenStore == map[]
      ensures Valid()
    {
      this.strategy := strategy;
      this.lang := lang;
      this.nlpBased := nlpBased;
      this.tokenManager := new TokenManager();
    }

    /** `Anonymizer(strategy, lang)`: the settings are validated before any
        model is loaded; a missing model then fails the construction. */
    static method Create(strategy: string, lang: string, load: string -> Option<NlpBased.Model>)
      returns (r: Result<Anonymizer, Error>)
      ensures Validate(strategy, lang).Failure? ==> r == Failure(Validate(strategy, lang).error)
      ensures Validate(strategy, lang).Success? && NlpBased.MissingLanguages(Config.SpacyModels, load) != [] ==>
        r == Failure(RuntimeError(NlpBased.LoadFailure(NlpBased.MissingLanguages(Config.SpacyModels, load))))
      ensures r.Success? <==> Validate(strategy, lang).Success? && NlpBased.MissingLanguages(Config.SpacyModels, load) == []
      ensures r.Success? ==>
        && fresh(r.value) && fresh(r.value.tokenManager) && r.value.Valid()
        && StrategyName(r.value.strategy) == strategy && r.value.lang == lang
        && r.value.tokenManager.tokenStore == map[]
        && r.value.nlpBased.models.keys == KeysOf(Config.SpacyModels)
        && forall i :: 0 <= i < |Config.SpacyModels| ==>
             load(Config.SpacyModels[i].1).Some? &&
             r.value.nlpBased.models.vals[Config.SpacyModels[i].0] == load(Config.SpacyModels[i].1).value
    {
      var settings := Validate(strategy, lang);
      if settings.Failure? {
        return Failure(settings.error);
      }
      var detector := NlpBased.NlpBasedDetector.Create(load);
      if detector.Failure? {
        return Failure(RuntimeError(detector.error));
      }
      var anonymizer := new Anonymizer.FromParts(settings.value, lang, detector.value);
      r := Success(anonymizer);
    }

    /** The strategy dispatch of `_apply_strategy` for one entity; `hex` is
        the UUID drawn should a new token be needed. */
    method ReplacementFor(entity: string, hex: UuidHex, pyHash: string -> int) returns (replacement: string)
      requires Valid()
      modifies tokenManager
      ensures Valid()
      ensures replacement == Replacement(strategy, old(tokenManager.tokenStore), entity, hex, pyHash)
      ensures tokenManager.tokenStore ==
        if strategy == ConsistentTokens then Remember(old(tokenManager.tokenStore), entity, hex)
        else old(tokenManager.tokenStore)
    {
      match strategy
      case ConsistentTokens =>
        replacement := tokenManager.GetToken(entity, hex);
      case Masking =>
        replacement := MaskEntity(entity);
      case Hashing =>
        replacement := HashEntity(entity, pyHash);
    }

    /** `_apply_strategy(text, entities)`; `uuid(i)` is the UUID the i-th
        processed entity draws should it need a new token. */
    method ApplyStrategy(text: string, entities: EntityMap, uuid: nat -> UuidHex, pyHash: string -> int)
      returns (anonymized: string, explanations: seq<Explanation>)
      requires Valid() && entities.Valid()
      modifies tokenManager
      ensures Valid()
      ensures ApplyOutcome(strategy, text, entities, old(tokenManager.tokenStore), uuid, pyHash)
           == Outcome(anonymized, explanations, tokenManager.tokenStore)
    {
      var order := SortByLength(entities.keys);
      assert forall e :: e in order ==> e in entities.vals by {
        assert forall e :: e in order ==> e in entities.keys;
      }
      ghost var store := tokenManager.tokenStore;
      anonymized, explanations := text, [];
      ghost var reps: seq<string> := [];
      for i := 0 to |order|
        invariant tokenManager.Valid()
        invariant reps == Replacements(strategy, order[..i], store, uuid, pyHash)
        invariant tokenManager.tokenStore == StoreAfter(strategy, order[..i], store, uuid)
        invariant anonymized == ReplaceEach(text, order[..i], reps)
        invariant explanations == Explain(entities, order[..i], reps)
      {
        var entity := order[i];
        ghost var done := order[..i];
        SliceSnoc(order, i);
        ReplacementsSnoc(strategy, done, entity, store, uuid, pyHash);
        var replacement := ReplacementFor(entity, uuid(i), pyHash);
        ReplaceEachSnoc(text, done, reps, entity, replacement);
        ExplainSnoc(entities, done, reps, entity, replacement);
        anonymized := ReplaceAll(anonymized, entity, replacement);
        var record := entities.vals[entity];
        explanations := explanations + [Explanation(entity, record.detectionMethod, record.entityType.GetOr(""), replacement)];
        reps := reps + [replacement];
      }
      assert order[..|order|] == order;
    }

    /** `anonymize(text)`: rule-based detection, NLP detection with automatic
        language identification, the merge, then `_apply_strategy`.
        `findall`, `langdetect`, `uuid` and `pyHash` stand for the regular
        expression engine, language identification, UUID generation and
        Python's `hash`. */
    method Anonymize(text: string, findall: (string, string) -> seq<string>, langdetect: string -> Option<string>,
                     uuid: nat -> UuidHex, pyHash: string -> int)
      returns (anonymized: string, explanations: seq<Explanation>)
      requires Valid()
      modifies tokenManager
      ensures Valid()
      ensures
        var merged := Merge(RuleBased.RuleEntities(RuleBased.MatchLists(text, findall)),
                            NlpBased.NlpEntities(text, "auto", langdetect(text), nlpBased.models));
        ApplyOutcome(strategy, text, merged, old(tokenManager.tokenStore), uuid, pyHash)
          == Outcome(anonymized, explanations, tokenManager.tokenStore)
    {
      var ruleEntities := RuleBased.Detect(text, findall);
      var nlpEntities := nlpBased.Detect(text, "auto", langdetect);
      var allEntities := Merge(ruleEntities, nlpEntities);
      anonymized, explanations := ApplyStrategy(text, allEntities, uuid, pyHash);
    }
  }
}
