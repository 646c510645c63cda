/** The semantic detector: one spaCy pipeline per configured language, an
    optional language identification step, and a fallback that runs every
    loaded pipeline and merges their findings. Pipelines, model loading and
    language identification are not modelled; they enter as functions. */
module NlpBased {
  import opened Wrappers
  import opened Dict
  import opened Entities
  import Text
  import Config

  /** A named entity of a processed document: `ent.text` and `ent.label_`. */
  datatype Span = Span(text: string, kind: string)

  /** A loaded pipeline applied to a text: the document's `ents`, in order. */
  type Model = string -> seq<Span>

  function NlpRecord(kind: string, languages: seq<string>): EntityRecord {
    EntityRecord("nlp", Some(kind), languages)
  }

  /*** Construction ***/

  /** The configured languages whose model loads, in configuration order. */
  function LoadedLanguages(config: seq<(string, string)>, load: string -> Option<Model>): (ls: seq<string>)
    ensures forall l :: l in ls <==> exists i :: 0 <= i < |config| && config[i].0 == l && load(config[i].1).Some?
  {
    if config == [] then []
    else
      var init := config[..|config| - 1];
      assert forall i :: 0 <= i < |init| ==> init[i] == config[i];
      LoadedLanguages(init, load) + (if load(config[|config| - 1].1).Some? then [config[|config| - 1].0] else [])
  }

  /** The configured languages whose model fails to load, in configuration order. */
  function MissingLanguages(config: seq<(string, string)>, load: string -> Option<Model>): (ls: seq<string>)
    ensures forall l :: l in ls <==> exists i :: 0 <= i < |config| && config[i].0 == l && load(config[i].1).None?
  {
    if config == [] then []
    else
      var init := config[..|config| - 1];
      assert forall i :: 0 <= i < |init| ==> init[i] == config[i];
      MissingLanguages(init, load) + (if load(config[|config| - 1].1).None? then [config[|config| - 1].0] else [])
  }

  /** Every configured language is attempted: each one is either loaded or
      reported missing, and when none is missing all of them are loaded. */
  lemma {:induction false} LoadPartition(config: seq<(string, string)>, load: string -> Option<Model>)
    ensures |LoadedLanguages(config, load)| + |MissingLanguages(config, load)| == |config|
    ensures MissingLanguages(config, load) == [] ==> LoadedLanguages(config, load) == KeysOf(config)
  {
    if config != [] {
      var init := config[..|config| - 1];
      LoadPartition(init, load);
      if MissingLanguages(config, load) == [] {
        assert KeysOf(config) == KeysOf(init) + [config[|config| - 1].0];
      }
    }
  }

  /** The message of the `RuntimeError` raised when models are missing. */
  const LoadFailurePrefix: string := "Failed to load spaCy models for languages: "

  function LoadFailure(missing: seq<string>): (msg: string)
    ensures |msg| >= |LoadFailurePrefix| && msg[..|LoadFailurePrefix|] == LoadFailurePrefix
    ensures |missing| == 1 ==> msg == LoadFailurePrefix + missing[0]
  {
    LoadFailurePrefix + Text.Join(missing, ", ")
  }

  lemma LoadSnoc(config: seq<(string, string)>, i: nat, load: string -> Option<Model>)
    requires i < |config|
    ensures LoadedLanguages(config[..i + 1], load)
         == LoadedLanguages(config[..i], load) + (if load(config[i].1).Some? then [config[i].0] else [])
    ensures MissingLanguages(config[..i + 1], load)
         == MissingLanguages(config[..i], load) + (if load(config[i].1).None? then [config[i].0] else [])
  {
    assert config[..i + 1][..i] == config[..i];
  }

  lemma LoadedBefore(config: seq<(string, string)>, i: nat, load: string -> Option<Model>)
    requires i < |config| && Distinct(KeysOf(config))
    ensures config[i].0 !in LoadedLanguages(config[..i], load)
  {
    forall c | 0 <= c < i ensures config[..i][c].0 != config[i].0 {
      assert KeysOf(config)[c] == config[c].0;
    }
  }

  /** The constructor's loop over the configured (language, model name)
      pairs: try every model, keep the loaded ones in `models`, and collect
      every language whose model is missing. */
  method LoadModels(config: seq<(string, string)>, load: string -> Option<Model>) returns (models: Dict<Model>, missing: seq<string>)
    requires Distinct(KeysOf(config))
    ensures models.Valid()
    ensures models.keys == LoadedLanguages(config, load)
    ensures forall i :: 0 <= i < |config| && load(config[i].1).Some? ==>
      models.vals[config[i].0] == load(config[i].1).value
    ensures missing == MissingLanguages(config, load)
  {
    models, missing := Empty(), [];
    for i := 0 to |config|
      invariant models.Valid()
      invariant models.keys == LoadedLanguages(config[..i], load)
      invariant forall c :: 0 <= c < i && load(config[c].1).Some? ==>
        config[c].0 in models.vals && models.vals[config[c].0] == load(config[c].1).value
      invariant missing == MissingLanguages(config[..i], load)
    {
      var lang, modelName := config[i].0, config[i].1;
      LoadSnoc(config, i, load);
      LoadedBefore(config, i, load);
      var loaded := load(modelName);
      match loaded
      case Some(model) =>
        models := Put(models, lang, model);
      case None =>
        missing := missing + [lang];
    }
    assert config[..|config|] == config;
  }

  /*** Detection ***/

  function Texts(spans: seq<Span>): (ts: seq<string>)
    ensures |ts| == |spans| && forall i :: 0 <= i < |spans| ==> ts[i] == spans[i].text
  {
    seq(|spans|, i requires 0 <= i < |spans| => spans[i].text)
  }

  /** A model's spans paired with the record they would be registered with. */
  function NlpPairs(spans: seq<Span>, lang: string): (ps: seq<(string, EntityRecord)>)
    ensures KeysOf(ps) == Texts(spans)
  {
    seq(|spans|, i requires 0 <= i < |spans| => (spans[i].text, NlpRecord(spans[i].kind, [lang])))
  }

  /** The label of the first span with text `k`. */
  function FirstLabel(spans: seq<Span>, k: string): string
    requires k in Texts(spans)
  {
    spans[FirstIndex(Texts(spans), k)].kind
  }

  /** The single-model result: each span text once, first label wins. */
  function SingleModelEntities(spans: seq<Span>, lang: string): (d: EntityMap)
    ensures d.Valid()
  {
    FirstSeen(NlpPairs(spans, lang))
  }

  /** On the single-model path each text found appears once, in order of
      first appearance, with the first label reported for it, method "nlp"
      and languages `[lang]`. */
  lemma SingleModelRecord(spans: seq<Span>, lang: string, k: string)
    ensures SingleModelEntities(spans, lang).keys == Dedup(Texts(spans))
    ensures k in SingleModelEntities(spans, lang).vals <==> k in Texts(spans)
    ensures k in Texts(spans) ==> SingleModelEntities(spans, lang).vals[k] == NlpRecord(FirstLabel(spans, k), [lang])
  {
  }

  /** One more span of the single-model loop. */
  lemma SingleModelStep(doc: seq<Span>, j: nat, lang: string)
    requires j < |doc|
    ensures SingleModelEntities(doc[..j + 1], lang)
         == InsertIfAbsent(SingleModelEntities(doc[..j], lang), doc[j].text, NlpRecord(doc[j].kind, [lang]))
  {
    var p := (doc[j].text, NlpRecord(doc[j].kind, [lang]));
    assert NlpPairs(doc[..j + 1], lang) == NlpPairs(doc[..j], lang) + [p];
    FirstSeenSnoc(NlpPairs(doc[..j], lang), p);
  }

  /** Each loaded model's output on `text`: (language, spans), in models order. */
  function Runs(models: Dict<Model>, text: string): (runs: seq<(string, seq<Span>)>)
    requires models.Valid()
    ensures KeysOf(runs) == models.keys
    ensures forall i :: 0 <= i < |runs| ==> runs[i].1 == models.vals[models.keys[i]](text)
  {
    seq(|models.keys|, i requires 0 <= i < |models.keys| => (models.keys[i], models.vals[models.keys[i]](text)))
  }

  function RunGroups(runs: seq<(string, seq<Span>)>): (gs: seq<seq<(string, EntityRecord)>>)
    ensures |gs| == |runs| && forall i :: 0 <= i < |runs| ==> gs[i] == NlpPairs(runs[i].1, runs[i].0)
  {
    seq(|runs|, i requires 0 <= i < |runs| => NlpPairs(runs[i].1, runs[i].0))
  }

  /** The languages, in run order, whose model reported `k`. */
  function ReportingLanguages(runs: seq<(string, seq<Span>)>, k: string): (ls: seq<string>)
    ensures forall l :: l in ls <==> exists i :: 0 <= i < |runs| && runs[i].0 == l && k in Texts(runs[i].1)
    ensures ls == [] <==> forall i :: 0 <= i < |runs| ==> k !in Texts(runs[i].1)
  {
    if runs == [] then []
    else
      var init := runs[..|runs| - 1];
      assert forall i :: 0 <= i < |init| ==> init[i] == runs[i];
      ReportingLanguages(init, k) + (if k in Texts(runs[|runs| - 1].1) then [runs[|runs| - 1].0] else [])
  }

  /** The both-models result: type and method from the first report of a
      text, languages from every model that reported it. */
  function BothModelsEntities(runs: seq<(string, seq<Span>)>): (d: EntityMap)
    ensures d.Valid()
  {
    var first := FirstSeen(Concat(RunGroups(runs)));
    Dict(first.keys, map k | k in first.vals :: first.vals[k].(languages := ReportingLanguages(runs, k)))
  }

  /** One step of the both-models loop: a new text is registered, a known
      one gains the current language unless it already lists it. */
  function BothUpdate(d: EntityMap, lang: string, ent: Span): (r: EntityMap)
    requires d.Valid()
    ensures r.Valid()
    ensures forall k :: k in r.vals <==> k in d.vals || k == ent.text
    ensures forall k :: k in d.vals && k != ent.text ==> r.vals[k] == d.vals[k]
    ensures ent.text !in d.vals ==> r.keys == d.keys + [ent.text] && r.vals[ent.text] == NlpRecord(ent.kind, [lang])
    ensures ent.text in d.vals ==>
      && r.keys == d.keys
      && r.vals[ent.text].detectionMethod == d.vals[ent.text].detectionMethod
      && r.vals[ent.text].entityType == d.vals[ent.text].entityType
      && lang in r.vals[ent.text].languages
      && (forall l :: l in r.vals[ent.text].languages <==> l in d.vals[ent.text].languages || l == lang)
  {
    if ent.text !in d.vals then Put(d, ent.text, NlpRecord(ent.kind, [lang]))
    else if lang in d.vals[ent.text].languages then d
    else Put(d, ent.text, d.vals[ent.text].(languages := d.vals[ent.text].languages + [lang]))
  }

  lemma ConcatRunGroupsSnoc(rs: seq<(string, seq<Span>)>, run: (string, seq<Span>))
    ensures Concat(RunGroups(rs + [run])) == Concat(RunGroups(rs)) + NlpPairs(run.1, run.0)
  {
    assert RunGroups(rs + [run])[..|rs|] == RunGroups(rs);
  }

  lemma ReportingLanguagesSnoc(rs: seq<(string, seq<Span>)>, run: (string, seq<Span>), k: string)
    ensures ReportingLanguages(rs + [run], k)
         == ReportingLanguages(rs, k) + (if k in Texts(run.1) then [run.0] else [])
  {
    assert (rs + [run])[..|rs|] == rs;
  }

  /** A text some run reports is a key of the concatenated pairs. */
  lemma KeysOfRunGroups(rs: seq<(string, seq<Span>)>, k: string)
    ensures k in KeysOf(Concat(RunGroups(rs))) <==> exists i :: 0 <= i < |rs| && k in Texts(rs[i].1)
  {
    KeysOfConcat(RunGroups(rs), k);
  }

  lemma ReportingLanguagesEmptyRun(rs: seq<(string, seq<Span>)>, lang: string, k: string)
    ensures ReportingLanguages(rs + [(lang, [])], k) == ReportingLanguages(rs, k)
  {
    ReportingLanguagesSnoc(rs, (lang, []), k);
  }

  /** A model that reports nothing changes nothing. */
  lemma BothModelsEmptyRun(rs: seq<(string, seq<Span>)>, lang: string)
    ensures BothModelsEntities(rs + [(lang, [])]) == BothModelsEntities(rs)
  {
    ConcatRunGroupsSnoc(rs, (lang, []));
    assert Concat(RunGroups(rs)) + NlpPairs([], lang) == Concat(RunGroups(rs));
    var d, e := BothModelsEntities(rs + [(lang, [])]), BothModelsEntities(rs);
    assert d.keys == e.keys;
    forall k ensures (k in d.vals <==> k in e.vals) && (k in d.vals ==> d.vals[k] == e.vals[k]) {
      ReportingLanguagesEmptyRun(rs, lang, k);
    }
    MapExtensional(d.vals, e.vals);
  }

  lemma BothModelsStepFirst(rs: seq<(string, seq<Span>)>, lang: string, ss: seq<Span>, ent: Span)
    ensures FirstSeen(Concat(RunGroups(rs + [(lang, ss + [ent])])))
         == InsertIfAbsent(FirstSeen(Concat(RunGroups(rs + [(lang, ss)]))), ent.text, NlpRecord(ent.kind, [lang]))
  {
    ConcatRunGroupsSnoc(rs, (lang, ss));
    ConcatRunGroupsSnoc(rs, (lang, ss + [ent]));
    assert NlpPairs(ss + [ent], lang) == NlpPairs(ss, lang) + [(ent.text, NlpRecord(ent.kind, [lang]))];
    assert Concat(RunGroups(rs + [(lang, ss + [ent])]))
        == Concat(RunGroups(rs + [(lang, ss)])) + [(ent.text, NlpRecord(ent.kind, [lang]))];
    FirstSeenSnoc(Concat(RunGroups(rs + [(lang, ss)])), (ent.text, NlpRecord(ent.kind, [lang])));
  }

  /** How the languages of the new span's text change in one step. */
  lemma BothModelsStepLanguages(rs: seq<(string, seq<Span>)>, lang: string, ss: seq<Span>, ent: Span)
    requires lang !in KeysOf(rs)
    ensures (var before := ReportingLanguages(rs + [(lang, ss)], ent.text);
             ReportingLanguages(rs + [(lang, ss + [ent])], ent.text)
             == if lang in before then before else before + [lang])
    ensures ent.text !in KeysOf(Concat(RunGroups(rs + [(lang, ss)]))) ==>
            ReportingLanguages(rs + [(lang, ss + [ent])], ent.text) == [lang]
  {
    var k := ent.text;
    ReportingLanguagesSnoc(rs, (lang, ss), k);
    ReportingLanguagesSnoc(rs, (lang, ss + [ent]), k);
    assert Texts(ss + [ent]) == Texts(ss) + [k];
    assert lang !in ReportingLanguages(rs, k);
    if k !in KeysOf(Concat(RunGroups(rs + [(lang, ss)]))) {
      KeysOfRunGroups(rs + [(lang, ss)], k);
      forall i | 0 <= i < |rs| ensures k !in Texts(rs[i].1) {
        assert (rs + [(lang, ss)])[i] == rs[i];
      }
    }
  }

  lemma BothModelsStepOther(rs: seq<(string, seq<Span>)>, lang: string, ss: seq<Span>, ent: Span, k: string)
    requires k != ent.text
    ensures ReportingLanguages(rs + [(lang, ss + [ent])], k) == ReportingLanguages(rs + [(lang, ss)], k)
  {
    ReportingLanguagesSnoc(rs, (lang, ss), k);
    ReportingLanguagesSnoc(rs, (lang, ss + [ent]), k);
    assert Texts(ss + [ent]) == Texts(ss) + [ent.text];
  }

  /** The value of one key after one step of the both-models loop. */
  lemma BothModelsStepValue(rs: seq<(string, seq<Span>)>, lang: string, ss: seq<Span>, ent: Span, k: string)
    requires lang !in KeysOf(rs)
    ensures var d, e := BothModelsEntities(rs + [(lang, ss + [ent])]), BothUpdate(BothModelsEntities(rs + [(lang, ss)]), lang, ent);
      (k in d.vals <==> k in e.vals) && (k in d.vals ==> d.vals[k] == e.vals[k])
  {
    var before, after := rs + [(lang, ss)], rs + [(lang, ss + [ent])];
    var first := FirstSeen(Concat(RunGroups(before)));
    BothModelsStepFirst(rs, lang, ss, ent);
    if k != ent.text {
      BothModelsStepOther(rs, lang, ss, ent, k);
    } else {
      BothModelsStepLanguages(rs, lang, ss, ent);
    }
  }

  lemma BothModelsStepKeys(rs: seq<(string, seq<Span>)>, lang: string, ss: seq<Span>, ent: Span)
    ensures BothModelsEntities(rs + [(lang, ss + [ent])]).keys == BothUpdate(BothModelsEntities(rs + [(lang, ss)]), lang, ent).keys
  {
    BothModelsStepFirst(rs, lang, ss, ent);
  }

  lemma BothModelsStepVals(rs: seq<(string, seq<Span>)>, lang: string, ss: seq<Span>, ent: Span)
    requires lang !in KeysOf(rs)
    ensures BothModelsEntities(rs + [(lang, ss + [ent])]).vals == BothUpdate(BothModelsEntities(rs + [(lang, ss)]), lang, ent).vals
  {
    var d := BothModelsEntities(rs + [(lang, ss + [ent])]);
    var e := BothUpdate(BothModelsEntities(rs + [(lang, ss)]), lang, ent);
    forall k ensures (k in d.vals <==> k in e.vals) && (k in d.vals ==> d.vals[k] == e.vals[k]) {
      BothModelsStepValue(rs, lang, ss, ent, k);
    }
    MapExtensional(d.vals, e.vals);
  }

  /** One span of one model in the both-models loop, given that the models'
      languages are distinct. */
  lemma BothModelsStep(rs: seq<(string, seq<Span>)>, lang: string, ss: seq<Span>, ent: Span)
    requires lang !in KeysOf(rs)
    ensures BothModelsEntities(rs + [(lang, ss + [ent])]) == BothUpdate(BothModelsEntities(rs + [(lang, ss)]), lang, ent)
  {
    BothModelsStepVals(rs, lang, ss, ent);
    BothModelsStepKeys(rs, lang, ss, ent);
  }

  /** Index of the first run whose model reported `k` (`|runs|` if none). */
  function FirstReporting(runs: seq<(string, seq<Span>)>, k: string): (i: nat)
    ensures i <= |runs|
    ensures i < |runs| ==> k in Texts(runs[i].1)
    ensures forall j :: 0 <= j < i ==> k !in Texts(runs[j].1)
  {
    if runs == [] then 0
    else if k in Texts(runs[0].1) then 0
    else 1 + FirstReporting(runs[1..], k)
  }

  lemma {:induction false} ReportingLanguagesDistinct(runs: seq<(string, seq<Span>)>, k: string)
    requires Distinct(KeysOf(runs))
    ensures Distinct(ReportingLanguages(runs, k))
  {
    if runs != [] {
      var init := runs[..|runs| - 1];
      assert KeysOf(init) == KeysOf(runs)[..|runs| - 1];
      ReportingLanguagesDistinct(init, k);
      var last := runs[|runs| - 1];
      assert last.0 !in ReportingLanguages(init, k) by {
        assert last.0 == KeysOf(runs)[|runs| - 1];
      }
    }
  }

  lemma {:induction false} ReportingLanguagesFirst(runs: seq<(string, seq<Span>)>, k: string)
    ensures FirstReporting(runs, k) < |runs| ==>
      ReportingLanguages(runs, k) != [] && ReportingLanguages(runs, k)[0] == runs[FirstReporting(runs, k)].0
  {
    if runs != [] {
      var init := runs[..|runs| - 1];
      ReportingLanguagesFirst(init, k);
      var i := FirstReporting(runs, k);
      if i < |runs| - 1 {
        assert FirstReporting(init, k) == i by {
          var j := FirstReporting(init, k);
          assert j < |init| ==> init[j] == runs[j];
          assert init[i] == runs[i];
        }
      } else if i == |runs| - 1 {
        forall j | 0 <= j < |init| ensures k !in Texts(init[j].1) {
          assert init[j] == runs[j];
        }
      }
    }
  }

  lemma FirstGroupIsFirstReporting(runs: seq<(string, seq<Span>)>, k: string)
    ensures FirstGroup(RunGroups(runs), k) == FirstReporting(runs, k)
  {
    var gs := RunGroups(runs);
    var g, f := FirstGroup(gs, k), FirstReporting(runs, k);
    assert forall j :: 0 <= j < |runs| ==> KeysOf(gs[j]) == Texts(runs[j].1);
    assert g < |runs| ==> k in Texts(runs[g].1);
    assert f < |runs| ==> k in KeysOf(gs[f]);
  }

  /** On the both-models path the texts found are those found by any model,
      each once, in order of first report. */
  lemma BothModelsKeys(runs: seq<(string, seq<Span>)>, k: string)
    ensures BothModelsEntities(runs).keys == Dedup(KeysOf(Concat(RunGroups(runs))))
    ensures k in BothModelsEntities(runs).vals <==> exists i :: 0 <= i < |runs| && k in Texts(runs[i].1)
  {
    KeysOfRunGroups(runs, k);
  }

  /** Before the languages are collected, a text's record is the one the
      first model to report it gave it. */
  lemma BothModelsFirstRecord(runs: seq<(string, seq<Span>)>, k: string)
    requires exists i :: 0 <= i < |runs| && k in Texts(runs[i].1)
    ensures var i := FirstReporting(runs, k);
      && i < |runs|
      && k in FirstSeen(Concat(RunGroups(runs))).vals
      && FirstSeen(Concat(RunGroups(runs))).vals[k] == NlpRecord(FirstLabel(runs[i].1, k), [runs[i].0])
  {
    var gs := RunGroups(runs);
    KeysOfRunGroups(runs, k);
    FirstSeenConcat(gs, k);
    FirstGroupIsFirstReporting(runs, k);
    var g := FirstGroup(gs, k);
    FirstSeenValue(NlpPairs(runs[g].1, runs[g].0), k);
  }

  /** On the both-models path a text's method is "nlp"; its type is the
      first label reported for it by the first model, in models order, that
      reported it; its languages are exactly the models that reported it, in
      models order, without repetition, starting with that first model. */
  lemma BothModelsRecord(runs: seq<(string, seq<Span>)>, k: string)
    requires Distinct(KeysOf(runs))
    requires k in BothModelsEntities(runs).vals
    ensures var r, i := BothModelsEntities(runs).vals[k], FirstReporting(runs, k);
      && i < |runs|
      && r.detectionMethod == "nlp"
      && r.entityType == Some(FirstLabel(runs[i].1, k))
      && r.languages == ReportingLanguages(runs, k)
      && r.languages != [] && r.languages[0] == runs[i].0
      && Distinct(r.languages)
  {
    BothModelsKeys(runs, k);
    BothModelsFirstRecord(runs, k);
    ReportingLanguagesDistinct(runs, k);
    ReportingLanguagesFirst(runs, k);
  }

  /** Which path detection takes. */
  datatype Route = SingleModel(lang: string) | BothModels

  /** `detected` is the result of language identification (`None` when it
      raised), consulted only when `lang` is "auto"; `loaded` holds the
      languages with a model. */
  function ResolveRoute(lang: string, detected: Option<string>, loaded: set<string>): (r: Route)
    ensures r.SingleModel? ==> r.lang in loaded
    ensures r.SingleModel? && lang != "auto" ==> r.lang == lang
    ensures r.SingleModel? && lang == "auto" ==> detected.Some? && (r.lang == "pt" || r.lang == "en")
  {
    if lang == "auto" && detected.None? then BothModels
    else
      var resolved := if lang != "auto" then lang else if detected.value == "pt" then "pt" else "en";
      if resolved in loaded then SingleModel(resolved) else BothModels
  }

  /** With "auto" and a successful identification, Portuguese is chosen
      exactly when "pt" was identified and English for every other answer. */
  lemma ResolveAuto(detected: string, loaded: set<string>)
    requires "en" in loaded && "pt" in loaded
    ensures ResolveRoute("auto", Some(detected), loaded).SingleModel?
    ensures ResolveRoute("auto", Some(detected), loaded).lang == "pt" <==> detected == "pt"
    ensures ResolveRoute("auto", Some(detected), loaded).lang == "en" <==> detected != "pt"
  {
  }

  /** Both models run exactly when identification raised or the resolved
      language has no model. */
  lemma ResolveFallback(lang: string, detected: Option<string>, loaded: set<string>)
    ensures ResolveRoute(lang, detected, loaded).BothModels? <==>
      || (lang == "auto" && detected.None?)
      || (lang != "auto" && lang !in loaded)
      || (lang == "auto" && detected.Some? && (if detected.value == "pt" then "pt" else "en") !in loaded)
  {
  }

  /** The detector's result, by route. */
  function NlpEntities(text: string, lang: string, detected: Option<string>, models: Dict<Model>): (d: EntityMap)
    requires models.Valid()
    ensures d.Valid()
  {
    match ResolveRoute(lang, detected, models.vals.Keys)
    case SingleModel(l) => SingleModelEntities(models.vals[l](text), l)
    case BothModels => BothModelsEntities(Runs(models, text))
  }

  /** The single-model path: run the pipeline for `lang` and register each
      span text the first time it appears. */
  method DetectWithModel(model: Model, text: string, lang: string) returns (entities: EntityMap)
    ensures entities == SingleModelEntities(model(text), lang)
  {
    var doc := model(text);
    entities := Empty();
    for j := 0 to |doc|
      invariant entities == SingleModelEntities(doc[..j], lang)
    {
      var ent := doc[j];
      SingleModelStep(doc, j, lang);
      if ent.text !in entities.vals {
        entities := Put(entities, ent.text, NlpRecord(ent.kind, [lang]));
      }
    }
    assert doc[..|doc|] == doc;
  }

  /** One pass of the both-models loop: the spans of the pipeline for
      `lang` folded into the result of the earlier pipelines. */
  method AddRun(entities: EntityMap, ghost rs: seq<(string, seq<Span>)>, lang: string, doc: seq<Span>)
    returns (r: EntityMap)
    requires entities == BothModelsEntities(rs) && lang !in KeysOf(rs)
    ensures r == BothModelsEntities(rs + [(lang, doc)])
  {
    BothModelsEmptyRun(rs, lang);
    assert doc[..0] == [];
    r := entities;
    for j := 0 to |doc|
      invariant r == BothModelsEntities(rs + [(lang, doc[..j])])
    {
      var ent := doc[j];
      assert doc[..j + 1] == doc[..j] + [ent];
      BothModelsStep(rs, lang, doc[..j], ent);
      if ent.text !in r.vals {
        r := Put(r, ent.text, NlpRecord(ent.kind, [lang]));
      } else if lang !in r.vals[ent.text].languages {
        var record := r.vals[ent.text];
        r := Put(r, ent.text, record.(languages := record.languages + [lang]));
      }
    }
    assert doc[..|doc|] == doc;
  }

  class NlpBasedDetector {
    /** Language to loaded pipeline, in configuration order. */
    const models: Dict<Model>

    ghost predicate Valid() {
      models.Valid()
    }

    constructor FromModels(models: Dict<Model>)
      requires models.Valid()
      ensures this.models == models && Valid()
    {
      this.models := models;
    }

    /** `NLPBasedDetector()`: every configured model is loaded, and the
        construction fails with one error naming all missing languages. */
    static method Create(load: string -> Option<Model>) returns (r: Result<NlpBasedDetector, string>)
      ensures r.Failure? <==> MissingLanguages(Config.SpacyModels, load) != []
      ensures r.Failure? ==> r.error == LoadFailure(MissingLanguages(Config.SpacyModels, load))
      ensures r.Success? ==>
        && fresh(r.value) && r.value.Valid()
        && r.value.models.keys == KeysOf(Config.SpacyModels)
        && forall i :: 0 <= i < |Config.SpacyModels| ==>
             load(Config.SpacyModels[i].1).Some? &&
             r.value.models.vals[Config.SpacyModels[i].0] == load(Config.SpacyModels[i].1).value
    {
      assert Distinct(KeysOf(Config.SpacyModels)) by {
        assert KeysOf(Config.SpacyModels) == ["en", "pt"];
      }
      var models, missing := LoadModels(Config.SpacyModels, load);
      if missing != [] {
        return Failure(LoadFailure(missing));
      }
      LoadPartition(Config.SpacyModels, load);
      var detector := new NlpBasedDetector.FromModels(models);
      r := Success(detector);
    }

    /** `detect(text, lang)`; `langdetect` stands for language identification. */
    method Detect(text: string, lang: string, langdetect: string -> Option<string>) returns (entities: EntityMap)
      requires Valid()
      ensures entities == NlpEntities(text, lang, if lang == "auto" then langdetect(text) else None, models)
    {
      var resolved := lang;
      if lang == "auto" {
        var detected := langdetect(text);
        if detected.None? {
          entities := DetectWithBothModels(text);
          return;
        }
        resolved := if detected.value == "pt" then "pt" else "en";
      }
      if resolved in models.vals {
        entities := DetectWithModel(models.vals[resolved], text, resolved);
      } else {
        entities := DetectWithBothModels(text);
      }
    }

    /** `_detect_with_both_models(text)`. */
    method DetectWithBothModels(text: string) returns (entities: EntityMap)
      requires Valid()
      ensures entities == BothModelsEntities(Runs(models, text))
    {
      ghost var runs := Runs(models, text);
      entities := Empty();
      for i := 0 to |models.keys|
        invariant entities == BothModelsEntities(runs[..i])
      {
        var lang := models.keys[i];
        var doc := models.vals[lang](text);
        assert runs[..i + 1] == runs[..i] + [(lang, doc)];
        assert lang !in KeysOf(runs[..i]) by {
          assert KeysOf(runs[..i]) == models.keys[..i];
        }
        entities := AddRun(entities, runs[..i], lang, doc);
      }
      assert runs[..|runs|] == runs;
    }
  }
}
