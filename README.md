# PII anonymizer core, modelled in Dafny

This project models the core of a small REST service that anonymizes
personally identifiable information in free text. Three parts make up the core:

- A **rule-based detector**. It runs four regular expressions (email,
  phone or NIF, IP address, credit card) in a fixed order. Each match is
  registered once, under the first category that produced it.
- An **NLP detector**. It holds one spaCy pipeline per configured language
  (English, Portuguese). It picks a pipeline by language identification.
  It falls back to running every pipeline when identification fails or the
  language has no pipeline. On that fallback path, each entity records
  every language whose pipeline reported it.
- The **anonymizer**. It validates its strategy and language. It merges
  both detectors' dictionaries, with NLP records winning. It orders the
  entities by ascending length, with Python's stable sort. It then replaces
  every occurrence of each entity with a consistent random token, a mask or
  a hash, and records one explanation per entity. A **token manager** keeps
  an entity's token once it has been handed out.

Python dictionaries keep insertion order, and the order matters here:
explanations follow it, and on ties the processing order does too. So
`Dict.Dict` pairs the key order with the map. Every loop of the source is a
`method` proved equal to a declarative function, such as "each key once, in
order of first appearance, with its first value". The properties are then
proved as lemmas about those functions. The anonymizer and the token manager
are classes, since the token store is updated in place. Construction that
can raise (`ValueError`, `RuntimeError`) is modelled by static `Create`
methods that return a `Result`.

External behaviour enters as parameters:

- `findall(pattern, text)` stands for `re.findall`.
- A `Model` is a function from a text to its entity spans (`ent.text`,
  `ent.label_`).
- `load(name)` stands for `spacy.load`; `None` means it raised `OSError`.
- `langdetect(text)` stands for language identification; `None` means it
  raised `LangDetectException`.
- `uuid(i)` is the `uuid4().hex` the i-th processed entity draws if it
  needs a new token.
- `pyHash` is Python's `hash`.

Where the code and its own comments or annotations disagree, the model
follows the code:

- The comment at `app/services/anonymizer.py:45` says "descending", but
  `sorted(..., key=len)` sorts by ascending length.
  `Anonymization.SortByLength` sorts ascending. The unit test at
  `app/tests/unit_tests.py:197-213` agrees. It expects "John Doe"
  (8 characters) to get the first hash and the 20-character e-mail address
  the second, so the shorter entity is processed first.
- Masking keeps the length: `mask_entity("John Doe")` is `"J******e"`, with
  six stars. `Tokens.MaskEntity` states this for every entity.
- `anonymize` returns a tuple `(text, explanations)`, although it is
  annotated `dict[str, str]`. The model returns the pair.
- `anonymize` never passes the anonymizer's `lang` to the NLP detector, so
  detection always uses `"auto"`. `Anonymization.Anonymizer.Anonymize` does
  the same.

## Model

| member | source | states |
|---|---|---|
| Dict.Put | app/services/rule_based.py:23-27 | `d[k] = v`: the map is updated; a new key goes last and an existing key keeps its place |
| Dict.InsertIfAbsent | app/services/rule_based.py:23-27 | `if k not in d: d[k] = v`: a present key leaves the dict unchanged; an absent one is appended with `v` |
| Dict.FirstSeen | app/services/rule_based.py:19-27 | the dict an insert-if-absent loop builds: well-formed, keys are the distinct keys in order of first appearance |
| Dict.FirstSeenValue | app/services/rule_based.py:23-27 | the value kept for a key is the one paired with its first occurrence |
| Dict.FirstSeenSnoc | app/services/nlp_based.py:45-51 | one more pair changes the first-seen dict exactly as one insert-if-absent step does |
| Dict.FirstSeenConcat | app/services/rule_based.py:19-27 | over groups processed one after the other, a key's value comes from the first group containing it |
| Dict.Union | app/services/anonymizer.py:27 | `{**a, **b}`: keys of both, `b`'s value on a shared key, `a`'s otherwise, order of `a` then the keys only `b` has |
| Anonymization.Merge | app/services/anonymizer.py:27 | `{**rule, **nlp}`: the keys of both, NLP records win, rule-only keys keep their record, and the rule keys come first in their order |
| RuleBased.MatchLists | app/services/rule_based.py:12-20 | one match list per category, each the `findall` of that category's pattern, in pattern order |
| RuleBased.RuleEntities | app/services/rule_based.py:9-29 | the detector's result, with the loop left out: insert-if-absent over every (match, category) pair in category order; well-formed |
| RuleBased.Detect | app/services/rule_based.py:4-29 | the nested loop's result equals `RuleEntities` of the match lists |
| RuleBased.FirstCategory | app/services/rule_based.py:19-23 | the first category, in pattern order, whose matches contain a string |
| RuleBased.RuleEntitiesKeys | app/services/rule_based.py:19-27 | the keys are all matches of all categories, each once, in order of first match |
| RuleBased.RuleEntitiesEmpty | app/services/rule_based.py:9-29 | the result is empty exactly when no pattern matched |
| RuleBased.RuleEntitiesRecord | app/services/rule_based.py:23-27 | every record is "rule_based", typed by the first matching category; later categories never overwrite it |
| NlpBased.LoadedLanguages | app/services/nlp_based.py:11-13 | a language is loaded exactly when its configured model loads |
| NlpBased.MissingLanguages | app/services/nlp_based.py:11-15 | a language is missing exactly when loading its model raised |
| NlpBased.LoadPartition | app/services/nlp_based.py:11-17 | every configured language is either loaded or missing; with none missing, all are loaded |
| NlpBased.LoadModels | app/services/nlp_based.py:8-15 | the loading loop keeps the loaded pipelines under their languages in configuration order and collects the missing languages in order |
| NlpBased.NlpBasedDetector.Create | app/services/nlp_based.py:6-18 | construction fails exactly when some model is missing, with the message naming all missing languages; otherwise every configured pipeline is held |
| NlpBased.LoadFailure | app/services/nlp_based.py:17-18 | the RuntimeError message starts with "Failed to load spaCy models for languages: "; with one missing language it is that prefix plus the language |
| NlpBased.ResolveRoute | app/services/nlp_based.py:33-54 | a single pipeline is used only if its language is loaded: the given language, or for "auto" "pt" or "en" after a successful identification |
| NlpBased.ResolveAuto | app/services/nlp_based.py:33-36 | with "auto", Portuguese is chosen exactly when "pt" is identified and English for every other answer |
| NlpBased.ResolveFallback | app/services/nlp_based.py:37-54 | both pipelines run exactly when identification raised or the resolved language has no pipeline |
| NlpBased.SingleModelRecord | app/services/nlp_based.py:42-51 | single-pipeline result: each span text once, in order, with its first label, method "nlp" and languages `[lang]` |
| NlpBased.SingleModelEntities | app/services/nlp_based.py:45-51 | the single-pipeline result, with the loop left out: each span text once, with its first label; well-formed |
| NlpBased.SingleModelStep | app/services/nlp_based.py:45-51 | one more span changes the single-pipeline result exactly as one insert-if-absent step does |
| NlpBased.DetectWithModel | app/services/nlp_based.py:43-51 | the single-pipeline loop's result equals `SingleModelEntities` of the pipeline's spans |
| NlpBased.NlpBasedDetector.Detect | app/services/nlp_based.py:21-56 | the result equals `NlpEntities` for the route that language identification selects |
| NlpBased.NlpEntities | app/services/nlp_based.py:30-56 | the detector's result, by the route `ResolveRoute` selects: a single pipeline's result or the fallback result; well-formed |
| NlpBased.Runs | app/services/nlp_based.py:65-66 | each loaded pipeline's spans on the text, in the models' order |
| NlpBased.ReportingLanguages | app/services/nlp_based.py:74-76 | the languages whose pipeline reported a text; empty exactly when none did |
| NlpBased.BothModelsEntities | app/services/nlp_based.py:62-78 | the fallback result, with the loop left out: the first record of each text, with every reporting language; well-formed |
| NlpBased.BothUpdate | app/services/nlp_based.py:68-76 | one loop step: a new text is appended with `[lang]`; a known text keeps its place, method and type, and gains `lang` unless it already lists it; no other key changes |
| NlpBased.BothModelsEmptyRun | app/services/nlp_based.py:65-67 | a pipeline that reports nothing changes nothing |
| NlpBased.BothModelsStep | app/services/nlp_based.py:67-76 | one span changes the fallback result exactly as the loop body does: register a new text, or append a new language |
| NlpBased.AddRun | app/services/nlp_based.py:65-76 | one pipeline's pass turns the result of the earlier pipelines into the result that includes this one |
| NlpBased.NlpBasedDetector.DetectWithBothModels | app/services/nlp_based.py:58-78 | the nested loop's result equals `BothModelsEntities` of all the pipelines' runs |
| NlpBased.BothModelsKeys | app/services/nlp_based.py:62-78 | the fallback keys are the texts any pipeline reported, each once, in order of first report |
| NlpBased.ReportingLanguagesDistinct | app/services/nlp_based.py:75-76 | a text's language list has no repetition |
| NlpBased.BothModelsFirstRecord | app/services/nlp_based.py:67-73 | a text is first registered with the first label and the language of the first pipeline that reports it |
| NlpBased.BothModelsRecord | app/services/nlp_based.py:67-76 | a fallback record has method "nlp", the first label of the first reporting pipeline, and exactly the reporting languages, starting with that pipeline |
| Tokens.NewToken | app/utils/token_manager.py:13 | a new token is "TOKEN_" and the first eight hex digits of the UUID |
| Tokens.TokensMayCollide | app/utils/token_manager.py:13 | two different UUIDs can give the same token |
| Tokens.TokenFor | app/utils/token_manager.py:12-14 | the stored token for a known entity, a new one otherwise |
| Tokens.Remember | app/utils/token_manager.py:12-13 | the store gains the entity, and no earlier token changes |
| Tokens.TokenConsistent | app/utils/token_manager.py:7-14 | the store stays token-valued; asking again for the same entity returns the same token, whatever UUID comes next |
| Tokens.TokenManager.constructor | app/utils/token_manager.py:4-5 | the store starts empty |
| Tokens.TokenManager.GetToken | app/utils/token_manager.py:7-14 | returns `TokenFor` of the old store; the new store is `Remember` of the old one |
| Tokens.MaskEntity | app/utils/token_manager.py:22-28 | the mask keeps the length; up to two characters become all stars; otherwise the ends are kept and the inside is stars |
| Tokens.MaskDeterminedByEnds | app/utils/token_manager.py:22-28 | the mask depends only on the length and the end characters; masking a mask changes nothing |
| Tokens.HashEntity | app/utils/token_manager.py:16-20 | "HASH_" followed by `str(hash(entity) % 1000000)`, whose digits read back as that value |
| Tokens.HashLength | app/utils/token_manager.py:20 | a hash replacement has at most eleven characters |
| Tokens.HashCollision | app/utils/token_manager.py:20 | two entities get the same hash exactly when their hashes agree modulo 1000000 |
| Text.ReplaceAll | app/services/anonymizer.py:57 | `str.replace`: replacing a pattern by itself changes nothing, and a same-length replacement keeps the length |
| Text.ReplaceAllAbsent | app/services/anonymizer.py:57 | a text without the pattern is left unchanged |
| Text.ReplaceAllIsJoinOfSplit | app/services/anonymizer.py:57 | `s.replace(p, r) == r.join(s.split(p))` |
| Text.SplitPiecesFree | app/services/anonymizer.py:57 | no original occurrence of the pattern survives between the replacements |
| Text.ParseDecimalOfDecimal | app/utils/token_manager.py:20 | reading back the decimal digits of `n` gives `n` |
| Text.DecimalLength | app/utils/token_manager.py:20 | a number below 10^k has at most k digits |
| Anonymization.ParseStrategy | app/services/anonymizer.py:9-10 | a name parses exactly when it is a supported strategy, and it names what it parses to |
| Anonymization.StrategyRoundTrip | app/services/anonymizer.py:9-10 | parsing a strategy's name gives it back |
| Anonymization.Validate | app/services/anonymizer.py:8-12 | accepts exactly the supported strategy and language; the strategy is checked first; both error messages |
| Anonymization.DefaultsValid | app/services/anonymizer.py:8 | the default strategy and language are accepted |
| Anonymization.Anonymizer.FromParts | app/services/anonymizer.py:13-17 | the settings are stored, and a fresh token manager starts with an empty store |
| Anonymization.Anonymizer.Create | app/services/anonymizer.py:8-17 | a settings error is raised before models load; then a missing model fails with its RuntimeError; otherwise the anonymizer holds the settings, an empty store, and a detector holding every configured pipeline that `load` returned, under its language |
| Anonymization.NlpRecordsShape | app/services/anonymizer.py:23 | every NLP record has method "nlp" and at least one language |
| Anonymization.MergedRecord | app/services/anonymizer.py:22-27 | merged keys are the rule keys then the NLP-only keys; NLP records win; rule-only keys keep the record of their first category |
| Anonymization.InsertByLength | app/services/anonymizer.py:46 | inserting adds exactly one element and loses none |
| Anonymization.SortByLength | app/services/anonymizer.py:46 | the sorted keys have the same length and the same members |
| Anonymization.InsertByLengthSorted | app/services/anonymizer.py:46 | inserting into a length-sorted sequence keeps it sorted |
| Anonymization.InsertByLengthPermutation | app/services/anonymizer.py:46 | inserting adds exactly that element to the multiset |
| Anonymization.InsertByLengthStable | app/services/anonymizer.py:46 | inserting keeps equal-length elements in order, with the new one last |
| Anonymization.SortByLengthCorrect | app/services/anonymizer.py:46 | `sorted(keys, key=len)` is ascending by length, a permutation, and stable |
| Anonymization.SortByLengthDistinct | app/services/anonymizer.py:46 | distinct keys stay distinct after sorting |
| Anonymization.ProcessingOrder | app/services/anonymizer.py:46 | each key is processed exactly once, in ascending length |
| Anonymization.ApplyOutcome | app/services/anonymizer.py:42-67 | `_apply_strategy` as a function of the store before the call: one explanation per entity; the store changes only with consistent tokens |
| Anonymization.TokenRunStore | app/services/anonymizer.py:49-50 | the store grows by exactly the processed entities and keeps its tokens; each replacement is its entity's stored token |
| Anonymization.ReplacementsMeaning | app/services/anonymizer.py:49-54 | each processed entity's replacement is its stored token (the earlier one if known), its mask, or its hash, by strategy |
| Anonymization.Replacement | app/services/anonymizer.py:49-54 | one entity's replacement: the stored token if the entity is known and a token-shaped one in any case, a mask of the same length, or "HASH_" followed by digits |
| Anonymization.ReplaceEachLength | app/services/anonymizer.py:57 | length-preserving replacements keep the text's length |
| Anonymization.MaskingKeepsLength | app/services/anonymizer.py:51-57 | masking never changes the text's length |
| Anonymization.AbsentEntityUnchanged | app/services/anonymizer.py:57 | an entity no longer in the text leaves it unchanged |
| Anonymization.SubstituteExplains | app/services/anonymizer.py:46-65 | one explanation per processed entity, in order, with its method, its type or "", and its replacement |
| Anonymization.SubstituteCovers | app/services/anonymizer.py:46-65 | every processed entity has an explanation |
| Anonymization.SubstituteReplacements | app/services/anonymizer.py:49-65 | the recorded replacement of each processed entity is its stored token (the earlier one if known), its mask or its hash, by strategy |
| Anonymization.ApplyOutcomeEmpty | app/services/anonymizer.py:42-67 | no entities: the text and store are unchanged, with no explanations |
| Anonymization.ApplyOutcomeExplanations | app/services/anonymizer.py:46-65 | there are as many explanations as entities, and every entity is explained |
| Anonymization.ApplyOutcomeOrder | app/services/anonymizer.py:46-65 | explanations are in ascending entity length, and no entity is repeated |
| Anonymization.ApplyOutcomeFields | app/services/anonymizer.py:60-65 | each explanation names a detected entity, with its method and its type, or "" when it has none |
| Anonymization.ApplyOutcomeReplacements | app/services/anonymizer.py:49-54 | a replacement is the entity's stored token (the earlier one if known), its mask, or its hash, by strategy |
| Anonymization.ApplyOutcomeStore | app/services/anonymizer.py:49-50 | the store stays token-valued and keeps earlier tokens; with tokens it gains exactly the entities, and otherwise it is unchanged |
| Anonymization.Anonymizer.ReplacementFor | app/services/anonymizer.py:49-54 | the strategy dispatch: a token (store updated), a mask or a hash (store unchanged) |
| Anonymization.Anonymizer.ApplyStrategy | app/services/anonymizer.py:31-67 | the loop's text, explanations and final store are `ApplyOutcome` of the old store |
| Anonymization.Anonymizer.Anonymize | app/services/anonymizer.py:20-29 | the result is `ApplyOutcome` of the merged rule-based and NLP ("auto") detections |

## Left out

- The regular-expression engine, spaCy pipelines, model loading, language
  identification, UUID generation and Python's `hash` are parameters (see
  above). The four patterns appear as constants, but the model does not
  give their meaning.
- Python's per-process hash salting is not modelled: `pyHash` is one fixed
  function.
- Tokens.TokenManager.GetToken: the model passes in the UUID an entity would
  draw. Python draws a fresh UUID only for a new entity. The model gives the
  i-th processed entity `uuid(i)`, which only renames the random stream.
- NlpBased.NlpBasedDetector.Create: only `OSError` from `spacy.load` is
  caught in the source. Any other exception it raises would propagate, and
  that is not modelled.
- Anonymization.ApplyOutcomeExplanations: it states only that every entity
  is explained. That nothing else is explained is stated by
  `Anonymization.ApplyOutcomeFields`.
- An unknown strategy never reaches `_apply_strategy`, because the
  constructor rejects it. So the `Strategy` datatype has no fourth case, and
  the source's missing `else` branch is not modelled.
- The HTTP layer (`main.py`), the request and response models, the
  commented-out LLM detector and the benchmarking script are not part of
  this model.
