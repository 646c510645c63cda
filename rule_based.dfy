/** The pattern detector: one regular expression per category, tried in a
    fixed order, every match registered once under the first category that
    produced it. The regular-expression engine is not modelled: `findall`
    stands for `re.findall(pattern, text)`. */
module RuleBased {
  import opened Wrappers
  import opened Dict
  import opened Entities

  /** (category, pattern) in the order the detector tries them. */
  const Patterns: seq<(string, string)> := [
    ("email", @"\b[\w\.-]+@[\w\.-]+\b"),
    ("phone_or_nif", @"(?:\+\d{1,3}[\s.-]?)?(?:\(?\d{3}\)?[\s.-]?){2}\d{3,4}"),
    ("ip_address", @"\b(?:\d{1,3}\.){3}\d{1,3}\b"),
    ("credit_card", @"\b(?:\d[ -]*?){13,16}\b")
  ]

  function RuleRecord(category: string): EntityRecord {
    EntityRecord("rule_based", Some(category), [])
  }

  /** The matches of every category, in category order. */
  function MatchLists(text: string, findall: (string, string) -> seq<string>): (lists: seq<seq<string>>)
    ensures |lists| == |Patterns|
    ensures forall c :: 0 <= c < |Patterns| ==> lists[c] == findall(Patterns[c].1, text)
  {
    seq(|Patterns|, c requires 0 <= c < |Patterns| => findall(Patterns[c].1, text))
  }

  /** The matches of category `c` paired with the record they would get. */
  function Tag(matches: seq<string>, c: nat): (ps: seq<(string, EntityRecord)>)
    requires c < |Patterns|
    ensures KeysOf(ps) == matches
  {
    seq(|matches|, i requires 0 <= i < |matches| => (matches[i], RuleRecord(Patterns[c].0)))
  }

  function Groups(lists: seq<seq<string>>): (gs: seq<seq<(string, EntityRecord)>>)
    requires |lists| <= |Patterns|
    ensures |gs| == |lists|
    ensures forall c :: 0 <= c < |lists| ==> gs[c] == Tag(lists[c], c)
  {
    seq(|lists|, c requires 0 <= c < |lists| => Tag(lists[c], c))
  }

  /** The detector's result for the given match lists: the insert-if-absent
      loop over every (match, category) in order. */
  function RuleEntities(lists: seq<seq<string>>): (d: EntityMap)
    requires |lists| <= |Patterns|
    ensures d.Valid()
  {
    FirstSeen(Concat(Groups(lists)))
  }

  /** `RuleBasedDetector.detect`. */
  method Detect(text: string, findall: (string, string) -> seq<string>) returns (entities: EntityMap)
    ensures entities == RuleEntities(MatchLists(text, findall))
  {
    ghost var lists := MatchLists(text, findall);
    entities := Empty();
    for i := 0 to |Patterns|
      invariant entities == RuleEntities(lists[..i])
    {
      var category, pattern := Patterns[i].0, Patterns[i].1;
      var matches := findall(pattern, text);
      assert Tag(matches[..0], i) == [];
      assert Concat(Groups(lists[..i])) + [] == Concat(Groups(lists[..i]));
      for j := 0 to |matches|
        invariant entities == FirstSeen(Concat(Groups(lists[..i])) + Tag(matches[..j], i))
      {
        var m := matches[j];
        RuleStep(Concat(Groups(lists[..i])), matches, i, j);
        if m !in entities.vals {
          entities := Put(entities, m, RuleRecord(category));
        }
      }
      RuleCategoryDone(lists, i);
    }
    assert lists[..|Patterns|] == lists;
  }

  /** Registering one more match of category `c`. */
  lemma RuleStep(done: seq<(string, EntityRecord)>, matches: seq<string>, c: nat, j: nat)
    requires c < |Patterns| && j < |matches|
    ensures FirstSeen(done + Tag(matches[..j + 1], c))
         == InsertIfAbsent(FirstSeen(done + Tag(matches[..j], c)), matches[j], RuleRecord(Patterns[c].0))
  {
    var p := (matches[j], RuleRecord(Patterns[c].0));
    assert Tag(matches[..j + 1], c) == Tag(matches[..j], c) + [p];
    assert done + Tag(matches[..j + 1], c) == (done + Tag(matches[..j], c)) + [p];
    FirstSeenSnoc(done + Tag(matches[..j], c), p);
  }

  /** After all matches of category `i`, the first `i + 1` categories are done. */
  lemma RuleCategoryDone(lists: seq<seq<string>>, i: nat)
    requires i < |lists| <= |Patterns|
    ensures FirstSeen(Concat(Groups(lists[..i])) + Tag(lists[i][..|lists[i]|], i)) == RuleEntities(lists[..i + 1])
  {
    assert lists[i][..|lists[i]|] == lists[i];
    var gs := Groups(lists[..i + 1]);
    assert gs[..i] == Groups(lists[..i]);
    assert Concat(gs) == Concat(gs[..i]) + gs[i];
  }

  /** All matches one list after the other. */
  function Flatten(lists: seq<seq<string>>): (s: seq<string>)
    ensures forall m :: m in s <==> exists c :: 0 <= c < |lists| && m in lists[c]
  {
    if lists == [] then []
    else
      var init := lists[..|lists| - 1];
      assert forall c :: 0 <= c < |init| ==> init[c] == lists[c];
      Flatten(init) + lists[|lists| - 1]
  }

  /** Index of the first category whose matches contain `m` (`|lists|` if none). */
  function FirstCategory(lists: seq<seq<string>>, m: string): (c: nat)
    ensures c <= |lists|
    ensures c < |lists| ==> m in lists[c]
    ensures forall j :: 0 <= j < c ==> m !in lists[j]
  {
    if lists == [] then 0
    else if m in lists[0] then 0
    else 1 + FirstCategory(lists[1..], m)
  }

  lemma {:induction false} KeysOfGroups(lists: seq<seq<string>>)
    requires |lists| <= |Patterns|
    ensures KeysOf(Concat(Groups(lists))) == Flatten(lists)
  {
    if lists != [] {
      var init := lists[..|lists| - 1];
      KeysOfGroups(init);
      assert Groups(lists)[..|lists| - 1] == Groups(init);
      var gs := Groups(lists);
      assert Concat(gs) == Concat(Groups(init)) + gs[|gs| - 1];
      assert KeysOf(Concat(gs)) == KeysOf(Concat(Groups(init))) + KeysOf(gs[|gs| - 1]);
    }
  }

  /** The result's keys are all the matches of all categories, each once, in
      the order they were first found. */
  lemma RuleEntitiesKeys(lists: seq<seq<string>>)
    requires |lists| <= |Patterns|
    ensures RuleEntities(lists).keys == Dedup(Flatten(lists))
    ensures forall m :: m in RuleEntities(lists).vals <==> exists c :: 0 <= c < |lists| && m in lists[c]
  {
    KeysOfGroups(lists);
  }

  /** No match in any category gives an empty result, and only then. */
  lemma RuleEntitiesEmpty(lists: seq<seq<string>>)
    requires |lists| <= |Patterns|
    ensures RuleEntities(lists).keys == [] <==> forall c :: 0 <= c < |lists| ==> lists[c] == []
  {
    RuleEntitiesKeys(lists);
    if exists c :: 0 <= c < |lists| && lists[c] != [] {
      var c :| 0 <= c < |lists| && lists[c] != [];
      assert lists[c][0] in Flatten(lists);
    }
    if RuleEntities(lists).keys != [] {
      assert RuleEntities(lists).keys[0] in Flatten(lists);
    }
  }

  /** Every record says "rule_based", has no languages, and is typed by the
      first category, in pattern order, whose matches contain the key: a
      later category never overwrites it. */
  lemma FirstGroupIsFirstCategory(lists: seq<seq<string>>, m: string)
    requires |lists| <= |Patterns|
    ensures FirstGroup(Groups(lists), m) == FirstCategory(lists, m)
  {
    var gs := Groups(lists);
    var g, c := FirstGroup(gs, m), FirstCategory(lists, m);
    assert forall j :: 0 <= j < |lists| ==> KeysOf(gs[j]) == lists[j];
    assert g < |lists| ==> m in lists[g];
    assert c < |lists| ==> m in KeysOf(gs[c]);
  }

  lemma RuleEntitiesRecord(lists: seq<seq<string>>, m: string)
    requires |lists| <= |Patterns|
    requires m in RuleEntities(lists).vals
    ensures FirstCategory(lists, m) < |lists|
    ensures RuleEntities(lists).vals[m] == RuleRecord(Patterns[FirstCategory(lists, m)].0)
  {
    var gs := Groups(lists);
    KeysOfGroups(lists);
    FirstSeenConcat(gs, m);
    var g := FirstGroup(gs, m);
    FirstGroupIsFirstCategory(lists, m);
    FirstSeenValue(Tag(lists[g], g), m);
  }
}
