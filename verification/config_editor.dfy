/** The configuration editor (components/ConfigEditor.tsx): the edited
    values, what a save sends, the category list, the search filter and the
    grouping by category. The edits object keeps its keys in insertion order,
    as a JavaScript object with text keys does, so it is a list of pairs
    with distinct keys. */
module ConfigEditor {
  import opened Wrappers
  import opened Records
  import opened Seqs
  import opened ConfigContext

  /** `{ ...edits, [key]: value }`: an existing key keeps its place and takes
      the new value, a new key goes last. */
  function SetEntry(edits: seq<ConfigUpdate>, key: string, value: string): (r: seq<ConfigUpdate>)
    ensures |r| == if FirstValue(edits, key).Some? then |edits| else |edits| + 1
    ensures forall i :: 0 <= i < |edits| ==> r[i].key == edits[i].key
  {
    if FirstValue(edits, key).Some? then
      seq(|edits|, i requires 0 <= i < |edits| =>
        if edits[i].key == key then ConfigUpdate(key, value) else edits[i])
    else edits + [ConfigUpdate(key, value)]
  }

  /** Setting one key keeps the keys distinct, gives that key the new value
      and leaves every other key as it was. */
  lemma SetEntryFirstValue(edits: seq<ConfigUpdate>, key: string, value: string, k: string)
    requires DistinctKeys(edits)
    ensures DistinctKeys(SetEntry(edits, key, value))
    ensures FirstValue(SetEntry(edits, key, value), k) == if k == key then Some(value) else FirstValue(edits, k)
  {
    var r := SetEntry(edits, key, value);
    if FirstValue(edits, key).None? {
      assert r[|edits|].key == key;
    }
    var f := FirstValue(r, k);
    if f.Some? {
      var i :| 0 <= i < |r| && r[i] == ConfigUpdate(k, f.value) && forall j :: 0 <= j < i ==> r[j].key != k;
      if k != key {
        assert i < |edits| && edits[i] == r[i];
        FirstValueAt(edits, i);
      }
    } else if k != key {
      assert forall i :: 0 <= i < |edits| ==> edits[i].key != k;
    }
  }

  /** In a list with distinct keys, the value found for a key is the one at
      its position. */
  lemma FirstValueAt(ups: seq<ConfigUpdate>, i: int)
    requires DistinctKeys(ups)
    requires 0 <= i < |ups|
    ensures FirstValue(ups, ups[i].key) == Some(ups[i].value)
  {
    var f := FirstValue(ups, ups[i].key);
    var k :| 0 <= k < |ups| && ups[k] == ConfigUpdate(ups[i].key, f.value)
             && forall j :: 0 <= j < k ==> ups[j].key != ups[i].key;
    assert k == i;
  }

  /** The writes of a list prefix, extended by one record. */
  lemma {:induction false} LastValueSnoc(ups: seq<ConfigUpdate>, u: ConfigUpdate, key: string)
    ensures LastValue(ups + [u], key) == if u.key == key then Some(u.value) else LastValue(ups, key)
    decreases |ups|
  {
    if |ups| == 0 {
      assert ups + [u] == [u];
      assert [u][1..] == [];
    } else {
      assert (ups + [u])[1..] == ups[1..] + [u];
      LastValueSnoc(ups[1..], u, key);
    }
  }

  /** The edits hold, for each key of the list, the value of its last record. */
  ghost predicate EditsOf(edits: seq<ConfigUpdate>, list: seq<SiteConfig>) {
    DistinctKeys(edits) && forall key :: FirstValue(edits, key) == LastValue(Pairs(list), key)
  }

  /** The `forEach` that fills the initial edits from the configuration list:
      a later record with the same key overwrites an earlier one. */
  method InitialEdits(list: seq<SiteConfig>) returns (edits: seq<ConfigUpdate>)
    ensures EditsOf(edits, list)
  {
    edits := [];
    var i := 0;
    while i < |list|
      invariant 0 <= i <= |list|
      invariant EditsOf(edits, list[..i])
    {
      var c := list[i];
      assert Pairs(list[..i + 1]) == Pairs(list[..i]) + [ConfigUpdate(c.key, c.value)];
      forall key
        ensures FirstValue(SetEntry(edits, c.key, c.value), key) == LastValue(Pairs(list[..i + 1]), key)
      {
        SetEntryFirstValue(edits, c.key, c.value, key);
        LastValueSnoc(Pairs(list[..i]), ConfigUpdate(c.key, c.value), key);
      }
      SetEntryFirstValue(edits, c.key, c.value, c.key);
      edits := SetEntry(edits, c.key, c.value);
      i := i + 1;
    }
    assert list[..i] == list;
  }

  /** The initial edits agree with the store's map loaded from the same
      list: a key has an edit exactly when the map has it, with the same value. */
  lemma EditsMatchStore(edits: seq<ConfigUpdate>, list: seq<SiteConfig>, key: string)
    requires EditsOf(edits, list)
    ensures FirstValue(edits, key).Some? <==> key in Assign(map[], Pairs(list))
    ensures FirstValue(edits, key).Some? ==> FirstValue(edits, key).value == Assign(map[], Pairs(list))[key]
  {
    AssignLastWins(map[], Pairs(list), key);
  }

  /** `configsList.find(c => c.key === key)`: the first record with the key. */
  function FindConfig(list: seq<SiteConfig>, key: string): (r: Option<SiteConfig>)
    ensures r.None? <==> forall i :: 0 <= i < |list| ==> list[i].key != key
    ensures r.Some? ==>
      exists i :: (0 <= i < |list| && list[i] == r.value && r.value.key == key
                   && forall j :: 0 <= j < i ==> list[j].key != key)
  {
    if |list| == 0 then None
    else if list[0].key == key then Some(list[0])
    else
      var r := FindConfig(list[1..], key);
      assert forall i :: 1 <= i < |list| ==> list[1..][i - 1] == list[i];
      r
  }

  /** Whether an edit changes the first record with its key. */
  predicate Changed(list: seq<SiteConfig>, u: ConfigUpdate) {
    var original := FindConfig(list, u.key);
    original.Some? && original.value.value != u.value
  }

  /** The `updates` of `handleSave`: the edits, in order, whose key has a
      record and whose value differs from that record's. */
  function SaveUpdates(edits: seq<ConfigUpdate>, list: seq<SiteConfig>): (r: seq<ConfigUpdate>)
    ensures |r| <= |edits|
    ensures forall u :: u in r <==> u in edits && Changed(list, u)
  {
    Filter(edits, (u: ConfigUpdate) => Changed(list, u))
  }

  /** A sub-list of a list with distinct keys has distinct keys. */
  lemma {:induction false} FilterKeepsDistinct(ups: seq<ConfigUpdate>, p: ConfigUpdate -> bool)
    requires DistinctKeys(ups)
    ensures DistinctKeys(Filter(ups, p))
  {
    if |ups| > 0 {
      assert DistinctKeys(ups[1..]);
      FilterKeepsDistinct(ups[1..], p);
      var rest := Filter(ups[1..], p);
      forall i | 0 <= i < |rest|
        ensures rest[i].key != ups[0].key
      {
        assert rest[i] in rest;
        var j :| 0 <= j < |ups[1..]| && ups[1..][j] == rest[i];
        assert ups[j + 1] == rest[i];
      }
    }
  }

  /** The updates of a save have distinct keys, so the store's map and list
      stay in agreement after it. */
  lemma SaveKeepsStoreAgreement(configs: map<string, string>, edits: seq<ConfigUpdate>, list: seq<SiteConfig>)
    requires DistinctKeys(edits)
    requires Agree(configs, list)
    ensures Agree(Assign(configs, SaveUpdates(edits, list)), ListWithUpdates(list, SaveUpdates(edits, list)))
  {
    FilterKeepsDistinct(edits, (u: ConfigUpdate) => Changed(list, u));
    UpdatesKeepAgreement(configs, list, SaveUpdates(edits, list));
  }

  /** Records sharing a key share their value. */
  predicate DuplicatesAgree(list: seq<SiteConfig>) {
    forall i, j :: 0 <= i < |list| && 0 <= j < |list| && list[i].key == list[j].key ==> list[i].value == list[j].value
  }

  /** An untouched edit holds the value of the last record with its key,
      which is also the value of the first one when duplicates agree. */
  lemma UneditedEntryUnchanged(edits: seq<ConfigUpdate>, list: seq<SiteConfig>, i: int)
    requires EditsOf(edits, list)
    requires DuplicatesAgree(list)
    requires 0 <= i < |edits|
    ensures !Changed(list, edits[i])
  {
    var u := edits[i];
    FirstValueAt(edits, i);
    var ps := Pairs(list);
    assert LastValue(ps, u.key) == Some(u.value);
    var j :| 0 <= j < |ps| && ps[j] == ConfigUpdate(u.key, u.value);
    assert list[j].key == u.key && list[j].value == u.value;
    var original := FindConfig(list, u.key);
    var k :| 0 <= k < |list| && list[k] == original.value && original.value.key == u.key;
    assert list[k].value == list[j].value;
  }

  /** Saving untouched edits sends nothing, as long as records sharing a key
      share their value. */
  lemma UneditedSavesNothing(edits: seq<ConfigUpdate>, list: seq<SiteConfig>)
    requires EditsOf(edits, list)
    requires DuplicatesAgree(list)
    ensures SaveUpdates(edits, list) == []
  {
    var changed := (u: ConfigUpdate) => Changed(list, u);
    forall i | 0 <= i < |edits|
      ensures !changed(edits[i])
    {
      UneditedEntryUnchanged(edits, list, i);
    }
    FilterNone(edits, changed);
  }

  /** With two records of one key and different values the untouched edits
      hold the second value and the save compares it with the first, so it
      sends an update although nothing was edited. */
  lemma DuplicateKeySavesUpdate(a: SiteConfig, b: SiteConfig, edits: seq<ConfigUpdate>)
    requires a.key == b.key && a.value != b.value
    requires EditsOf(edits, [a, b])
    ensures SaveUpdates(edits, [a, b]) == [ConfigUpdate(a.key, b.value)]
  {
    var list := [a, b];
    assert Pairs(list) == [ConfigUpdate(a.key, a.value), ConfigUpdate(b.key, b.value)];
    assert Pairs(list)[1..] == [ConfigUpdate(b.key, b.value)];
    assert LastValue(Pairs(list), a.key) == Some(b.value);
    forall k | k != a.key
      ensures FirstValue(edits, k).None?
    {
      assert LastValue(Pairs(list), k).None?;
    }
    var f := FirstValue(edits, a.key);
    var i :| 0 <= i < |edits| && edits[i] == ConfigUpdate(a.key, f.value);
    forall m | 0 <= m < |edits|
      ensures edits[m].key == a.key
    {
      FirstValueAt(edits, m);
    }
    var second := if |edits| >= 2 then 1 else 0;
    assert edits[second].key == edits[0].key;
    assert |edits| == 1;
    assert edits == [ConfigUpdate(a.key, b.value)];
    assert edits[1..] == [];
    assert FindConfig(list, a.key) == Some(a);
  }

  /** What a save reports. */
  datatype SaveOutcome = NothingToSave | Saved | SaveFailed

  /** `handleSave` against the store: with no updates nothing is written;
      otherwise the store applies the batch, and the outcome reports whether
      the write went through. */
  method Save(store: ConfigStore, edits: seq<ConfigUpdate>, writeOk: bool) returns (outcome: SaveOutcome)
    modifies store
    ensures outcome == NothingToSave <==> SaveUpdates(edits, old(store.configsList)) == []
    ensures outcome == Saved <==> SaveUpdates(edits, old(store.configsList)) != [] && writeOk
    ensures outcome == Saved ==>
      store.configs == Assign(old(store.configs), SaveUpdates(edits, old(store.configsList)))
      && store.configsList == ListWithUpdates(old(store.configsList), SaveUpdates(edits, old(store.configsList)))
    ensures outcome != Saved ==> store.configs == old(store.configs) && store.configsList == old(store.configsList)
  {
    var updates := SaveUpdates(edits, store.configsList);
    if |updates| > 0 {
      var ok := store.UpdateConfigs(updates, writeOk);
      outcome := if ok then Saved else SaveFailed;
    } else {
      outcome := NothingToSave;
    }
  }

  /** The position of the first occurrence of `x` in `s`. */
  function FirstIndex(s: seq<string>, x: string): (k: nat)
    requires x in s
    ensures k < |s| && s[k] == x
    ensures forall j :: 0 <= j < k ==> s[j] != x
  {
    if s[0] == x then 0 else 1 + FirstIndex(s[1..], x)
  }

  /** `Array.from(new Set(s))`: each element once, in the order of its first
      occurrence. */
  function Distinct(s: seq<string>): (r: seq<string>)
    ensures forall x :: x in r <==> x in s
    ensures forall i, j :: 0 <= i < j < |r| ==> r[i] != r[j]
    decreases |s|
  {
    if |s| == 0 then []
    else
      var prefix := Distinct(s[..|s| - 1]);
      assert forall x :: x in s <==> x in s[..|s| - 1] || x == s[|s| - 1];
      if s[|s| - 1] in prefix then prefix else prefix + [s[|s| - 1]]
  }

  /** The first occurrence of an element of a prefix is also its first
      occurrence in the whole list. */
  lemma FirstIndexPrefix(s: seq<string>, n: nat, x: string)
    requires n <= |s| && x in s[..n]
    ensures FirstIndex(s, x) == FirstIndex(s[..n], x)
  {
    var k := FirstIndex(s[..n], x);
    var m := FirstIndex(s, x);
    assert s[k] == x;
    assert m <= k;
    assert s[..n][m] == x;
  }

  /** The distinct elements come in the order of their first occurrences. */
  lemma {:induction false} DistinctInFirstOccurrenceOrder(s: seq<string>)
    ensures forall i, j :: 0 <= i < j < |Distinct(s)| ==>
      FirstIndex(s, Distinct(s)[i]) < FirstIndex(s, Distinct(s)[j])
    decreases |s|
  {
    if |s| > 0 {
      var n := |s| - 1;
      var prefix := Distinct(s[..n]);
      DistinctInFirstOccurrenceOrder(s[..n]);
      var r := Distinct(s);
      forall i, j | 0 <= i < j < |r|
        ensures FirstIndex(s, r[i]) < FirstIndex(s, r[j])
      {
        assert r[i] == prefix[i];
        FirstIndexPrefix(s, n, r[i]);
        if j < |prefix| {
          FirstIndexPrefix(s, n, r[j]);
        } else {
          assert r[j] == s[n] && s[n] !in s[..n];
          assert FirstIndex(s, r[j]) == n;
        }
      }
    }
  }

  /** The categories of the configuration list, each once. */
  function Categories(list: seq<SiteConfig>): (r: seq<string>)
    ensures forall c :: c in r <==> exists i :: 0 <= i < |list| && list[i].category == c
    ensures forall i, j :: 0 <= i < j < |r| ==> r[i] != r[j]
  {
    var cats := seq(|list|, i requires 0 <= i < |list| => list[i].category);
    forall c
      ensures c in cats <==> exists i :: 0 <= i < |list| && list[i].category == c
    {
      if c in cats {
        var i :| 0 <= i < |cats| && cats[i] == c;
        assert list[i].category == c;
      }
      if exists i :: 0 <= i < |list| && list[i].category == c {
        var i :| 0 <= i < |list| && list[i].category == c;
        assert cats[i] == c;
      }
    }
    Distinct(cats)
  }

  /** ASCII `toLowerCase` of one character. */
  function LowerChar(c: char): (d: char)
    ensures 'A' <= c <= 'Z' ==> d as int == c as int + 32 && 'a' <= d <= 'z'
    ensures !('A' <= c <= 'Z') ==> d == c
  {
    if 'A' <= c <= 'Z' then (c as int + 32) as char else c
  }

  function ToLower(s: string): (r: string)
    ensures |r| == |s|
    ensures forall i :: 0 <= i < |s| ==> r[i] == LowerChar(s[i])
  {
    seq(|s|, i requires 0 <= i < |s| => LowerChar(s[i]))
  }

  /** Lower-casing twice is lower-casing once. */
  lemma LowerCharIdempotent(c: char)
    ensures LowerChar(LowerChar(c)) == LowerChar(c)
  {
  }

  lemma ToLowerIdempotent(s: string)
    ensures ToLower(ToLower(s)) == ToLower(s)
  {
    forall i | 0 <= i < |s|
      ensures ToLower(ToLower(s))[i] == ToLower(s)[i]
    {
      LowerCharIdempotent(s[i]);
    }
  }

  /** `t` occurs in `s` at position `i`. */
  predicate OccursAt(s: string, t: string, i: int) {
    0 <= i && i + |t| <= |s| && s[i..i + |t|] == t
  }

  /** `s.includes(t)`. */
  predicate Contains(s: string, t: string) {
    exists i :: 0 <= i <= |s| && OccursAt(s, t, i)
  }

  /** The search and category test of `filteredConfigs`. */
  predicate Matches(c: SiteConfig, term: string, category: string) {
    (Contains(ToLower(c.labelText), ToLower(term)) || Contains(ToLower(c.value), ToLower(term)))
    && (category == "all" || c.category == category)
  }

  /** The empty search term matches every record. */
  lemma EmptyTermMatches(c: SiteConfig, category: string)
    ensures Matches(c, "", category) <==> category == "all" || c.category == category
  {
    assert ToLower("") == "";
    assert OccursAt(ToLower(c.labelText), ToLower(""), 0);
  }

  /** Search is case-insensitive: lower-casing the term, or the label and
      the value of the record, does not change whether the record shows. */
  lemma SearchIgnoresCase(c: SiteConfig, term: string, category: string)
    ensures Matches(c, term, category) <==> Matches(c, ToLower(term), category)
    ensures Matches(c.(labelText := ToLower(c.labelText), value := ToLower(c.value)), term, category)
        <==> Matches(c, term, category)
  {
    ToLowerIdempotent(term);
    ToLowerIdempotent(c.labelText);
    ToLowerIdempotent(c.value);
  }

  /** `filteredConfigs`. */
  function FilteredConfigs(list: seq<SiteConfig>, term: string, category: string): (r: seq<SiteConfig>)
    ensures |r| <= |list|
    ensures forall c :: c in r <==> c in list && Matches(c, term, category)
  {
    Filter(list, (c: SiteConfig) => Matches(c, term, category))
  }

  /** With no search term and every category selected the whole list shows. */
  lemma NoFilterShowsAll(list: seq<SiteConfig>)
    ensures FilteredConfigs(list, "", "all") == list
  {
    forall i | 0 <= i < |list|
      ensures Matches(list[i], "", "all")
    {
      EmptyTermMatches(list[i], "all");
    }
    FilterAll(list, (c: SiteConfig) => Matches(c, "", "all"));
  }

  /** The records of one category, in order. */
  function GroupOf(list: seq<SiteConfig>, category: string): (r: seq<SiteConfig>)
    ensures forall c :: c in r <==> c in list && c.category == category
  {
    Filter(list, (c: SiteConfig) => c.category == category)
  }

  /** The categories present in a list. */
  function CategorySet(list: seq<SiteConfig>): (r: set<string>)
    ensures forall c :: c in r <==> exists i :: 0 <= i < |list| && list[i].category == c
  {
    set i | 0 <= i < |list| :: list[i].category
  }

  /** Appending a record extends its own category's group and no other. */
  lemma GroupOfSnoc(list: seq<SiteConfig>, x: SiteConfig, category: string)
    ensures GroupOf(list + [x], category) == GroupOf(list, category) + (if x.category == category then [x] else [])
  {
    FilterConcat(list, [x], (c: SiteConfig) => c.category == category);
    FilterSingleton(x, (c: SiteConfig) => c.category == category);
  }

  /** A category absent from the list has an empty group. */
  lemma GroupOfAbsent(list: seq<SiteConfig>, category: string)
    requires category !in CategorySet(list)
    ensures GroupOf(list, category) == []
  {
    FilterNone(list, (c: SiteConfig) => c.category == category);
  }

  lemma CategorySetSnoc(list: seq<SiteConfig>, x: SiteConfig)
    ensures CategorySet(list + [x]) == CategorySet(list) + {x.category}
  {
    assert forall i :: 0 <= i < |list| ==> (list + [x])[i] == list[i];
    assert (list + [x])[|list|] == x;
  }

  /** The groups of a list: one per category present, holding that
      category's records in order. */
  ghost predicate GroupsOf(groups: map<string, seq<SiteConfig>>, list: seq<SiteConfig>) {
    groups.Keys == CategorySet(list) && forall c :: c in groups ==> groups[c] == GroupOf(list, c)
  }

  /** Appending a record to its category's group (created empty when
      missing) gives the groups of the longer list. */
  lemma GroupStep(groups: map<string, seq<SiteConfig>>, list: seq<SiteConfig>, x: SiteConfig)
    requires GroupsOf(groups, list)
    ensures GroupsOf(groups[x.category := (if x.category in groups then groups[x.category] else []) + [x]], list + [x])
  {
    var next := groups[x.category := (if x.category in groups then groups[x.category] else []) + [x]];
    CategorySetSnoc(list, x);
    if x.category !in groups {
      GroupOfAbsent(list, x.category);
    }
    forall c | c in next
      ensures next[c] == GroupOf(list + [x], c)
    {
      GroupOfSnoc(list, x, c);
    }
  }

  /** `groupedByCategory`: the `reduce` that appends each record to the
      array of its category, creating the array on first sight. */
  method GroupByCategory(list: seq<SiteConfig>) returns (groups: map<string, seq<SiteConfig>>)
    ensures groups.Keys == CategorySet(list)
    ensures forall c :: c in groups ==> groups[c] == GroupOf(list, c)
  {
    groups := map[];
    var i := 0;
    while i < |list|
      invariant 0 <= i <= |list|
      invariant GroupsOf(groups, list[..i])
    {
      var config := list[i];
      GroupStep(groups, list[..i], config);
      assert list[..i + 1] == list[..i] + [config];
      if config.category !in groups {
        groups := groups[config.category := []];
      }
      groups := groups[config.category := groups[config.category] + [config]];
      i := i + 1;
    }
    assert list[..i] == list;
  }
}
