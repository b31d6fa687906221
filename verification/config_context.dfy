/** The configuration store shared by the pages (contexts/ConfigContext.tsx):
    a key/value map for lookups beside the full list of configuration
    records. The database write behind each update is abstracted into a
    success flag. */
module ConfigContext {
  import opened Wrappers
  import opened Records

  /** `configs[key] || ''`: the stored text, or the empty text when the key
      is absent. */
  function ConfigValue(configs: map<string, string>, key: string): (v: string)
    ensures key !in configs ==> v == ""
    ensures key in configs ==> v == configs[key]
  {
    if key in configs && configs[key] != "" then configs[key] else ""
  }

  /** The `{ key, value }` pairs of a configuration list, in list order. */
  function Pairs(list: seq<SiteConfig>): (r: seq<ConfigUpdate>)
    ensures |r| == |list|
    ensures forall i :: 0 <= i < |list| ==> r[i] == ConfigUpdate(list[i].key, list[i].value)
  {
    seq(|list|, i requires 0 <= i < |list| => ConfigUpdate(list[i].key, list[i].value))
  }

  /** Writing the pairs into the map one after the other. */
  function Assign(m: map<string, string>, ups: seq<ConfigUpdate>): map<string, string>
    decreases |ups|
  {
    if |ups| == 0 then m else Assign(m[ups[0].key := ups[0].value], ups[1..])
  }

  /** The value of the LAST pair with the key, if any. */
  function LastValue(ups: seq<ConfigUpdate>, key: string): (r: Option<string>)
    ensures r.None? <==> forall i :: 0 <= i < |ups| ==> ups[i].key != key
    ensures r.Some? ==>
      exists i :: (0 <= i < |ups| && ups[i] == ConfigUpdate(key, r.value)
                   && forall j :: i < j < |ups| ==> ups[j].key != key)
  {
    if |ups| == 0 then None
    else
      var later := LastValue(ups[1..], key);
      assert forall i :: 1 <= i < |ups| ==> ups[1..][i - 1] == ups[i];
      if later.Some? then later
      else if ups[0].key == key then Some(ups[0].value)
      else None
  }

  /** The value of the FIRST pair with the key, if any (`updates.find`). */
  function FirstValue(ups: seq<ConfigUpdate>, key: string): (r: Option<string>)
    ensures r.None? <==> forall i :: 0 <= i < |ups| ==> ups[i].key != key
    ensures r.Some? ==>
      exists i :: (0 <= i < |ups| && ups[i] == ConfigUpdate(key, r.value)
                   && forall j :: 0 <= j < i ==> ups[j].key != key)
  {
    if |ups| == 0 then None
    else if ups[0].key == key then Some(ups[0].value)
    else
      var r := FirstValue(ups[1..], key);
      assert forall i :: 1 <= i < |ups| ==> ups[1..][i - 1] == ups[i];
      r
  }

  /** Writing a sequence of pairs into a map: a key that some pair names ends
      with its last pair's value, every other key keeps its old value. */
  lemma {:induction false} AssignLastWins(m: map<string, string>, ups: seq<ConfigUpdate>, key: string)
    ensures key in Assign(m, ups) <==> key in m || LastValue(ups, key).Some?
    ensures key in Assign(m, ups) ==>
      Assign(m, ups)[key] == if LastValue(ups, key).Some? then LastValue(ups, key).value else m[key]
    decreases |ups|
  {
    if |ups| > 0 {
      var m' := m[ups[0].key := ups[0].value];
      AssignLastWins(m', ups[1..], key);
    }
  }

  /** The `forEach` loop that writes each pair into a copy of the map. */
  method AssignAll(m: map<string, string>, ups: seq<ConfigUpdate>) returns (r: map<string, string>)
    ensures r == Assign(m, ups)
  {
    r := m;
    var i := 0;
    while i < |ups|
      invariant 0 <= i <= |ups|
      invariant Assign(r, ups[i..]) == Assign(m, ups)
    {
      assert ups[i..][1..] == ups[i + 1..];
      r := r[ups[i].key := ups[i].value];
      i := i + 1;
    }
    assert ups[i..] == [];
  }

  /** The list after `updateConfigs`: every record whose key has an update
      takes the value of the FIRST such update; nothing is added or removed. */
  function ListWithUpdates(list: seq<SiteConfig>, ups: seq<ConfigUpdate>): (r: seq<SiteConfig>)
    ensures |r| == |list|
    ensures forall i :: 0 <= i < |list| ==>
      r[i] == if FirstValue(ups, list[i].key).Some?
              then list[i].(value := FirstValue(ups, list[i].key).value) else list[i]
  {
    seq(|list|, i requires 0 <= i < |list| =>
      match FirstValue(ups, list[i].key)
      case Some(v) => list[i].(value := v)
      case None => list[i])
  }

  /** The map and the list agree: every record's key maps to its value. */
  predicate Agree(configs: map<string, string>, list: seq<SiteConfig>) {
    forall i :: 0 <= i < |list| ==> list[i].key in configs && configs[list[i].key] == list[i].value
  }

  predicate DistinctKeys(ups: seq<ConfigUpdate>) {
    forall i, j :: 0 <= i < j < |ups| ==> ups[i].key != ups[j].key
  }

  /** With distinct keys the first and the last update of a key are the same. */
  lemma FirstIsLast(ups: seq<ConfigUpdate>, key: string)
    requires DistinctKeys(ups)
    ensures FirstValue(ups, key) == LastValue(ups, key)
  {
    var f := FirstValue(ups, key);
    var l := LastValue(ups, key);
    if f.Some? && l.Some? {
      var i :| 0 <= i < |ups| && ups[i] == ConfigUpdate(key, f.value)
               && forall j :: 0 <= j < i ==> ups[j].key != key;
      var k :| 0 <= k < |ups| && ups[k] == ConfigUpdate(key, l.value)
               && forall j :: k < j < |ups| ==> ups[j].key != key;
      assert i == k;
    }
  }

  /** An update batch with distinct keys keeps the map and the list in
      agreement. (With a repeated key the map takes the last value and the
      list the first.) */
  lemma UpdatesKeepAgreement(configs: map<string, string>, list: seq<SiteConfig>, ups: seq<ConfigUpdate>)
    requires Agree(configs, list)
    requires DistinctKeys(ups)
    ensures Agree(Assign(configs, ups), ListWithUpdates(list, ups))
  {
    var m := Assign(configs, ups);
    var l := ListWithUpdates(list, ups);
    forall i | 0 <= i < |l|
      ensures l[i].key in m && m[l[i].key] == l[i].value
    {
      AssignLastWins(configs, ups, list[i].key);
      FirstIsLast(ups, list[i].key);
    }
  }

  /** A repeated key makes them disagree: the map keeps the second value,
      the list the first. */
  lemma RepeatedKeyDisagrees(c: SiteConfig)
    ensures var ups := [ConfigUpdate(c.key, "a"), ConfigUpdate(c.key, "b")];
      c.key in Assign(map[c.key := c.value], ups)
      && Assign(map[c.key := c.value], ups)[c.key] == "b"
      && ListWithUpdates([c], ups)[0].value == "a"
  {
    var ups := [ConfigUpdate(c.key, "a"), ConfigUpdate(c.key, "b")];
    AssignLastWins(map[c.key := c.value], ups, c.key);
    assert ups[1..][0] == ConfigUpdate(c.key, "b");
    assert LastValue(ups, c.key) == Some("b");
  }

  /** The provider's state. */
  class ConfigStore {
    var configs: map<string, string>
    var configsList: seq<SiteConfig>

    constructor()
      ensures configs == map[] && configsList == []
    {
      configs := map[];
      configsList := [];
    }

    /** `getConfigValue`. */
    function GetConfigValue(key: string): (v: string)
      reads this
      ensures key in configs ==> v == configs[key]
      ensures key !in configs ==> v == ""
    {
      ConfigValue(configs, key)
    }

    /** `loadConfigs` with the loaded list: the map holds the last value of
        each key and the list is kept as loaded. */
    method LoadConfigs(all: seq<SiteConfig>)
      modifies this
      ensures configs == Assign(map[], Pairs(all))
      ensures configsList == all
    {
      var configsMap := AssignAll(map[], Pairs(all));
      configs := configsMap;
      configsList := all;
    }

    /** `updateConfigs`: when the write succeeds the map takes every update
        and the list the first update of each of its keys; when it fails the
        error is passed on and nothing changes. */
    method UpdateConfigs(updates: seq<ConfigUpdate>, writeOk: bool) returns (ok: bool)
      modifies this
      ensures ok == writeOk
      ensures writeOk ==> configs == Assign(old(configs), updates)
      ensures writeOk ==> configsList == ListWithUpdates(old(configsList), updates)
      ensures !writeOk ==> configs == old(configs) && configsList == old(configsList)
    {
      if !writeOk {
        return false;
      }
      var newConfigs := AssignAll(configs, updates);
      configs := newConfigs;
      configsList := ListWithUpdates(configsList, updates);
      return true;
    }

    /** `updateConfig`: one key in both the map and the list. */
    method UpdateConfig(key: string, value: string, writeOk: bool) returns (ok: bool)
      modifies this
      ensures ok == writeOk
      ensures writeOk ==> configs == old(configs)[key := value]
      ensures writeOk ==> |configsList| == |old(configsList)|
      ensures writeOk ==> forall i :: 0 <= i < |configsList| ==>
        configsList[i] == if old(configsList)[i].key == key then old(configsList)[i].(value := value)
                          else old(configsList)[i]
      ensures !writeOk ==> configs == old(configs) && configsList == old(configsList)
    {
      if !writeOk {
        return false;
      }
      configs := configs[key := value];
      var prev := configsList;
      configsList := seq(|prev|, i requires 0 <= i < |prev| =>
        if prev[i].key == key then prev[i].(value := value) else prev[i]);
      return true;
    }
  }

  /** A single update is the one-element batch. */
  lemma SingleUpdateIsBatch(configs: map<string, string>, list: seq<SiteConfig>, key: string, value: string)
    ensures Assign(configs, [ConfigUpdate(key, value)]) == configs[key := value]
    ensures forall i :: 0 <= i < |list| ==>
      ListWithUpdates(list, [ConfigUpdate(key, value)])[i]
        == if list[i].key == key then list[i].(value := value) else list[i]
  {
    assert [ConfigUpdate(key, value)][1..] == [];
  }

  /** After loading, a key's value is that of its last record, and the
      empty text when no record has the key. */
  lemma LoadedValue(all: seq<SiteConfig>, key: string)
    ensures ConfigValue(Assign(map[], Pairs(all)), key)
         == if LastValue(Pairs(all), key).Some? then LastValue(Pairs(all), key).value else ""
  {
    AssignLastWins(map[], Pairs(all), key);
  }
}
