/** Reading and writing the site configuration (lib/configDatabase.ts), with
    the built-in defaults used when the database is not configured or fails.
    Each database call is abstracted into the outcome it reports. */
module ConfigDatabase {
  import opened Wrappers
  import opened Records

  /** The table of `getDefaultConfig`. */
  const Defaults: map<string, string> := map[
    "site_title" := "Controle Financeiro",
    "site_subtitle" := "Gestão de salários para duas pessoas",
    "person1_name" := "Pessoa 1",
    "person2_name" := "Pessoa 2",
    "vr_label" := "Vale Refeição (VR)",
    "conjunto_label" := "Salário Conjunto",
    "total_geral_label" := "Total Geral",
    "total_conjunto_label" := "Salário Conjunto",
    "button_add_salary" := "Adicionar Salário",
    "salary_type_label" := "Tipo de Salário",
    "salary_name_label" := "Nome/Descrição",
    "salary_value_label" := "Valor (R$)",
    "projection_title" := "Projeção de Salários (Próximos 12 Meses)",
    "salaries_list_title" := "Salários Cadastrados",
    "empty_salaries_message" := "Nenhum salário cadastrado ainda. Clique em \"Adicionar Salário\" para começar.",
    "empty_projection_message" := "Adicione pelo menos um salário para ver a projeção"
  ]

  /** `defaults[key] || null`. */
  function DefaultConfig(key: string): (r: Option<string>)
    ensures r.Some? ==> key in Defaults && r.value == Defaults[key]
  {
    if key in Defaults && Defaults[key] != "" then Some(Defaults[key]) else None
  }

  /** No default is the empty text, so the `|| null` fallback only fires for
      keys outside the table. */
  lemma DefaultConfigTotal(key: string)
    ensures DefaultConfig(key).Some? <==> key in Defaults
  {
  }

  /** `getDefaultConfigs`: one record per entry of the table. */
  function DefaultConfigs(): (r: seq<SiteConfig>)
    ensures |r| == 16
  {
    [
      SiteConfig(Some("1"), "site_title", "Controle Financeiro", "Título do Site", "general", Text),
      SiteConfig(Some("2"), "site_subtitle", "Gestão de salários para duas pessoas", "Subtítulo do Site", "general", Text),
      SiteConfig(Some("3"), "person1_name", "Pessoa 1", "Nome da Pessoa 1", "people", Text),
      SiteConfig(Some("4"), "person2_name", "Pessoa 2", "Nome da Pessoa 2", "people", Text),
      SiteConfig(Some("5"), "vr_label", "Vale Refeição (VR)", "Rótulo do Vale Refeição", "people", Text),
      SiteConfig(Some("16"), "conjunto_label", "Salário Conjunto", "Rótulo do Salário Conjunto", "people", Text),
      SiteConfig(Some("6"), "total_geral_label", "Total Geral", "Rótulo do Total Geral", "labels", Text),
      SiteConfig(Some("7"), "total_conjunto_label", "Salário Conjunto", "Rótulo do Total Conjunto", "labels", Text),
      SiteConfig(Some("8"), "button_add_salary", "Adicionar Salário", "Texto do Botão Adicionar", "buttons", Text),
      SiteConfig(Some("9"), "salary_type_label", "Tipo de Salário", "Rótulo do Tipo de Salário", "form", Text),
      SiteConfig(Some("10"), "salary_name_label", "Nome/Descrição", "Rótulo do Nome/Descrição", "form", Text),
      SiteConfig(Some("11"), "salary_value_label", "Valor (R$)", "Rótulo do Valor", "form", Text),
      SiteConfig(Some("12"), "projection_title", "Projeção de Salários (Próximos 12 Meses)", "Título do Gráfico de Projeção", "charts", Text),
      SiteConfig(Some("13"), "salaries_list_title", "Salários Cadastrados", "Título da Lista de Salários", "lists", Text),
      SiteConfig(Some("14"), "empty_salaries_message", "Nenhum salário cadastrado ainda. Clique em \"Adicionar Salário\" para começar.", "Mensagem quando não há salários", "messages", Textarea),
      SiteConfig(Some("15"), "empty_projection_message", "Adicione pelo menos um salário para ver a projeção", "Mensagem quando não há projeção", "messages", Textarea)
    ]
  }

  /** The keys of the default list, in list order. */
  const DefaultKeys: seq<string> := [
    "site_title", "site_subtitle", "person1_name", "person2_name", "vr_label",
    "conjunto_label", "total_geral_label", "total_conjunto_label", "button_add_salary",
    "salary_type_label", "salary_name_label", "salary_value_label", "projection_title",
    "salaries_list_title", "empty_salaries_message", "empty_projection_message"
  ]

  /** The keys of a configuration list, in list order. */
  function Keys(list: seq<SiteConfig>): (r: seq<string>)
    ensures |r| == |list|
    ensures forall i :: 0 <= i < |list| ==> r[i] == list[i].key
  {
    seq(|list|, i requires 0 <= i < |list| => list[i].key)
  }

  /** The default list has sixteen records, keyed as `DefaultKeys`. */
  lemma DefaultConfigsKeys()
    ensures Keys(DefaultConfigs()) == DefaultKeys
  {
  }

  /** Every record of the default list carries the table's value for its key. */
  lemma DefaultConfigsValues()
    ensures |DefaultConfigs()| == 16
    ensures forall i :: 0 <= i < 16 ==> DefaultKeys[i] in Defaults && DefaultConfigs()[i].value == Defaults[DefaultKeys[i]]
  {
  }

  /** The keys of the default list are pairwise distinct. */
  lemma DefaultKeysDistinct()
    ensures forall i, j :: 0 <= i < j < |DefaultKeys| ==> DefaultKeys[i] != DefaultKeys[j]
  {
  }

  /** The table and the list name the same keys. */
  lemma DefaultKeysComplete()
    ensures forall k :: k in Defaults <==> k in DefaultKeys
  {
  }

  /** What the database reports for a single-key read. */
  datatype ValueFetch = ValueUnconfigured | ValueFailed | NoRow | Row(value: string)

  /** `getConfig`: the stored value when a row comes back, the default
      otherwise. */
  function GetConfig(key: string, fetch: ValueFetch): (r: Option<string>)
    ensures fetch.Row? ==> r == Some(fetch.value)
    ensures !fetch.Row? ==> r == DefaultConfig(key)
  {
    match fetch
    case ValueUnconfigured => DefaultConfig(key)
    case ValueFailed => DefaultConfig(key)
    case NoRow => DefaultConfig(key)
    case Row(v) => Some(v)
  }

  /** What the database reports for the full read (the rows come sorted by
      category and label). */
  datatype ListFetch = ListUnconfigured | ListFailed | Rows(rows: seq<SiteConfig>)

  /** `getAllConfigs`: the fetched rows as they come, or the default list
      when the backend is unconfigured or the read fails. */
  function GetAllConfigs(fetch: ListFetch): (r: seq<SiteConfig>)
    ensures fetch.Rows? ==> r == fetch.rows
    ensures !fetch.Rows? ==> r == DefaultConfigs()
  {
    match fetch
    case ListUnconfigured => DefaultConfigs()
    case ListFailed => DefaultConfigs()
    case Rows(rows) => rows
  }

  /** A read that falls back lists exactly the keys of the table, each with
      the table's value. */
  lemma FallbackHasEveryDefault(fetch: ListFetch, key: string)
    requires !fetch.Rows?
    ensures key in Keys(GetAllConfigs(fetch)) <==> key in Defaults
    ensures key in Defaults ==>
      exists i :: (0 <= i < |GetAllConfigs(fetch)| && GetAllConfigs(fetch)[i].key == key
                   && GetAllConfigs(fetch)[i].value == Defaults[key])
  {
    DefaultConfigsKeys();
    DefaultKeysComplete();
    if key in Defaults {
      DefaultConfigsValues();
      var i :| 0 <= i < 16 && DefaultKeys[i] == key;
      assert GetAllConfigs(fetch)[i].key == key;
    }
  }

  datatype WriteError = WriteUnconfigured | WriteFailed(index: nat)

  /** One `update ... eq('key', key)`: it changes the row with that key, and
      nothing when there is none. */
  function WriteOne(table: map<string, string>, u: ConfigUpdate): (t: map<string, string>)
    ensures t.Keys == table.Keys
    ensures u.key in table ==> t[u.key] == u.value
    ensures forall k :: k in table && k != u.key ==> t[k] == table[k]
  {
    if u.key in table then table[u.key := u.value] else table
  }

  /** The writes of a prefix of the batch, in order. */
  function WriteAll(table: map<string, string>, ups: seq<ConfigUpdate>): (t: map<string, string>)
    ensures t.Keys == table.Keys
    decreases |ups|
  {
    if |ups| == 0 then table else WriteAll(WriteOne(table, ups[0]), ups[1..])
  }

  /** `updateConfigs` against a table of rows keyed by `key`: it refuses to
      run unconfigured, then writes the updates one at a time in list order
      and stops at the first write that fails (`failAt`), leaving the
      earlier writes in place. */
  method UpdateConfigs(table: map<string, string>, updates: seq<ConfigUpdate>, configured: bool, failAt: Option<nat>)
    returns (newTable: map<string, string>, r: Result<(), WriteError>)
    ensures newTable.Keys == table.Keys
    ensures !configured ==> newTable == table && r == Failure(WriteUnconfigured)
    ensures configured && (failAt.None? || failAt.value >= |updates|) ==>
      newTable == WriteAll(table, updates) && r == Success(())
    ensures configured && failAt.Some? && failAt.value < |updates| ==>
      newTable == WriteAll(table, updates[..failAt.value]) && r == Failure(WriteFailed(failAt.value))
  {
    if !configured {
      return table, Failure(WriteUnconfigured);
    }
    newTable := table;
    var i := 0;
    while i < |updates|
      invariant 0 <= i <= |updates|
      invariant failAt.Some? ==> i <= failAt.value
      invariant newTable == WriteAll(table, updates[..i])
    {
      if failAt == Some(i) {
        return newTable, Failure(WriteFailed(i));
      }
      WriteAllSnoc(table, updates[..i], updates[i]);
      assert updates[..i + 1] == updates[..i] + [updates[i]];
      newTable := WriteOne(newTable, updates[i]);
      i := i + 1;
    }
    assert updates[..i] == updates;
    return newTable, Success(());
  }

  /** Writing one more update after a batch is the longer batch. */
  lemma {:induction false} WriteAllSnoc(table: map<string, string>, ups: seq<ConfigUpdate>, u: ConfigUpdate)
    ensures WriteAll(table, ups + [u]) == WriteOne(WriteAll(table, ups), u)
    decreases |ups|
  {
    if |ups| > 0 {
      assert (ups + [u])[1..] == ups[1..] + [u];
      WriteAllSnoc(WriteOne(table, ups[0]), ups[1..], u);
    } else {
      assert ups + [u] == [u];
    }
  }

  /** When every update names a distinct existing key, a complete batch
      leaves each such key with its update's value. */
  lemma {:induction false} WriteAllSetsValues(table: map<string, string>, ups: seq<ConfigUpdate>, i: int)
    requires 0 <= i < |ups|
    requires ups[i].key in table
    requires forall a, b :: 0 <= a < b < |ups| ==> ups[a].key != ups[b].key
    ensures WriteAll(table, ups)[ups[i].key] == ups[i].value
    decreases |ups|
  {
    var t1 := WriteOne(table, ups[0]);
    if i == 0 {
      WriteAllKeeps(t1, ups[1..], ups[0].key);
    } else {
      WriteAllSetsValues(t1, ups[1..], i - 1);
    }
  }

  /** A key no update names keeps its value. */
  lemma {:induction false} WriteAllKeeps(table: map<string, string>, ups: seq<ConfigUpdate>, key: string)
    requires key in table
    requires forall a :: 0 <= a < |ups| ==> ups[a].key != key
    ensures WriteAll(table, ups)[key] == table[key]
    decreases |ups|
  {
    if |ups| > 0 {
      WriteAllKeeps(WriteOne(table, ups[0]), ups[1..], key);
    }
  }
}
