/**
 * The project's search configuration and `valid_search_settings`.
 *
 * `settings['search']` is a dictionary from a layer selector (a layer name, or
 * `"_all"`) to that entry's options dictionary, whose `columns` key lists the
 * field names to index. The dictionary is kept as its items in iteration order,
 * because the row ids the index builder hands out follow that order.
 */
module Settings {
  import opened Wrappers

  /** An entry's options: option name to its list of strings (`columns` is the one read). */
  type LayerOptions = map<string, seq<string>>

  /** One item `(selector, options)` of `settings['search']`. */
  datatype ConfigEntry = ConfigEntry(selector: string, options: LayerOptions)

  /** The items of `settings['search']`, in iteration order. */
  type SearchConfig = seq<ConfigEntry>

  /** The project settings as far as the plugin reads them: the `search` key, if present. */
  datatype ProjectSettings = ProjectSettings(search: Option<SearchConfig>)

  const ColumnsKey: string := "columns"

  predicate HasColumns(entry: ConfigEntry)
  {
    ColumnsKey in entry.options
  }

  /** `config['columns']` of one entry. */
  function Columns(entry: ConfigEntry): seq<string>
    requires HasColumns(entry)
  {
    entry.options[ColumnsKey]
  }

  /** Every entry has a `columns` key, so reading it never raises `KeyError`. */
  predicate WellFormed(config: SearchConfig)
  {
    forall i :: 0 <= i < |config| ==> HasColumns(config[i])
  }

  /** What the validation accepts: a `search` key whose every entry has `columns`. */
  predicate ValidSettings(settings: ProjectSettings)
  {
    settings.search.Some? && WellFormed(settings.search.value)
  }

  /**
   * `valid_search_settings`: `(True, settings['search'])` when the `search` key
   * exists and every entry has `columns`; otherwise `(False, {})`, so a single
   * entry without `columns` rejects the whole configuration.
   */
  method ValidSearchSettings(settings: ProjectSettings) returns (valid: bool, section: SearchConfig)
    ensures valid <==> ValidSettings(settings)
    ensures valid ==> section == settings.search.value && WellFormed(section)
    ensures !valid ==> section == []
  {
    if settings.search.None? {
      return false, [];
    }
    var config := settings.search.value;
    var i := 0;
    while i < |config|
      invariant 0 <= i <= |config|
      invariant forall k :: 0 <= k < i ==> HasColumns(config[k])
    {
      if !HasColumns(config[i]) {
        return false, [];
      }
      i := i + 1;
    }
    return true, config;
  }
}
