/**
 * The application's data-persistence settings object seen as an abstract
 * two-level key-value store: a group name selects a map from keys to
 * variants. Only setValue, value and keys are modelled; writing the store
 * to disk (sync) and re-reading it (reload) are not.
 */
module DataPersistence {
  import opened Variant

  type Store = map<string, map<string, Value>>

  /** The entries of `group`, empty when the group does not exist. */
  function Group(s: Store, group: string): map<string, Value>
  {
    if group in s then s[group] else map[]
  }

  /** Settings::keys(group) */
  function Keys(s: Store, group: string): set<string>
  {
    Group(s, group).Keys
  }

  /** Settings::value(group, key): an invalid variant when the key is absent. */
  function Lookup(s: Store, group: string, key: string): (r: Value)
    ensures key in Keys(s, group) ==> r == Group(s, group)[key]
    ensures key !in Keys(s, group) ==> r == Invalid
  {
    Get(Group(s, group), key)
  }

  /** The store after Settings::setValue(group, key, value). */
  function Stored(s: Store, group: string, key: string, value: Value): (r: Store)
    ensures Keys(r, group) == Keys(s, group) + {key}
    ensures Lookup(r, group, key) == value
    ensures forall g, k :: (g != group || k != key) ==> Lookup(r, g, k) == Lookup(s, g, k)
    ensures forall g :: g != group ==> Keys(r, g) == Keys(s, g)
  {
    s[group := Group(s, group)[key := value]]
  }

  /** The settings object the application shares. */
  class Settings {
    var groups: Store

    constructor ()
      ensures groups == map[]
    {
      groups := map[];
    }

    /** Settings::setValue */
    method SetValue(group: string, key: string, value: Value)
      modifies this
      ensures groups == Stored(old(groups), group, key, value)
    {
      var entries := Group(groups, group);
      entries := entries[key := value];
      groups := groups[group := entries];
    }
  }
}
