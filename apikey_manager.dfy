/**
 * The API-key store of droidrun-gui (droidrun_gui/apikey_manager.py): one key per LLM provider,
 * filed under the provider's name in upper case, so "openai" and "OpenAI" share a key.
 * Loading and saving apikeys.json is replaced by the map the store starts from and holds.
 */
module ApiKeys {
  import opened Wrappers
  import opened Text

  /** The key filed for a provider, if any. */
  function Lookup(keys: map<string, string>, provider: string): (r: Option<string>)
    ensures r.Some? <==> Upper(provider) in keys
    ensures r.Some? ==> r.value == keys[Upper(provider)]
  {
    if Upper(provider) in keys then Some(keys[Upper(provider)]) else None
  }

  /** The keys after filing `key` for a provider: at most that name is added, every other key is kept. */
  function Store(keys: map<string, string>, provider: string, key: string): (r: map<string, string>)
    ensures r.Keys == keys.Keys + {Upper(provider)} && r[Upper(provider)] == key
    ensures forall name :: name in keys && name != Upper(provider) ==> r[name] == keys[name]
  {
    keys[Upper(provider) := key]
  }

  /** A key just set is the one read back, under any spelling of the provider with the same upper case. */
  lemma LookupStore(keys: map<string, string>, provider: string, key: string, other: string)
    ensures Upper(other) == Upper(provider) ==> Lookup(Store(keys, provider, key), other) == Some(key)
    ensures Upper(other) != Upper(provider) ==> Lookup(Store(keys, provider, key), other) == Lookup(keys, other)
  {
  }

  /** Setting a key twice keeps only the second. */
  lemma StoreStore(keys: map<string, string>, provider: string, first: string, second: string)
    ensures Store(Store(keys, provider, first), provider, second) == Store(keys, provider, second)
  {
  }

  /** Looking a provider up by its upper-case name finds the same key. */
  lemma LookupIgnoresCase(keys: map<string, string>, provider: string)
    ensures Lookup(keys, Upper(provider)) == Lookup(keys, provider)
  {
    UpperIdempotent(provider);
  }

  class APIKeyManager {
    /** Upper-case provider name to key; what apikeys.json holds. */
    var keys: map<string, string>

    /** Starts from the saved keys, or none when there is no file. */
    constructor (saved: Option<map<string, string>>)
      ensures keys == saved.GetOr(map[])
    {
      keys := saved.GetOr(map[]);
    }

    /** `get_key`: the key filed under the provider's upper-case name. */
    function GetKey(provider: string): (r: Option<string>)
      reads this
      ensures r.Some? <==> Upper(provider) in keys
      ensures r.Some? ==> r.value == keys[Upper(provider)]
    {
      Lookup(keys, provider)
    }

    /** `set_key`: files the key under the provider's upper-case name, replacing any earlier one. */
    method SetKey(provider: string, key: string)
      modifies this
      ensures keys == Store(old(keys), provider, key)
      ensures GetKey(provider) == Some(key)
    {
      keys := keys[Upper(provider) := key];
    }

    /** `all_keys`: a copy of every filed key. */
    method AllKeys() returns (copy: map<string, string>)
      ensures copy == keys
    {
      copy := keys;
    }
  }
}
