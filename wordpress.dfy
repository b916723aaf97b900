/** The parts of the WordPress host that the settings class talks to, reduced to
    values: an option store (one for the site, one for the network) and the
    answers of the host's context predicates. */
module WordPress {
  import opened Php

  /** What an option holds: a scalar, or an array keyed by strings (the settings array). */
  datatype Stored = Scalar(v: Value) | Table(entries: map<string, Value>)

  /** Truthiness of a stored option: an array is truthy when it is not empty. */
  function StoredTruthy(s: Stored): (t: bool)
  {
    match s
    case Scalar(v) => Truthy(v)
    case Table(m) => m != map[]
  }

  /** `get_option($key)` without a default yields `false` when the option is missing. */
  function OptionTruthy(o: Option<Stored>): (t: bool)
  {
    match o
    case None => false
    case Some(s) => StoredTruthy(s)
  }

  function Lookup(options: map<string, Stored>, key: string): (o: Option<Stored>)
  {
    if key in options then Some(options[key]) else None
  }

  /** The settings array read back from an option. A missing option reads as
      `false`, which PHP turns into an empty array on the first assignment;
      a scalar is treated the same way. */
  function SettingsOf(o: Option<Stored>): (m: map<string, Value>)
  {
    match o
    case Some(Table(m)) => m
    case _ => map[]
  }

  /** Writing an array under a key and reading the settings back gives that array,
      and every other key reads as before. */
  lemma WrittenTableReadsBack(options: map<string, Stored>, key: string, m: map<string, Value>)
    ensures SettingsOf(Lookup(options[key := Table(m)], key)) == m
    ensures forall k :: k != key ==> Lookup(options[key := Table(m)], k) == Lookup(options, k)
    ensures OptionTruthy(Lookup(options[key := Table(m)], key)) <==> m != map[]
  {
    assert Lookup(options[key := Table(m)], key) == Some(Table(m));
  }

  /** Answers of `is_plugin_active_for_network('wpclef/wpclef.php')` and `is_network_admin()`
      for the current request. */
  datatype Host = Host(pluginNetworkActive: bool, networkAdmin: bool)

  /** A key/value option store: the per-site options (`get_option`, `update_option`,
      `add_option`) or the network options (`get_site_option`, `update_site_option`).
      `writes` counts the write calls made on it. */
  class OptionStore {
    var options: map<string, Stored>
    ghost var writes: nat

    constructor (initial: map<string, Stored>)
      ensures options == initial && writes == 0
    {
      options := initial;
      writes := 0;
    }

    function Get(key: string): (o: Option<Stored>)
      reads this
    {
      Lookup(options, key)
    }

    /** `update_option` / `update_site_option`: the option now holds `value`. */
    method Update(key: string, value: Stored)
      modifies this
      ensures options == old(options)[key := value]
      ensures writes == old(writes) + 1
    {
      options := options[key := value];
      writes := writes + 1;
    }

    /** `add_option`: stores `value` only when the option does not exist yet. */
    method Add(key: string, value: Stored)
      modifies this
      ensures options == if key in old(options) then old(options) else old(options)[key := value]
      ensures writes == old(writes) + 1
    {
      if key !in options {
        options := options[key := value];
      }
      writes := writes + 1;
    }
  }
}
