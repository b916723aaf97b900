# Clef internal settings, modelled in Dafny

This project models `ClefInternalSettings`, the settings object of the Clef
WordPress plugin (`includes/class.clef-internal-settings.php`). The object:

- decides once, when it is constructed, whether the plugin's settings array lives
  in the per-site option store or in the network option store of a WordPress
  multisite installation (the `use_individual_settings` flag, with its lazily
  stored per-site override);
- keeps an in-memory copy of that array, and `set` and `remove` write the whole
  array back to the chosen store;
- derives the password policies from the array: passwords disabled site-wide,
  passwords disabled for a given user (forced, by Clef login, or by a role
  threshold ranked through a fixed role list), XML-RPC passwords allowed, and
  whether the application is configured.

Files:

- `php.dfy` (module `Php`): the PHP value semantics the class relies on.
  It covers truthiness, loose `==` against a non-numeric word, `strtolower`,
  `array_search` over a list of words, and PHP's comparison of an index or
  `false` with `0` and with another index.
- `wordpress.dfy` (module `WordPress`): option values and the option stores.
  A store is a class whose `options` map is updated in place by `Update`
  (`update_option` / `update_site_option`) and `Add` (`add_option`), with a
  ghost `writes` counter of the write calls made on it. `Host` holds the answers
  of `is_plugin_active_for_network` and `is_network_admin`.
- `clef_internal_settings.dfy` (module `ClefSettings`): the option names and
  setting keys, the role ranks and the threshold rule, the storage-mode decision
  as functions with its lemmas, and the class `ClefInternalSettings`. The class
  has the two fields the source updates (`useIndividualSettings`, `settings`)
  and one method or function per member of the source.

Three behaviours of the code that are easy to misread, and that the model keeps:

- A boolean `true` as the disable-certain-passwords setting equals `"Disabled"`
  under PHP's loose `==`. So `passwords_disabled` does not count it as a threshold.
- A missing disable-certain-passwords setting reads as `null`, which differs from
  `"Disabled"`. So `passwords_disabled` is true for a site that never saved its
  password settings.
- The role list ranks editor below author (`subscriber, editor, author,
  administrator, super administrator`), as the array at lines 116-122 does.

One place does not follow the code: the object's storage-mode decision uses the
corrected test for line 29 (see "## Findings" and "## Left out").

## Model

| member | source | states |
|---|---|---|
| Php.Truthy | includes/class.clef-internal-settings.php:52 | a value is truthy exactly when it is not null, false, "" or "0" |
| Php.LooseEqualsWord | includes/class.clef-internal-settings.php:114 | loose `==` against a non-numeric word: null never equals it, a boolean equals it exactly when the boolean is true, a string when it is that word |
| Php.ToLower | includes/class.clef-internal-settings.php:115 | `strtolower` keeps the length, leaves no capital A-Z in its result, keeps every character that is not a capital, and turns each capital into its lower-case letter |
| Php.ToLowerIdempotent | includes/class.clef-internal-settings.php:115 | lowering the threshold a second time changes nothing |
| Php.ToLowerKeepsLowercase | includes/class.clef-internal-settings.php:115 | a threshold already in lower case, such as each role name, is its own lower case |
| Php.ArraySearch | includes/class.clef-internal-settings.php:125 | `array_search` gives `false` exactly when the needle is absent, and otherwise the first index that holds it |
| WordPress.WrittenTableReadsBack | includes/class.clef-internal-settings.php:59-67 | an array written under the settings option reads back as that same array (truthy exactly when not empty), and every other option reads as before |
| WordPress.OptionStore.Update | includes/class.clef-internal-settings.php:66 | after `update_option` the key holds the value, nothing else changes, one write is made |
| WordPress.OptionStore.Add | includes/class.clef-internal-settings.php:31 | `add_option` stores the value only when the key is absent, and otherwise changes nothing |
| ClefSettings.RoleMapIsNonNumeric | includes/class.clef-internal-settings.php:116-122 | no role name is a numeric string, so loose `==` on them is plain equality |
| ClefSettings.RankOrZero | includes/class.clef-internal-settings.php:116-122 | every rank lies within the role list |
| ClefSettings.RankOrZeroIsPosition | includes/class.clef-internal-settings.php:116-122 | a listed name's rank is its position in the list; an unlisted name ranks 0 |
| ClefSettings.SearchRoleMap | includes/class.clef-internal-settings.php:125 | searching the role list finds exactly the listed names, at their rank |
| ClefSettings.PhpRankTest | includes/class.clef-internal-settings.php:126 | PHP's `$rank != 0 && $rank >= array_search(...)` on an index or `false` (the functions `Php.NotZero` and `Php.AtLeast`) is the same as "rank above 0 and at least the threshold's rank, with an unlisted name ranked 0" |
| ClefSettings.RankTest | includes/class.clef-internal-settings.php:125-126 | the searches and the test of lines 125-126 for one role pass exactly when the role reaches the threshold |
| ClefSettings.RolesReachThreshold | includes/class.clef-internal-settings.php:124-130 | the `foreach` with `break` sets the flag exactly when some role of the user reaches the threshold |
| ClefSettings.ThresholdGuard | includes/class.clef-internal-settings.php:114 | the guard passes exactly for a string other than "", "0" and "Disabled"; `true` and other non-strings are turned away |
| ClefSettings.ThresholdDisablesUnfold | includes/class.clef-internal-settings.php:114-134 | the threshold rule is the guard and then a reaching role or the super-administrator case |
| ClefSettings.SettingsWriteKeepsMultisiteSwitches | includes/class.clef-internal-settings.php:75-78 | writing the settings array to the network store leaves `is_multisite_enabled` and the allow-override switch as they were |
| ClefSettings.SingleSiteUsesIndividualSettings | includes/class.clef-internal-settings.php:19 | without multisite the per-site store is used and the site is not written |
| ClefSettings.NoOverrideUsesNetworkSettings | includes/class.clef-internal-settings.php:21-36 | with multisite, the network store is used when overrides are not allowed or the request is in the network admin |
| ClefSettings.UndefinedOverrideIsInitialised | includes/class.clef-internal-settings.php:23-36 | a missing override is computed from the legacy settings option and added once; the decision is that value and not network admin |
| ClefSettings.DefinedOverrideIsKept | includes/class.clef-internal-settings.php:23-36 | a stored override is not written again, and with multisite the decision is "allowed, override truthy, not network admin" |
| ClefSettings.DefinedOverrideIgnoresLegacy | includes/class.clef-internal-settings.php:24-33 | once an override is stored, the site's legacy settings option has no effect on the decision |
| ClefSettings.DecisionIsStable | includes/class.clef-internal-settings.php:18-37 | deciding again on the site the decision left gives the same answer and writes nothing more |
| ClefSettings.IndividualSettingsDecisionAsWritten | includes/class.clef-internal-settings.php:18-37 | with the loose test of line 29, the decision agrees with the corrected one whenever the override is absent or does not look like "undefined" |
| ClefSettings.StoredTrueOverrideIsRecomputed | includes/class.clef-internal-settings.php:29-30 | a stored `true` override is taken for undefined: as written the result flips with the legacy option, while the corrected decision uses the override |
| ClefSettings.ClefInternalSettings.constructor | includes/class.clef-internal-settings.php:13-16 | the mode is the decision on the stores as found, the site store is left as the decision leaves it, and the in-memory settings mirror the chosen store |
| ClefSettings.ClefInternalSettings.CheckIndividualSettings | includes/class.clef-internal-settings.php:18-37 | the result is the decision on the old stores; the site gains the override flag only when it was missing and overrides are allowed, with one write |
| ClefSettings.ClefInternalSettings.Set | includes/class.clef-internal-settings.php:43-48 | a truthy value that differs strictly (`!==`) from the current one is stored, so `get` reads it back, and the whole array is written to the chosen store once; otherwise nothing changes; other keys, the mode and the multisite switches never change |
| ClefSettings.ClefInternalSettings.Remove | includes/class.clef-internal-settings.php:50-57 | returns the old setting (null when missing); a truthy one is removed and the array written once, a falsy or missing one changes nothing; the mode and the multisite switches never change |
| ClefSettings.ClefInternalSettings.UpdateSiteOption | includes/class.clef-internal-settings.php:64-67 | writes the current array as the settings option of the chosen store, with one write, and nothing else; afterwards `get_site_option` reads the in-memory settings back |
| ClefSettings.ClefInternalSettings.PasswordsDisabled | includes/class.clef-internal-settings.php:85-89 | true when disable-passwords or force is truthy, or when the disable-certain setting is neither "Disabled" nor `true` |
| ClefSettings.ClefInternalSettings.PasswordsDisabledForStringSetting | includes/class.clef-internal-settings.php:88 | for a missing or string disable-certain setting, the third disjunct is "anything but exactly Disabled" |
| ClefSettings.ClefInternalSettings.XmlPasswordsEnabled | includes/class.clef-internal-settings.php:140-144 | XML-RPC passwords are enabled exactly when passwords are not disabled or the xml-allowed setting is truthy |
| ClefSettings.ClefInternalSettings.IsConfigured | includes/class.clef-internal-settings.php:146-151 | configured exactly when both the app id and the app secret are stored and truthy |
| ClefSettings.ClefInternalSettings.MultisiteDisallowSettingsOverride | includes/class.clef-internal-settings.php:153-155 | true exactly when multisite is enabled and overrides are not allowed, and then no site can get individual settings |
| ClefSettings.ClefInternalSettings.PasswordsAreDisabledForUser | includes/class.clef-internal-settings.php:98-138 | the result is: configured, and (force, or disable-passwords with a Clef id, or the role threshold or super-administrator rule) |
| ClefSettings.ClefInternalSettings.NotConfiguredNeverDisabled | includes/class.clef-internal-settings.php:99 | an unconfigured site never disables a user's password |
| ClefSettings.ClefInternalSettings.ForceOrClefIdDisables | includes/class.clef-internal-settings.php:101-109 | on a configured site, force, or disable-passwords for a user with a Clef id, disables the user's password whatever the roles |
| ClefSettings.ClefInternalSettings.DisabledForUserImpliesPasswordsDisabled | includes/class.clef-internal-settings.php:85-144 | a user disabled by the rule implies passwords are disabled site-wide, so XML-RPC passwords then depend on xml-allowed only |
| ClefSettings.SubscriberAndUnlistedNeverReach | includes/class.clef-internal-settings.php:125-126 | a subscriber or an unlisted role never reaches any threshold |
| ClefSettings.UnlistedThresholdActsAsRankZero | includes/class.clef-internal-settings.php:126 | an unlisted threshold is reached exactly by the listed roles other than subscriber |
| ClefSettings.LowerThresholdReachesMore | includes/class.clef-internal-settings.php:126 | a role that reaches a threshold also reaches every lower-ranked one |
| ClefSettings.MoreRolesDisableMore | includes/class.clef-internal-settings.php:124-130 | adding roles to a user never re-enables their password |
| ClefSettings.EditorThresholdScenarios | includes/class.clef-internal-settings.php:114-130 | threshold "Editor" disables an editor; "Administrator" and "Author" do not |
| ClefSettings.SuperAdministratorThreshold | includes/class.clef-internal-settings.php:132-134 | threshold "Super Administrator" disables a super admin whatever the roles, and only that listed role reaches it |

Three source members have no row because their functions only compute, and other
members' contracts state what they promise:

- `get` (lines 39-41) is `ClefSettings.ClefInternalSettings.Get`. `Set` states that a stored value reads back through it, and `Remove` states what it returned and what it returns afterwards.
- `get_site_option` (lines 59-62) is `ClefSettings.ClefInternalSettings.GetSiteOption`. `UpdateSiteOption` re-establishes `Valid()` (the chosen store's settings option reads back as the in-memory settings), and `WordPress.WrittenTableReadsBack` is the round trip behind it.
- `is_multisite_enabled` (lines 75-78) is `ClefSettings.ClefInternalSettings.IsMultisiteEnabled`. `ClefSettings.SettingsWriteKeepsMultisiteSwitches` and the "unchanged" ensures of `Set` and `Remove` state that writing settings never changes it. `ClefSettings.SingleSiteUsesIndividualSettings` and `MultisiteDisallowSettingsOverride` state what it decides.

## Left out

- `start` and `get_instance` (lines 157-166): the process-wide singleton is not modelled. A caller builds one object with the constructor.
- The name `CLEF_OPTIONS_NAME` is defined in `wpclef.php`, which is not part of this model. The value `"wpclef"` is assumed for it.
- WordPress' option API is reduced to a map per store. Serialisation, caching and the "value unchanged, no query" short cut of `update_option` are left out, so `writes` counts calls and not database queries.
- The return values of `update_option` / `update_site_option`, which the source passes on and its callers ignore, are left out.
- Setting values are null, booleans and strings. Integers, floats and nested arrays are not modelled. A settings option that holds a scalar instead of an array is read as an empty array. So where PHP's `$this->settings[$name] = $value` (line 45) would raise an error on a stored `true`, or write into a stored non-empty string, `Set` writes a fresh one-key array.
- `is_plugin_active_for_network`, `is_network_admin`, `is_super_admin` and `get_user_meta` are host calls. Their answers are parameters: `Host`, `superAdmin`, and `clefIdMeta` as the list of meta values.
- A `WP_User` is reduced to its id and role names.
- `strtolower` is modelled as ASCII lowering, with no locale-dependent mapping.
- The choice of getter or setter by function name (lines 60 and 65) is modelled as a branch on the mode.
- ClefSettings.ClefInternalSettings.PasswordsAreDisabledForUser: its `foreach` over the roles is the separate method `ClefSettings.RolesReachThreshold`. The `&$role` reference in the loop is not modelled because nothing writes through it.
- ClefSettings.ClefInternalSettings.CheckIndividualSettings: uses the corrected test of line 29, "no override is stored", rather than PHP's loose `$override == "undefined"`. So the constructor does not reproduce the case where a stored `true` (or the string "undefined") is taken for a missing override. The as-written decision is `ClefSettings.IndividualSettingsDecisionAsWritten`.
- ClefSettings.ClefInternalSettings.constructor: requires the per-site and the network store to be two objects. On a single-site install WordPress serves `get_site_option` from the site's own options, so they are one store there. No behaviour is lost, because `is_plugin_active_for_network` is false on such an install, so the decision takes line 19's branch.
- ClefSettings.IndividualSettingsDecisionAsWritten: gives only the result. In the loose branch, as written, the code also makes one `add_option` call for a stored `true` override. That call changes nothing, but under the `writes` count it is one more write.
- Concurrent requests that change the options between the constructor and later calls are not modelled. The stores change only through the object's own methods.

## Findings

| source | as written | input that shows it | evidently intended | confidence | as-written member | corrected member |
|---|---|---|---|---|---|---|
| includes/class.clef-internal-settings.php:29 | `$override == "undefined"` compares loosely, so a stored boolean `true` override also equals `"undefined"` and is recomputed from the legacy settings option (`add_option` then does nothing) | multisite enabled, overrides allowed, not network admin, the site's override option read back as `true`, and no per-site settings option: the result is `false` (network settings) although the override is on | only a missing override is initialised from the legacy option, as the comment on lines 26-28 says, and a stored override is used as it is (as written, the loose branch also makes one `add_option` call, which changes nothing) | low, not executed (a boolean `true` is what `get_option` returns when the value comes from the object cache; a value read back from the database is the string "1") | ClefSettings.IndividualSettingsDecisionAsWritten, ClefSettings.StoredTrueOverrideIsRecomputed | ClefSettings.IndividualSettingsDecision, ClefSettings.DefinedOverrideIgnoresLegacy |
