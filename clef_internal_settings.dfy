/** The plugin's internal settings object (`includes/class.clef-internal-settings.php`;
    the line numbers in the comments below refer to that file): an in-memory
    settings array bound once to the per-site or the network option store, and
    the password policies derived from it. */
module ClefSettings {
  import opened Php
  import opened WordPress

  /** Name of the option holding the settings array (`CLEF_OPTIONS_NAME`, defined outside the class). */
  const ClefOptionsName := "wpclef"

  const MsEnabledOption := "clef_multisite_enabled"
  // the misspelling "multsite" is the option's real name
  const MsAllowOverrideOption := "clef_multsite_allow_override"
  const MsOverrideOption := "clef_multisite_override"

  const AppIdKey := "clef_settings_app_id"
  const AppSecretKey := "clef_settings_app_secret"
  const DisablePasswordsKey := "clef_password_settings_disable_passwords"
  const ForceKey := "clef_password_settings_force"
  const DisableCertainKey := "clef_password_settings_disable_certain_passwords"
  const XmlAllowedKey := "clef_password_settings_xml_allowed"

  /** The rank list of the role threshold. Its order puts editor below author. */
  const RoleMap: seq<string> := ["subscriber", "editor", "author", "administrator", "super administrator"]

  /** A WordPress user as far as the policies look at it. The id is what the host
      calls `get_user_meta` and `is_super_admin` are asked about; their answers
      are parameters of the policy. */
  datatype User = User(id: int, roles: seq<string>)

  // ---------------------------------------------------------------------------
  // Role ranks

  lemma RoleMapIsNonNumeric()
    ensures forall k :: 0 <= k < |RoleMap| ==> NonNumeric(RoleMap[k])
  {
  }

  /** An index found by `array_search`, or 0 for its `false`. */
  function OrZero(rank: Option<nat>): nat
  {
    match rank
    case Some(i) => i
    case None => 0
  }

  /** Position of `name` in RoleMap, and 0 for a name that is not listed. */
  function RankOrZero(name: string): (r: nat)
    ensures r < |RoleMap|
  {
    if name == "subscriber" then 0
    else if name == "editor" then 1
    else if name == "author" then 2
    else if name == "administrator" then 3
    else if name == "super administrator" then 4
    else 0
  }

  lemma RankOrZeroIsPosition(name: string)
    ensures name in RoleMap ==> RoleMap[RankOrZero(name)] == name
    ensures name !in RoleMap ==> RankOrZero(name) == 0
  {
  }

  /** `array_search($name, $role_map)` finds exactly the listed names, at their rank. */
  lemma SearchRoleMap(name: string)
    ensures OrZero(ArraySearch(name, RoleMap)) == RankOrZero(name)
    ensures ArraySearch(name, RoleMap).None? <==> name !in RoleMap
  {
    RoleMapIsNonNumeric();
    RankOrZeroIsPosition(name);
    var r := ArraySearch(name, RoleMap);
    if r.Some? {
      assert RoleMap[r.value] == name;
    }
  }

  /** A role reaches a (lowercased) threshold when it is listed above subscriber
      and ranks at least as high as the threshold; an unlisted threshold ranks 0. */
  predicate RoleReaches(role: string, threshold: string)
  {
    RankOrZero(role) > 0 && RankOrZero(role) >= RankOrZero(threshold)
  }

  /** The test at line 126 with PHP's comparisons of an index or `false` is a
      plain comparison of ranks-or-zero: `false != 0` is false, so an unlisted
      role never triggers, and an index `>= false` holds, so an unlisted
      threshold acts as rank 0. */
  lemma PhpRankTest(rank: Option<nat>, maxRank: Option<nat>)
    ensures (NotZero(rank) && AtLeast(rank, maxRank)) <==> OrZero(rank) > 0 && OrZero(rank) >= OrZero(maxRank)
  {
  }

  /** The role-threshold rule on the disable-certain setting: it applies to a
      truthy string other than "Disabled" (a boolean `true` equals "Disabled"
      loosely), and disables the user when one of the roles reaches the
      lowercased threshold, or when the threshold is super administrator and
      the host reports the user as a super admin. */
  predicate ThresholdDisables(setting: Value, roles: seq<string>, superAdmin: bool)
  {
    match setting
    case Str(t) =>
      && t != "" && t != "0" && t != "Disabled"
      && ((exists i :: 0 <= i < |roles| && RoleReaches(roles[i], ToLower(t)))
          || (ToLower(t) == "super administrator" && superAdmin))
    case _ => false
  }

  /** The guard of line 114: a truthy value other than "Disabled" (loosely) is a string. */
  lemma ThresholdGuard(setting: Value)
    ensures (Truthy(setting) && !LooseEqualsWord(setting, "Disabled")) <==>
            (setting.Str? && setting.s != "" && setting.s != "0" && setting.s != "Disabled")
  {
  }

  /** What ThresholdDisables asks of a setting that passed the guard of line 114. */
  lemma ThresholdDisablesUnfold(setting: Value, roles: seq<string>, superAdmin: bool)
    ensures ThresholdDisables(setting, roles, superAdmin) <==>
      && Truthy(setting) && !LooseEqualsWord(setting, "Disabled")
      && ((exists j :: 0 <= j < |roles| && RoleReaches(roles[j], ToLower(setting.s)))
          || (ToLower(setting.s) == "super administrator" && superAdmin))
  {
    ThresholdGuard(setting);
  }

  /** The test of line 126 for one role, `$rank != 0 && $rank >= array_search($max_role, $role_map)`
      with `$rank = array_search($role, $role_map)`: it passes exactly when the role reaches the threshold. */
  function RankTest(role: string, maxRole: string): (passes: bool)
    ensures passes <==> RoleReaches(role, maxRole)
  {
    RoleMapIsNonNumeric();
    var rank := ArraySearch(role, RoleMap);
    PhpRankTest(rank, ArraySearch(maxRole, RoleMap));
    SearchRoleMap(role);
    SearchRoleMap(maxRole);
    NotZero(rank) && AtLeast(rank, ArraySearch(maxRole, RoleMap))
  }

  /** The `foreach` of lines 124-130: scans the roles in order and stops at the
      first one whose PHP rank test passes. */
  method RolesReachThreshold(roles: seq<string>, maxRole: string) returns (reached: bool)
    ensures reached <==> exists j :: 0 <= j < |roles| && RoleReaches(roles[j], maxRole)
  {
    reached := false;
    var i := 0;
    while i < |roles|
      invariant 0 <= i <= |roles|
      invariant forall j :: 0 <= j < i ==> !RoleReaches(roles[j], maxRole)
    {
      if RankTest(roles[i], maxRole) {
        reached := true;
        break;
      }
      assert !RoleReaches(roles[i], maxRole);
      i := i + 1;
    }
  }

  // ---------------------------------------------------------------------------
  // Storage-mode decision

  /** `is_multisite_enabled()` on given host answers and network options. */
  function MultisiteEnabled(host: Host, network: map<string, Stored>): (enabled: bool)
  {
    host.pluginNetworkActive && OptionTruthy(Lookup(network, MsEnabledOption))
  }

  predicate OverrideAllowed(network: map<string, Stored>)
  {
    OptionTruthy(Lookup(network, MsAllowOverrideOption))
  }

  /** Writing the settings array to the network store leaves the multisite switches
      as they were: the settings option is neither of them. */
  lemma SettingsWriteKeepsMultisiteSwitches(host: Host, network: map<string, Stored>, m: map<string, Value>)
    ensures MultisiteEnabled(host, network[ClefOptionsName := Table(m)]) == MultisiteEnabled(host, network)
    ensures OverrideAllowed(network[ClefOptionsName := Table(m)]) == OverrideAllowed(network)
  {
    WrittenTableReadsBack(network, ClefOptionsName, m);
  }

  /** The per-site override flag: the stored one, or, while none is stored, the
      truthiness of the site's own (legacy) settings option. */
  predicate SiteOverride(site: map<string, Stored>)
  {
    match Lookup(site, MsOverrideOption)
    case None => OptionTruthy(Lookup(site, ClefOptionsName))
    case Some(flag) => StoredTruthy(flag)
  }

  /** Whether the settings live in the per-site store (`use_individual_settings`). */
  predicate IndividualSettingsDecision(host: Host, site: map<string, Stored>, network: map<string, Stored>)
  {
    !MultisiteEnabled(host, network) || (OverrideAllowed(network) && SiteOverride(site) && !host.networkAdmin)
  }

  /** Whether the decision stores the lazily computed override flag with `add_option`. */
  predicate AddsOverride(host: Host, site: map<string, Stored>, network: map<string, Stored>)
  {
    MultisiteEnabled(host, network) && OverrideAllowed(network) && MsOverrideOption !in site
  }

  /** The site after the decision: the computed flag added when none was stored. */
  function SiteAfterDecision(host: Host, site: map<string, Stored>, network: map<string, Stored>): map<string, Stored>
  {
    if AddsOverride(host, site, network)
    then site[MsOverrideOption := Scalar(Bool(OptionTruthy(Lookup(site, ClefOptionsName))))]
    else site
  }

  lemma SingleSiteUsesIndividualSettings(host: Host, site: map<string, Stored>, network: map<string, Stored>)
    requires !MultisiteEnabled(host, network)
    ensures IndividualSettingsDecision(host, site, network)
    ensures SiteAfterDecision(host, site, network) == site
  {
  }

  lemma NoOverrideUsesNetworkSettings(host: Host, site: map<string, Stored>, network: map<string, Stored>)
    requires MultisiteEnabled(host, network)
    requires !OverrideAllowed(network) || host.networkAdmin
    ensures !IndividualSettingsDecision(host, site, network)
  {
  }

  /** An undefined override is computed from the legacy option, stored once, and
      combined with the network-admin test. */
  lemma UndefinedOverrideIsInitialised(host: Host, site: map<string, Stored>, network: map<string, Stored>)
    requires MultisiteEnabled(host, network) && OverrideAllowed(network)
    requires MsOverrideOption !in site
    ensures var legacy := OptionTruthy(Lookup(site, ClefOptionsName));
      && SiteAfterDecision(host, site, network) == site[MsOverrideOption := Scalar(Bool(legacy))]
      && (IndividualSettingsDecision(host, site, network) <==> legacy && !host.networkAdmin)
  {
  }

  /** A defined override is never written again and is used as it is. */
  lemma DefinedOverrideIsKept(host: Host, site: map<string, Stored>, network: map<string, Stored>)
    requires MsOverrideOption in site
    ensures SiteAfterDecision(host, site, network) == site
    ensures MultisiteEnabled(host, network) ==>
      (IndividualSettingsDecision(host, site, network) <==>
        OverrideAllowed(network) && StoredTruthy(site[MsOverrideOption]) && !host.networkAdmin)
  {
  }

  /** Once the override is stored, what the site's legacy option holds no longer matters. */
  lemma DefinedOverrideIgnoresLegacy(host: Host, site: map<string, Stored>, network: map<string, Stored>, legacy: Option<Stored>)
    requires MsOverrideOption in site
    ensures var site' := if legacy.Some? then site[ClefOptionsName := legacy.value] else site - {ClefOptionsName};
      IndividualSettingsDecision(host, site', network) == IndividualSettingsDecision(host, site, network)
  {
    var site' := if legacy.Some? then site[ClefOptionsName := legacy.value] else site - {ClefOptionsName};
    assert Lookup(site', MsOverrideOption) == Lookup(site, MsOverrideOption);
  }

  /** The decision taken on a site that already stores the flag computed for it
      is the decision itself: the lazy initialisation is stable. */
  lemma DecisionIsStable(host: Host, site: map<string, Stored>, network: map<string, Stored>)
    ensures IndividualSettingsDecision(host, SiteAfterDecision(host, site, network), network)
            == IndividualSettingsDecision(host, site, network)
    ensures SiteAfterDecision(host, SiteAfterDecision(host, site, network), network)
            == SiteAfterDecision(host, site, network)
  {
    var after := SiteAfterDecision(host, site, network);
    if AddsOverride(host, site, network) {
      assert Lookup(after, MsOverrideOption) == Some(Scalar(Bool(OptionTruthy(Lookup(site, ClefOptionsName)))));
    }
  }

  /** Line 29 as written: `get_option(MS_OVERRIDE_OPTION, 'undefined') == "undefined"`,
      a loose comparison, true for a missing option and also for a stored `true`. */
  predicate OverrideLooksUndefined(stored: Option<Stored>)
  {
    match stored
    case None => true
    case Some(Scalar(v)) => LooseEqualsWord(v, "undefined")
    case Some(Table(_)) => false
  }

  /** `check_individual_settings()` with the comparison of line 29 as written. When the
      stored option already exists, `add_option` does nothing, so only the result differs. */
  function IndividualSettingsDecisionAsWritten(host: Host, site: map<string, Stored>, network: map<string, Stored>): (individual: bool)
    ensures !OverrideLooksUndefined(Lookup(site, MsOverrideOption)) || MsOverrideOption !in site ==>
      individual == IndividualSettingsDecision(host, site, network)
  {
    if !MultisiteEnabled(host, network) then true
    else
      var stored := Lookup(site, MsOverrideOption);
      var override :=
        if !OverrideAllowed(network) then false
        else if OverrideLooksUndefined(stored) then OptionTruthy(Lookup(site, ClefOptionsName))
        else StoredTruthy(stored.value);
      override && !host.networkAdmin
  }

  /** A site whose stored override is `true` but which has no settings of its own:
      as written it is sent to the network settings, and the result depends on the
      legacy option although the override is defined. */
  lemma StoredTrueOverrideIsRecomputed()
    ensures var host := Host(true, false);
      var network := map[MsEnabledOption := Scalar(Bool(true)), MsAllowOverrideOption := Scalar(Bool(true))];
      var site := map[MsOverrideOption := Scalar(Bool(true))];
      && !IndividualSettingsDecisionAsWritten(host, site, network)
      && IndividualSettingsDecisionAsWritten(host, site[ClefOptionsName := Table(map[AppIdKey := Str("id")])], network)
      && IndividualSettingsDecision(host, site, network)
  {
    var network := map[MsEnabledOption := Scalar(Bool(true)), MsAllowOverrideOption := Scalar(Bool(true))];
    var site := map[MsOverrideOption := Scalar(Bool(true))];
    assert Lookup(network, MsEnabledOption) == Some(Scalar(Bool(true)));
    assert Lookup(network, MsAllowOverrideOption) == Some(Scalar(Bool(true)));
    assert Lookup(site, ClefOptionsName) == None;
    var legacy := site[ClefOptionsName := Table(map[AppIdKey := Str("id")])];
    assert Lookup(legacy, MsOverrideOption) == Some(Scalar(Bool(true)));
    assert Lookup(legacy, ClefOptionsName) == Some(Table(map[AppIdKey := Str("id")]));
    assert AppIdKey in map[AppIdKey := Str("id")];
  }

  // ---------------------------------------------------------------------------
  // The settings object

  class ClefInternalSettings {
    const host: Host
    const site: OptionStore
    const network: OptionStore

    var useIndividualSettings: bool
    var settings: map<string, Value>

    /** The store that backs the settings, chosen once by the constructor. */
    function Backend(): OptionStore
      reads this
    {
      if useIndividualSettings then site else network
    }

    /** The in-memory settings mirror the settings option of the chosen store. */
    ghost predicate Valid()
      reads this, site, network
    {
      site != network && settings == SettingsOf(GetSiteOption())
    }

    constructor (host: Host, site: OptionStore, network: OptionStore)
      requires site != network
      modifies site
      ensures this.host == host && this.site == site && this.network == network
      ensures Valid()
      ensures useIndividualSettings == IndividualSettingsDecision(host, old(site.options), network.options)
      ensures site.options == SiteAfterDecision(host, old(site.options), network.options)
      ensures site.writes == old(site.writes) + if AddsOverride(host, old(site.options), network.options) then 1 else 0
    {
      this.host := host;
      this.site := site;
      this.network := network;
      new;
      useIndividualSettings := CheckIndividualSettings();
      settings := SettingsOf(GetSiteOption());
    }

    method CheckIndividualSettings() returns (individual: bool)
      requires site != network
      modifies site
      ensures individual == IndividualSettingsDecision(host, old(site.options), network.options)
      ensures site.options == SiteAfterDecision(host, old(site.options), network.options)
      ensures site.writes == old(site.writes) + if AddsOverride(host, old(site.options), network.options) then 1 else 0
    {
      if !IsMultisiteEnabled() {
        return true;
      }
      var override := false;
      if OverrideAllowed(network.options) {
        var stored := site.Get(MsOverrideOption);
        if stored.None? {
          override := OptionTruthy(site.Get(ClefOptionsName));
          site.Add(MsOverrideOption, Scalar(Bool(override)));
        } else {
          override := StoredTruthy(stored.value);
        }
      }
      individual := override && !host.networkAdmin;
    }

    function Get(name: string): (v: Value)
      reads this
    {
      if name in settings then settings[name] else Null
    }

    method Set(name: string, value: Value)
      requires Valid()
      modifies this`settings, Backend()
      ensures Valid() && useIndividualSettings == old(useIndividualSettings)
      ensures Truthy(value) ==> Get(name) == value
      ensures IsMultisiteEnabled() == old(IsMultisiteEnabled())
      ensures MultisiteDisallowSettingsOverride() == old(MultisiteDisallowSettingsOverride())
      ensures forall k :: k != name ==> Get(k) == old(Get(k))
      ensures var effective := Truthy(value) && old(Get(name)) != value;
        && settings == (if effective then old(settings)[name := value] else old(settings))
        && Backend().options == (if effective then old(Backend().options)[ClefOptionsName := Table(settings)] else old(Backend().options))
        && Backend().writes == old(Backend().writes) + (if effective then 1 else 0)
    {
      if Truthy(value) && Get(name) != value {
        settings := settings[name := value];
        SettingsWriteKeepsMultisiteSwitches(host, network.options, settings);
        UpdateSiteOption();
      }
    }

    method Remove(name: string) returns (value: Value)
      requires Valid()
      modifies this`settings, Backend()
      ensures Valid() && useIndividualSettings == old(useIndividualSettings)
      ensures value == old(Get(name))
      ensures IsMultisiteEnabled() == old(IsMultisiteEnabled())
      ensures MultisiteDisallowSettingsOverride() == old(MultisiteDisallowSettingsOverride())
      ensures name !in old(settings) ==> value == Null
      ensures Truthy(value) ==> name !in settings
      ensures settings == (if Truthy(value) then old(settings) - {name} else old(settings))
      ensures Backend().options == (if Truthy(value) then old(Backend().options)[ClefOptionsName := Table(settings)] else old(Backend().options))
      ensures Backend().writes == old(Backend().writes) + (if Truthy(value) then 1 else 0)
    {
      value := Get(name);
      if Truthy(value) {
        settings := settings - {name};
        SettingsWriteKeepsMultisiteSwitches(host, network.options, settings);
        UpdateSiteOption();
      }
    }

    /** `get_site_option()`: the settings option of the per-site store when
        `useIndividualSettings`, of the network store otherwise. */
    function GetSiteOption(): (stored: Option<Stored>)
      reads this, site, network
    {
      Backend().Get(ClefOptionsName)
    }

    /** `update_site_option()`: writes the whole settings array to the chosen store. */
    method UpdateSiteOption()
      requires site != network
      modifies Backend()
      ensures Valid()
      ensures Backend().options == old(Backend().options)[ClefOptionsName := Table(settings)]
      ensures Backend().writes == old(Backend().writes) + 1
    {
      if useIndividualSettings {
        site.Update(ClefOptionsName, Table(settings));
      } else {
        network.Update(ClefOptionsName, Table(settings));
      }
    }

    function IsMultisiteEnabled(): (enabled: bool)
      reads this, network
    {
      MultisiteEnabled(host, network.options)
    }

    /** Site-wide: true unless every password setting is off and the disable-certain
        setting loosely equals "Disabled", that is, it is "Disabled" or `true`.
        A missing setting reads as null, which differs from "Disabled". */
    function PasswordsDisabled(): (disabled: bool)
      reads this
      ensures disabled <==> || Truthy(Get(DisablePasswordsKey))
                            || Truthy(Get(ForceKey))
                            || Get(DisableCertainKey) !in {Str("Disabled"), Bool(true)}
    {
      || Truthy(Get(DisablePasswordsKey))
      || Truthy(Get(ForceKey))
      || !LooseEqualsWord(Get(DisableCertainKey), "Disabled")
    }

    /** For a disable-certain setting that is missing or a string, the rule of
        line 88 is "anything but exactly Disabled". */
    lemma PasswordsDisabledForStringSetting()
      requires Get(DisableCertainKey).Null? || Get(DisableCertainKey).Str?
      ensures PasswordsDisabled() <==>
        Truthy(Get(DisablePasswordsKey)) || Truthy(Get(ForceKey)) || Get(DisableCertainKey) != Str("Disabled")
    {
    }

    /** The condition `!PD || (PD && xml)` of lines 141-143 reduces to `!PD || xml`. */
    function XmlPasswordsEnabled(): (enabled: bool)
      reads this
      ensures enabled <==> !PasswordsDisabled() || Truthy(Get(XmlAllowedKey))
    {
      !PasswordsDisabled() || (PasswordsDisabled() && Truthy(Get(XmlAllowedKey)))
    }

    /** Both application credentials are stored and truthy; the `!empty` tests add nothing. */
    function IsConfigured(): (configured: bool)
      reads this
      ensures configured <==> && AppIdKey in settings && Truthy(settings[AppIdKey])
                              && AppSecretKey in settings && Truthy(settings[AppSecretKey])
    {
      var appId := Get(AppIdKey);
      var appSecret := Get(AppSecretKey);
      Truthy(appId) && Truthy(appSecret) && !Empty(appId) && !Empty(appSecret)
    }

    function MultisiteDisallowSettingsOverride(): (disallowed: bool)
      reads this, network
      ensures disallowed <==> IsMultisiteEnabled() && !OverrideAllowed(network.options)
      ensures disallowed ==> forall s :: !IndividualSettingsDecision(host, s, network.options)
    {
      IsMultisiteEnabled() && !OverrideAllowed(network.options)
    }

    /** The rule of `passwords_are_disabled_for_user`, stated as one condition. */
    ghost predicate DisabledForUser(roles: seq<string>, hasClefId: bool, superAdmin: bool)
      reads this
    {
      && IsConfigured()
      && (|| Truthy(Get(ForceKey))
          || (Truthy(Get(DisablePasswordsKey)) && hasClefId)
          || ThresholdDisables(Get(DisableCertainKey), roles, superAdmin))
    }

    /** `clefIdMeta` is what `get_user_meta($user->ID, 'clef_id')` returns (all values,
        truthy when there is one); `superAdmin` is `is_super_admin($user->ID)`. */
    method PasswordsAreDisabledForUser(user: User, clefIdMeta: seq<Value>, superAdmin: bool) returns (disabled: bool)
      ensures disabled == DisabledForUser(user.roles, clefIdMeta != [], superAdmin)
    {
      if !IsConfigured() {
        return false;
      }
      disabled := false;
      if Truthy(Get(ForceKey)) {
        disabled := true;
      }
      if Truthy(Get(DisablePasswordsKey)) && clefIdMeta != [] {
        disabled := true;
      }
      var disableCertain := Get(DisableCertainKey);
      ghost var before := disabled;
      ThresholdGuard(disableCertain);
      if Truthy(disableCertain) && !LooseEqualsWord(disableCertain, "Disabled") {
        // the guard leaves only strings, so strtolower sees the string itself
        var maxRole := ToLower(disableCertain.s);
        var reached := RolesReachThreshold(user.roles, maxRole);
        if reached {
          disabled := true;
        }
        if maxRole == "super administrator" && superAdmin {
          disabled := true;
        }
        ThresholdDisablesUnfold(disableCertain, user.roles, superAdmin);
      } else {
        ThresholdDisablesUnfold(disableCertain, user.roles, superAdmin);
      }
    }

    lemma NotConfiguredNeverDisabled(roles: seq<string>, hasClefId: bool, superAdmin: bool)
      requires !IsConfigured()
      ensures !DisabledForUser(roles, hasClefId, superAdmin)
    {
    }

    lemma ForceOrClefIdDisables(roles: seq<string>, hasClefId: bool, superAdmin: bool)
      requires IsConfigured()
      requires Truthy(Get(ForceKey)) || (Truthy(Get(DisablePasswordsKey)) && hasClefId)
      ensures DisabledForUser(roles, hasClefId, superAdmin)
    {
    }

    /** A user whose passwords are disabled is under a site where passwords are disabled. */
    lemma DisabledForUserImpliesPasswordsDisabled(roles: seq<string>, hasClefId: bool, superAdmin: bool)
      requires DisabledForUser(roles, hasClefId, superAdmin)
      ensures PasswordsDisabled()
      ensures XmlPasswordsEnabled() <==> Truthy(Get(XmlAllowedKey))
    {
    }
  }

  // ---------------------------------------------------------------------------
  // Properties of the role threshold

  lemma SubscriberAndUnlistedNeverReach(role: string, threshold: string)
    requires role == "subscriber" || role !in RoleMap
    ensures !RoleReaches(role, threshold)
  {
  }

  /** An unlisted threshold (WordPress' contributor, say) is reached by every listed role but subscriber. */
  lemma UnlistedThresholdActsAsRankZero(role: string, threshold: string)
    requires threshold !in RoleMap
    ensures RoleReaches(role, threshold) <==> role in RoleMap && role != "subscriber"
  {
  }

  /** Lowering the threshold never re-enables a role. */
  lemma LowerThresholdReachesMore(role: string, low: string, high: string)
    requires RankOrZero(low) <= RankOrZero(high)
    requires RoleReaches(role, high)
    ensures RoleReaches(role, low)
  {
  }

  /** More roles can only disable more. */
  lemma MoreRolesDisableMore(setting: Value, roles: seq<string>, extra: seq<string>, superAdmin: bool)
    requires ThresholdDisables(setting, roles, superAdmin)
    ensures ThresholdDisables(setting, roles + extra, superAdmin)
  {
    if setting.Str? && exists i :: 0 <= i < |roles| && RoleReaches(roles[i], ToLower(setting.s)) {
      var i :| 0 <= i < |roles| && RoleReaches(roles[i], ToLower(setting.s));
      assert (roles + extra)[i] == roles[i];
    }
  }

  /** Threshold "Administrator" leaves an editor alone; threshold "Editor" disables it. */
  lemma EditorThresholdScenarios()
    ensures !ThresholdDisables(Str("Administrator"), ["editor"], false)
    ensures ThresholdDisables(Str("Editor"), ["editor"], false)
    ensures !ThresholdDisables(Str("Author"), ["editor"], false)
  {
    assert ToLower("Administrator") == "administrator";
    assert ToLower("Editor") == "editor";
    assert ToLower("Author") == "author";
    assert RoleReaches(["editor"][0], "editor");
  }

  /** Threshold "Super Administrator" disables a host-reported super admin whatever the roles. */
  lemma SuperAdministratorThreshold(roles: seq<string>)
    ensures ThresholdDisables(Str("Super Administrator"), roles, true)
    ensures forall i :: 0 <= i < |roles| && roles[i] != "super administrator" ==>
      !RoleReaches(roles[i], "super administrator")
  {
    assert ToLower("Super Administrator") == "super administrator";
  }
}
