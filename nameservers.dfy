/** The validator of a domain's `nameservers` block: provider "custom" needs hosts other than
    Spaceship's default ones, provider "basic" takes no hosts. Spaceship's default host list is
    a parameter (`defaults`). */
module Nameservers {
  import opened Text
  import opened Framework

  /** An attribute of the object as the validator finds it: of the expected type (null, unknown
      or known), or missing or of another type. */
  datatype Typed<T> = Mistyped | Typed(value: TFValue<T>)

  /** The `nameservers` object: its `provider` string and its `hosts` set, listed in the order
      the framework hands the elements over. */
  datatype NameserversConfig = NameserversConfig(provider: Typed<string>, hosts: Typed<seq<string>>)

  /** The lower-cased default hosts: the set `isDefaultBasicNameservers` builds. */
  function LowerSet(hosts: seq<string>): set<string> {
    set h | h in hosts :: ToLower(h)
  }

  /** `isDefaultBasicNameservers`: as many hosts as defaults, and every host, lower-cased, one of
      the lower-cased defaults. */
  predicate MatchesDefaults(hosts: seq<string>, defaults: seq<string>) {
    |hosts| == |defaults| && forall i :: 0 <= i < |hosts| ==> ToLower(hosts[i]) in LowerSet(defaults)
  }

  /** The errors the validator reports, each on the `hosts` attribute. */
  const MissingHosts := Error(Attribute("hosts"), "Missing Required Hosts",
                              "The 'hosts' field is required when provider is 'custom'.")
  const DefaultHostsNeedBasic := Error(Attribute("hosts"), "Invalid Hosts Configuration",
                                       "The default Spaceship nameservers can only be used with provider \"basic\".")
  const BasicTakesNoHosts := Error(Attribute("hosts"), "Invalid Hosts Configuration",
                                   "The 'hosts' field must be omitted when provider is 'basic'.")

  /** `hosts` is null or has no element. */
  predicate NoHosts(hosts: TFValue<seq<string>>) {
    hosts.Null? || (hosts.Known? && |hosts.value| == 0)
  }

  /** `ValidateObject`: nothing to say until the object, its provider and its hosts are all
      decided; then the rule for "custom" and for "basic", and nothing for any other provider. */
  function Validated(config: TFValue<NameserversConfig>, defaults: seq<string>): seq<Diagnostic> {
    if !config.Known? then []
    else match config.value.provider
      case Mistyped => []
      case Typed(p) =>
        if !p.Known? then []
        else match config.value.hosts
          case Mistyped => []
          case Typed(hosts) =>
            if hosts.Unknown? then []
            else if p.value == "custom" then
              if NoHosts(hosts) then [MissingHosts]
              else if MatchesDefaults(hosts.value, defaults) then [DefaultHostsNeedBasic]
              else []
            else if p.value == "basic" then
              if NoHosts(hosts) then [] else [BasicTakesNoHosts]
            else []
  }

  /** `isDefaultBasicNameservers`: compare the lengths, fill the set of lower-cased defaults,
      then look every lower-cased host up in it. */
  method IsDefaultBasicNameservers(hosts: seq<string>, defaults: seq<string>) returns (b: bool)
    ensures b == MatchesDefaults(hosts, defaults)
  {
    if |hosts| != |defaults| {
      return false;
    }
    var defaultSet: set<string> := {};
    for i := 0 to |defaults|
      invariant defaultSet == LowerSet(defaults[..i])
    {
      assert defaults[..i + 1] == defaults[..i] + [defaults[i]];
      defaultSet := defaultSet + {ToLower(defaults[i])};
    }
    assert defaults[..|defaults|] == defaults;
    for i := 0 to |hosts|
      invariant forall j :: 0 <= j < i ==> ToLower(hosts[j]) in defaultSet
    {
      if ToLower(hosts[i]) !in defaultSet {
        return false;
      }
    }
    return true;
  }

  /** `ValidateObject` as the framework runs it, asking `IsDefaultBasicNameservers` for the
      custom provider's hosts. */
  method ValidateObject(config: TFValue<NameserversConfig>, defaults: seq<string>) returns (diags: seq<Diagnostic>)
    ensures diags == Validated(config, defaults)
  {
    if !config.Known? || config.value.provider.Mistyped? {
      return [];
    }
    var p := config.value.provider.value;
    if !p.Known? || config.value.hosts.Mistyped? {
      return [];
    }
    var hosts := config.value.hosts.value;
    if hosts.Unknown? {
      return [];
    }
    var empty := hosts.Null? || |hosts.value| == 0;
    diags := [];
    if p.value == "custom" {
      if empty {
        return [MissingHosts];
      }
      var isDefault := IsDefaultBasicNameservers(hosts.value, defaults);
      if isDefault {
        diags := [DefaultHostsNeedBasic];
      }
    } else if p.value == "basic" {
      if !empty {
        diags := [BasicTakesNoHosts];
      }
    }
  }

  // ---------------------------------------------------------------------------
  // The rule table

  /** The object, its provider and its hosts are all decided. */
  predicate Decided(config: TFValue<NameserversConfig>) {
    config.Known? && config.value.provider.Typed? && config.value.provider.value.Known?
    && config.value.hosts.Typed? && !config.value.hosts.value.Unknown?
  }

  /** Nothing is reported while the object, the provider or the hosts are null or unknown, or
      while an attribute is not of its type; null hosts count as decided. */
  lemma UndecidedIsSilent(config: TFValue<NameserversConfig>, defaults: seq<string>)
    ensures !Decided(config) ==> Validated(config, defaults) == []
    ensures (config.Known? && config.value.hosts.Typed? && config.value.hosts.value.Null?
             && config.value.provider.Typed? && config.value.provider.value.Known?) ==> Decided(config)
  {
  }

  /** Whatever the configuration, at most one error is reported, on `hosts`. */
  lemma AtMostOneError(config: TFValue<NameserversConfig>, defaults: seq<string>)
    ensures |Validated(config, defaults)| <= 1
    ensures forall d :: d in Validated(config, defaults) ==> d.at == Attribute("hosts")
  {
  }

  /** Provider "custom": missing hosts are an error, the default hosts are an error, any other
      hosts are fine. */
  lemma CustomRule(config: TFValue<NameserversConfig>, defaults: seq<string>)
    requires Decided(config) && config.value.provider.value.value == "custom"
    ensures NoHosts(config.value.hosts.value) ==> Validated(config, defaults) == [MissingHosts]
    ensures !NoHosts(config.value.hosts.value) ==>
              (Validated(config, defaults) == [DefaultHostsNeedBasic] <==>
               MatchesDefaults(config.value.hosts.value.value, defaults))
    ensures !NoHosts(config.value.hosts.value) && !MatchesDefaults(config.value.hosts.value.value, defaults) ==>
              Validated(config, defaults) == []
  {
  }

  /** Provider "basic": an error exactly when hosts are given. Any other provider: nothing. */
  lemma BasicAndOtherRules(config: TFValue<NameserversConfig>, defaults: seq<string>)
    requires Decided(config)
    ensures config.value.provider.value.value == "basic" ==>
              (Validated(config, defaults) != [] <==> !NoHosts(config.value.hosts.value))
              && (Validated(config, defaults) != [] ==> Validated(config, defaults) == [BasicTakesNoHosts])
    ensures config.value.provider.value.value !in {"custom", "basic"} ==> Validated(config, defaults) == []
  {
  }

  // ---------------------------------------------------------------------------
  // The default-hosts check

  /** Different lengths never match. */
  lemma LengthMismatchNeverMatches(hosts: seq<string>, defaults: seq<string>)
    requires |hosts| != |defaults|
    ensures !MatchesDefaults(hosts, defaults)
  {
  }

  /** The check ignores case: the default hosts, in any case and any order, match. */
  lemma DefaultsInAnyCaseMatch(hosts: seq<string>, defaults: seq<string>, position: seq<int>)
    requires |hosts| == |defaults| == |position|
    requires forall i :: 0 <= i < |hosts| ==> 0 <= position[i] < |defaults| && ToLower(hosts[i]) == ToLower(defaults[position[i]])
    ensures MatchesDefaults(hosts, defaults)
  {
    forall i | 0 <= i < |hosts|
      ensures ToLower(hosts[i]) in LowerSet(defaults)
    {
      assert defaults[position[i]] in defaults;
    }
  }

  /** No more lower-cased hosts than hosts. */
  lemma {:induction false} LowerSetSize(hosts: seq<string>)
    ensures |LowerSet(hosts)| <= |hosts|
  {
    if hosts != [] {
      var rest := hosts[1..];
      LowerSetSize(rest);
      assert LowerSet(hosts) == LowerSet(rest) + {ToLower(hosts[0])} by {
        assert forall h :: h in hosts <==> h == hosts[0] || h in rest;
      }
    }
  }

  /** Hosts distinct once lower-cased: as many lower-cased hosts as hosts. */
  lemma {:induction false} LowerSetSizeDistinct(hosts: seq<string>)
    requires forall i, j :: 0 <= i < j < |hosts| ==> ToLower(hosts[i]) != ToLower(hosts[j])
    ensures |LowerSet(hosts)| == |hosts|
  {
    if hosts != [] {
      var rest := hosts[1..];
      LowerSetSizeDistinct(rest);
      assert LowerSet(hosts) == LowerSet(rest) + {ToLower(hosts[0])} by {
        assert forall h :: h in hosts <==> h == hosts[0] || h in rest;
      }
      assert ToLower(hosts[0]) !in LowerSet(rest) by {
        forall h | h in rest
          ensures ToLower(h) != ToLower(hosts[0])
        {
          var j :| 0 <= j < |rest| && rest[j] == h;
          assert hosts[j + 1] == h;
        }
      }
    }
  }

  /** When the hosts differ from one another even ignoring case, the check is a case-insensitive
      set equality with the defaults. */
  lemma MatchIsSetEquality(hosts: seq<string>, defaults: seq<string>)
    requires |hosts| == |defaults|
    requires forall i, j :: 0 <= i < j < |hosts| ==> ToLower(hosts[i]) != ToLower(hosts[j])
    ensures MatchesDefaults(hosts, defaults) <==> LowerSet(hosts) == LowerSet(defaults)
  {
    if MatchesDefaults(hosts, defaults) {
      var a, b := LowerSet(hosts), LowerSet(defaults);
      assert a <= b by {
        forall x | x in a
          ensures x in b
        {
          var h :| h in hosts && ToLower(h) == x;
          var i :| 0 <= i < |hosts| && hosts[i] == h;
        }
      }
      LowerSetSizeDistinct(hosts);
      LowerSetSize(defaults);
      assert |b - a| == |b| - |a|;
      assert b - a == {};
    }
    if LowerSet(hosts) == LowerSet(defaults) {
      forall i | 0 <= i < |hosts|
        ensures ToLower(hosts[i]) in LowerSet(defaults)
      {
        assert hosts[i] in hosts;
      }
    }
  }

  /** Without that condition the check is weaker than set equality: a set holding two spellings
      of one default host matches a two-host default list that it does not cover. */
  lemma CaseVariantsMatch()
    ensures MatchesDefaults(["ns1.example", "NS1.example"], ["ns1.example", "ns2.example"])
    ensures LowerSet(["ns1.example", "NS1.example"]) != LowerSet(["ns1.example", "ns2.example"])
  {
    var hosts, defaults := ["ns1.example", "NS1.example"], ["ns1.example", "ns2.example"];
    assert ToLower(hosts[1]) == hosts[0];
    assert ToLower(defaults[0]) == defaults[0];
    assert defaults[0] in defaults;
    assert ToLower(hosts[0]) == hosts[0];
    assert LowerSet(hosts) == {hosts[0]} by {
      assert forall h :: h in hosts ==> h == hosts[0] || h == hosts[1];
    }
    assert ToLower(defaults[1]) == defaults[1];
    assert defaults[1] in defaults;
    assert defaults[1] in LowerSet(defaults);
  }
}
