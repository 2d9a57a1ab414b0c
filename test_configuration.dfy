/** `TestConfiguration`: the directives that decide which configuration sources
    are loaded, read from the "testConfiguration" section, and the build-server
    check they drive. */
module Directives {
  import opened Wrappers
  import opened Text
  import opened Guards
  import opened ConfigurationSources

  /** The key paths the binder reads below the "testConfiguration" section. */
  const BuildServerVariableNameKey: string := "testConfiguration:isInBuildServerModeEnvironmentVariableName"
  const LoadEnvironmentVariablesKey: string := "testConfiguration:loadEnvironmentVariables"
  const EnvironmentVariablesPrefixKey: string := "testConfiguration:environmentVariablesPrefix"
  const LoadDevelopmentFileKey: string := "testConfiguration:loadDevelopmentSettingsFileInBuildServerMode"

  datatype TestConfiguration = TestConfiguration(
    isInBuildServerModeEnvironmentVariableName: string,
    loadEnvironmentVariables: bool,
    environmentVariablesPrefix: string,
    loadDevelopmentSettingsFileInBuildServerMode: bool)
  {
    /** The `IsInBuildServerMode` getter: the named variable is set and its
        trimmed value is "true" in any letter case or exactly "1". A blank
        variable name never signals build-server mode. */
    predicate IsInBuildServerMode(env: Environment)
      ensures IsInBuildServerMode(env) ==>
        !IsBlank(isInBuildServerModeEnvironmentVariableName) && isInBuildServerModeEnvironmentVariableName in env
      ensures IsInBuildServerMode(env) ==>
        |Trim(env[isInBuildServerModeEnvironmentVariableName])| in {1, 4}
    {
      if IsBlank(isInBuildServerModeEnvironmentVariableName) then false
      else if isInBuildServerModeEnvironmentVariableName !in env then false
      else
        var trimmed := Trim(env[isInBuildServerModeEnvironmentVariableName]);
        EqualsOrdinalIgnoreCase(trimmed, "true") || trimmed == "1"
    }
  }

  /** A fresh record: no variable name, no environment variables, no prefix,
      no development file in build-server mode. */
  const Defaults: TestConfiguration := TestConfiguration("", false, "", false)

  /** The sixteen letter-case spellings of "true". */
  predicate IsTrueSpelling(t: string) {
    |t| == 4 && t[0] in "tT" && t[1] in "rR" && t[2] in "uU" && t[3] in "eE"
  }

  /** Build-server mode holds exactly when the named variable is set and its
      value, without surrounding white space, spells "true" or is "1". */
  lemma BuildServerModeIff(config: TestConfiguration, env: Environment)
    ensures config.IsInBuildServerMode(env) <==>
      var name := config.isInBuildServerModeEnvironmentVariableName;
      !IsBlank(name) && name in env &&
      (IsTrueSpelling(Trim(env[name])) || Trim(env[name]) == "1")
  {
    var name := config.isInBuildServerModeEnvironmentVariableName;
    if name in env {
      TrueIgnoringCase(Trim(env[name]));
    }
  }

  /** A blank variable name gives false whatever the environment holds. */
  lemma BlankNameIsNeverBuildServer(config: TestConfiguration, env: Environment)
    requires IsBlank(config.isInBuildServerModeEnvironmentVariableName)
    ensures !config.IsInBuildServerMode(env)
  {
  }

  /** An unset variable gives false. */
  lemma UnsetVariableIsNeverBuildServer(config: TestConfiguration, env: Environment)
    requires config.isInBuildServerModeEnvironmentVariableName !in env
    ensures !config.IsInBuildServerMode(env)
  {
  }

  /** White space around the variable's value does not matter. */
  lemma PaddingIsIgnored(config: TestConfiguration, env: Environment, lead: string, value: string, trail: string)
    requires IsBlank(lead) && IsBlank(trail)
    ensures var name := config.isInBuildServerModeEnvironmentVariableName;
      config.IsInBuildServerMode(env[name := lead + value + trail]) ==
      config.IsInBuildServerMode(env[name := value])
  {
    TrimIgnoresPadding(lead, value, trail);
  }

  /** For a value without surrounding white space, the check is a plain
      comparison against the spellings of "true" and against "1". */
  lemma TrimmedValueDecides(name: string, env: Environment, value: string)
    requires !IsBlank(name)
    requires value == [] || (!IsWhiteSpace(value[0]) && !IsWhiteSpace(value[|value| - 1]))
    ensures TestConfiguration(name, false, "", false).IsInBuildServerMode(env[name := value]) <==>
      IsTrueSpelling(value) || value == "1"
  {
    var config := TestConfiguration(name, false, "", false);
    var updated := env[name := value];
    assert name in updated && updated[name] == value;
    TrimOfTrimmed(value);
    assert Trim(updated[name]) == value;
    BuildServerModeIff(config, updated);
  }

  /** " TRUE " switches build-server mode on. */
  lemma PaddedUpperCaseTrue(name: string, env: Environment)
    requires !IsBlank(name)
    ensures TestConfiguration(name, false, "", false).IsInBuildServerMode(env[name := " TRUE "])
  {
    var v, padded := "TRUE", " TRUE ";
    assert padded == " " + v + " ";
    assert v[0] == 'T' && v[1] == 'R' && v[2] == 'U' && v[3] == 'E';
    assert !IsWhiteSpace(v[0]) && !IsWhiteSpace(v[3]) && IsTrueSpelling(v);
    TrimmedValueDecides(name, env, v);
    PaddingIsIgnored(TestConfiguration(name, false, "", false), env, " ", v, " ");
  }

  /** "1" and "True" switch build-server mode on. */
  lemma SwitchedOnExamples(name: string, env: Environment)
    requires !IsBlank(name)
    ensures TestConfiguration(name, false, "", false).IsInBuildServerMode(env[name := "1"])
    ensures TestConfiguration(name, false, "", false).IsInBuildServerMode(env[name := "True"])
  {
    var one, t := "1", "True";
    assert !IsWhiteSpace(one[0]);
    TrimmedValueDecides(name, env, one);
    assert t[0] == 'T' && t[1] == 'r' && t[2] == 'u' && t[3] == 'e';
    assert !IsWhiteSpace(t[0]) && !IsWhiteSpace(t[3]) && IsTrueSpelling(t);
    TrimmedValueDecides(name, env, t);
  }

  /** "0", "yes" and "11" do not switch build-server mode on. */
  lemma SwitchedOffExamples(name: string, env: Environment)
    requires !IsBlank(name)
    ensures !TestConfiguration(name, false, "", false).IsInBuildServerMode(env[name := "0"])
    ensures !TestConfiguration(name, false, "", false).IsInBuildServerMode(env[name := "yes"])
    ensures !TestConfiguration(name, false, "", false).IsInBuildServerMode(env[name := "11"])
  {
    var zero, yes, eleven := "0", "yes", "11";
    assert !IsWhiteSpace(zero[0]);
    TrimmedValueDecides(name, env, zero);
    assert yes[0] == 'y' && yes[2] == 's';
    assert !IsWhiteSpace(yes[0]) && !IsWhiteSpace(yes[2]);
    TrimmedValueDecides(name, env, yes);
    assert !IsWhiteSpace(eleven[0]) && eleven != "1";
    TrimmedValueDecides(name, env, eleven);
  }

  /** `bool.TryParse`: "true" or "false" in any letter case, white space around
      it allowed. */
  function ParseBool(text: string): (r: Option<bool>)
    ensures r == Some(true) <==> IsTrueSpelling(Trim(text))
    ensures r == Some(false) <==> EqualsOrdinalIgnoreCase(Trim(text), "false")
    ensures r.None? <==> !IsTrueSpelling(Trim(text)) && !EqualsOrdinalIgnoreCase(Trim(text), "false")
  {
    var t := Trim(text);
    TrueIgnoringCase(t);
    if EqualsOrdinalIgnoreCase(t, "true") then Some(true)
    else if EqualsOrdinalIgnoreCase(t, "false") then Some(false)
    else None
  }

  /** Reads a boolean directive: absent keeps `current`, a value that is not a
      boolean fails. */
  function BindBool(settings: Settings, key: string, current: bool): (r: Result<bool, Error>)
    ensures key !in settings ==> r == Success(current)
    ensures r.Success? && key in settings ==> ParseBool(settings[key]) == Some(r.value)
    ensures r.Failure? ==> key in settings && ParseBool(settings[key]).None? && r.error == InvalidDirective(key, settings[key])
  {
    if key !in settings then Success(current)
    else match ParseBool(settings[key])
      case Some(b) => Success(b)
      case None => Failure(InvalidDirective(key, settings[key]))
  }

  /** `GetSection("testConfiguration").Bind(config)`: every directive present in
      `settings` replaces the record's value, the others are kept; a boolean
      directive whose text is not a boolean fails. */
  function Bind(settings: Settings, config: TestConfiguration): (r: Result<TestConfiguration, Error>)
    ensures r.Success? ==>
      r.value.isInBuildServerModeEnvironmentVariableName ==
        (if BuildServerVariableNameKey in settings then settings[BuildServerVariableNameKey]
         else config.isInBuildServerModeEnvironmentVariableName)
    ensures r.Success? ==>
      r.value.environmentVariablesPrefix ==
        (if EnvironmentVariablesPrefixKey in settings then settings[EnvironmentVariablesPrefixKey]
         else config.environmentVariablesPrefix)
    ensures r.Success? && LoadEnvironmentVariablesKey !in settings ==>
      r.value.loadEnvironmentVariables == config.loadEnvironmentVariables
    ensures r.Success? && LoadEnvironmentVariablesKey in settings ==>
      ParseBool(settings[LoadEnvironmentVariablesKey]) == Some(r.value.loadEnvironmentVariables)
    ensures r.Success? && LoadDevelopmentFileKey !in settings ==>
      r.value.loadDevelopmentSettingsFileInBuildServerMode == config.loadDevelopmentSettingsFileInBuildServerMode
    ensures r.Success? && LoadDevelopmentFileKey in settings ==>
      ParseBool(settings[LoadDevelopmentFileKey]) == Some(r.value.loadDevelopmentSettingsFileInBuildServerMode)
    ensures r.Failure? <==>
      (LoadEnvironmentVariablesKey in settings && ParseBool(settings[LoadEnvironmentVariablesKey]).None?) ||
      (LoadDevelopmentFileKey in settings && ParseBool(settings[LoadDevelopmentFileKey]).None?)
  {
    var name := if BuildServerVariableNameKey in settings then settings[BuildServerVariableNameKey]
                else config.isInBuildServerModeEnvironmentVariableName;
    var loadEnvironmentVariables :- BindBool(settings, LoadEnvironmentVariablesKey, config.loadEnvironmentVariables);
    var prefix := if EnvironmentVariablesPrefixKey in settings then settings[EnvironmentVariablesPrefixKey]
                  else config.environmentVariablesPrefix;
    var loadDevelopment :- BindBool(settings, LoadDevelopmentFileKey, config.loadDevelopmentSettingsFileInBuildServerMode);
    Success(TestConfiguration(name, loadEnvironmentVariables, prefix, loadDevelopment))
  }

  /** A fresh record that no directive reaches stays as it is: no build-server
      mode in any environment, no environment variables, no development file in
      build-server mode. */
  lemma DefaultsWithoutDirectives(settings: Settings, env: Environment)
    requires BuildServerVariableNameKey !in settings && LoadEnvironmentVariablesKey !in settings
    requires EnvironmentVariablesPrefixKey !in settings && LoadDevelopmentFileKey !in settings
    ensures Bind(settings, Defaults) == Success(Defaults)
    ensures !Defaults.IsInBuildServerMode(env)
    ensures !Defaults.loadEnvironmentVariables && !Defaults.loadDevelopmentSettingsFileInBuildServerMode
    ensures Defaults.isInBuildServerModeEnvironmentVariableName == "" && Defaults.environmentVariablesPrefix == ""
  {
    BlankNameIsNeverBuildServer(Defaults, env);
  }
}
