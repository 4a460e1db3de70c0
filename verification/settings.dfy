/** `App.set_settings`: choosing the profile and validating the parameters
    and credentials a run is given against what the project declares. The
    settings files arrive already parsed. */
module AppSettings {
  import opened Values

  /** One profile of `settings.yaml`: its parameters (possibly absent) and
      which yaml credential each project credential name is bound to. */
  datatype Profile = Profile(parameters: Option<Params>, credentials: map<string, string>)

  /** `settings.yaml`, parsed. */
  datatype YamlSettings = YamlSettings(
    profiles: map<string, Profile>,
    defaultProfile: string,
    credentials: map<string, Params>)

  /** Settings taken from `SAYN_` environment variables, parsed. */
  datatype EnvSettings = EnvSettings(parameters: Option<Params>, credentials: Option<map<string, Params>>)

  /** What the project declares: its parameters with their defaults, and
      the names of the credentials it requires. */
  datatype Project = Project(parameters: Params, requiredCredentials: set<string>)

  datatype SettingsError =
    | ProfileNotDefined(profile: string)          // CommandError
    | MissingKeys(keys: set<string>)              // a KeyError on an unchecked lookup
    | ParametersNotAccepted(names: set<string>)   // ConfigError
    | CredentialsNotAccepted(names: set<string>)  // ConfigError
    | CredentialsMissing(names: set<string>)      // ConfigError
    | CredentialsWithoutType(names: set<string>)  // ConfigError

  /** The state `set_settings` leaves behind: the profile recorded in the
      run arguments, the project parameters and the credentials. */
  datatype Settled = Settled(profile: Option<string>, parameters: Params, credentials: map<string, Params>)

  datatype SettingsOutcome = Configured(settled: Settled) | Rejected(error: SettingsError)

  datatype Result<T, E> = Ok(value: T) | Fail(error: E)

  /** Python truthiness of an optional string: `None` and `""` are false. */
  predicate Truthy(s: Option<string>)
  {
    s.Some? && s.value != ""
  }

  /** `x or dict()` for an optional mapping. */
  function OrEmpty<V>(m: Option<map<string, V>>): map<string, V>
  {
    match m
    case Some(v) => v
    case None => map[]
  }

  /** `profile_name or settings.yaml.default_profile`. */
  function ChosenProfile(arg: Option<string>, yaml: YamlSettings): (name: string)
    ensures Truthy(arg) ==> name == arg.value
    ensures !Truthy(arg) ==> name == yaml.defaultProfile
  {
    if Truthy(arg) then arg.value else yaml.defaultProfile
  }

  /** The credentials a profile binds, looked up in the yaml's credentials;
      a failure gives the yaml credential names that are missing (the
      comprehension raises a `KeyError` on the first of them). */
  function ProfileCredentials(profile: Profile, yaml: YamlSettings): (r: Result<map<string, Params>, set<string>>)
    ensures r.Ok? <==> forall p :: p in profile.credentials ==> profile.credentials[p] in yaml.credentials
    ensures r.Ok? ==> forall p :: p in r.value <==> p in profile.credentials
    ensures r.Ok? ==> forall p :: p in r.value ==> r.value[p] == yaml.credentials[profile.credentials[p]]
    ensures r.Fail? ==>
      && r.error != {}
      && forall y :: y in r.error <==> y !in yaml.credentials && exists p :: p in profile.credentials && profile.credentials[p] == y
  {
    var missing := set p | p in profile.credentials && profile.credentials[p] !in yaml.credentials :: profile.credentials[p];
    if missing == {} then
      assert forall p :: p in profile.credentials ==> profile.credentials[p] in yaml.credentials by {
        forall p | p in profile.credentials
          ensures profile.credentials[p] in yaml.credentials
        {
          assert profile.credentials[p] !in missing;
        }
      }
      Ok(map p | p in profile.credentials :: yaml.credentials[profile.credentials[p]])
    else
      Fail(missing)
  }

  /** The yaml part of `set_settings`: the profile used, its parameters and
      its credentials. */
  datatype FromYaml = FromYaml(profile: Option<string>, parameters: Params, credentials: map<string, Params>)

  function ReadYaml(arg: Option<string>, yaml: Option<YamlSettings>): (r: Result<FromYaml, SettingsError>)
    ensures yaml.None? ==> r == Ok(FromYaml(arg, map[], map[]))
    ensures yaml.Some? && arg.Some? && arg.value !in yaml.value.profiles ==>
      r == Fail(ProfileNotDefined(arg.value))
    ensures yaml.Some? && r.Ok? ==>
      && (arg.Some? ==> arg.value in yaml.value.profiles)
      && r.value.profile == Some(ChosenProfile(arg, yaml.value))
      && ChosenProfile(arg, yaml.value) in yaml.value.profiles
      && r.value.parameters == OrEmpty(yaml.value.profiles[ChosenProfile(arg, yaml.value)].parameters)
      && ProfileCredentials(yaml.value.profiles[ChosenProfile(arg, yaml.value)], yaml.value) == Ok(r.value.credentials)
    ensures yaml.Some? && (arg.None? || arg.value in yaml.value.profiles) ==>
      var name := ChosenProfile(arg, yaml.value);
      && (r.Ok? <==> name in yaml.value.profiles && ProfileCredentials(yaml.value.profiles[name], yaml.value).Ok?)
      && (r.Fail? && name !in yaml.value.profiles ==> r.error == MissingKeys({name}))
      && (r.Fail? && name in yaml.value.profiles ==>
            r.error == MissingKeys(ProfileCredentials(yaml.value.profiles[name], yaml.value).error))
  {
    match yaml
    case None => Ok(FromYaml(arg, map[], map[]))
    case Some(y) =>
      if arg.Some? && arg.value !in y.profiles then Fail(ProfileNotDefined(arg.value))
      else
        var name := ChosenProfile(arg, y);
        if name !in y.profiles then Fail(MissingKeys({name}))
        else
          var profile := y.profiles[name];
          match ProfileCredentials(profile, y)
          case Fail(missing) => Fail(MissingKeys(missing))
          case Ok(creds) => Ok(FromYaml(Some(name), OrEmpty(profile.parameters), creds))
  }

  /** The parameters after the environment has updated the profile's:
      an environment value wins over the yaml one. */
  function MergedParameters(y: FromYaml, env: Option<EnvSettings>): (m: Params)
    ensures forall k :: k in m <==> k in y.parameters || (env.Some? && k in OrEmpty(env.value.parameters))
    ensures forall k :: k in m ==>
      m[k] == if env.Some? && k in OrEmpty(env.value.parameters) then OrEmpty(env.value.parameters)[k]
              else y.parameters[k]
  {
    y.parameters + (if env.Some? then OrEmpty(env.value.parameters) else map[])
  }

  /** The credentials after the environment has updated the profile's. */
  function MergedCredentials(y: FromYaml, env: Option<EnvSettings>): (m: map<string, Params>)
    ensures forall k :: k in m <==> k in y.credentials || (env.Some? && k in OrEmpty(env.value.credentials))
    ensures forall k :: k in m ==>
      m[k] == if env.Some? && k in OrEmpty(env.value.credentials) then OrEmpty(env.value.credentials)[k]
              else y.credentials[k]
  {
    y.credentials + (if env.Some? then OrEmpty(env.value.credentials) else map[])
  }

  /** The credentials that lack a `type` entry. */
  function Untyped(creds: map<string, Params>): (r: set<string>)
    ensures forall n :: n in r <==> n in creds && "type" !in creds[n]
  {
    set n | n in creds && "type" !in creds[n]
  }

  /** What the project accepts: only declared parameters, exactly the
      required credentials, each with a type. */
  ghost predicate Acceptable(project: Project, params: Params, creds: map<string, Params>)
  {
    && (forall k :: k in params ==> k in project.parameters)
    && (forall k :: k in creds <==> k in project.requiredCredentials)
    && forall k :: k in creds ==> "type" in creds[k]
  }

  /** The rejections `set_settings` raises as a `ConfigError`, once the
      profile has been read. */
  predicate ConfigErrorKind(e: SettingsError)
  {
    e.ParametersNotAccepted? || e.CredentialsNotAccepted? || e.CredentialsMissing? || e.CredentialsWithoutType?
  }

  /** The validation half of `set_settings`: the parameters and credentials
      gathered from the yaml and the environment are checked in the source's
      order (undeclared parameters, unaccepted credentials, missing
      credentials, credentials without a type), and the first check that
      fails is reported with exactly the offending names. */
  function Validate(project: Project, profile: Option<string>, params: Params, creds: map<string, Params>)
    : (r: SettingsOutcome)
    ensures r.Configured? <==> Acceptable(project, params, creds)
    ensures r.Configured? ==>
      && r.settled.profile == profile
      && (forall k :: k in r.settled.parameters <==> k in project.parameters)
      && (forall k :: k in r.settled.parameters ==>
            r.settled.parameters[k] == if k in params then params[k] else project.parameters[k])
      && r.settled.credentials == creds
    ensures r.Rejected? ==> ConfigErrorKind(r.error) && r.error.names != {}
    ensures (exists k :: k in params && k !in project.parameters) ==>
      r.Rejected? && r.error.ParametersNotAccepted? &&
      forall k :: k in r.error.names <==> k in params && k !in project.parameters
    ensures (forall k :: k in params ==> k in project.parameters) &&
            (exists k :: k in creds && k !in project.requiredCredentials) ==>
      r.Rejected? && r.error.CredentialsNotAccepted? &&
      forall k :: k in r.error.names <==> k in creds && k !in project.requiredCredentials
    ensures (forall k :: k in params ==> k in project.parameters) &&
            (forall k :: k in creds ==> k in project.requiredCredentials) &&
            (exists k :: k in project.requiredCredentials && k !in creds) ==>
      r.Rejected? && r.error.CredentialsMissing? &&
      forall k :: k in r.error.names <==> k in project.requiredCredentials && k !in creds
    ensures (forall k :: k in params ==> k in project.parameters) &&
            (forall k :: k in creds <==> k in project.requiredCredentials) &&
            (exists k :: k in creds && "type" !in creds[k]) ==>
      r.Rejected? && r.error.CredentialsWithoutType? && r.error.names == Untyped(creds)
  {
    var undeclared := params.Keys - project.parameters.Keys;
    var unaccepted := creds.Keys - project.requiredCredentials;
    var missing := project.requiredCredentials - creds.Keys;
    assert undeclared != {} <==> exists k :: k in params && k !in project.parameters by {
      if undeclared != {} {
        var k :| k in undeclared;
        assert k in params && k !in project.parameters;
      }
      if exists k :: k in params && k !in project.parameters {
        var k :| k in params && k !in project.parameters;
        assert k in undeclared;
      }
    }
    assert unaccepted != {} <==> exists k :: k in creds && k !in project.requiredCredentials by {
      if unaccepted != {} {
        var k :| k in unaccepted;
        assert k in creds && k !in project.requiredCredentials;
      }
      if exists k :: k in creds && k !in project.requiredCredentials {
        var k :| k in creds && k !in project.requiredCredentials;
        assert k in unaccepted;
      }
    }
    assert missing != {} <==> exists k :: k in project.requiredCredentials && k !in creds by {
      if missing != {} {
        var k :| k in missing;
        assert k in project.requiredCredentials && k !in creds;
      }
      if exists k :: k in project.requiredCredentials && k !in creds {
        var k :| k in project.requiredCredentials && k !in creds;
        assert k in missing;
      }
    }
    assert Untyped(creds) != {} <==> exists k :: k in creds && "type" !in creds[k] by {
      if Untyped(creds) != {} {
        var k :| k in Untyped(creds);
      }
    }
    if undeclared != {} then Rejected(ParametersNotAccepted(undeclared))
    else if unaccepted != {} then Rejected(CredentialsNotAccepted(unaccepted))
    else if missing != {} then Rejected(CredentialsMissing(missing))
    else if Untyped(creds) != {} then Rejected(CredentialsWithoutType(Untyped(creds)))
    else Configured(Settled(profile, project.parameters + params, creds))
  }

  /** `App.set_settings`. `arg` is the `profile` run argument. A profile
      that cannot be read is rejected as `ReadYaml` says; otherwise the
      merged parameters and credentials are validated. */
  function SetSettings(project: Project, arg: Option<string>, yaml: Option<YamlSettings>,
                       env: Option<EnvSettings>): (r: SettingsOutcome)
    ensures ReadYaml(arg, yaml).Fail? ==> r == Rejected(ReadYaml(arg, yaml).error)
    ensures r.Configured? <==>
      ReadYaml(arg, yaml).Ok? &&
      Acceptable(project, MergedParameters(ReadYaml(arg, yaml).value, env), MergedCredentials(ReadYaml(arg, yaml).value, env))
    ensures r.Configured? ==>
      var y := ReadYaml(arg, yaml).value;
      && r.settled.profile == y.profile
      && (forall k :: k in r.settled.parameters <==> k in project.parameters)
      && (forall k :: k in r.settled.parameters ==>
            r.settled.parameters[k] == if k in MergedParameters(y, env) then MergedParameters(y, env)[k]
                                       else project.parameters[k])
      && r.settled.credentials == MergedCredentials(y, env)
    ensures ReadYaml(arg, yaml).Ok? && r.Rejected? ==> ConfigErrorKind(r.error) && r.error.names != {}
    ensures ReadYaml(arg, yaml).Ok? ==>
      var params := MergedParameters(ReadYaml(arg, yaml).value, env);
      (exists k :: k in params && k !in project.parameters) ==>
        r.Rejected? && r.error.ParametersNotAccepted? &&
        forall k :: k in r.error.names <==> k in params && k !in project.parameters
    ensures ReadYaml(arg, yaml).Ok? ==>
      var params := MergedParameters(ReadYaml(arg, yaml).value, env);
      var creds := MergedCredentials(ReadYaml(arg, yaml).value, env);
      (forall k :: k in params ==> k in project.parameters) &&
      (exists k :: k in creds && k !in project.requiredCredentials) ==>
        r.Rejected? && r.error.CredentialsNotAccepted? &&
        forall k :: k in r.error.names <==> k in creds && k !in project.requiredCredentials
    ensures ReadYaml(arg, yaml).Ok? ==>
      var params := MergedParameters(ReadYaml(arg, yaml).value, env);
      var creds := MergedCredentials(ReadYaml(arg, yaml).value, env);
      (forall k :: k in params ==> k in project.parameters) &&
      (forall k :: k in creds ==> k in project.requiredCredentials) &&
      (exists k :: k in project.requiredCredentials && k !in creds) ==>
        r.Rejected? && r.error.CredentialsMissing? &&
        forall k :: k in r.error.names <==> k in project.requiredCredentials && k !in creds
    ensures ReadYaml(arg, yaml).Ok? ==>
      var params := MergedParameters(ReadYaml(arg, yaml).value, env);
      var creds := MergedCredentials(ReadYaml(arg, yaml).value, env);
      (forall k :: k in params ==> k in project.parameters) &&
      (forall k :: k in creds <==> k in project.requiredCredentials) &&
      (exists k :: k in creds && "type" !in creds[k]) ==>
        r.Rejected? && r.error.CredentialsWithoutType? && r.error.names == Untyped(creds)
  {
    match ReadYaml(arg, yaml)
    case Fail(e) => Rejected(e)
    case Ok(y) => Validate(project, y.profile, MergedParameters(y, env), MergedCredentials(y, env))
  }

  /** The environment has the last word: every parameter and credential it
      supplies reaches the settled state unchanged, and every project
      parameter nobody supplies keeps its default. */
  lemma EnvironmentWins(project: Project, arg: Option<string>, yaml: Option<YamlSettings>, env: EnvSettings)
    ensures SetSettings(project, arg, yaml, Some(env)).Configured? ==>
      var settled := SetSettings(project, arg, yaml, Some(env)).settled;
      && (forall k :: k in OrEmpty(env.parameters) ==>
            k in settled.parameters && settled.parameters[k] == OrEmpty(env.parameters)[k])
      && (forall k :: k in OrEmpty(env.credentials) ==>
            k in settled.credentials && settled.credentials[k] == OrEmpty(env.credentials)[k])
  {
    var r := SetSettings(project, arg, yaml, Some(env));
    if r.Configured? {
      var y := ReadYaml(arg, yaml).value;
      var params := MergedParameters(y, Some(env));
      forall k | k in OrEmpty(env.parameters)
        ensures k in r.settled.parameters && r.settled.parameters[k] == OrEmpty(env.parameters)[k]
      {
        assert k in params;
        assert k in project.parameters;
      }
    }
  }

  /** Parameters nobody supplies keep the project's default. */
  lemma DefaultsKept(project: Project, arg: Option<string>, yaml: Option<YamlSettings>, env: Option<EnvSettings>)
    ensures SetSettings(project, arg, yaml, env).Configured? ==>
      var settled := SetSettings(project, arg, yaml, env).settled;
      forall k :: k in project.parameters && k !in MergedParameters(ReadYaml(arg, yaml).value, env) ==>
        k in settled.parameters && settled.parameters[k] == project.parameters[k]
  {
  }

  /** An empty profile name is a name like any other for the existence
      check, but once it passes that check it falls back to the default
      profile, because the empty string is false in Python. */
  lemma EmptyProfileName(yaml: YamlSettings)
    ensures "" !in yaml.profiles ==> ReadYaml(Some(""), Some(yaml)) == Fail(ProfileNotDefined(""))
    ensures "" in yaml.profiles ==> ReadYaml(Some(""), Some(yaml)) == ReadYaml(None, Some(yaml))
  {
  }

  /** Without a settings file the run keeps the profile argument as given
      and only the environment supplies values. */
  lemma NoYaml(project: Project, arg: Option<string>, env: Option<EnvSettings>)
    ensures SetSettings(project, arg, None, env).Configured? ==>
      && SetSettings(project, arg, None, env).settled.profile == arg
      && SetSettings(project, arg, None, env).settled.credentials
         == (if env.Some? then OrEmpty(env.value.credentials) else map[])
  {
    var y := FromYaml(arg, map[], map[]);
    assert ReadYaml(arg, None) == Ok(y);
    assert MergedCredentials(y, env) == (if env.Some? then OrEmpty(env.value.credentials) else map[]);
  }
}
