/**
 * Configuration of the two Go CLIs: the `environment` record read from
 * `.machtiani-config.yml`, the layered loading of the mct CLI (global file,
 * then local file, then environment variables), the simpler local-or-home
 * loading of the older machtiani CLI, and the `.machtiani.ignore` reader
 * shared by both.
 *
 * Files are inputs: a function from path to what reading and unmarshalling
 * it gives. The process environment is a map from variable name to value;
 * a variable that is absent reads as "" (os.Getenv).
 */
module Config {
  import opened Common

  // ---------------------------------------------------------------------------
  // The environment record

  /** The twelve settings of a configuration file's `environment` section. */
  datatype Environment = Environment(
    modelAPIKey: string,
    modelAPIKeyOther: string,
    modelBaseURL: string,
    modelBaseURLOther: string,
    machtianiURL: string,
    repoManagerURL: string,
    codeHostURL: string,
    codeHostAPIKey: string,
    apiGatewayHostKey: string,
    apiGatewayHostValue: string,
    contentTypeKey: string,
    contentTypeValue: string)

  /** Names for the twelve settings, so that properties can be stated field by field. */
  datatype Field =
    | ModelAPIKey | ModelAPIKeyOther | ModelBaseURL | ModelBaseURLOther
    | MachtianiURL | RepoManagerURL | CodeHostURL | CodeHostAPIKey
    | APIGatewayHostKey | APIGatewayHostValue | ContentTypeKey | ContentTypeValue

  function Get(e: Environment, f: Field): string
  {
    match f
    case ModelAPIKey => e.modelAPIKey
    case ModelAPIKeyOther => e.modelAPIKeyOther
    case ModelBaseURL => e.modelBaseURL
    case ModelBaseURLOther => e.modelBaseURLOther
    case MachtianiURL => e.machtianiURL
    case RepoManagerURL => e.repoManagerURL
    case CodeHostURL => e.codeHostURL
    case CodeHostAPIKey => e.codeHostAPIKey
    case APIGatewayHostKey => e.apiGatewayHostKey
    case APIGatewayHostValue => e.apiGatewayHostValue
    case ContentTypeKey => e.contentTypeKey
    case ContentTypeValue => e.contentTypeValue
  }

  /** Two records that agree on every field are the same record. */
  lemma FieldsDetermine(a: Environment, b: Environment)
    requires forall f :: Get(a, f) == Get(b, f)
    ensures a == b
  {
    assert Get(a, ModelAPIKey) == Get(b, ModelAPIKey);
    assert Get(a, ModelAPIKeyOther) == Get(b, ModelAPIKeyOther);
    assert Get(a, ModelBaseURL) == Get(b, ModelBaseURL);
    assert Get(a, ModelBaseURLOther) == Get(b, ModelBaseURLOther);
    assert Get(a, MachtianiURL) == Get(b, MachtianiURL);
    assert Get(a, RepoManagerURL) == Get(b, RepoManagerURL);
    assert Get(a, CodeHostURL) == Get(b, CodeHostURL);
    assert Get(a, CodeHostAPIKey) == Get(b, CodeHostAPIKey);
    assert Get(a, APIGatewayHostKey) == Get(b, APIGatewayHostKey);
    assert Get(a, APIGatewayHostValue) == Get(b, APIGatewayHostValue);
    assert Get(a, ContentTypeKey) == Get(b, ContentTypeKey);
    assert Get(a, ContentTypeValue) == Get(b, ContentTypeValue);
  }

  const EmptyEnvironment := Environment("", "", "", "", "", "", "", "", "", "", "", "")

  const DefaultModelBaseURL := "https://api.openai.com/v1"
  const ConfigFileName := ".machtiani-config.yml"

  // ---------------------------------------------------------------------------
  // Merging one record onto another

  /** The value kept for one field when `override` is laid over `base`. */
  function Pick(base: string, override: string): string
  {
    if override != "" then override else base
  }

  /** `override` laid over `base`: every non-empty field of `override` wins. */
  function Merge(base: Environment, override: Environment): Environment
  {
    Environment(
      Pick(base.modelAPIKey, override.modelAPIKey),
      Pick(base.modelAPIKeyOther, override.modelAPIKeyOther),
      Pick(base.modelBaseURL, override.modelBaseURL),
      Pick(base.modelBaseURLOther, override.modelBaseURLOther),
      Pick(base.machtianiURL, override.machtianiURL),
      Pick(base.repoManagerURL, override.repoManagerURL),
      Pick(base.codeHostURL, override.codeHostURL),
      Pick(base.codeHostAPIKey, override.codeHostAPIKey),
      Pick(base.apiGatewayHostKey, override.apiGatewayHostKey),
      Pick(base.apiGatewayHostValue, override.apiGatewayHostValue),
      Pick(base.contentTypeKey, override.contentTypeKey),
      Pick(base.contentTypeValue, override.contentTypeValue))
  }

  /** A field is replaced exactly when the override's field is non-empty; otherwise it keeps the base value. */
  lemma MergeFieldwise(base: Environment, override: Environment)
    ensures forall f :: Get(override, f) != "" ==> Get(Merge(base, override), f) == Get(override, f)
    ensures forall f :: Get(override, f) == "" ==> Get(Merge(base, override), f) == Get(base, f)
  {
    forall f ensures Get(Merge(base, override), f) == Pick(Get(base, f), Get(override, f)) {
      match f
      case ModelAPIKey =>
      case ModelAPIKeyOther =>
      case ModelBaseURL =>
      case ModelBaseURLOther =>
      case MachtianiURL =>
      case RepoManagerURL =>
      case CodeHostURL =>
      case CodeHostAPIKey =>
      case APIGatewayHostKey =>
      case APIGatewayHostValue =>
      case ContentTypeKey =>
      case ContentTypeValue =>
    }
  }

  /** The empty record changes nothing, whichever side it is on. */
  lemma MergeEmpty(e: Environment)
    ensures Merge(e, EmptyEnvironment) == e
    ensures Merge(EmptyEnvironment, e) == e
  {
    MergeFieldwise(e, EmptyEnvironment);
    FieldsDetermine(Merge(e, EmptyEnvironment), e);
    MergeFieldwise(EmptyEnvironment, e);
    FieldsDetermine(Merge(EmptyEnvironment, e), e);
  }

  /** Laying the same override twice is the same as laying it once. */
  lemma MergeIdempotent(base: Environment, override: Environment)
    ensures Merge(Merge(base, override), override) == Merge(base, override)
  {
    var once := Merge(base, override);
    MergeFieldwise(base, override);
    MergeFieldwise(once, override);
    FieldsDetermine(Merge(once, override), once);
  }

  /** Layering is associative: three layers may be combined in either grouping. */
  lemma MergeAssociative(a: Environment, b: Environment, c: Environment)
    ensures Merge(Merge(a, b), c) == Merge(a, Merge(b, c))
  {
  }

  // ---------------------------------------------------------------------------
  // Environment variables

  type Env = map<string, string>

  /** os.Getenv: an unset variable reads as "". */
  function Getenv(env: Env, name: string): string
  {
    if name in env then env[name] else ""
  }

  /** The first non-empty value, or "" when all are empty. */
  function FirstNonEmpty(values: seq<string>): (r: string)
    ensures r == "" <==> forall i :: 0 <= i < |values| ==> values[i] == ""
    ensures r != "" ==> exists i :: 0 <= i < |values| && values[i] == r && forall j :: 0 <= j < i ==> values[j] == ""
  {
    if values == [] then ""
    else if values[0] != "" then values[0]
    else
      var rest := FirstNonEmpty(values[1..]);
      assert forall i :: 1 <= i < |values| ==> values[i] == values[1..][i - 1];
      if rest != "" then
        var i :| 0 <= i < |values[1..]| && values[1..][i] == rest && forall j :: 0 <= j < i ==> values[1..][j] == "";
        assert values[i + 1] == rest;
        rest
      else
        rest
  }

  /** FirstNonEmpty of a value followed by more values. */
  lemma FirstNonEmptyCons(a: string, rest: seq<string>)
    ensures FirstNonEmpty([a] + rest) == Pick(FirstNonEmpty(rest), a)
  {
    assert ([a] + rest)[1..] == rest;
  }

  /**
   * What the environment says about a field: the first of its variables that
   * is set (the unprefixed spelling before the MACHTIANI_-prefixed one for the
   * four model settings), or "".
   */
  function EnvSetting(env: Env, f: Field): string
  {
    match f
    case ModelAPIKey => FirstNonEmpty([Getenv(env, "MODEL_API_KEY"), Getenv(env, "MACHTIANI_MODEL_API_KEY")])
    case ModelAPIKeyOther => FirstNonEmpty([Getenv(env, "MODEL_API_KEY_OTHER"), Getenv(env, "MACHTIANI_MODEL_API_KEY_OTHER")])
    case ModelBaseURL => FirstNonEmpty([Getenv(env, "MODEL_BASE_URL"), Getenv(env, "MACHTIANI_MODEL_BASE_URL")])
    case ModelBaseURLOther => FirstNonEmpty([Getenv(env, "MODEL_BASE_URL_OTHER"), Getenv(env, "MACHTIANI_MODEL_BASE_URL_OTHER")])
    case MachtianiURL => Getenv(env, "MACHTIANI_URL")
    case RepoManagerURL => Getenv(env, "MACHTIANI_REPO_MANAGER_URL")
    case CodeHostURL => Getenv(env, "CODE_HOST_URL")
    case CodeHostAPIKey => Getenv(env, "CODE_HOST_API_KEY")
    case APIGatewayHostKey => Getenv(env, "MACHTIANI_API_GATEWAY_HOST_KEY")
    case APIGatewayHostValue => Getenv(env, "MACHTIANI_API_GATEWAY_HOST_VALUE")
    case ContentTypeKey => Getenv(env, "MACHTIANI_CONTENT_TYPE_KEY")
    case ContentTypeValue => Getenv(env, "MACHTIANI_CONTENT_TYPE_VALUE")
  }

  /** The primary field whose setting clears an "Other" slot. */
  function PrimaryOf(f: Field): Option<Field>
  {
    match f
    case ModelAPIKeyOther => Some(ModelAPIKey)
    case ModelBaseURLOther => Some(ModelBaseURL)
    case _ => None
  }

  /**
   * The record after the environment is applied: a set variable wins, an
   * "Other" slot is cleared when its primary is set and it is not, and every
   * other field keeps its value.
   */
  function EnvLayer(e: Environment, env: Env): Environment
  {
    var key, url := EnvSetting(env, ModelAPIKey), EnvSetting(env, ModelBaseURL);
    var keyOther, urlOther := EnvSetting(env, ModelAPIKeyOther), EnvSetting(env, ModelBaseURLOther);
    Environment(
      Pick(e.modelAPIKey, key),
      Pick(if key != "" then "" else e.modelAPIKeyOther, keyOther),
      Pick(e.modelBaseURL, url),
      Pick(if url != "" then "" else e.modelBaseURLOther, urlOther),
      Pick(e.machtianiURL, EnvSetting(env, MachtianiURL)),
      Pick(e.repoManagerURL, EnvSetting(env, RepoManagerURL)),
      Pick(e.codeHostURL, EnvSetting(env, CodeHostURL)),
      Pick(e.codeHostAPIKey, EnvSetting(env, CodeHostAPIKey)),
      Pick(e.apiGatewayHostKey, EnvSetting(env, APIGatewayHostKey)),
      Pick(e.apiGatewayHostValue, EnvSetting(env, APIGatewayHostValue)),
      Pick(e.contentTypeKey, EnvSetting(env, ContentTypeKey)),
      Pick(e.contentTypeValue, EnvSetting(env, ContentTypeValue)))
  }

  /** EnvLayer field by field, stated once for all twelve fields. */
  lemma EnvLayerFieldwise(e: Environment, env: Env)
    ensures forall f :: EnvSetting(env, f) != "" ==> Get(EnvLayer(e, env), f) == EnvSetting(env, f)
    ensures forall f :: EnvSetting(env, f) == "" && PrimaryOf(f).Some? && EnvSetting(env, PrimaryOf(f).value) != "" ==>
              Get(EnvLayer(e, env), f) == ""
    ensures forall f :: EnvSetting(env, f) == "" && (PrimaryOf(f).None? || EnvSetting(env, PrimaryOf(f).value) == "") ==>
              Get(EnvLayer(e, env), f) == Get(e, f)
  {
    forall f ensures Get(EnvLayer(e, env), f) ==
        Pick(if PrimaryOf(f).Some? && EnvSetting(env, PrimaryOf(f).value) != "" then "" else Get(e, f), EnvSetting(env, f))
    {
      match f
      case ModelAPIKey =>
      case ModelAPIKeyOther =>
      case ModelBaseURL =>
      case ModelBaseURLOther =>
      case MachtianiURL =>
      case RepoManagerURL =>
      case CodeHostURL =>
      case CodeHostAPIKey =>
      case APIGatewayHostKey =>
      case APIGatewayHostValue =>
      case ContentTypeKey =>
      case ContentTypeValue =>
    }
  }

  /** With no variable set, the environment changes nothing. */
  lemma EnvLayerUnset(e: Environment, env: Env)
    requires forall f :: EnvSetting(env, f) == ""
    ensures EnvLayer(e, env) == e
  {
    EnvLayerFieldwise(e, env);
    FieldsDetermine(EnvLayer(e, env), e);
  }

  // ---------------------------------------------------------------------------
  // The mutable configuration

  /** A configuration whose environment section the loaders update in place. */
  class Config {
    var environment: Environment

    constructor ()
      ensures environment == EmptyEnvironment
    {
      environment := EmptyEnvironment;
    }

    /** Lays `override` over this configuration, one field at a time. */
    method Override(override: Environment)
      modifies this
      ensures environment == Merge(old(environment), override)
    {
      environment := environment.(modelAPIKey := Pick(environment.modelAPIKey, override.modelAPIKey));
      environment := environment.(modelAPIKeyOther := Pick(environment.modelAPIKeyOther, override.modelAPIKeyOther));
      environment := environment.(modelBaseURL := Pick(environment.modelBaseURL, override.modelBaseURL));
      environment := environment.(modelBaseURLOther := Pick(environment.modelBaseURLOther, override.modelBaseURLOther));
      environment := environment.(machtianiURL := Pick(environment.machtianiURL, override.machtianiURL));
      environment := environment.(repoManagerURL := Pick(environment.repoManagerURL, override.repoManagerURL));
      environment := environment.(codeHostURL := Pick(environment.codeHostURL, override.codeHostURL));
      environment := environment.(codeHostAPIKey := Pick(environment.codeHostAPIKey, override.codeHostAPIKey));
      environment := environment.(apiGatewayHostKey := Pick(environment.apiGatewayHostKey, override.apiGatewayHostKey));
      environment := environment.(apiGatewayHostValue := Pick(environment.apiGatewayHostValue, override.apiGatewayHostValue));
      environment := environment.(contentTypeKey := Pick(environment.contentTypeKey, override.contentTypeKey));
      environment := environment.(contentTypeValue := Pick(environment.contentTypeValue, override.contentTypeValue));
    }

    /**
     * Applies the environment variables: the primary model key and base URL
     * first, each clearing its "Other" slot, then the explicit "Other"
     * variables, then the remaining settings.
     */
    method LoadFromEnv(env: Env)
      modifies this
      ensures environment == EnvLayer(old(environment), env)
    {
      ghost var target := EnvLayer(environment, env);
      var v := FirstNonEmpty([Getenv(env, "MODEL_API_KEY"), Getenv(env, "MACHTIANI_MODEL_API_KEY")]);
      if v != "" {
        environment := environment.(modelAPIKey := v, modelAPIKeyOther := "");
      }
      v := FirstNonEmpty([Getenv(env, "MODEL_BASE_URL"), Getenv(env, "MACHTIANI_MODEL_BASE_URL")]);
      if v != "" {
        environment := environment.(modelBaseURL := v, modelBaseURLOther := "");
      }
      v := FirstNonEmpty([Getenv(env, "MODEL_API_KEY_OTHER"), Getenv(env, "MACHTIANI_MODEL_API_KEY_OTHER")]);
      if v != "" {
        environment := environment.(modelAPIKeyOther := v);
      }
      v := FirstNonEmpty([Getenv(env, "MODEL_BASE_URL_OTHER"), Getenv(env, "MACHTIANI_MODEL_BASE_URL_OTHER")]);
      if v != "" {
        environment := environment.(modelBaseURLOther := v);
      }
      assert environment == old(environment).(modelAPIKey := target.modelAPIKey, modelAPIKeyOther := target.modelAPIKeyOther,
                                              modelBaseURL := target.modelBaseURL, modelBaseURLOther := target.modelBaseURLOther);
      environment := environment.(machtianiURL := Pick(environment.machtianiURL, Getenv(env, "MACHTIANI_URL")));
      environment := environment.(repoManagerURL := Pick(environment.repoManagerURL, Getenv(env, "MACHTIANI_REPO_MANAGER_URL")));
      environment := environment.(codeHostURL := Pick(environment.codeHostURL, Getenv(env, "CODE_HOST_URL")));
      environment := environment.(codeHostAPIKey := Pick(environment.codeHostAPIKey, Getenv(env, "CODE_HOST_API_KEY")));
      environment := environment.(apiGatewayHostKey := Pick(environment.apiGatewayHostKey, Getenv(env, "MACHTIANI_API_GATEWAY_HOST_KEY")));
      environment := environment.(apiGatewayHostValue := Pick(environment.apiGatewayHostValue, Getenv(env, "MACHTIANI_API_GATEWAY_HOST_VALUE")));
      environment := environment.(contentTypeKey := Pick(environment.contentTypeKey, Getenv(env, "MACHTIANI_CONTENT_TYPE_KEY")));
      environment := environment.(contentTypeValue := Pick(environment.contentTypeValue, Getenv(env, "MACHTIANI_CONTENT_TYPE_VALUE")));
    }
  }

  /** The primary key from the environment clears the "Other" slot unless an "Other" variable is set too. */
  lemma OtherSlotCleared(e: Environment, env: Env)
    ensures EnvSetting(env, ModelAPIKey) != "" && EnvSetting(env, ModelAPIKeyOther) == "" ==>
              EnvLayer(e, env).modelAPIKey == EnvSetting(env, ModelAPIKey) && EnvLayer(e, env).modelAPIKeyOther == ""
    ensures EnvSetting(env, ModelAPIKeyOther) != "" ==> EnvLayer(e, env).modelAPIKeyOther == EnvSetting(env, ModelAPIKeyOther)
    ensures EnvSetting(env, ModelBaseURL) != "" && EnvSetting(env, ModelBaseURLOther) == "" ==>
              EnvLayer(e, env).modelBaseURL == EnvSetting(env, ModelBaseURL) && EnvLayer(e, env).modelBaseURLOther == ""
    ensures EnvSetting(env, ModelBaseURLOther) != "" ==> EnvLayer(e, env).modelBaseURLOther == EnvSetting(env, ModelBaseURLOther)
  {
    EnvLayerFieldwise(e, env);
    assert Get(EnvLayer(e, env), ModelAPIKeyOther) == EnvLayer(e, env).modelAPIKeyOther;
    assert Get(EnvLayer(e, env), ModelBaseURLOther) == EnvLayer(e, env).modelBaseURLOther;
  }

  /** The prefixed spelling of a variable is read only when the unprefixed one is unset. */
  lemma UnprefixedNameWins(env: Env, value: string)
    requires value != ""
    ensures EnvSetting(env["MODEL_API_KEY" := value], ModelAPIKey) == value
    ensures Getenv(env, "MODEL_API_KEY") == "" ==>
              EnvSetting(env, ModelAPIKey) == Getenv(env, "MACHTIANI_MODEL_API_KEY")
  {
    var prefixed := [Getenv(env, "MACHTIANI_MODEL_API_KEY")];
    FirstNonEmptyCons(Getenv(env, "MODEL_API_KEY"), prefixed);
    FirstNonEmptyCons(Getenv(env, "MACHTIANI_MODEL_API_KEY"), []);
    var env' := env["MODEL_API_KEY" := value];
    FirstNonEmptyCons(Getenv(env', "MODEL_API_KEY"), [Getenv(env', "MACHTIANI_MODEL_API_KEY")]);
  }

  // ---------------------------------------------------------------------------
  // Loading (mct): global file, then local file, then environment

  /** What reading and unmarshalling one configuration file gives. */
  datatype ConfigFile = Missing | Unreadable(reason: string) | Malformed(reason: string) | Loaded(environment: Environment)

  /** The path of the global file under the home directory. */
  function GlobalConfigPath(home: string): string
  {
    home + "/" + ConfigFileName
  }

  /** loadConfigFromFile: a missing file is "not found"; read and unmarshal failures are errors. */
  function LoadFromFile(path: string, file: ConfigFile): (r: Result<Option<Environment>>)
    ensures r.Success? <==> file.Missing? || file.Loaded?
    ensures r == Success(None) <==> file.Missing?
  {
    match file
    case Missing => Success(None)
    case Unreadable(reason) => Failure("failed to read config file " + path + ": " + reason)
    case Malformed(reason) => Failure("failed to unmarshal config from " + path + ": " + reason)
    case Loaded(e) => Success(Some(e))
  }

  function OrEmpty(e: Option<Environment>): Environment
  {
    if e.Some? then e.value else EmptyEnvironment
  }

  /** Fills the base URL with its default when it is still empty. */
  function WithDefaultBaseURL(e: Environment): Environment
  {
    if e.modelBaseURL == "" then e.(modelBaseURL := DefaultModelBaseURL) else e
  }

  /** The loaded configuration: global file, overridden by the local file, overridden by the environment, then defaults. */
  function Layered(global: Option<Environment>, local: Option<Environment>, env: Env): Environment
  {
    WithDefaultBaseURL(EnvLayer(Merge(OrEmpty(global), OrEmpty(local)), env))
  }

  /** The outcome of LoadConfig for a home directory (or its lookup error), the files and the environment. */
  function LoadConfigOutcome(home: Result<string>, files: string -> ConfigFile, env: Env): Result<Environment>
  {
    var global :=
      if home.Failure? then Success(None) else LoadFromFile(GlobalConfigPath(home.value), files(GlobalConfigPath(home.value)));
    var local := LoadFromFile(ConfigFileName, files(ConfigFileName));
    if global.Failure? then
      Failure("error processing global config file " + GlobalConfigPath(home.value) + ": " + global.error)
    else if local.Failure? then
      Failure("error processing local config file " + ConfigFileName + ": " + local.error)
    else
      Success(Layered(global.value, local.value, env))
  }

  /** LoadConfig of the mct CLI; a home directory that cannot be found only skips the global file. */
  method LoadConfig(home: Result<string>, files: string -> ConfigFile, env: Env) returns (r: Result<Environment>)
    ensures r == LoadConfigOutcome(home, files, env)
  {
    var config := new Config();
    if home.Success? {
      var globalPath := GlobalConfigPath(home.value);
      var global := LoadFromFile(globalPath, files(globalPath));
      if global.Failure? {
        return Failure("error processing global config file " + globalPath + ": " + global.error);
      }
      if global.value.Some? {
        config.environment := global.value.value;
      }
    }
    MergeEmpty(config.environment);
    var local := LoadFromFile(ConfigFileName, files(ConfigFileName));
    if local.Failure? {
      return Failure("error processing local config file " + ConfigFileName + ": " + local.error);
    }
    if local.value.Some? {
      config.Override(local.value.value);
    }
    config.LoadFromEnv(env);
    if config.environment.modelBaseURL == "" {
      config.environment := config.environment.(modelBaseURL := DefaultModelBaseURL);
    }
    r := Success(config.environment);
  }

  /** Precedence for a field with its own variable: environment, then local file, then global file. */
  lemma LayeredOwnSetting(global: Option<Environment>, local: Option<Environment>, env: Env, f: Field)
    requires PrimaryOf(f).None? && f != ModelBaseURL
    ensures Get(Layered(global, local, env), f) ==
            FirstNonEmpty([EnvSetting(env, f), Get(OrEmpty(local), f), Get(OrEmpty(global), f)])
  {
    var g, l := OrEmpty(global), OrEmpty(local);
    MergeFieldwise(g, l);
    EnvLayerFieldwise(Merge(g, l), env);
    FirstNonEmptyCons(EnvSetting(env, f), [Get(l, f), Get(g, f)]);
    FirstNonEmptyCons(Get(l, f), [Get(g, f)]);
    FirstNonEmptyCons(Get(g, f), []);
    assert Get(Layered(global, local, env), f) == Get(EnvLayer(Merge(g, l), env), f);
  }

  /** The base URL: environment, then local file, then global file, then the default. */
  lemma LayeredBaseURL(global: Option<Environment>, local: Option<Environment>, env: Env)
    ensures Layered(global, local, env).modelBaseURL ==
            FirstNonEmpty([EnvSetting(env, ModelBaseURL), OrEmpty(local).modelBaseURL, OrEmpty(global).modelBaseURL, DefaultModelBaseURL])
  {
    var g, l := OrEmpty(global), OrEmpty(local);
    var u := EnvSetting(env, ModelBaseURL);
    FirstNonEmptyCons(u, [l.modelBaseURL, g.modelBaseURL, DefaultModelBaseURL]);
    FirstNonEmptyCons(l.modelBaseURL, [g.modelBaseURL, DefaultModelBaseURL]);
    FirstNonEmptyCons(g.modelBaseURL, [DefaultModelBaseURL]);
    FirstNonEmptyCons(DefaultModelBaseURL, []);
  }

  /** An "Other" slot: its own variable, else cleared by its primary variable, else local file, then global file. */
  lemma LayeredOtherSlot(global: Option<Environment>, local: Option<Environment>, env: Env, f: Field)
    requires PrimaryOf(f).Some?
    ensures Get(Layered(global, local, env), f) ==
            (if EnvSetting(env, f) != "" then EnvSetting(env, f)
             else if EnvSetting(env, PrimaryOf(f).value) != "" then ""
             else FirstNonEmpty([Get(OrEmpty(local), f), Get(OrEmpty(global), f)]))
  {
    var g, l := OrEmpty(global), OrEmpty(local);
    MergeFieldwise(g, l);
    EnvLayerFieldwise(Merge(g, l), env);
    FirstNonEmptyCons(Get(l, f), [Get(g, f)]);
    FirstNonEmptyCons(Get(g, f), []);
    assert Get(Layered(global, local, env), f) == Get(EnvLayer(Merge(g, l), env), f);
  }

  /** The default base URL is used exactly when no layer sets one. */
  lemma BaseURLDefault(global: Option<Environment>, local: Option<Environment>, env: Env)
    ensures Layered(global, local, env).modelBaseURL != ""
    ensures Layered(global, local, env).modelBaseURL == DefaultModelBaseURL <==>
              (EnvSetting(env, ModelBaseURL) == "" && OrEmpty(local).modelBaseURL == "" && OrEmpty(global).modelBaseURL == "")
              || EnvSetting(env, ModelBaseURL) == DefaultModelBaseURL
              || (EnvSetting(env, ModelBaseURL) == "" && OrEmpty(local).modelBaseURL == DefaultModelBaseURL)
              || (EnvSetting(env, ModelBaseURL) == "" && OrEmpty(local).modelBaseURL == "" && OrEmpty(global).modelBaseURL == DefaultModelBaseURL)
  {
    LayeredBaseURL(global, local, env);
  }

  /** With neither file present and nothing in the environment, only the default base URL is set. */
  lemma NothingConfigured(env: Env)
    requires forall f :: EnvSetting(env, f) == ""
    ensures Layered(None, None, env) == EmptyEnvironment.(modelBaseURL := DefaultModelBaseURL)
  {
    MergeEmpty(EmptyEnvironment);
    EnvLayerUnset(EmptyEnvironment, env);
  }

  // ---------------------------------------------------------------------------
  // Loading (machtiani): the local file, or else the home file

  /** The error text of reading a file that could not be read. */
  function ReadError(path: string, file: ConfigFile): string
  {
    if file.Unreadable? then file.reason else "open " + path + ": no such file or directory"
  }

  /** Whether reading the file succeeded (its contents may still fail to unmarshal). */
  predicate Readable(file: ConfigFile)
  {
    file.Malformed? || file.Loaded?
  }

  /** The file the older CLI reads, or the error that stops it. */
  function LegacySource(home: Result<string>, files: string -> ConfigFile): Result<ConfigFile>
  {
    if Readable(files(ConfigFileName)) then Success(files(ConfigFileName))
    else if home.Failure? then Failure("failed to get home directory: " + home.error)
    else
      var path := GlobalConfigPath(home.value);
      if Readable(files(path)) then Success(files(path))
      else Failure("failed to read config from both locations: " + ReadError(path, files(path)))
  }

  /** What the older CLI's LoadConfig returns. */
  function LegacyOutcome(home: Result<string>, files: string -> ConfigFile, env: Env): Result<Environment>
  {
    var source := LegacySource(home, files);
    if source.Failure? then Failure(source.error)
    else if source.value.Malformed? then Failure("failed to unmarshal config: " + source.value.reason)
    else
      var e := source.value.environment;
      var key := Getenv(env, "MODEL_API_KEY");
      Success(WithDefaultBaseURL(if key != "" then e.(modelAPIKey := key) else e))
  }

  /** LoadConfig of the machtiani CLI: no layering, a single file and one environment variable. */
  method LegacyLoadConfig(home: Result<string>, files: string -> ConfigFile, env: Env) returns (r: Result<Environment>)
    ensures r == LegacyOutcome(home, files, env)
  {
    var path := ConfigFileName;
    var file := files(path);
    if !Readable(file) {
      if home.Failure? {
        return Failure("failed to get home directory: " + home.error);
      }
      path := GlobalConfigPath(home.value);
      file := files(path);
      if !Readable(file) {
        return Failure("failed to read config from both locations: " + ReadError(path, file));
      }
    }
    if file.Malformed? {
      return Failure("failed to unmarshal config: " + file.reason);
    }
    var config := new Config();
    config.environment := file.environment;
    var key := Getenv(env, "MODEL_API_KEY");
    if key != "" {
      config.environment := config.environment.(modelAPIKey := key);
    }
    if config.environment.modelBaseURL == "" {
      config.environment := config.environment.(modelBaseURL := DefaultModelBaseURL);
    }
    r := Success(config.environment);
  }

  /**
   * The older loader reads the local file whenever it can and the home file
   * only otherwise; only MODEL_API_KEY (not its prefixed spelling) overrides
   * the key, every other field comes from the file, and the base URL defaults.
   */
  lemma LegacyLoadConfigSpec(home: Result<string>, files: string -> ConfigFile, env: Env)
    ensures files(ConfigFileName).Loaded? ==>
              LegacyOutcome(home, files, env) == LegacyOutcome(Failure("unset"), files, env)
    ensures LegacyOutcome(home, files, env).Success? ==>
              var e := LegacySource(home, files).value.environment;
              var r := LegacyOutcome(home, files, env).value;
              r.modelAPIKey == FirstNonEmpty([Getenv(env, "MODEL_API_KEY"), e.modelAPIKey])
              && r.modelBaseURL == FirstNonEmpty([e.modelBaseURL, DefaultModelBaseURL])
              && forall f :: f != ModelAPIKey && f != ModelBaseURL ==> Get(r, f) == Get(e, f)
    ensures !Readable(files(ConfigFileName)) && home.Success? && !Readable(files(GlobalConfigPath(home.value))) ==>
              LegacyOutcome(home, files, env).Failure?
  {
    if LegacyOutcome(home, files, env).Success? {
      var e := LegacySource(home, files).value.environment;
      var r := LegacyOutcome(home, files, env).value;
      forall f | f != ModelAPIKey && f != ModelBaseURL ensures Get(r, f) == Get(e, f) {
        match f
        case ModelAPIKey =>
        case ModelBaseURL =>
        case ModelAPIKeyOther =>
        case ModelBaseURLOther =>
        case MachtianiURL =>
        case RepoManagerURL =>
        case CodeHostURL =>
        case CodeHostAPIKey =>
        case APIGatewayHostKey =>
        case APIGatewayHostValue =>
        case ContentTypeKey =>
        case ContentTypeValue =>
      }
    }
  }

  // ---------------------------------------------------------------------------
  // The ignore file

  /** What opening and scanning `.machtiani.ignore` gives: its lines, and a scan error if one stopped it. */
  datatype IgnoreFile = NotExist | OpenFailed(reason: string) | Opened(lines: seq<string>, scanError: Option<string>)

  /** A line names an ignored path when, trimmed, it is neither empty nor a '#' comment. */
  predicate IsIgnoreEntry(line: string)
  {
    TrimSpace(line) != "" && !HasPrefix(TrimSpace(line), "#")
  }

  /** The trimmed entries of the given lines, in file order. */
  function IgnoreEntries(lines: seq<string>): seq<string>
  {
    if lines == [] then []
    else
      var n := |lines| - 1;
      IgnoreEntries(lines[..n]) + (if IsIgnoreEntry(lines[n]) then [TrimSpace(lines[n])] else [])
  }

  /** Every entry is trimmed, non-empty and not a comment. */
  lemma {:induction false} IgnoreEntriesClean(lines: seq<string>)
    ensures forall k :: 0 <= k < |IgnoreEntries(lines)| ==>
              var x := IgnoreEntries(lines)[k]; x != "" && !HasPrefix(x, "#") && IsTrimmed(x)
  {
    if lines != [] {
      var n := |lines| - 1;
      IgnoreEntriesClean(lines[..n]);
      TrimSpaceTrimmed(lines[n]);
    }
  }

  /** The entries of two runs of lines are the entries of each, in order. */
  lemma {:induction false} IgnoreEntriesAppend(a: seq<string>, b: seq<string>)
    ensures IgnoreEntries(a + b) == IgnoreEntries(a) + IgnoreEntries(b)
  {
    if b != [] {
      var n := |b| - 1;
      assert (a + b)[..|a + b| - 1] == a + b[..n];
      IgnoreEntriesAppend(a, b[..n]);
    } else {
      assert a + b == a;
    }
  }

  /** Line j is an entry that trims to x. */
  predicate EntryAt(lines: seq<string>, j: int, x: string)
  {
    0 <= j < |lines| && IsIgnoreEntry(lines[j]) && TrimSpace(lines[j]) == x
  }

  /** x is an entry exactly when some line is an entry that trims to x. */
  lemma {:induction false} IgnoreEntriesMembers(lines: seq<string>)
    ensures forall x :: x in IgnoreEntries(lines) <==> exists j :: EntryAt(lines, j, x)
  {
    if lines != [] {
      var n := |lines| - 1;
      var init := lines[..n];
      IgnoreEntriesMembers(init);
      var last := if IsIgnoreEntry(lines[n]) then [TrimSpace(lines[n])] else [];
      assert IgnoreEntries(lines) == IgnoreEntries(init) + last;
      forall x | x in IgnoreEntries(lines) ensures exists j :: EntryAt(lines, j, x) {
        if x in IgnoreEntries(init) {
          var j :| EntryAt(init, j, x);
          assert EntryAt(lines, j, x);
        } else {
          assert EntryAt(lines, n, x);
        }
      }
      forall x | exists j :: EntryAt(lines, j, x) ensures x in IgnoreEntries(lines) {
        var j :| EntryAt(lines, j, x);
        if j < n {
          assert EntryAt(init, j, x);
          assert x in IgnoreEntries(init);
        } else {
          assert j == n && IsIgnoreEntry(lines[n]);
          assert last == [x];
        }
      }
    }
  }

  /** The ignore-file reader's result for a file name and what opening and scanning it gives. */
  function IgnoreOutcome(fileName: string, file: IgnoreFile): Result<seq<string>>
  {
    match file
    case NotExist => Success([])
    case OpenFailed(reason) => Failure("failed to open " + fileName + ": " + reason)
    case Opened(lines, scanError) =>
      if scanError.Some? then Failure("error reading file " + fileName + ": " + scanError.value)
      else Success(IgnoreEntries(lines))
  }

  /** ReadIgnoreFile: keeps the trimmed lines that are neither blank nor comments. */
  method ReadIgnoreFile(fileName: string, file: IgnoreFile) returns (r: Result<seq<string>>)
    ensures r == IgnoreOutcome(fileName, file)
  {
    match file
    case NotExist =>
      return Success([]);
    case OpenFailed(reason) =>
      return Failure("failed to open " + fileName + ": " + reason);
    case Opened(lines, scanError) =>
      var filePaths: seq<string> := [];
      var i := 0;
      while i < |lines|
        invariant 0 <= i <= |lines|
        invariant filePaths == IgnoreEntries(lines[..i])
      {
        assert lines[..i + 1][..i] == lines[..i];
        var line := TrimSpace(lines[i]);
        if line == "" || HasPrefix(line, "#") {
          i := i + 1;
          continue;
        }
        filePaths := filePaths + [line];
        i := i + 1;
      }
      assert lines[..i] == lines;
      if scanError.Some? {
        return Failure("error reading file " + fileName + ": " + scanError.value);
      }
      r := Success(filePaths);
  }
}
