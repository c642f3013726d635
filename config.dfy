/**
 * The web service's settings (winappdriver-web/config.py): each one is the
 * process environment's value when that value is present and non-empty, and
 * a built-in default otherwise; the two numeric settings are then read by
 * Python's `int()`, which takes a sign, surrounding whitespace and
 * separating underscores. The environment is an explicit map.
 */
module Config {
  import opened Common
  import Decimal

  const SecretKeyName := "SECRET_KEY"
  const UrlName := "WINAPPDRIVER_URL"
  const QualityName := "SCREENSHOT_QUALITY"
  const TimeoutName := "SESSION_TIMEOUT"

  const DefaultSecretKey := "dev-secret-key-for-testing"
  const DefaultUrl := "http://127.0.0.1:4723"
  const DefaultQuality := "80"
  const DefaultTimeout := "3600"

  datatype Settings = Settings(secretKey: string, winAppDriverUrl: string, screenshotQuality: int, sessionTimeout: int)

  /** `int(text)` raised ValueError while the named setting was being read. */
  datatype ConfigError = InvalidInteger(setting: string, text: string)

  /** `os.environ.get(name) or default`: an absent or empty value falls back to the default. */
  function Setting(env: map<string, string>, name: string, default: string): (value: string)
    ensures value == default || (name in env && value == env[name])
    ensures name in env && env[name] != "" ==> value == env[name]
    ensures default != "" ==> value != ""
  {
    if name in env && env[name] != "" then env[name] else default
  }

  /**
   * The class attributes of `Config`, evaluated in their order of declaration:
   * a non-numeric quality is reported before a non-numeric timeout.
   */
  function Resolve(env: map<string, string>): (r: Result<Settings, ConfigError>)
    ensures r.Ok? ==> r.value.secretKey != "" && r.value.winAppDriverUrl != ""
    ensures r.Err? ==> r.error.setting == QualityName || r.error.setting == TimeoutName
    ensures r.Err? && r.error.setting == TimeoutName ==> Decimal.ParseInt(Setting(env, QualityName, DefaultQuality)).Some?
  {
    var quality := Setting(env, QualityName, DefaultQuality);
    var timeout := Setting(env, TimeoutName, DefaultTimeout);
    match Decimal.ParseInt(quality)
    case None => Err(InvalidInteger(QualityName, quality))
    case Some(q) =>
      match Decimal.ParseInt(timeout)
      case None => Err(InvalidInteger(TimeoutName, timeout))
      case Some(t) =>
        Ok(Settings(Setting(env, SecretKeyName, DefaultSecretKey), Setting(env, UrlName, DefaultUrl), q, t))
  }

  /** With none of the four variables set, every setting takes its default. */
  lemma ResolveUnset(env: map<string, string>)
    requires SecretKeyName !in env && UrlName !in env && QualityName !in env && TimeoutName !in env
    ensures Resolve(env) == Ok(Settings(DefaultSecretKey, DefaultUrl, 80, 3600))
  {
    DefaultsParse();
    ResolveParsed(env, 80, 3600);
  }

  /** With nothing set: `dev-secret-key-for-testing`, `http://127.0.0.1:4723`, quality 80, timeout 3600. */
  lemma ResolveEmptyEnvironment()
    ensures Resolve(map[]) == Ok(Settings(DefaultSecretKey, DefaultUrl, 80, 3600))
  {
    ResolveUnset(map[]);
  }

  /** The default texts are the integers 80 and 3600. */
  lemma DefaultsParse()
    ensures Decimal.ParseInt(DefaultQuality) == Some(80) && Decimal.ParseInt(DefaultTimeout) == Some(3600)
  {
    assert DefaultQuality == Decimal.IntText(80) && DefaultTimeout == Decimal.IntText(3600);
    Decimal.ParseIntOfIntText(80);
    Decimal.ParseIntOfIntText(3600);
  }

  /** A variable set to the empty string is the same as one not set at all (the effect of `or`). */
  lemma {:induction false} EmptyValueIsUnset(env: map<string, string>, name: string)
    ensures Resolve(env[name := ""]) == Resolve(env - {name})
  {
    SettingEmptyIsUnset(env, name, QualityName, DefaultQuality);
    SettingEmptyIsUnset(env, name, TimeoutName, DefaultTimeout);
    SettingEmptyIsUnset(env, name, SecretKeyName, DefaultSecretKey);
    SettingEmptyIsUnset(env, name, UrlName, DefaultUrl);
  }

  lemma SettingEmptyIsUnset(env: map<string, string>, name: string, setting: string, default: string)
    ensures Setting(env[name := ""], setting, default) == Setting(env - {name}, setting, default)
  {
  }

  /** Non-empty values are taken as they are; numeric ones as the integer their text spells. */
  lemma {:induction false} ResolveTakesEnvironment(key: string, url: string, quality: int, timeout: int)
    requires key != "" && url != ""
    ensures Resolve(map[SecretKeyName := key, UrlName := url,
                        QualityName := Decimal.IntText(quality), TimeoutName := Decimal.IntText(timeout)])
         == Ok(Settings(key, url, quality, timeout))
  {
    var env := map[SecretKeyName := key, UrlName := url,
                   QualityName := Decimal.IntText(quality), TimeoutName := Decimal.IntText(timeout)];
    assert Setting(env, SecretKeyName, DefaultSecretKey) == key;
    assert Setting(env, UrlName, DefaultUrl) == url;
    assert Setting(env, QualityName, DefaultQuality) == Decimal.IntText(quality);
    assert Setting(env, TimeoutName, DefaultTimeout) == Decimal.IntText(timeout);
    Decimal.ParseIntOfIntText(quality);
    Decimal.ParseIntOfIntText(timeout);
  }

  lemma UnsetTimeoutIsDefault(env: map<string, string>)
    requires TimeoutName !in env
    ensures Decimal.ParseInt(Setting(env, TimeoutName, DefaultTimeout)) == Some(3600)
  {
    DefaultsParse();
  }

  /** Once both numeric texts read as integers, loading succeeds with those integers. */
  lemma ResolveParsed(env: map<string, string>, quality: int, timeout: int)
    requires Decimal.ParseInt(Setting(env, QualityName, DefaultQuality)) == Some(quality)
    requires Decimal.ParseInt(Setting(env, TimeoutName, DefaultTimeout)) == Some(timeout)
    ensures Resolve(env).Ok?
    ensures Resolve(env).value == Settings(Setting(env, SecretKeyName, DefaultSecretKey), Setting(env, UrlName, DefaultUrl), quality, timeout)
  {
  }

  /** The quality is not range-checked: any integer is accepted, 0-100 or not, negative ones included. */
  lemma {:induction false} QualityIsNotRangeChecked(quality: int)
    ensures Resolve(map[QualityName := Decimal.IntText(quality)]).Ok?
    ensures Resolve(map[QualityName := Decimal.IntText(quality)]).value.screenshotQuality == quality
  {
    var env := map[QualityName := Decimal.IntText(quality)];
    Decimal.ParseIntOfIntText(quality);
    assert Setting(env, QualityName, DefaultQuality) == Decimal.IntText(quality);
    UnsetTimeoutIsDefault(env);
    ResolveParsed(env, quality, 3600);
  }

  /** A quality holding a character `int()` never accepts makes loading fail, naming that setting. */
  lemma NonNumericQualityFails(env: map<string, string>)
    requires QualityName in env && env[QualityName] != ""
    requires exists i :: 0 <= i < |env[QualityName]| && !Decimal.IntChar(env[QualityName][i])
    ensures Resolve(env) == Err(InvalidInteger(QualityName, env[QualityName]))
  {
    var i :| 0 <= i < |env[QualityName]| && !Decimal.IntChar(env[QualityName][i]);
    Decimal.ParseIntRejectsForeign(env[QualityName], i);
  }
}
