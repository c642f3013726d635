/**
 * The WinAppDriver client (winappdriver-web/utils/winappdriver.py): one
 * remote session, its id, and a cache from locator to element id. It speaks
 * the JSON Wire Protocol shapes WinAppDriver accepts.
 *
 * The HTTP endpoint is not called: every operation that would issue a
 * request returns that request (or None when it issues none) and receives
 * the endpoint's reply as a parameter. Reply bodies are already parsed and
 * typed per endpoint.
 */
module WinAppDriver {
  import opened Common

  datatype Verb = Get | Post | Delete

  /** The JSON bodies the client sends. */
  datatype Payload =
    | NoBody
      /** `{"desiredCapabilities": {...}}` */
    | DesiredCapabilities(platformName: string, deviceName: string, app: string, waitForAppLaunch: string)
      /** `{"using": strategy, "value": locator}` */
    | Locator(using: string, value: string)
      /** `{"value": [c1, c2, ...]}`, one string per character */
    | Keys(chars: seq<string>)

  datatype Request = Request(verb: Verb, url: string, payload: Payload)

  /** A JSON object member as `dict.get` sees it: missing, `null`, or a value. */
  datatype Field<+T> = Absent | Null | Value(v: T)

  /**
   * A parsed reply body, or the text of the exception raised while reading it
   * (`response.json()` on a body that is not JSON, `.get` on a body that is not an object).
   */
  datatype Body<+B> = Parsed(fields: B) | Unparsable(message: string)

  /** What the endpoint did with a request: a status, the raw text and the body; or a transport exception. */
  datatype Reply<+B> = Reply(status: int, text: string, body: Body<B>) | TransportFailure(message: string)

  /** `POST /session` reply: `{"sessionId": ...}`. */
  datatype SessionFields = SessionFields(sessionId: Field<string>)
  /** `GET .../screenshot` and `GET .../source` replies: `{"value": ...}`. */
  datatype ValueFields = ValueFields(value: Field<string>)
  /** The `value` member of a `POST .../element` reply: an object with an `ELEMENT` member, or some other JSON value. */
  datatype ElementValue = ElementObject(element: Field<string>) | NotAnObject(getError: string)
  /** `POST .../element` reply: `{"value": {"ELEMENT": ...}}`. */
  datatype ElementFields = ElementFields(value: Field<ElementValue>)
  /** Replies whose body the client never reads. */
  datatype Ignored = Ignored

  /** The exceptions the client raises, with the text `str(e)` gives. */
  datatype ClientError =
    | NoActiveSession
    | AppPathRequired
    | StartFailed(text: string)
    | ScreenshotFailed(text: string)
    | SourceFailed(text: string)
    | FindFailed(text: string)
    | ElementNotFound
    | ClickFailed(text: string)
    | SendKeysFailed(text: string)
    | ClearFailed(text: string)
      /** An exception raised by the HTTP or JSON library, passed through unchanged. */
    | Raised(message: string)
  {
    function Message(): string
    {
      match this
      case NoActiveSession => "No active session"
      case AppPathRequired => "Application path is required to start application"
      case StartFailed(t) => "Failed to start application: " + t
      case ScreenshotFailed(t) => "Failed to get screenshot: " + t
      case SourceFailed(t) => "Failed to get page source: " + t
      case FindFailed(t) => "Failed to find element: " + t
      case ElementNotFound => "Element not found"
      case ClickFailed(t) => "Failed to click element: " + t
      case SendKeysFailed(t) => "Failed to send keys: " + t
      case ClearFailed(t) => "Failed to clear element: " + t
      case Raised(m) => m
    }
  }

  /** The text of the AttributeError raised by `None.get(...)`. */
  const NoneHasNoGet := "'NoneType' object has no attribute 'get'"

  /** The capabilities sent on session creation; `app` is fixed whatever application path was given. */
  const Capabilities := DesiredCapabilities("Windows", "WindowsPC", "Microsoft.WindowsCalculator_8wekyb3d8bbwe!App", "10")

  /** `dict.get(key)`: a missing member and a `null` member both read as None. */
  function FieldValue<T>(f: Field<T>): (r: Option<T>)
    ensures r.Some? <==> f.Value?
    ensures r.Some? ==> r.value == f.v
  {
    if f.Value? then Some(f.v) else None
  }

  /** `dict.get(key, '')`: only a missing member reads as the default. */
  function FieldOr(f: Field<string>, default: string): (r: Option<string>)
    ensures f.Absent? ==> r == Some(default)
    ensures f.Null? ==> r == None
    ensures f.Value? ==> r == Some(f.v)
  {
    match f
    case Absent => Some(default)
    case Null => None
    case Value(v) => Some(v)
  }

  /** `s.rstrip('/')`: every trailing slash removed, nothing else. */
  function TrimTrailingSlashes(s: string): (r: string)
    ensures |r| <= |s| && s[..|r|] == r
    ensures forall i :: |r| <= i < |s| ==> s[i] == '/'
    ensures r == "" || r[|r| - 1] != '/'
    decreases |s|
  {
    if s != "" && s[|s| - 1] == '/' then TrimTrailingSlashes(s[..|s| - 1]) else s
  }

  /** `list(text)`: one single-character string per character, in order. */
  function Chars(text: string): (r: seq<string>)
    ensures |r| == |text|
    ensures forall i :: 0 <= i < |r| ==> r[i] == [text[i]]
    decreases |text|
  {
    if text == [] then [] else [[text[0]]] + Chars(text[1..])
  }

  function Concat(parts: seq<string>): string
    decreases |parts|
  {
    if parts == [] then "" else parts[0] + Concat(parts[1..])
  }

  /** The characters sent for `text` spell `text` again when joined. */
  lemma {:induction false} ConcatChars(text: string)
    ensures Concat(Chars(text)) == text
    decreases |text|
  {
    if text != [] {
      ConcatChars(text[1..]);
      assert Chars(text)[1..] == Chars(text[1..]);
    }
  }

  /** The cache key of a lookup: strategy and locator joined by a colon. */
  function CacheKey(strategy: string, locator: string): (key: string)
    ensures |key| == |strategy| + 1 + |locator|
    ensures key[..|strategy|] == strategy && key[|strategy|] == ':' && key[|strategy| + 1..] == locator
  {
    strategy + ":" + locator
  }

  /** Strategies without a colon never share a cache entry: the key determines the pair. */
  lemma CacheKeyInjective(s1: string, l1: string, s2: string, l2: string)
    requires ':' !in s1 && ':' !in s2
    requires CacheKey(s1, l1) == CacheKey(s2, l2)
    ensures s1 == s2 && l1 == l2
  {
  }

  /** Two different (strategy, locator) pairs can share one cache entry. */
  lemma CacheKeyCollision()
    ensures ("a:b", "c") != ("a", "b:c")
    ensures CacheKey("a:b", "c") == CacheKey("a", "b:c")
  {
  }

  /** The decoding of a `POST /session` reply: the parsed body on status 200, an exception otherwise. */
  function DecodeStart(reply: Reply<SessionFields>): (r: Result<SessionFields, ClientError>)
    ensures reply.TransportFailure? ==> r == Err(Raised(reply.message))
    ensures reply.Reply? && reply.status != 200 ==> r == Err(StartFailed(reply.text))
    ensures r.Ok? <==> reply.Reply? && reply.status == 200 && reply.body.Parsed?
    ensures r.Ok? ==> r.value == reply.body.fields
  {
    match reply
    case TransportFailure(m) => Err(Raised(m))
    case Reply(status, text, body) =>
      if status != 200 then Err(StartFailed(text))
      else match body
        case Unparsable(m) => Err(Raised(m))
        case Parsed(f) => Ok(f)
  }

  /** The decoding of a `GET .../screenshot` or `GET .../source` reply; `failed` is the exception for a non-200 status. */
  function DecodeValue(reply: Reply<ValueFields>, failed: string -> ClientError): (r: Result<Option<string>, ClientError>)
    ensures reply.TransportFailure? ==> r == Err(Raised(reply.message))
    ensures reply.Reply? && reply.status != 200 ==> r == Err(failed(reply.text))
    ensures r.Ok? <==> reply.Reply? && reply.status == 200 && reply.body.Parsed?
    ensures r.Ok? ==> r.value == FieldOr(reply.body.fields.value, "")
  {
    match reply
    case TransportFailure(m) => Err(Raised(m))
    case Reply(status, text, body) =>
      if status != 200 then Err(failed(text))
      else match body
        case Unparsable(m) => Err(Raised(m))
        case Parsed(f) => Ok(FieldOr(f.value, ""))
  }

  /**
   * The decoding of a `POST .../element` reply: `data.get('value', {}).get('ELEMENT')`,
   * accepted only when it is a non-empty string.
   */
  function DecodeElement(reply: Reply<ElementFields>): (r: Result<string, ClientError>)
    ensures reply.TransportFailure? ==> r == Err(Raised(reply.message))
    ensures reply.Reply? && reply.status != 200 ==> r == Err(FindFailed(reply.text))
    ensures r.Ok? <==>
              reply.Reply? && reply.status == 200 && reply.body.Parsed?
              && reply.body.fields.value.Value? && reply.body.fields.value.v.ElementObject?
              && reply.body.fields.value.v.element.Value? && reply.body.fields.value.v.element.v != ""
    ensures r.Ok? ==> r.value == reply.body.fields.value.v.element.v
  {
    match reply
    case TransportFailure(m) => Err(Raised(m))
    case Reply(status, text, body) =>
      if status != 200 then Err(FindFailed(text))
      else match body
        case Unparsable(m) => Err(Raised(m))
        case Parsed(f) =>
          match f.value
          case Absent => Err(ElementNotFound)
          case Null => Err(Raised(NoneHasNoGet))
          case Value(NotAnObject(m)) => Err(Raised(m))
          case Value(ElementObject(e)) =>
            if Truthy(FieldValue(e)) then Ok(e.v) else Err(ElementNotFound)
  }

  /** The decoding of a reply whose body is never read: only the status matters. */
  function DecodeStatus(reply: Reply<Ignored>, failed: string -> ClientError): (r: Result<(), ClientError>)
    ensures r.Ok? <==> reply.Reply? && reply.status == 200
    ensures reply.TransportFailure? ==> r == Err(Raised(reply.message))
    ensures reply.Reply? && reply.status != 200 ==> r == Err(failed(reply.text))
  {
    match reply
    case TransportFailure(m) => Err(Raised(m))
    case Reply(status, text, _) => if status == 200 then Ok(()) else Err(failed(text))
  }

  class Client {
    /** The endpoint address without trailing slashes. */
    const url: string
    /** The application path the client was created with; only its presence is ever checked. */
    const appPath: Option<string>
    /** The remote session id; the client is active when it is a non-empty string. */
    var sessionId: Option<string>
    /** Element ids by `strategy:locator`. */
    var cache: map<string, string>

    predicate Active()
      reads this
    {
      Truthy(sessionId)
    }

    /** `{url}/session/{session_id}`, the prefix of every per-session request. */
    function SessionUrl(): string
      reads this
      requires Active()
    {
      url + "/session/" + sessionId.value
    }

    constructor (winAppDriverUrl: string, appPath: Option<string>)
      ensures url == TrimTrailingSlashes(winAppDriverUrl) && this.appPath == appPath
      ensures sessionId == None && cache == map[]
      ensures !Active()
    {
      url := TrimTrailingSlashes(winAppDriverUrl);
      this.appPath := appPath;
      sessionId := None;
      cache := map[];
    }

    /**
     * `start_application`: refuses a missing or empty application path before
     * any request; otherwise creates a session, whose id (possibly absent) is
     * adopted on status 200 and ignored on any other outcome.
     */
    method StartApplication(reply: Reply<SessionFields>) returns (r: Result<SessionFields, ClientError>, sent: Option<Request>)
      modifies this`sessionId
      ensures !Truthy(appPath) ==> r == Err(AppPathRequired) && sent == None
      ensures Truthy(appPath) ==> sent == Some(Request(Post, url + "/session", Capabilities)) && r == DecodeStart(reply)
      ensures r.Ok? ==> sessionId == FieldValue(r.value.sessionId)
      ensures r.Err? ==> sessionId == old(sessionId)
    {
      if !Truthy(appPath) {
        return Err(AppPathRequired), None;
      }
      sent := Some(Request(Post, url + "/session", Capabilities));
      r := DecodeStart(reply);
      if r.Ok? {
        sessionId := FieldValue(r.value.sessionId);
      }
    }

    /**
     * `quit`: with an active session, sends DELETE (whatever happens to it is
     * ignored) and always ends with no session and an empty cache; otherwise
     * does nothing.
     */
    method Quit() returns (sent: Option<Request>)
      modifies this
      ensures old(Active()) ==> sent == Some(Request(Delete, old(SessionUrl()), NoBody))
      ensures old(Active()) ==> sessionId == None && cache == map[]
      ensures !old(Active()) ==> sent == None && sessionId == old(sessionId) && cache == old(cache)
      ensures !Active()
    {
      if Active() {
        sent := Some(Request(Delete, SessionUrl(), NoBody));
        sessionId := None;
        cache := map[];
      } else {
        sent := None;
      }
    }

    /** `get_screenshot`: the base64 PNG the endpoint returns, `''` when the member is missing. */
    method GetScreenshot(reply: Reply<ValueFields>) returns (r: Result<Option<string>, ClientError>, sent: Option<Request>)
      ensures !Active() ==> r == Err(NoActiveSession) && sent == None
      ensures Active() ==> sent == Some(Request(Get, SessionUrl() + "/screenshot", NoBody))
      ensures Active() ==> r == DecodeValue(reply, t => ScreenshotFailed(t))
    {
      if !Active() {
        return Err(NoActiveSession), None;
      }
      sent := Some(Request(Get, SessionUrl() + "/screenshot", NoBody));
      r := DecodeValue(reply, t => ScreenshotFailed(t));
    }

    /** `get_page_source`: the XML tree the endpoint returns, `''` when the member is missing. */
    method GetPageSource(reply: Reply<ValueFields>) returns (r: Result<Option<string>, ClientError>, sent: Option<Request>)
      ensures !Active() ==> r == Err(NoActiveSession) && sent == None
      ensures Active() ==> sent == Some(Request(Get, SessionUrl() + "/source", NoBody))
      ensures Active() ==> r == DecodeValue(reply, t => SourceFailed(t))
    {
      if !Active() {
        return Err(NoActiveSession), None;
      }
      sent := Some(Request(Get, SessionUrl() + "/source", NoBody));
      r := DecodeValue(reply, t => SourceFailed(t));
    }

    /**
     * `find_element`: a cached key is answered without a request; otherwise the
     * endpoint is asked, and only a non-empty element id is cached and returned.
     */
    method FindElement(strategy: string, locator: string, reply: Reply<ElementFields>)
      returns (r: Result<string, ClientError>, sent: Option<Request>)
      modifies this`cache
      ensures !old(Active()) ==> r == Err(NoActiveSession) && sent == None && cache == old(cache)
      ensures old(Active()) && CacheKey(strategy, locator) in old(cache) ==>
                r == Ok(old(cache)[CacheKey(strategy, locator)]) && sent == None && cache == old(cache)
      ensures old(Active()) && CacheKey(strategy, locator) !in old(cache) ==>
                sent == Some(Request(Post, SessionUrl() + "/element", Locator(strategy, locator)))
                && r == DecodeElement(reply)
                && cache == (if r.Ok? then old(cache)[CacheKey(strategy, locator) := r.value] else old(cache))
    {
      if !Active() {
        return Err(NoActiveSession), None;
      }
      var key := CacheKey(strategy, locator);
      if key in cache {
        return Ok(cache[key]), None;
      }
      sent := Some(Request(Post, SessionUrl() + "/element", Locator(strategy, locator)));
      r := DecodeElement(reply);
      if r.Ok? {
        cache := cache[key := r.value];
      }
    }

    /** `click_element`. */
    method ClickElement(elementId: string, reply: Reply<Ignored>) returns (r: Result<(), ClientError>, sent: Option<Request>)
      ensures !Active() ==> r == Err(NoActiveSession) && sent == None
      ensures Active() ==> sent == Some(Request(Post, SessionUrl() + "/element/" + elementId + "/click", NoBody))
      ensures Active() ==> r == DecodeStatus(reply, t => ClickFailed(t))
    {
      if !Active() {
        return Err(NoActiveSession), None;
      }
      sent := Some(Request(Post, SessionUrl() + "/element/" + elementId + "/click", NoBody));
      r := DecodeStatus(reply, t => ClickFailed(t));
    }

    /** `send_keys`: the text goes as a list of one-character strings. */
    method SendKeys(elementId: string, text: string, reply: Reply<Ignored>) returns (r: Result<(), ClientError>, sent: Option<Request>)
      ensures !Active() ==> r == Err(NoActiveSession) && sent == None
      ensures Active() ==> sent == Some(Request(Post, SessionUrl() + "/element/" + elementId + "/value", Keys(Chars(text))))
      ensures Active() ==> r == DecodeStatus(reply, t => SendKeysFailed(t))
    {
      if !Active() {
        return Err(NoActiveSession), None;
      }
      sent := Some(Request(Post, SessionUrl() + "/element/" + elementId + "/value", Keys(Chars(text))));
      r := DecodeStatus(reply, t => SendKeysFailed(t));
    }

    /** `clear_element`. */
    method ClearElement(elementId: string, reply: Reply<Ignored>) returns (r: Result<(), ClientError>, sent: Option<Request>)
      ensures !Active() ==> r == Err(NoActiveSession) && sent == None
      ensures Active() ==> sent == Some(Request(Post, SessionUrl() + "/element/" + elementId + "/clear", NoBody))
      ensures Active() ==> r == DecodeStatus(reply, t => ClearFailed(t))
    {
      if !Active() {
        return Err(NoActiveSession), None;
      }
      sent := Some(Request(Post, SessionUrl() + "/element/" + elementId + "/clear", NoBody));
      r := DecodeStatus(reply, t => ClearFailed(t));
    }
  }
}
