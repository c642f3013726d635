/**
 * The web service's session registry and route handlers
 * (winappdriver-web/app.py): a map from a service-issued handle to the
 * client that owns one remote session. Each handler checks its inputs,
 * finds the client and answers with a status code and a JSON body.
 *
 * Request bodies arrive already parsed; `None` stands for a request whose
 * JSON is not an object. The random handle of `uuid4` is a parameter that
 * must not be in use yet.
 */
module SessionRegistry {
  import opened Common
  import W = WinAppDriver
  import Config
  import ImageUtils

  /** The JSON bodies the handlers answer with. */
  datatype ResponseBody =
      /** `{'error': ...}` */
    | ErrorBody(error: string)
      /** `{'sessionId': ..., 'status': 'success', 'message': 'Session created successfully'}` */
    | SessionCreated(sessionId: string)
      /** `{'status': 'success', 'message': ...}` */
    | Done(message: string)
      /** `{'status': 'success', 'screenshot': ...}` */
    | ScreenshotBody(screenshot: string)
      /** `{'status': 'success', 'source': ...}`; None is JSON null */
    | SourceBody(source: Option<string>)
      /** `{'status': 'success', 'elementId': ...}` */
    | ElementBody(elementId: string)
      /** An exception raised outside the handler's `try`: the framework's own error page. */
    | Unhandled

  datatype Response = Response(status: int, body: ResponseBody)

  /** The request bodies the handlers read. */
  datatype CreateBody = CreateBody(appPath: W.Field<string>)
  datatype FindBody = FindBody(strategy: W.Field<string>, locator: W.Field<string>)
  datatype TextBody = TextBody(text: W.Field<string>)

  const NotFound := Response(404, ErrorBody("Session not found"))

  /** A client exception caught by a handler: status 500 with the exception's text. */
  function Failure(e: W.ClientError): Response
  {
    Response(500, ErrorBody(e.Message()))
  }

  /** The text of the AttributeError raised by `None.startswith(...)`. */
  const NoneHasNoStartswith := "'NoneType' object has no attribute 'startswith'"

  /** The answer of the screenshot handler once the client has answered: compress, or report the exception. */
  function ScreenshotResponse(shot: Result<Option<string>, W.ClientError>, quality: int, codec: ImageUtils.Codec): (resp: Response)
    requires ImageUtils.CodecContract(codec)
    ensures resp.status == 200 <==> shot.Ok? && shot.value.Some? && ImageUtils.Compressed(shot.value.value, quality, codec).Ok?
    ensures resp.status == 200 ==> resp.body == ScreenshotBody(ImageUtils.Compressed(shot.value.value, quality, codec).value)
    ensures shot.Err? ==> resp == Failure(shot.error)
  {
    match shot
    case Err(e) => Failure(e)
    case Ok(None) => Response(500, ErrorBody(NoneHasNoStartswith))
    case Ok(Some(data)) =>
      match ImageUtils.Compressed(data, quality, codec)
      case Err(m) => Response(500, ErrorBody(m))
      case Ok(b) => Response(200, ScreenshotBody(b))
  }

  class Registry {
    /** `driver_sessions`: handle to client. */
    var sessions: map<string, W.Client>
    /** `app.config`. */
    const settings: Config.Settings

    /** Every handle owns its own client, and a client without a remote session has nothing cached. */
    ghost predicate Valid()
      reads this, sessions.Values
    {
      && (forall a, b :: a in sessions && b in sessions && a != b ==> sessions[a] != sessions[b])
      && (forall h :: h in sessions ==> sessions[h].Active() || sessions[h].cache == map[])
    }

    /** The client a handler for `handle` may change: that handle's, if it has one. */
    function ClientOf(handle: string): set<W.Client>
      reads this
    {
      if handle in sessions then {sessions[handle]} else {}
    }

    constructor (settings: Config.Settings)
      ensures this.settings == settings && sessions == map[] && Valid()
    {
      this.settings := settings;
      sessions := map[];
    }

    /**
     * `create_session`: refuses a missing or empty `appPath` with 400; otherwise
     * starts a new client, and stores it under `handle` only once the start
     * has returned. A failed start answers 500 and stores nothing.
     */
    method CreateSession(body: Option<CreateBody>, handle: string, reply: W.Reply<W.SessionFields>)
      returns (resp: Response, sent: Option<W.Request>)
      requires Valid() && handle !in sessions
      modifies this
      ensures Valid()
      ensures body.None? ==> resp == Response(500, Unhandled) && sent == None
      ensures body.Some? && !Truthy(W.FieldValue(body.value.appPath)) ==>
                resp == Response(400, ErrorBody("Missing appPath parameter")) && sent == None
      ensures body.Some? && Truthy(W.FieldValue(body.value.appPath)) ==>
                sent == Some(W.Request(W.Post, W.TrimTrailingSlashes(settings.winAppDriverUrl) + "/session", W.Capabilities))
                && (W.DecodeStart(reply).Err? ==> resp == Failure(W.DecodeStart(reply).error))
                && (W.DecodeStart(reply).Ok? ==> resp == Response(200, SessionCreated(handle)))
      ensures resp.status != 200 ==> sessions == old(sessions)
      ensures resp.status == 200 ==>
                sessions.Keys == old(sessions).Keys + {handle}
                && (forall k :: k in old(sessions) ==> sessions[k] == old(sessions)[k])
                && fresh(sessions[handle])
                && sessions[handle].url == W.TrimTrailingSlashes(settings.winAppDriverUrl)
                && sessions[handle].appPath == W.FieldValue(body.value.appPath)
                && sessions[handle].sessionId == W.FieldValue(W.DecodeStart(reply).value.sessionId)
                && sessions[handle].cache == map[]
    {
      if body.None? {
        return Response(500, Unhandled), None;
      }
      var appPath := W.FieldValue(body.value.appPath);
      if !Truthy(appPath) {
        return Response(400, ErrorBody("Missing appPath parameter")), None;
      }
      var client := new W.Client(settings.winAppDriverUrl, appPath);
      var started;
      started, sent := client.StartApplication(reply);
      if started.Err? {
        return Failure(started.error), sent;
      }
      sessions := sessions[handle := client];
      resp := Response(200, SessionCreated(handle));
    }

    /**
     * `delete_session`: an unknown handle answers 404; a known one has its
     * client quit (which cannot fail) and then loses exactly its own mapping.
     */
    method DeleteSession(handle: string) returns (resp: Response, sent: Option<W.Request>)
      requires Valid()
      modifies this, ClientOf(handle)
      ensures Valid()
      ensures handle !in old(sessions) ==> resp == NotFound && sent == None && sessions == old(sessions)
      ensures handle in old(sessions) ==>
                resp == Response(200, Done("Session deleted"))
                && sessions == old(sessions) - {handle}
                && !old(sessions)[handle].Active()
                && old(sessions)[handle].cache == map[]
                && sent == (if old(sessions[handle].Active()) then Some(W.Request(W.Delete, old(sessions[handle].SessionUrl()), W.NoBody)) else None)
    {
      if handle !in sessions {
        return NotFound, None;
      }
      var client := sessions[handle];
      sent := client.Quit();
      sessions := sessions - {handle};
      resp := Response(200, Done("Session deleted"));
    }

    /** `get_screenshot`: the client's screenshot passed through `compress_image` at the configured quality. */
    method GetScreenshot(handle: string, reply: W.Reply<W.ValueFields>, codec: ImageUtils.Codec)
      returns (resp: Response, sent: Option<W.Request>)
      requires ImageUtils.CodecContract(codec)
      ensures handle !in sessions ==> resp == NotFound && sent == None
      ensures handle in sessions && !sessions[handle].Active() ==>
                resp == Failure(W.NoActiveSession) && sent == None
      ensures handle in sessions && sessions[handle].Active() ==>
                sent == Some(W.Request(W.Get, sessions[handle].SessionUrl() + "/screenshot", W.NoBody))
                && resp == ScreenshotResponse(W.DecodeValue(reply, t => W.ScreenshotFailed(t)), settings.screenshotQuality, codec)
    {
      if handle !in sessions {
        return NotFound, None;
      }
      var shot;
      shot, sent := sessions[handle].GetScreenshot(reply);
      match shot
      case Err(e) =>
        resp := Failure(e);
      case Ok(None) =>
        resp := Response(500, ErrorBody(NoneHasNoStartswith));
      case Ok(Some(data)) =>
        var compressed := ImageUtils.CompressImage(data, settings.screenshotQuality, codec);
        resp := if compressed.Ok? then Response(200, ScreenshotBody(compressed.value)) else Response(500, ErrorBody(compressed.error));
    }

    /** `get_source`: the client's page source, JSON null when the endpoint sent null. */
    method GetSource(handle: string, reply: W.Reply<W.ValueFields>) returns (resp: Response, sent: Option<W.Request>)
      ensures handle !in sessions ==> resp == NotFound && sent == None
      ensures handle in sessions && !sessions[handle].Active() ==>
                resp == Failure(W.NoActiveSession) && sent == None
      ensures handle in sessions && sessions[handle].Active() ==>
                sent == Some(W.Request(W.Get, sessions[handle].SessionUrl() + "/source", W.NoBody))
                && var source := W.DecodeValue(reply, t => W.SourceFailed(t));
                   resp == if source.Ok? then Response(200, SourceBody(source.value)) else Failure(source.error)
    {
      if handle !in sessions {
        return NotFound, None;
      }
      var source;
      source, sent := sessions[handle].GetPageSource(reply);
      resp := if source.Ok? then Response(200, SourceBody(source.value)) else Failure(source.error);
    }

    /**
     * `find_element`: 404 for an unknown handle, 400 when `strategy` or
     * `locator` is missing or empty (before the client is asked), otherwise
     * the client's (possibly cached) element id.
     */
    method FindElement(handle: string, body: Option<FindBody>, reply: W.Reply<W.ElementFields>)
      returns (resp: Response, sent: Option<W.Request>)
      requires Valid()
      modifies ClientOf(handle)`cache
      ensures Valid()
      ensures handle in sessions ==> sessions[handle].sessionId == old(sessions[handle].sessionId)
      ensures handle !in sessions ==> resp == NotFound && sent == None
      ensures handle in sessions && body.None? ==>
                resp == Response(500, Unhandled) && sent == None && sessions[handle].cache == old(sessions[handle].cache)
      ensures handle in sessions && body.Some?
              && !(Truthy(W.FieldValue(body.value.strategy)) && Truthy(W.FieldValue(body.value.locator))) ==>
                resp == Response(400, ErrorBody("Missing strategy or locator parameters")) && sent == None
                && sessions[handle].cache == old(sessions[handle].cache)
      ensures handle in sessions && body.Some?
              && Truthy(W.FieldValue(body.value.strategy)) && Truthy(W.FieldValue(body.value.locator)) ==>
                var key := W.CacheKey(body.value.strategy.v, body.value.locator.v);
                var client := sessions[handle];
                (!client.Active() ==> resp == Failure(W.NoActiveSession) && sent == None && client.cache == old(client.cache))
                && (client.Active() && key in old(client.cache) ==>
                      resp == Response(200, ElementBody(old(client.cache)[key])) && sent == None
                      && client.cache == old(client.cache))
                && (client.Active() && key !in old(client.cache) ==>
                      sent == Some(W.Request(W.Post, client.SessionUrl() + "/element", W.Locator(body.value.strategy.v, body.value.locator.v)))
                      && resp == (if W.DecodeElement(reply).Ok? then Response(200, ElementBody(W.DecodeElement(reply).value))
                                  else Failure(W.DecodeElement(reply).error))
                      && client.cache == (if W.DecodeElement(reply).Ok? then old(client.cache)[key := W.DecodeElement(reply).value]
                                          else old(client.cache)))
    {
      if handle !in sessions {
        return NotFound, None;
      }
      if body.None? {
        return Response(500, Unhandled), None;
      }
      var strategy, locator := W.FieldValue(body.value.strategy), W.FieldValue(body.value.locator);
      if !Truthy(strategy) || !Truthy(locator) {
        return Response(400, ErrorBody("Missing strategy or locator parameters")), None;
      }
      var element;
      element, sent := sessions[handle].FindElement(strategy.value, locator.value, reply);
      resp := if element.Ok? then Response(200, ElementBody(element.value)) else Failure(element.error);
    }

    /** `click_element`. */
    method ClickElement(handle: string, elementId: string, reply: W.Reply<W.Ignored>)
      returns (resp: Response, sent: Option<W.Request>)
      ensures handle !in sessions ==> resp == NotFound && sent == None
      ensures handle in sessions && !sessions[handle].Active() ==>
                resp == Failure(W.NoActiveSession) && sent == None
      ensures handle in sessions && sessions[handle].Active() ==>
                sent == Some(W.Request(W.Post, sessions[handle].SessionUrl() + "/element/" + elementId + "/click", W.NoBody))
                && var clicked := W.DecodeStatus(reply, t => W.ClickFailed(t));
                   resp == if clicked.Ok? then Response(200, Done("Element clicked")) else Failure(clicked.error)
    {
      if handle !in sessions {
        return NotFound, None;
      }
      var clicked;
      clicked, sent := sessions[handle].ClickElement(elementId, reply);
      resp := if clicked.Ok? then Response(200, Done("Element clicked")) else Failure(clicked.error);
    }

    /**
     * `send_text`: only a missing or null `text` is refused (400); an empty
     * string is forwarded to the client.
     */
    method SendText(handle: string, elementId: string, body: Option<TextBody>, reply: W.Reply<W.Ignored>)
      returns (resp: Response, sent: Option<W.Request>)
      ensures handle !in sessions ==> resp == NotFound && sent == None
      ensures handle in sessions && body.None? ==> resp == Response(500, Unhandled) && sent == None
      ensures handle in sessions && body.Some? && !body.value.text.Value? ==>
                resp == Response(400, ErrorBody("Missing text parameter")) && sent == None
      ensures handle in sessions && body.Some? && body.value.text.Value? ==>
                var client := sessions[handle];
                (!client.Active() ==> resp == Failure(W.NoActiveSession) && sent == None)
                && (client.Active() ==>
                      sent == Some(W.Request(W.Post, client.SessionUrl() + "/element/" + elementId + "/value",
                                             W.Keys(W.Chars(body.value.text.v))))
                      && var typed := W.DecodeStatus(reply, t => W.SendKeysFailed(t));
                         resp == if typed.Ok? then Response(200, Done("Text sent")) else Failure(typed.error))
    {
      if handle !in sessions {
        return NotFound, None;
      }
      if body.None? {
        return Response(500, Unhandled), None;
      }
      var text := W.FieldValue(body.value.text);
      if text.None? {
        return Response(400, ErrorBody("Missing text parameter")), None;
      }
      var typed;
      typed, sent := sessions[handle].SendKeys(elementId, text.value, reply);
      resp := if typed.Ok? then Response(200, Done("Text sent")) else Failure(typed.error);
    }
  }
}
