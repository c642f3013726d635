/**
 * The browser control panel's handlers (winappdriver-web/static/js/main.js):
 * two globals, the web service's session handle and the last element found,
 * guard every button handler; a handler that passes its guard issues one
 * call to the web service and updates the globals from the answer.
 *
 * Each handler returns the calls it issues, in order. The answer to the
 * handler's own call is a parameter; the screenshot and source refreshes a
 * handler chains onto do not change the globals, so their answers are not
 * needed.
 */
module ControlPanel {
  import opened Common
  import opened JsString

  datatype HttpMethod = Get | Post | Delete

  /** The JSON bodies the panel sends. */
  datatype Json =
    | NoJson
    | AppPathJson(appPath: string)
    | LocatorJson(strategy: string, locator: string)
    | TextJson(text: string)

  datatype Call = Call(verb: HttpMethod, path: string, body: Json)

  /**
   * What `fetch` and `response.json()` give the handler: `response.ok` and
   * the `sessionId` / `elementId` members (None for missing or null), or a
   * failure (rejected fetch, unreadable JSON) that the handler catches.
   */
  datatype Answer = Answer(ok: bool, sessionId: Option<string>, elementId: Option<string>) | Failed

  predicate Succeeded(a: Answer)
  {
    a.Answer? && a.ok
  }

  function SessionPath(sessionId: string): string
  {
    "/api/session/" + sessionId
  }

  function ScreenshotCall(sessionId: string): Call
  {
    Call(Get, SessionPath(sessionId) + "/screenshot", NoJson)
  }

  function SourceCall(sessionId: string): Call
  {
    Call(Get, SessionPath(sessionId) + "/source", NoJson)
  }

  class Panel {
    /** The global `sessionId`. */
    var sessionId: Option<string>
    /** The global `currentElementId`. */
    var currentElementId: Option<string>

    constructor ()
      ensures sessionId == None && currentElementId == None
    {
      sessionId := None;
      currentElementId := None;
    }

    /** `refreshScreenshot`: one GET when a session is set, none otherwise. */
    method RefreshScreenshot() returns (calls: seq<Call>)
      ensures !Truthy(sessionId) ==> calls == []
      ensures Truthy(sessionId) ==> calls == [ScreenshotCall(sessionId.value)]
    {
      if !Truthy(sessionId) {
        return [];
      }
      calls := [ScreenshotCall(sessionId.value)];
    }

    /** `refreshSource`: one GET when a session is set, none otherwise. */
    method RefreshSource() returns (calls: seq<Call>)
      ensures !Truthy(sessionId) ==> calls == []
      ensures Truthy(sessionId) ==> calls == [SourceCall(sessionId.value)]
    {
      if !Truthy(sessionId) {
        return [];
      }
      calls := [SourceCall(sessionId.value)];
    }

    /**
     * `startSession`: a blank path (after trimming) issues nothing; otherwise
     * the POST, and on success the new handle replaces the old one and both
     * views are refreshed, which issues nothing when the answer held no handle.
     */
    method StartSession(appPathInput: string, answer: Answer) returns (calls: seq<Call>)
      modifies this
      ensures currentElementId == old(currentElementId)
      ensures Trim(appPathInput) == "" ==> calls == [] && sessionId == old(sessionId)
      ensures Trim(appPathInput) != "" && !Succeeded(answer) ==>
                calls == [Call(Post, "/api/session", AppPathJson(Trim(appPathInput)))] && sessionId == old(sessionId)
      ensures Trim(appPathInput) != "" && Succeeded(answer) ==>
                sessionId == answer.sessionId
                && calls == [Call(Post, "/api/session", AppPathJson(Trim(appPathInput)))]
                            + (if Truthy(answer.sessionId)
                               then [ScreenshotCall(answer.sessionId.value), SourceCall(answer.sessionId.value)]
                               else [])
    {
      var appPath := Trim(appPathInput);
      if appPath == "" {
        return [];
      }
      calls := [Call(Post, "/api/session", AppPathJson(appPath))];
      if Succeeded(answer) {
        sessionId := answer.sessionId;
        var shot := RefreshScreenshot();
        var source := RefreshSource();
        calls := calls + shot + source;
      }
    }

    /** `stopSession`: nothing without a session; on success both globals are cleared. */
    method StopSession(answer: Answer) returns (calls: seq<Call>)
      modifies this
      ensures !Truthy(old(sessionId)) ==> calls == [] && sessionId == old(sessionId) && currentElementId == old(currentElementId)
      ensures Truthy(old(sessionId)) ==> calls == [Call(Delete, SessionPath(old(sessionId).value), NoJson)]
      ensures Truthy(old(sessionId)) && Succeeded(answer) ==> sessionId == None && currentElementId == None
      ensures Truthy(old(sessionId)) && !Succeeded(answer) ==>
                sessionId == old(sessionId) && currentElementId == old(currentElementId)
    {
      if !Truthy(sessionId) {
        return [];
      }
      calls := [Call(Delete, SessionPath(sessionId.value), NoJson)];
      if Succeeded(answer) {
        sessionId := None;
        currentElementId := None;
      }
    }

    /**
     * `findElement`: nothing without a session or with a blank locator (after
     * trimming); on success the answer's element id becomes current.
     */
    method FindElement(strategy: string, locatorInput: string, answer: Answer) returns (calls: seq<Call>)
      modifies this`currentElementId
      ensures !Truthy(sessionId) || Trim(locatorInput) == "" ==> calls == [] && currentElementId == old(currentElementId)
      ensures Truthy(sessionId) && Trim(locatorInput) != "" ==>
                calls == [Call(Post, SessionPath(sessionId.value) + "/element", LocatorJson(strategy, Trim(locatorInput)))]
                && currentElementId == (if Succeeded(answer) then answer.elementId else old(currentElementId))
    {
      if !Truthy(sessionId) {
        return [];
      }
      var locator := Trim(locatorInput);
      if locator == "" {
        return [];
      }
      calls := [Call(Post, SessionPath(sessionId.value) + "/element", LocatorJson(strategy, locator))];
      if Succeeded(answer) {
        currentElementId := answer.elementId;
      }
    }

    /** `clickElement`: nothing unless both a session and an element are set; on success the screenshot is refreshed. */
    method ClickElement(answer: Answer) returns (calls: seq<Call>)
      ensures !(Truthy(sessionId) && Truthy(currentElementId)) ==> calls == []
      ensures Truthy(sessionId) && Truthy(currentElementId) ==>
                var click := Call(Post, SessionPath(sessionId.value) + "/element/" + currentElementId.value + "/click", NoJson);
                calls == [click] + (if Succeeded(answer) then [ScreenshotCall(sessionId.value)] else [])
    {
      if !Truthy(sessionId) || !Truthy(currentElementId) {
        return [];
      }
      calls := [Call(Post, SessionPath(sessionId.value) + "/element/" + currentElementId.value + "/click", NoJson)];
      if Succeeded(answer) {
        var shot := RefreshScreenshot();
        calls := calls + shot;
      }
    }

    /**
     * `sendText`: nothing unless both a session and an element are set; the
     * text is sent as typed, the empty text included; on success the
     * screenshot is refreshed.
     */
    method SendText(text: string, answer: Answer) returns (calls: seq<Call>)
      ensures !(Truthy(sessionId) && Truthy(currentElementId)) ==> calls == []
      ensures Truthy(sessionId) && Truthy(currentElementId) ==>
                var send := Call(Post, SessionPath(sessionId.value) + "/element/" + currentElementId.value + "/text", TextJson(text));
                calls == [send] + (if Succeeded(answer) then [ScreenshotCall(sessionId.value)] else [])
    {
      if !Truthy(sessionId) || !Truthy(currentElementId) {
        return [];
      }
      calls := [Call(Post, SessionPath(sessionId.value) + "/element/" + currentElementId.value + "/text", TextJson(text))];
      if Succeeded(answer) {
        var shot := RefreshScreenshot();
        calls := calls + shot;
      }
    }
  }

  /**
   * After a successful stop, no handler but start issues a call: the
   * globals are both cleared.
   */
  method StopThenAct(p: Panel, stopAnswer: Answer, answer: Answer, text: string, strategy: string, locator: string)
    returns (calls: seq<Call>)
    requires Truthy(p.sessionId)
    modifies p
    ensures Succeeded(stopAnswer) ==> calls == [Call(Delete, SessionPath(old(p.sessionId).value), NoJson)]
  {
    calls := p.StopSession(stopAnswer);
    var shot := p.RefreshScreenshot();
    var source := p.RefreshSource();
    var found := p.FindElement(strategy, locator, answer);
    var clicked := p.ClickElement(answer);
    var sent := p.SendText(text, answer);
    if Succeeded(stopAnswer) {
      assert shot == [] && source == [] && found == [] && clicked == [] && sent == [];
    }
    calls := calls + shot + source + found + clicked + sent;
  }
}
