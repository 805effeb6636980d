/** The main process's guard on inter-process messages: every `handle` and
    `on` listener first checks that the message comes from the
    application's own page, and only then runs its handler. */
module ElectronUtil {
  import opened Wrappers

  /** `process.env`. */
  type Env = map<string, string>

  /** `process.env.NODE_ENV === "development"`: an unset variable is
      `undefined`, which is not the string. */
  function IsDev(env: Env): (dev: bool)
    ensures dev ==> "NODE_ENV" in env
    ensures "NODE_ENV" in env ==> (dev <==> env["NODE_ENV"] == "development")
  {
    var nodeEnv := if "NODE_ENV" in env then Some(env["NODE_ENV"]) else None;
    nodeEnv == Some("development")
  }

  /** The comparison is exact: other spellings are not development mode. */
  lemma IsDevExamples()
    ensures IsDev(map["NODE_ENV" := "development"])
    ensures !IsDev(map["NODE_ENV" := "Development"])
    ensures !IsDev(map["NODE_ENV" := "production"])
    ensures !IsDev(map[])
  {
  }

  /** The sending frame of a message; its `url` is the page it shows. */
  datatype Frame = Frame(url: string)

  /** The errors the guard throws. `InvalidUrl` is the `TypeError` of the
      `URL` constructor on a string it cannot parse. */
  datatype FrameError = MissingSenderFrame | InvalidUrl | MaliciousEvent

  function Message(e: FrameError): string {
    match e
    case MissingSenderFrame => "Missing sender frame"
    case InvalidUrl => "Invalid URL"
    case MaliciousEvent => "Malicious event"
  }

  /** Each error is thrown with its own message. */
  lemma MessagesDistinguishErrors(e1: FrameError, e2: FrameError)
    ensures Message(e1) == Message(e2) ==> e1 == e2
  {
  }

  /** The host (name and port) of the development server. */
  const DevServerHost := "localhost:5123"

  /** The frames the guard lets through: in development mode a page on the
      development server, whatever its path; otherwise (and also in
      development mode) exactly the packaged page, provided in development
      mode its URL parses. */
  ghost predicate Trusted(frame: Option<Frame>, dev: bool, hostOf: string -> Option<string>, uiUrl: string) {
    && frame.Some?
    && ((dev && hostOf(frame.value.url) == Some(DevServerHost))
        || (frame.value.url == uiUrl && (!dev || hostOf(frame.value.url).Some?)))
  }

  /** `validateEventFrame`. `dev` is `isDev()`; `hostOf(url)` stands for
      `new URL(url).host`, `None` when the constructor throws; `uiUrl` is
      `pathToFileURL(getUIPath()).toString()`. The URL is parsed only in
      development mode. */
  function ValidateEventFrame(frame: Option<Frame>, dev: bool, hostOf: string -> Option<string>, uiUrl: string)
    : (r: Result<(), FrameError>)
    ensures r.Ok? <==> Trusted(frame, dev, hostOf, uiUrl)
    ensures frame.None? ==> r == Err(MissingSenderFrame)
    ensures frame.Some? && dev && hostOf(frame.value.url) == Some(DevServerHost) ==> r.Ok?
    ensures frame.Some? && !dev ==>
      r == if frame.value.url == uiUrl then Ok(()) else Err(MaliciousEvent)
    ensures frame.Some? && dev && hostOf(frame.value.url).None? ==> r == Err(InvalidUrl)
    ensures frame.Some? && dev && hostOf(frame.value.url).Some? && hostOf(frame.value.url) != Some(DevServerHost) ==>
      r == if frame.value.url == uiUrl then Ok(()) else Err(MaliciousEvent)
  {
    if frame.None? then Err(MissingSenderFrame)
    else if dev && hostOf(frame.value.url).None? then Err(InvalidUrl)
    else if dev && hostOf(frame.value.url) == Some(DevServerHost) then Ok(())
    else if frame.value.url != uiUrl then Err(MaliciousEvent)
    else Ok(())
  }

  /** Outside development mode the URL is never parsed: the outcome does
      not depend on the URL parser. */
  lemma ProductionIgnoresUrlParser(frame: Option<Frame>, h1: string -> Option<string>, h2: string -> Option<string>, uiUrl: string)
    ensures ValidateEventFrame(frame, false, h1, uiUrl) == ValidateEventFrame(frame, false, h2, uiUrl)
  {
  }

  /** The listener that `ipcMainHandle` and `ipcMainOn` register: validate
      the sender, then call the handler with what the message carries (the
      argument list for `handle`, the payload for `on`). */
  function GuardedCall<A, R>(frame: Option<Frame>, dev: bool, hostOf: string -> Option<string>, uiUrl: string,
                             input: A, handler: A -> R): (r: Result<R, FrameError>)
    ensures r.Ok? <==> ValidateEventFrame(frame, dev, hostOf, uiUrl).Ok?
    ensures r.Ok? ==> r.value == handler(input)
    ensures r.Err? ==> r.error == ValidateEventFrame(frame, dev, hostOf, uiUrl).error
  {
    match ValidateEventFrame(frame, dev, hostOf, uiUrl)
    case Err(e) => Err(e)
    case Ok(_) => Ok(handler(input))
  }

  /** A rejected message never reaches its handler: the outcome is the same
      whatever the handler would do. */
  lemma RejectedMessageSkipsHandler<A, R>(frame: Option<Frame>, dev: bool, hostOf: string -> Option<string>, uiUrl: string,
                                          input: A, h1: A -> R, h2: A -> R)
    requires ValidateEventFrame(frame, dev, hostOf, uiUrl).Err?
    ensures GuardedCall(frame, dev, hostOf, uiUrl, input, h1) == GuardedCall(frame, dev, hostOf, uiUrl, input, h2)
  {
  }
}
