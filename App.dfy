/** The application shell's state: the current batch, where it came from,
    and the error message on display. The input panel's two callbacks and
    the error alert's close button are its only transitions. */
module App {
  import opened Wrappers
  import opened JsString
  import opened JsValue
  import opened InputSection

  /** `processedData`, `dataSource` and `error`. */
  datatype State = State(processedData: seq<Obj>, dataSource: Option<Source>, error: string)

  /** The state at start-up: no data, no source, no error. */
  const Initial := State([], None, "")

  /** What can happen to the state: a callback from the input panel, or
      the error alert being closed. */
  datatype Event = Notify(notice: Notice) | CloseAlert

  /** `handleDataProcessed`, `handleError` and `clearError`. Each changes
      only what it names: a batch replaces data and source and hides the
      alert; an error sets only the message; closing the alert only hides
      it. */
  function Step(s: State, e: Event): (r: State)
    ensures e.Notify? && e.notice.DataProcessed? ==>
      r.processedData == e.notice.data && r.dataSource == Some(e.notice.source) && !ShowsErrorAlert(r)
    ensures !(e.Notify? && e.notice.DataProcessed?) ==>
      r.processedData == s.processedData && r.dataSource == s.dataSource
    ensures e.Notify? && e.notice.ErrorRaised? ==> r.error == e.notice.message
    ensures e.CloseAlert? ==> !ShowsErrorAlert(r)
  {
    match e
    case Notify(DataProcessed(data, source)) => State(data, Some(source), "")
    case Notify(ErrorRaised(message)) => s.(error := message)
    case CloseAlert => s.(error := "")
  }

  /** The state after a sequence of events, applied in order. */
  function Run(s: State, events: seq<Event>): State {
    if events == [] then s else Step(Run(s, events[..|events| - 1]), events[|events| - 1])
  }

  /** `{error && <ErrorAlert .../>}`: the alert is shown while the error
      string is truthy. */
  function ShowsErrorAlert(s: State): (shown: bool)
    ensures shown <==> s.error != ""
  {
    Truthy(Str(s.error))
  }

  /** The batch reported last, if any. */
  function LastBatch(events: seq<Event>): Option<(seq<Obj>, Source)> {
    if events == [] then None
    else
      var e := events[|events| - 1];
      if e.Notify? && e.notice.DataProcessed? then Some((e.notice.data, e.notice.source))
      else LastBatch(events[..|events| - 1])
  }

  /** Last write wins: the data and source on display are those of the last
      batch reported, or the earlier ones if no batch was reported; errors
      never touch them. */
  lemma {:induction false} LastBatchWins(s: State, events: seq<Event>)
    ensures Run(s, events).processedData ==
      if LastBatch(events).Some? then LastBatch(events).value.0 else s.processedData
    ensures Run(s, events).dataSource ==
      if LastBatch(events).Some? then Some(LastBatch(events).value.1) else s.dataSource
  {
    if events != [] {
      LastBatchWins(s, events[..|events| - 1]);
    }
  }

  /** Once a source is set it stays set, whatever happens next. */
  lemma SourceStaysSet(s: State, events: seq<Event>)
    requires s.dataSource.Some?
    ensures Run(s, events).dataSource.Some?
  {
    LastBatchWins(s, events);
  }

  /** From start-up, a source is set exactly when some batch has been
      reported; once set it is never `null` again. */
  lemma {:induction false} SourceSetOnceIngested(events: seq<Event>)
    ensures Run(Initial, events).dataSource.Some? <==>
      exists i :: 0 <= i < |events| && events[i].Notify? && events[i].notice.DataProcessed?
  {
    LastBatchWins(Initial, events);
    LastBatchFindsBatch(events);
  }

  lemma {:induction false} LastBatchFindsBatch(events: seq<Event>)
    ensures LastBatch(events).Some? <==>
      exists i :: 0 <= i < |events| && events[i].Notify? && events[i].notice.DataProcessed?
  {
    if events != [] {
      var init := events[..|events| - 1];
      LastBatchFindsBatch(init);
      assert forall i :: 0 <= i < |init| ==> init[i] == events[i];
    }
  }

  /** An error path leaves the batch on display intact: blank text, a
      refused file name and an undecodable file only set the message. */
  lemma RejectedInputKeepsBatch(s: State, text: string, name: string, bytes: seq<bv8>, decode: seq<bv8> -> Decoded)
    ensures TextNotice(text).ErrorRaised? ==>
      Step(s, Notify(TextNotice(text))) == s.(error := EmptyTextMessage)
    ensures FileNotice(name, bytes, decode).ErrorRaised? ==>
      && Step(s, Notify(FileNotice(name, bytes, decode))).processedData == s.processedData
      && Step(s, Notify(FileNotice(name, bytes, decode))).dataSource == s.dataSource
      && ShowsErrorAlert(Step(s, Notify(FileNotice(name, bytes, decode))))
  {
    var t := TextNotice(text);
    var f := FileNotice(name, bytes, decode);
    if f.ErrorRaised? {
      assert Step(s, Notify(f)) == s.(error := f.message);
      assert f.message != "";
    }
  }

  /** The component that owns the three pieces of state. */
  class AppState {
    var processedData: seq<Obj>
    var dataSource: Option<Source>
    var error: string

    function Model(): State
      reads this
    {
      State(processedData, dataSource, error)
    }

    constructor ()
      ensures Model() == Initial
    {
      processedData := [];
      dataSource := None;
      error := "";
    }

    /** `handleDataProcessed`: the batch and its source replace the old
        ones wholesale and the error is cleared. */
    method HandleDataProcessed(data: seq<Obj>, source: Source)
      modifies this
      ensures processedData == data && dataSource == Some(source) && error == ""
      ensures Model() == Step(old(Model()), Notify(DataProcessed(data, source)))
    {
      processedData := data;
      dataSource := Some(source);
      error := "";
    }

    /** `handleError`: only the message changes. */
    method HandleError(message: string)
      modifies this
      ensures error == message
      ensures processedData == old(processedData) && dataSource == old(dataSource)
      ensures Model() == Step(old(Model()), Notify(ErrorRaised(message)))
    {
      error := message;
    }

    /** `clearError`, the error alert's close button: only the message
        changes, to empty. */
    method ClearError()
      modifies this
      ensures error == ""
      ensures processedData == old(processedData) && dataSource == old(dataSource)
      ensures Model() == Step(old(Model()), CloseAlert)
    {
      error := "";
    }

    /** The input panel's callbacks as wired in the component tree. */
    method Dispatch(notice: Notice)
      modifies this
      ensures Model() == Step(old(Model()), Notify(notice))
    {
      match notice
      case DataProcessed(data, source) => HandleDataProcessed(data, source);
      case ErrorRaised(message) => HandleError(message);
    }
  }

  /** One session: paste text into the panel, then press the button. */
  method ProcessTextSession(app: AppState, panel: InputPanel, text: string)
    modifies app, panel
    ensures app.Model() == Step(old(app.Model()), Notify(TextNotice(text)))
    ensures AllWhitespace(text) ==> app.processedData == old(app.processedData) && app.error == EmptyTextMessage
    ensures !AllWhitespace(text) ==> app.dataSource == Some(Text) && |app.processedData| >= 1 && app.error == ""
    ensures panel.uploadedFile == old(panel.uploadedFile)
    ensures panel.isProcessing == if AllWhitespace(text) then old(panel.isProcessing) else false
    ensures panel.isDragActive == old(panel.isDragActive)
  {
    var notice := panel.HandleTextProcess(text);
    app.Dispatch(notice);
  }
}
