/** The message types of the Tauri back end: the events the orchestrator waits
    for and the commands it sends to the audio worker thread. The reply channels
    of `StopAndSave` and `GetLevel` are modelled as the worker's reply value. */
module Commands {
  import opened Wrappers

  datatype AppEvent = ToggleRecording

  datatype AudioCommand =
    | Start(device: Option<string>)
    | StopAndSave(path: string)
    | GetLevel
}
