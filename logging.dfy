/** The run's log, as a sequence of abstract events. */
module Logging {
  import opened Paths

  datatype Event =
    | Started                  // "Start sorting and copying files"
    | InputFolder(dir: Path)   // "Input folder: ..."
    | OutputFolder(dir: Path)  // "Output folder: ..."
    | AlreadyExists(file: Path) // warning: a file was not copied because its target exists
    | NotAFolder               // error: one of the two roots is not a directory
    | Finished                 // "Process finished"

  class Log {
    var events: seq<Event>

    constructor ()
      ensures events == []
    {
      events := [];
    }

    method Record(e: Event)
      modifies this
      ensures events == old(events) + [e]
    {
      events := events + [e];
    }
  }
}
