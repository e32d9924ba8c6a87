/** The values the store, the cycles and the window exchange. */
module Domain {
  datatype Option<+T> = None | Some(value: T) {
    function GetOr(default: T): T {
      match this
      case Some(v) => v
      case None => default
    }
  }

  /** A flag of a message the user can change. */
  datatype Flag = Seen | Flagged

  /** Both flags of a message as a server reported them. */
  datatype Flags = Flags(seen: bool, flagged: bool) {
    function Of(flag: Flag): bool {
      if flag.Seen? then seen else flagged
    }

    function With(flag: Flag, value: bool): Flags {
      if flag.Seen? then this.(seen := value) else this.(flagged := value)
    }
  }

  /** The values the user wants and the server may not have yet. */
  datatype Pending = Pending(seen: Option<bool>, flagged: Option<bool>) {
    function Of(flag: Flag): Option<bool> {
      if flag.Seen? then seen else flagged
    }

    function With(flag: Flag, wish: Option<bool>): Pending {
      if flag.Seen? then this.(seen := wish) else this.(flagged := wish)
    }
  }

  datatype PendingChange = PendingChange(identity: string, flag: Flag, wanted: bool)

  /** The text of a message, or why the reader shows none. */
  datatype Content =
    | Text(text: string)
    | Explained(explanation: string)
    | StructureUnreadable
    | TextNotReturned
    | NotDownloaded

  datatype Fields = Fields(subject: Option<string>, from: Option<string>, to: Option<string>)

  datatype Message = Message(
    identity: string,
    fields: Fields,
    received: Option<int>,
    flags: Flags,
    content: Content,
    preview: string)

  /** The numbers an IMAP folder's opening returns. */
  datatype FolderNumbers = FolderNumbers(
    uidValidity: Option<nat>,
    messageCount: nat,
    uidNext: Option<nat>,
    highestModseq: Option<nat>)

  /** What a folder remembers between cycles: on Microsoft 365 the link
      the next round starts from and the one an unfinished first fill goes on
      from, on IMAP the numbers of the latest state pass. */
  datatype FolderState = FolderState(
    serverPosition: Option<string>,
    fillPlace: Option<string>,
    synchronized: bool,
    numbers: Option<FolderNumbers>)

  /** One whole part of a cycle's result. The order of the removals means
      nothing; the other parts are written in order. */
  datatype Batch = Batch(
    removed: set<string>,
    flagStates: seq<(string, Flags)>,
    knownArrived: seq<(string, Flags)>,
    arrived: seq<Message>,
    state: Option<FolderState>)

  const NO_PENDING := Pending(None, None)

  const DEFAULT_STATE := FolderState(None, None, false, None)

  const EMPTY_BATCH := Batch({}, [], [], [], None)
}
