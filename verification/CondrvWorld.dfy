/**
 Who holds a console (drivers/condrv.c:265-415, 717-954, 1082-1120): opens, process bindings, the two reference
 counters, and the client frames in flight, over any number of consoles, files and processes. One step is one stretch
 of driver code that runs without giving up the processor; CondrvForward is cut at its wait.
 */
module CondrvWorld {
  import opened NtKernel
  import opened CondrvBroker

  datatype Kind = ServerOpen | ConsoleOpen | ConnectionOpen | InputOpen | OutputOpen

  datatype Name = NameServer | NameReference | NameConnection | NameInput | NameOutput | NameScreenBuffer | NameOther

  /** A CONDRV_OPEN; `cleaned` once Cleanup has begun. */
  datatype Open = Open(kind: Kind, outputId: nat, console: Option<nat>, cleaned: bool)

  /** A client blocked in CondrvForward, by what keeps its console in place, and what it does when it wakes. */
  datatype Frame =
    | VerbThrough(file: nat)
    | VerbBound(process: nat)
    | MintingScreen(process: nat, file: nat, outputId: nat)
    | ClosingScreen(file: nat)

  /** `faulted` records a failed ASSERT. */
  datatype World = World(
    consoles: map<nat, Console>,
    opens: map<nat, Open>,
    bound: map<nat, nat>,
    frames: map<(nat, nat), Frame>,
    nextConsole: nat,
    faulted: bool)

  const EMPTY_WORLD := World(map[], map[], map[], map[], 0, false)

  // ---------------------------------------------------------------- the counters

  function PutConsole(w: World, c: nat, console: Console): World { w.(consoles := w.consoles[c := console]) }

  /** CondrvReferenceConsole and the client count that goes with it. */
  function AddClient(w: World, c: nat): World
    requires c in w.consoles
  {
    var console := w.consoles[c];
    PutConsole(w, c, console.(refCount := console.refCount + 1, clientCount := console.clientCount + 1))
  }

  /** CondrvReleaseConsole: the last reference frees the console, which must then be idle. */
  function Release(w: World, c: nat): World
    requires c in w.consoles
  {
    var console := w.consoles[c].(refCount := w.consoles[c].refCount - 1);
    if console.refCount != 0 then PutConsole(w, c, console).(faulted := w.faulted || console.refCount < 0)
    else
      var idle := && console.clientCount == 0 && console.current.None?
                  && console.requestQueue == [] && console.readQueue == [];
      w.(consoles := w.consoles - {c}, faulted := w.faulted || !idle)
  }

  /** CondrvClientGone: the last client wakes the server. */
  function ClientGone(w: World, c: nat): World
    requires c in w.consoles
  {
    var console := w.consoles[c].(clientCount := w.consoles[c].clientCount - 1);
    var told := if console.clientCount == 0 then Signal(console, true) else console;
    Release(PutConsole(w, c, told).(faulted := w.faulted || console.clientCount < 0), c)
  }

  function Bind(w: World, process: nat, c: nat): World
    requires c in w.consoles
  {
    AddClient(w, c).(bound := w.bound[process := c], faulted := w.faulted || process in w.bound)
  }

  function Unbind(w: World, process: nat): World
    requires process in w.bound ==> w.bound[process] in w.consoles
  {
    if process !in w.bound then w
    else ClientGone(w.(bound := w.bound - {process}), w.bound[process])
  }

  // ---------------------------------------------------------------- opens

  function MintServer(w: World, file: nat, process: nat): World {
    var c := w.nextConsole;
    var minted := Console(1, 0, false, Some(file), Some(process), false, [], [], None, 0, 1, [], [], {});
    w.(consoles := w.consoles[c := minted],
       opens := w.opens[file := Open(ServerOpen, 0, Some(c), false)], nextConsole := c + 1)
  }

  /** A counted client open; when its record cannot be allocated the count is given back. */
  function Grant(w: World, file: nat, kind: Kind, outputId: nat, c: nat, poolOk: bool): (World, Status)
    requires c in w.consoles
  {
    if poolOk then
      (AddClient(w, c).(opens := w.opens[file := Open(kind, outputId, Some(c), false)]), STATUS_SUCCESS)
    else
      (ClientGone(AddClient(w, c), c), STATUS_INSUFFICIENT_RESOURCES)
  }

  /** An open that counts nothing: Connection, Input and plain Output. */
  function GrantPlain(w: World, file: nat, kind: Kind, outputId: nat, poolOk: bool): (World, Status) {
    if poolOk then (w.(opens := w.opens[file := Open(kind, outputId, None, false)]), STATUS_SUCCESS)
    else (w, STATUS_INSUFFICIENT_RESOURCES)
  }

  function Root(w: World, root: Option<nat>): Option<Open> {
    if root.Some? && root.value in w.opens then Some(w.opens[root.value]) else None
  }

  /** Every arm of CondrvConsoleCreate that does not wait. `mintOk` and `poolOk` are the two allocations. */
  function Create(w: World, file: nat, name: Name, root: Option<nat>, process: nat, mintOk: bool, poolOk: bool)
    : (World, Status)
    requires Linked(w)
    requires Root(w, root).Some? ==> !Root(w, root).value.cleaned
  {
    var open := Root(w, root);
    if open.None? && name.NameServer? then
      if !mintOk || !poolOk then (w, STATUS_INSUFFICIENT_RESOURCES)
      else (MintServer(w, file, process), STATUS_SUCCESS)
    else if open.Some? && open.value.kind.ServerOpen? && name.NameReference? then
      var c := open.value.console.value;
      if w.consoles[c].referenceMinted then (w, STATUS_INVALID_HANDLE)
      else Grant(PutConsole(w, c, w.consoles[c].(referenceMinted := true)), file, ConsoleOpen, 0, c, poolOk)
    else if open.Some? && open.value.kind.ConnectionOpen? && name.NameReference? then
      if process !in w.bound then (w, STATUS_INVALID_HANDLE)
      else Grant(w, file, ConsoleOpen, 0, w.bound[process], poolOk)
    else if (open.None? || open.value.kind.ConsoleOpen?) && name.NameConnection? then
      if process in w.bound then (w, STATUS_ACCESS_DENIED)
      else if poolOk && open.Some? then
        (GrantPlain(Bind(w, process, open.value.console.value), file, ConnectionOpen, 0, true).0, STATUS_SUCCESS)
      else GrantPlain(w, file, ConnectionOpen, 0, poolOk)
    else if open.None? && name.NameInput? then
      if process !in w.bound then (w, STATUS_INVALID_HANDLE)
      else GrantPlain(w, file, InputOpen, 0, poolOk)
    else if open.None? && name.NameOutput? then
      if process !in w.bound then (w, STATUS_INVALID_HANDLE)
      else GrantPlain(w, file, OutputOpen, 1, poolOk)
    else (w, STATUS_OBJECT_NAME_NOT_FOUND)
  }

  // ---------------------------------------------------------------- client frames

  /** What a woken client does with the status its verb came back with. */
  function Continue(w: World, c: nat, frame: Frame, status: Status, poolOk: bool): World
    requires c in w.consoles
    requires frame.ClosingScreen? ==> frame.file in w.opens
  {
    match frame
    case MintingScreen(_, file, outputId) =>
      if NtSuccess(status) then Grant(w, file, OutputOpen, outputId, c, poolOk).0 else w
    case ClosingScreen(file) =>
      ClientGone(w.(opens := w.opens[file := w.opens[file].(console := None)]), c)
    case _ => w
  }

  /** CondrvForward up to its wait; a refused verb goes straight on. */
  function Dispatch(w: World, c: nat, frame: Frame, verb: Verb, poolOk: bool): World
    requires c in w.consoles
    requires frame.ClosingScreen? ==> frame.file in w.opens
  {
    var (console, admission) := Enqueue(w.consoles[c], verb.code, verb.output, verb.input, verb.capacity);
    match admission
    case Refused(status) => Continue(w, c, frame, status, poolOk)
    case Queued(id) => PutConsole(w, c, console).(frames := w.frames[(c, id) := frame])
  }

  function StatusOf(completed: seq<Completion>, id: nat): Status {
    if completed == [] then STATUS_INVALID_DEVICE_STATE
    else if completed[|completed| - 1].id == id then completed[|completed| - 1].status
    else StatusOf(completed[..|completed| - 1], id)
  }

  /** The wait ends: `aborted` carries the wait status of a thread being terminated. */
  function Wake(w: World, c: nat, id: nat, aborted: Option<Status>, poolOk: bool): World
    requires (c, id) in w.frames && c in w.consoles
    requires w.frames[(c, id)].ClosingScreen? ==> w.frames[(c, id)].file in w.opens
  {
    var frame := w.frames[(c, id)];
    var status := if aborted.Some? then aborted.value else StatusOf(w.consoles[c].completed, id);
    var console := if aborted.Some? then Abort(w.consoles[c], id) else w.consoles[c];
    Continue(PutConsole(w, c, console).(frames := w.frames - {(c, id)}), c, frame, status, poolOk)
  }

  // ---------------------------------------------------------------- steps

  datatype Step =
    | CreateStep(file: nat, name: Name, root: Option<nat>, process: nat, mintOk: bool, poolOk: bool)
    | ScreenStep(file: nat, process: nat, poolOk: bool)
    | VerbStep(file: nat, process: nat, verb: Verb)
    | WakeStep(console: nat, id: nat, aborted: Option<Status>, poolOk: bool)
    | CleanupStep(file: nat, process: nat)
    | CloseStep(file: nat)
    | BindPidStep(process: nat, target: nat)
    | ProcessDeleteStep(process: nat)
    | FetchStep(file: nat, process: nat, length: nat)
    | ReplyStep(file: nat, length: nat, reply: Reply, payload: seq<byte>)

  /** The console a client verb goes to, and what pins it there. */
  function Route(w: World, file: nat, process: nat): Option<(nat, Frame)>
    requires file in w.opens
  {
    var open := w.opens[file];
    if open.kind.ConsoleOpen? || open.kind.OutputOpen? then
      if open.console.Some? then Some((open.console.value, VerbThrough(file)))
      else if open.kind.OutputOpen? && process in w.bound then Some((w.bound[process], VerbBound(process)))
      else None
    else if open.kind.InputOpen? && process in w.bound then Some((w.bound[process], VerbBound(process)))
    else None
  }

  ghost predicate FileIdle(w: World, file: nat) {
    forall k :: k in w.frames ==> w.frames[k] != VerbThrough(file) && w.frames[k] != ClosingScreen(file)
  }

  ghost predicate ProcessIdle(w: World, process: nat) {
    forall k :: k in w.frames ==>
      w.frames[k] != VerbBound(process) && !(w.frames[k].MintingScreen? && w.frames[k].process == process)
  }

  ghost predicate FileUnused(w: World, file: nat) {
    file !in w.opens && forall k :: k in w.frames && w.frames[k].MintingScreen? ==> w.frames[k].file != file
  }

  /** What the Io and process layers guarantee: new files are new, I/O reaches only files not yet cleaned up, Close
      follows Cleanup, a wait ends by completion or abort, and (drivers/condrv.c:273-275) an open or a binding stays
      while a client frame relies on it. */
  ghost predicate Enabled(w: World, s: Step) {
    match s
    case CreateStep(file, _, root, _, _, _) =>
      FileUnused(w, file) && (Root(w, root).Some? ==> !Root(w, root).value.cleaned)
    case ScreenStep(file, _, _) => FileUnused(w, file)
    case VerbStep(file, _, _) => file in w.opens && !w.opens[file].cleaned
    case WakeStep(c, id, aborted, _) =>
      (c, id) in w.frames && c in w.consoles && (aborted.None? ==> IsDone(w.consoles[c], id))
    case CleanupStep(file, process) =>
      && file in w.opens && !w.opens[file].cleaned && FileIdle(w, file)
      && (w.opens[file].kind.ConnectionOpen? ==> ProcessIdle(w, process))
    case CloseStep(file) =>
      file in w.opens && w.opens[file].cleaned && (w.opens[file].kind.ServerOpen? || w.opens[file].console.None?)
    case BindPidStep(_, _) => true
    case ProcessDeleteStep(process) => ProcessIdle(w, process)
    case FetchStep(file, _, _) => file in w.opens && w.opens[file].kind.ServerOpen? && !w.opens[file].cleaned
    case ReplyStep(file, length, reply, payload) =>
      && file in w.opens && w.opens[file].kind.ServerOpen? && !w.opens[file].cleaned
      && (length >= REPLY_SIZE ==> |payload| == length - REPLY_SIZE)
  }

  function Cleanup(w: World, file: nat, process: nat): World
    requires Linked(w) && file in w.opens && !w.opens[file].cleaned
  {
    var open := w.opens[file];
    var cleaned := w.(opens := w.opens[file := open.(cleaned := true)]);
    match open.kind
    case ServerOpen =>
      var c := open.console.value;
      if w.consoles[c].serverFile == Some(file) then PutConsole(cleaned, c, ServerGone(w.consoles[c])) else cleaned
    case ConsoleOpen =>
      ClientGone(w.(opens := w.opens[file := open.(cleaned := true, console := None)]), open.console.value)
    case ConnectionOpen => Unbind(cleaned, process)
    case OutputOpen =>
      if open.outputId > 1 then
        Dispatch(cleaned, open.console.value, ClosingScreen(file),
          Verb(IOCTL_CONDRV_CLOSE_OUTPUT, open.outputId, [], 0), true)
      else cleaned
    case InputOpen => cleaned
  }

  function Close(w: World, file: nat): World
    requires Linked(w) && file in w.opens
  {
    var gone := w.(opens := w.opens - {file});
    if w.opens[file].console.Some? then Release(gone, w.opens[file].console.value) else gone
  }

  function BindPid(w: World, process: nat, target: nat): (World, Status)
    requires Linked(w)
  {
    if process in w.bound then (w, STATUS_INVALID_HANDLE)
    else if target !in w.bound then (w, STATUS_ACCESS_DENIED)
    else (Bind(w, process, w.bound[target]), STATUS_SUCCESS)
  }

  /** CondrvConsoleCreate's ScreenBuffer arm up to the wait for INIT_OUTPUT, for a caller bound to `c`. */
  function Screen(w: World, file: nat, process: nat, c: nat, poolOk: bool): World
    requires c in w.consoles
  {
    var d := w.consoles[c].(nextOutputId := w.consoles[c].nextOutputId + 1);
    Dispatch(PutConsole(w, c, d), c, MintingScreen(process, file, d.nextOutputId),
             Verb(IOCTL_CONDRV_INIT_OUTPUT, d.nextOutputId, [], 0), poolOk)
  }

  function Next(w: World, s: Step): World
    requires Linked(w) && Framed(w) && Enabled(w, s)
  {
    match s
    case CreateStep(file, name, root, process, mintOk, poolOk) => Create(w, file, name, root, process, mintOk, poolOk).0
    case ScreenStep(file, process, poolOk) =>
      if process in w.bound then Screen(w, file, process, w.bound[process], poolOk) else w
    case VerbStep(file, process, verb) =>
      var route := Route(w, file, process);
      if route.None? then w else Dispatch(w, route.value.0, route.value.1, verb, true)
    case WakeStep(c, id, aborted, poolOk) => Wake(w, c, id, aborted, poolOk)
    case CleanupStep(file, process) => Cleanup(w, file, process)
    case CloseStep(file) => Close(w, file)
    case BindPidStep(process, target) => BindPid(w, process, target).0
    case ProcessDeleteStep(process) => Unbind(w, process)
    case FetchStep(file, process, length) =>
      var c := w.opens[file].console.value;
      PutConsole(w, c, ServerRead(w.consoles[c], process, length).0)
    case ReplyStep(file, length, reply, payload) =>
      var c := w.opens[file].console.value;
      PutConsole(w, c, ServerWrite(w.consoles[c], length, reply, payload).0)
  }

  // ---------------------------------------------------------------- what every step keeps

  predicate OpenShape(o: Open) {
    && (o.kind.ServerOpen? ==> o.console.Some?)
    && (o.kind.ConsoleOpen? ==> o.console.Some? || o.cleaned)
    && (o.kind.ConnectionOpen? || o.kind.InputOpen? ==> o.console.None?)
    && (o.kind.OutputOpen? && o.outputId <= 1 ==> o.console.None?)
    && (o.kind.OutputOpen? && o.outputId > 1 ==> o.console.Some? || o.cleaned)
  }

  /** Nothing points at a freed console. */
  ghost predicate OpensLinked(consoles: map<nat, Console>, opens: map<nat, Open>) {
    forall f :: f in opens ==> OpenShape(opens[f]) && (opens[f].console.Some? ==> opens[f].console.value in consoles)
  }

  ghost predicate BoundLinked(consoles: map<nat, Console>, bound: map<nat, nat>) {
    forall p :: p in bound ==> bound[p] in consoles
  }

  ghost predicate Linked(w: World) {
    && OpensLinked(w.consoles, w.opens)
    && BoundLinked(w.consoles, w.bound)
    && (forall c :: c in w.consoles ==> c < w.nextConsole)
  }

  /** The open or binding a frame relies on holds console `c`. */
  ghost predicate Pinned(opens: map<nat, Open>, bound: map<nat, nat>, frame: Frame, c: nat) {
    match frame
    case VerbThrough(file) =>
      file in opens && opens[file].console == Some(c) && !opens[file].kind.ServerOpen? && !opens[file].cleaned
    case VerbBound(process) => process in bound && bound[process] == c
    case MintingScreen(process, file, outputId) =>
      process in bound && bound[process] == c && outputId > 1 && file !in opens
    case ClosingScreen(file) =>
      file in opens && opens[file].console == Some(c) && opens[file].cleaned && opens[file].kind.OutputOpen?
  }

  ghost predicate AllPinned(opens: map<nat, Open>, bound: map<nat, nat>, frames: map<(nat, nat), Frame>) {
    && (forall k :: k in frames ==> Pinned(opens, bound, frames[k], k.0))
    && (forall j, k :: j in frames && k in frames && j != k ==> Apart(frames[j], frames[k]))
  }

  /** No file is being created twice or closed twice. */
  predicate Apart(a: Frame, b: Frame) {
    && (a.MintingScreen? && b.MintingScreen? ==> a.file != b.file)
    && (a.ClosingScreen? && b.ClosingScreen? ==> a.file != b.file)
  }

  /** Every frame waits on a request that is not withdrawn, and every unfinished request has its frame. */
  ghost predicate AllFramed(consoles: map<nat, Console>, frames: map<(nat, nat), Frame>) {
    && (forall k :: k in frames ==> k.0 in consoles && Waiting(consoles[k.0], k.1))
    && (forall c, id: nat :: c in consoles && Places(consoles[c], id) != 0 ==> (c, id) in frames)
  }

  ghost predicate Framed(w: World) { AllFramed(w.consoles, w.frames) && AllPinned(w.opens, w.bound, w.frames) }

  ghost function ClientOpens(opens: map<nat, Open>, c: nat): set<nat> {
    set f | f in opens && opens[f].console == Some(c) && !opens[f].kind.ServerOpen?
  }

  ghost function ServerOpens(opens: map<nat, Open>, c: nat): set<nat> {
    set f | f in opens && opens[f].console == Some(c) && opens[f].kind.ServerOpen?
  }

  ghost function BoundTo(bound: map<nat, nat>, c: nat): set<nat> { set p | p in bound && bound[p] == c }

  /** The reference audit of one console. */
  ghost predicate Audited(console: Console, opens: map<nat, Open>, bound: map<nat, nat>, c: nat) {
    && console.clientCount == |ClientOpens(opens, c)| + |BoundTo(bound, c)|
    && console.refCount == console.clientCount + |ServerOpens(opens, c)|
    && console.refCount > 0
    && |ServerOpens(opens, c)| <= 1
    && (console.referenceMinted || console.clientCount == 0)
    && console.nextOutputId >= 1
  }

  ghost predicate AllAudited(consoles: map<nat, Console>, opens: map<nat, Open>, bound: map<nat, nat>) {
    forall c :: c in consoles ==> Audited(consoles[c], opens, bound, c)
  }

  /** A console has a server file exactly while its Server open is not cleaned up. */
  ghost predicate Served(console: Console, opens: map<nat, Open>, c: nat) {
    && (console.serverFile.Some? ==>
          console.serverFile.value in ServerOpens(opens, c) && !opens[console.serverFile.value].cleaned)
    && forall f :: f in ServerOpens(opens, c) && !opens[f].cleaned ==> console.serverFile == Some(f)
  }

  ghost predicate AllServed(consoles: map<nat, Console>, opens: map<nat, Open>) {
    forall c :: c in consoles ==> Served(consoles[c], opens, c)
  }

  ghost predicate AllValid(consoles: map<nat, Console>) {
    forall c :: c in consoles ==> Valid(consoles[c])
  }

  ghost predicate Sound(w: World) {
    && Linked(w) && Framed(w) && !w.faulted
    && AllValid(w.consoles) && AllAudited(w.consoles, w.opens, w.bound) && AllServed(w.consoles, w.opens)
  }
}
