/** What hiding and showing share about Hyprland's socket: the reply alphabet, the
    dispatcher's decisions and the client list. */
module HyprlandIpc {

  const HIDDEN_WORKSPACE := "special:rusticdl"

  datatype DispatchReply = Ok | WrongSyntax | Failed

  /** One round trip: never written, written without a usable reply, or answered. */
  datatype IpcResult = NotSent | NoReply | Reply(reply: DispatchReply)

  datatype Dialect = DialectUnknown | DialectLua | DialectLegacy

  datatype MoveOutcome = OutNotSent | OutRefused | OutUnanswered | OutAccepted

  predicate MayHaveLanded(o: MoveOutcome) { o == OutAccepted || o == OutUnanswered }

  /** What a call's ending says about the command. */
  function OutcomeOf(r: IpcResult): MoveOutcome {
    match r
    case NotSent => OutNotSent
    case NoReply => OutUnanswered
    case Reply(reply) => if reply == Ok then OutAccepted else OutRefused
  }

  /** The outcome once Lua was refused and the legacy form ended with `second`, which may never have left. */
  function AfterRefusedLua(second: MoveOutcome): MoveOutcome {
    if second == OutNotSent then OutRefused else second
  }

  /** An entry of the client list. `capture` marks the capture windows' own class. */
  datatype Client = Client(address: nat, pid: nat, capture: bool, workspace: string)

  predicate IsMain(c: Client, pid: nat) { c.pid == pid && !c.capture }

  function MainWindows(clients: seq<Client>, pid: nat): (r: seq<Client>)
    ensures forall c :: c in r <==> c in clients && c.pid == pid && !c.capture
  {
    if clients == [] then []
    else (if IsMain(clients[0], pid) then [clients[0]] else []) + MainWindows(clients[1..], pid)
  }

  lemma {:induction false} MainWindowsDistinct(clients: seq<Client>, pid: nat)
    requires forall i, j :: 0 <= i < j < |clients| ==> clients[i].address != clients[j].address
    ensures forall i, j :: 0 <= i < j < |MainWindows(clients, pid)| ==>
                             MainWindows(clients, pid)[i].address != MainWindows(clients, pid)[j].address
  {
    if clients != [] {
      MainWindowsDistinct(clients[1..], pid);
      var rest := MainWindows(clients[1..], pid);
      forall k | 0 <= k < |rest| ensures rest[k].address != clients[0].address {
        assert rest[k] in clients[1..];
      }
    }
  }
}
