/** The canonical event: envelope, kind, payload. */
module Ir {
  import opened Primitives
  import opened Wrappers

  datatype EventKind =
    | SessionStarted | SessionEnded
    | ComputationStarted | ComputationEnded
    | ToolInvoked | ToolCompleted
    | FsRead | FsWrite | FsStat | FsRename | FsUnlink | FsDirlist
    | ProcSpawn | ProcExit
    | NetConnect | NetFetch
    | ProbeChecked
    | ArtifactProduced
    | Diagnostic
  {
    function Wire(): string {
      match this
      case SessionStarted => "session.started"
      case SessionEnded => "session.ended"
      case ComputationStarted => "computation.started"
      case ComputationEnded => "computation.ended"
      case ToolInvoked => "tool.invoked"
      case ToolCompleted => "tool.completed"
      case FsRead => "fs.read"
      case FsWrite => "fs.write"
      case FsStat => "fs.stat"
      case FsRename => "fs.rename"
      case FsUnlink => "fs.unlink"
      case FsDirlist => "fs.dirlist"
      case ProcSpawn => "proc.spawn"
      case ProcExit => "proc.exit"
      case NetConnect => "net.connect"
      case NetFetch => "net.fetch"
      case ProbeChecked => "probe.checked"
      case ArtifactProduced => "artifact.produced"
      case Diagnostic => "diagnostic"
    }
  }

  /** One JSON member as the code reads it: text, a non-negative integer, a flag, a list of
      names written in ascending order, or something no reader looks into. */
  datatype Field =
    | TextField(text: string)
    | NumberField(number: nat)
    | FlagField(flag: bool)
    | NamesField(names: set<string>)
    | OtherField(raw: string)

  /** A payload is an object or some other JSON value, in which nothing can be looked up. */
  datatype Payload = Object(fields: map<string, Field>) | NotAnObject(raw: string) {

    function Text(name: string): Option<string> {
      if Object? && name in fields && fields[name].TextField? then Some(fields[name].text) else None
    }

    function Unsigned(name: string): Option<nat> {
      if Object? && name in fields && fields[name].NumberField? && fields[name].number <= U64_MAX
      then Some(fields[name].number) else None
    }
  }

  /** The wire form `<algo>:<64 lower-case hex digits>` of a content hash. */
  predicate IsHash(s: string) {
    && |s| == 71
    && (s[..7] == "blake3:" || s[..7] == "sha256:")
    && forall i :: 7 <= i < |s| ==> '0' <= s[i] <= '9' || 'a' <= s[i] <= 'f'
  }

  type Hash = s: string | IsHash(s)
    witness "blake3:" + seq(64, _ => '0')

  /** What typed decoding of the payload yields for the kinds the store decodes. */
  datatype Decoded =
    | ReadPayload(path: string, hash: Option<Hash>, impure: bool)
    | WritePayload(path: string, hash: Option<Hash>)
    | NotDecoded

  datatype IrEvent = IrEvent(
    eventId: Uuid,
    producer: string,
    producerVersion: string,
    sessionId: string,
    computationId: Option<string>,
    parentId: Option<Uuid>,
    causalInputs: Option<seq<Uuid>>,
    ts: Instant,
    kind: EventKind,
    payload: Payload,
    decoded: Decoded)
}
